/** The log of requests (commands/reqlog.go): a slice of pointers to entries, compacted in place. */
module ReqLog {

  type Time = int

  /** A pointer to an entry; the entries themselves are shared with the requests they belong to. */
  type Ref = nat

  datatype Entry = Entry(id: int, active: bool, endTime: Time)

  type Entries = map<Ref, Entry>

  // ---------------------------------------------------------------- order-preserving filter

  /** The elements of `s` that are in `keep`, in order. */
  function Filter(s: seq<Ref>, keep: set<Ref>): (r: seq<Ref>) {
    if s == [] then []
    else
      var last := s[|s| - 1];
      Filter(s[..|s| - 1], keep) + if last in keep then [last] else []
  }

  lemma {:induction false} FilterMembers(s: seq<Ref>, keep: set<Ref>)
    ensures forall e :: e in Filter(s, keep) <==> e in s && e in keep
    ensures |Filter(s, keep)| <= |s|
    decreases |s|
  {
    if s != [] {
      FilterMembers(s[..|s| - 1], keep);
    }
  }

  /** Ids are strictly increasing and below the next one to be handed out. */
  ghost predicate Ordered(es: Entries, s: seq<Ref>, bound: int) {
    && (forall i :: 0 <= i < |s| ==> s[i] in es && es[s[i]].id < bound)
    && (forall i, j :: 0 <= i < j < |s| ==> es[s[i]].id < es[s[j]].id)
  }

  lemma AppendOrdered(es: Entries, s: seq<Ref>, r: Ref, bound: int)
    requires r in es && Ordered(es, s, es[r].id) && es[r].id < bound
    ensures Ordered(es, s + [r], bound) && Ordered(es, s, bound)
  {}

  lemma {:induction false} FilterOrdered(es: Entries, s: seq<Ref>, keep: set<Ref>, bound: int)
    requires Ordered(es, s, bound)
    ensures Ordered(es, Filter(s, keep), bound)
    decreases |s|
  {
    if s != [] {
      var n := |s| - 1;
      FilterOrdered(es, s[..n], keep, es[s[n]].id);
      AppendOrdered(es, Filter(s[..n], keep), s[n], bound);
    }
  }

  predicate Stays(e: Entry, keep: int, now: Time) { e.active || e.endTime + keep > now }

  /** The entries that stay: still active, or ended less than `keep` ago. */
  function Staying(es: Entries, keep: int, now: Time): set<Ref> { set r | r in es && Stays(es[r], keep, now) }

  /** What a cleanup leaves. */
  function Cleaned(es: Entries, s: seq<Ref>, keep: int, now: Time): seq<Ref> { Filter(s, Staying(es, keep, now)) }

  /** Cleanup drops no entry that is active at the time, and keeps no other that has ended long enough ago. */
  lemma CleanedExactly(es: Entries, s: seq<Ref>, keep: int, now: Time)
    ensures forall r :: r in Cleaned(es, s, keep, now) <==> r in s && r in es && Stays(es[r], keep, now)
  {
    FilterMembers(s, Staying(es, keep, now));
  }

  // ---------------------------------------------------------------- the log as a value

  datatype Log = Log(requests: seq<Ref>, entries: Entries, nextID: int, keep: int)

  datatype Call = Add(rle: Ref, now: Time) | Finish(rle: Ref, now: Time) | Clear(now: Time) | SetKeep(t: int, now: Time)

  ghost predicate Sane(log: Log) { forall i :: 0 <= i < |log.requests| ==> log.requests[i] in log.entries }

  /** The pointer that the call is given leads to an entry. */
  predicate Callable(log: Log, c: Call) { c.Add? || c.Finish? ==> c.rle in log.entries }

  function EveryTenth(es: Entries, s: seq<Ref>, keep: int, now: Time): seq<Ref> {
    if |s| % 10 == 0 then Cleaned(es, s, keep, now) else s
  }

  function After(log: Log, c: Call): Log
    requires Callable(log, c)
  {
    match c
    case Add(rle, now) =>
      var es, all := log.entries[rle := log.entries[rle].(id := log.nextID)], log.requests + [rle];
      Log(if es[rle].active then all else EveryTenth(es, all, log.keep, now), es, log.nextID + 1, log.keep)
    case Finish(rle, now) =>
      var es := log.entries[rle := log.entries[rle].(active := false, endTime := now)];
      log.(requests := EveryTenth(es, log.requests, log.keep, now), entries := es)
    case Clear(now) => log.(requests := Cleaned(log.entries, log.requests, 0, now))
    case SetKeep(t, _) => log.(keep := t)
  }

  /** The entry has the next id, nothing else about the entries has changed, and it is logged last if it is active. */
  ghost predicate IsAdded(log: Log, log': Log, rle: Ref) {
    && log'.nextID == log.nextID + 1 && log'.keep == log.keep && log'.entries.Keys == log.entries.Keys + {rle}
    && rle in log.entries && log'.entries[rle] == log.entries[rle].(id := log.nextID)
    && (forall r :: r in log.entries && r != rle ==> log'.entries[r] == log.entries[r])
    && (log.entries[rle].active ==> log'.requests == log.requests + [rle])
  }

  lemma AddMeans(log: Log, rle: Ref, now: Time)
    requires Callable(log, Add(rle, now))
    ensures IsAdded(log, After(log, Add(rle, now)), rle)
  {}

  /** `s'` has lost none of the active entries of `s`, and has no others. */
  ghost predicate KeepsActive(es: Entries, s: seq<Ref>, s': seq<Ref>) {
    && (forall r :: r in s' ==> r in s)
    && forall r :: r in s && r in es && es[r].active ==> r in s'
  }

  lemma CleaningKeepsActive(es: Entries, s: seq<Ref>, keep: int, now: Time)
    ensures KeepsActive(es, s, Cleaned(es, s, keep, now)) && KeepsActive(es, s, EveryTenth(es, s, keep, now))
  {
    CleanedExactly(es, s, keep, now);
  }

  /** The requests that a call finds in the log, the added one among them. */
  function Found(log: Log, c: Call): seq<Ref> { if c.Add? then log.requests + [c.rle] else log.requests }

  /** No call drops a request that is active at that moment. */
  lemma CallKeepsActive(log: Log, c: Call)
    requires Callable(log, c)
    ensures KeepsActive(After(log, c).entries, Found(log, c), After(log, c).requests)
    ensures Sane(log) ==> Sane(After(log, c))
  {
    var log' := After(log, c);
    CleaningKeepsActive(log'.entries, Found(log, c), if c.Clear? then 0 else log.keep, c.now);
    if Sane(log) {
      assert forall r :: r in Found(log, c) ==> r in log'.entries;
      assert forall i :: 0 <= i < |log'.requests| ==> log'.requests[i] in log'.requests;
    }
  }

  /** Every entry that has ended has ended by `now`. */
  ghost predicate EndsPast(es: Entries, now: Time) { forall r :: r in es && !es[r].active ==> es[r].endTime <= now }

  /** ClearInactive leaves exactly the active requests, unless one is marked as ending in the future. */
  lemma ClearLeavesActive(log: Log, now: Time)
    requires Sane(log)
    ensures forall r :: r in After(log, Clear(now)).requests <==>
                        r in log.requests && (log.entries[r].active || log.entries[r].endTime > now)
    ensures EndsPast(log.entries, now) ==>
              forall r :: r in After(log, Clear(now)).requests <==> r in log.requests && log.entries[r].active
  {
    CleanedExactly(log.entries, log.requests, 0, now);
  }

  /** Appending keeps the ids increasing exactly when the entry is not in the log already. */
  lemma AppendOrderedIff(es: Entries, s: seq<Ref>, bound: int, rle: Ref)
    requires Ordered(es, s, bound) && rle in es
    ensures Ordered(es[rle := es[rle].(id := bound)], s + [rle], bound + 1) <==> rle !in s
  {
    var es', all := es[rle := es[rle].(id := bound)], s + [rle];
    if rle in s {
      var i :| 0 <= i < |s| && s[i] == rle;
      assert all[i] == all[|s|] == rle;
    } else {
      assert forall i :: 0 <= i < |s| ==> all[i] == s[i] && es'[s[i]] == es[s[i]];
    }
  }

  lemma IdsStayOrdered(log: Log, c: Call)
    requires Callable(log, c) && Ordered(log.entries, log.requests, log.nextID) && (c.Add? ==> c.rle !in log.requests)
    ensures Ordered(After(log, c).entries, After(log, c).requests, After(log, c).nextID)
  {
    var log' := After(log, c);
    if c.Add? {
      AppendOrderedIff(log.entries, log.requests, log.nextID, c.rle);
      FilterOrdered(log'.entries, log.requests + [c.rle], Staying(log'.entries, log.keep, c.now), log'.nextID);
    } else {
      assert Ordered(log'.entries, log.requests, log'.nextID);
      FilterOrdered(log'.entries, log.requests, Staying(log'.entries, log.keep, c.now), log'.nextID);
      FilterOrdered(log'.entries, log.requests, Staying(log'.entries, 0, c.now), log'.nextID);
    }
  }

  // ---------------------------------------------------------------- runs

  ghost predicate StepOf(logs: seq<Log>, calls: seq<Call>, i: nat)
    requires i < |calls| < |logs|
  {
    Callable(logs[i], calls[i]) && logs[i + 1] == After(logs[i], calls[i])
  }

  /**
   A run from an empty log. The clock does not go back, and entries that have ended at the start, if there are any, have
   ended by the first call.
   */
  ghost predicate IsRun(logs: seq<Log>, calls: seq<Call>) {
    && |logs| == |calls| + 1 && logs[0].requests == []
    && (calls != [] ==> EndsPast(logs[0].entries, calls[0].now))
    && (forall i, j :: 0 <= i < j < |calls| ==> calls[i].now <= calls[j].now)
    && forall i :: 0 <= i < |calls| ==> StepOf(logs, calls, i)
  }

  lemma {:induction false} RunsAreSane(logs: seq<Log>, calls: seq<Call>, i: nat)
    requires IsRun(logs, calls) && i < |logs|
    ensures Sane(logs[i])
    decreases i
  {
    if i > 0 {
      RunsAreSane(logs, calls, i - 1);
      assert StepOf(logs, calls, i - 1);
      CallKeepsActive(logs[i - 1], calls[i - 1]);
    }
  }

  lemma {:induction false} EndsStayPast(logs: seq<Log>, calls: seq<Call>, i: nat)
    requires IsRun(logs, calls) && i < |calls|
    ensures EndsPast(logs[i].entries, calls[i].now)
    decreases i
  {
    if i > 0 {
      EndsStayPast(logs, calls, i - 1);
      assert StepOf(logs, calls, i - 1);
    }
  }

  /** An entry that is active later on has been active all along. */
  lemma {:induction false} ActiveBefore(logs: seq<Log>, calls: seq<Call>, i: nat, j: nat, r: Ref)
    requires IsRun(logs, calls) && i <= j < |logs| && r in logs[j].entries && logs[j].entries[r].active
    ensures r in logs[i].entries && logs[i].entries[r].active
    decreases j
  {
    if i < j {
      assert StepOf(logs, calls, j - 1);
      ActiveBefore(logs, calls, i, j - 1, r);
    }
  }

  /** In every run: a request that is in the log stays there for as long as it is active. */
  lemma {:induction false} ActiveStaysLogged(logs: seq<Log>, calls: seq<Call>, i: nat, j: nat, r: Ref)
    requires IsRun(logs, calls) && i <= j < |logs| && r in logs[i].requests
    requires r in logs[j].entries && logs[j].entries[r].active
    ensures r in logs[j].requests
    decreases j
  {
    if i < j {
      ActiveBefore(logs, calls, j - 1, j, r);
      ActiveStaysLogged(logs, calls, i, j - 1, r);
      assert StepOf(logs, calls, j - 1);
      CallKeepsActive(logs[j - 1], calls[j - 1]);
    }
  }

  /** In every run: what ClearInactive leaves is active, and it leaves all that is. */
  lemma ClearedRunsAreActive(logs: seq<Log>, calls: seq<Call>, i: nat, r: Ref)
    requires IsRun(logs, calls) && i < |calls| && calls[i].Clear?
    ensures r in logs[i + 1].requests <==> r in logs[i].requests && r in logs[i].entries && logs[i].entries[r].active
  {
    RunsAreSane(logs, calls, i);
    EndsStayPast(logs, calls, i);
    assert StepOf(logs, calls, i);
    ClearLeavesActive(logs[i], calls[i].now);
  }

  /** In every run that adds no entry while it is in the log: ids are strictly increasing along the log. */
  lemma {:induction false} RunsStayOrdered(logs: seq<Log>, calls: seq<Call>, i: nat)
    requires IsRun(logs, calls) && i < |logs|
    requires forall k :: 0 <= k < i && calls[k].Add? ==> calls[k].rle !in logs[k].requests
    ensures Ordered(logs[i].entries, logs[i].requests, logs[i].nextID)
    decreases i
  {
    if i > 0 {
      RunsStayOrdered(logs, calls, i - 1);
      assert StepOf(logs, calls, i - 1);
      IdsStayOrdered(logs[i - 1], calls[i - 1]);
    }
  }

  // ---------------------------------------------------------------- what becomes of a finished request

  /** A cleanup is part of the call: every tenth length, once the entry at hand has ended. */
  predicate CleansUp(log: Log, c: Call) {
    || (c.Finish? && |log.requests| % 10 == 0)
    || (c.Add? && c.rle in log.entries && !log.entries[c.rle].active && (|log.requests| + 1) % 10 == 0)
  }

  /** The call takes out an entry that ended at `end`. */
  predicate Expels(log: Log, c: Call, end: Time) {
    (c.Clear? && end <= c.now) || (CleansUp(log, c) && end + log.keep <= c.now)
  }

  /** No call from the `i`-th up to the `j`-th takes out an entry that ended at `end`. */
  ghost predicate Spared(logs: seq<Log>, calls: seq<Call>, i: nat, j: nat, end: Time)
    requires j <= |calls| < |logs|
  {
    forall k :: i <= k < j ==> !Expels(logs[k], calls[k], end)
  }

  lemma SparedOnce(logs: seq<Log>, calls: seq<Call>, i: nat, j: nat, end: Time)
    requires i < j <= |calls| < |logs|
    ensures Spared(logs, calls, i, j, end) <==>
            Spared(logs, calls, i, j - 1, end) && !Expels(logs[j - 1], calls[j - 1], end)
  {}

  predicate Concerns(c: Call, r: Ref) { (c.Add? || c.Finish?) && c.rle == r }

  lemma ExpelledIff(log: Log, c: Call, r: Ref)
    requires Callable(log, c) && r in log.requests && r in After(log, c).entries && !After(log, c).entries[r].active
    ensures r in After(log, c).requests <==> !Expels(log, c, After(log, c).entries[r].endTime)
  {
    var es := After(log, c).entries;
    CleanedExactly(es, Found(log, c), log.keep, c.now);
    CleanedExactly(es, Found(log, c), 0, c.now);
    assert r in Found(log, c);
  }

  /** In every run: a request that has been finished has ended then, until it is finished again, and is never active. */
  lemma {:induction false} FinishedHasEnded(logs: seq<Log>, calls: seq<Call>, i: nat, j: nat)
    requires IsRun(logs, calls) && i < j < |logs| && calls[i].Finish?
    ensures var r := calls[i].rle;
            && r in logs[j].entries && !logs[j].entries[r].active && logs[j].entries[r].endTime >= calls[i].now
            && ((forall k :: i < k < j ==> !Concerns(calls[k], r)) ==> logs[j].entries[r].endTime == calls[i].now)
    decreases j
  {
    assert StepOf(logs, calls, j - 1);
    if i < j - 1 {
      FinishedHasEnded(logs, calls, i, j - 1);
    }
  }

  /** In every run: no ClearInactive after the end of a request leaves it in the log. */
  lemma FinishedIsCleared(logs: seq<Log>, calls: seq<Call>, i: nat, j: nat)
    requires IsRun(logs, calls) && i < j < |calls| && calls[i].Finish? && calls[j].Clear?
    ensures calls[i].rle !in logs[j + 1].requests
  {
    FinishedHasEnded(logs, calls, i, j);
    ClearedRunsAreActive(logs, calls, j, calls[i].rle);
  }

  lemma StaysOnce(log: Log, c: Call, r: Ref, end: Time)
    requires Callable(log, c) && !(c.Add? && c.rle == r) && r in After(log, c).entries
    requires !After(log, c).entries[r].active && After(log, c).entries[r].endTime == end
    ensures r in After(log, c).requests <==> r in log.requests && !Expels(log, c, end)
  {
    if r in log.requests {
      ExpelledIff(log, c, r);
    } else {
      CallKeepsActive(log, c);
      assert r !in Found(log, c);
    }
  }

  /**
   In every run: a logged request that is finished stays in the log exactly until a ClearInactive, or until a cleanup at
   every tenth length at least the keep time after its end.
   */
  lemma {:induction false} FinishedStaysIff(logs: seq<Log>, calls: seq<Call>, i: nat, j: nat)
    requires IsRun(logs, calls) && i < j < |logs| && calls[i].Finish? && calls[i].rle in logs[i].requests
    requires forall k :: i < k < j ==> !Concerns(calls[k], calls[i].rle)
    ensures calls[i].rle in logs[j].requests <==> Spared(logs, calls, i, j, calls[i].now)
    decreases j
  {
    var r, end := calls[i].rle, calls[i].now;
    FinishedHasEnded(logs, calls, i, j);
    assert StepOf(logs, calls, j - 1);
    StaysOnce(logs[j - 1], calls[j - 1], r, end);
    SparedOnce(logs, calls, i, j, end);
    if i < j - 1 {
      FinishedStaysIff(logs, calls, i, j - 1);
    }
  }

  /** In every run: the keep time is the one set last. */
  lemma {:induction false} KeepIsLatest(logs: seq<Log>, calls: seq<Call>, i: nat, j: nat)
    requires IsRun(logs, calls) && i < j < |logs| && calls[i].SetKeep?
    requires forall k :: i < k < j ==> !calls[k].SetKeep?
    ensures logs[j].keep == calls[i].t
    decreases j
  {
    assert StepOf(logs, calls, j - 1);
    if i < j - 1 {
      KeepIsLatest(logs, calls, i, j - 1);
    }
  }

  lemma {:induction false} KeepUnchanged(logs: seq<Log>, calls: seq<Call>, i: nat, j: nat)
    requires IsRun(logs, calls) && i <= j < |logs| && forall k :: i <= k < j ==> !calls[k].SetKeep?
    ensures logs[j].keep == logs[i].keep
    decreases j
  {
    if i < j {
      assert StepOf(logs, calls, j - 1);
      KeepUnchanged(logs, calls, i, j - 1);
    }
  }

  /**
   With nothing else to take it out, a finished request survives every cleanup before its keep time is over, and falls
   to the first one after that.
   */
  lemma KeptForKeepTime(logs: seq<Log>, calls: seq<Call>, i: nat, j: nat)
    requires IsRun(logs, calls) && i < j < |logs| && calls[i].Finish? && calls[i].rle in logs[i].requests
    requires forall k :: i < k < j ==> !Concerns(calls[k], calls[i].rle) && !calls[k].SetKeep? && !calls[k].Clear?
    ensures calls[i].rle in logs[j].requests <==>
            forall k :: i <= k < j && CleansUp(logs[k], calls[k]) ==> calls[k].now < calls[i].now + logs[i].keep
  {
    FinishedStaysIff(logs, calls, i, j);
    forall k | i <= k < j
      ensures logs[k].keep == logs[i].keep
    {
      KeepUnchanged(logs, calls, i, k);
    }
  }

  // ---------------------------------------------------------------- the code

  class ReqLog {
    /** The backing array of the Requests slice, and the slice's length. */
    var data: array<Ref>
    var len: nat
    var nextID: int
    var keep: int
    /** The entries behind the pointers, of this log and of requests yet to be logged. */
    var entries: Entries

    constructor (entries: Entries, keep: int)
      ensures Valid() && View() == Log([], entries, 0, keep) && fresh(data)
    {
      data := new Ref[1];
      len, nextID, this.keep, this.entries := 0, 0, keep, entries;
    }

    ghost predicate Shaped()
      reads this
    {
      len <= data.Length
    }

    ghost function Requests(): seq<Ref>
      requires Shaped()
      reads this, data
    {
      data[..len]
    }

    ghost function View(): Log
      requires Shaped()
      reads this, data
    {
      Log(Requests(), entries, nextID, keep)
    }

    ghost predicate Valid()
      reads this, data
    {
      Shaped() && Sane(View())
    }

    /** cleanup: two indices over the same array. Exactly the entries that stay are left, in their old order. */
    method Cleanup(now: Time)
      requires Shaped() && forall i :: 0 <= i < len ==> data[i] in entries
      modifies this`len, data
      ensures Shaped() && Requests() == old(Cleaned(entries, Requests(), keep, now))
    {
      var i := 0;
      ghost var before, staying := Requests(), Staying(entries, keep, now);
      for j := 0 to len
        invariant i <= j && len == old(len)
        invariant data[..i] == Filter(before[..j], staying)
        invariant forall k :: j <= k < len ==> data[k] == before[k]
      {
        assert before[..j + 1][..j] == before[..j];
        var rj := entries[data[j]];
        if rj.active || entries[data[j]].endTime + keep > now {
          data[i] := data[j];
          i := i + 1;
        }
      }
      assert before[..len] == before;
      len := i;
    }

    method MaybeCleanup(now: Time)
      requires Shaped() && forall i :: 0 <= i < len ==> data[i] in entries
      modifies this`len, data
      ensures Shaped() && Requests() == old(EveryTenth(entries, Requests(), keep, now))
    {
      if len % 10 == 0 {
        Cleanup(now);
      }
    }

    /** Go's append: a larger array when the old one is full. */
    method Append(r: Ref)
      requires Shaped()
      modifies this`data, this`len, data
      ensures Shaped() && Requests() == old(Requests()) + [r] && (data == old(data) || fresh(data))
    {
      if len == data.Length {
        var full := data;
        var bigger := new Ref[2 * len + 1];
        for i := 0 to len
          invariant bigger[..i] == full[..i] && data == full
          modifies bigger
        {
          bigger[i] := full[i];
        }
        data := bigger;
      }
      data[len] := r;
      len := len + 1;
    }

    method AddEntry(rle: Ref, now: Time)
      requires Valid() && Callable(View(), Add(rle, now))
      modifies this, data
      ensures Valid() && (data == old(data) || fresh(data)) && View() == After(old(View()), Add(rle, now))
      ensures IsAdded(old(View()), View(), rle)
    {
      CallKeepsActive(View(), Add(rle, now));
      AddMeans(View(), rle, now);
      entries := entries[rle := entries[rle].(id := nextID)];
      nextID := nextID + 1;
      Append(rle);
      assert forall i :: 0 <= i < len ==> data[i] == Requests()[i];
      if !entries[rle].active {
        MaybeCleanup(now);
      }
    }

    /** Leaves exactly the active requests, unless one is marked as ending in the future. */
    method ClearInactive(now: Time)
      requires Valid()
      modifies this`len, this`keep, data
      ensures Valid() && View() == After(old(View()), Clear(now))
      ensures forall r :: r in Requests() <==> r in old(Requests()) && (entries[r].active || entries[r].endTime > now)
    {
      CallKeepsActive(View(), Clear(now));
      ClearLeavesActive(View(), now);
      assert forall i :: 0 <= i < len ==> data[i] == Requests()[i];
      var k := keep;
      keep := 0;
      Cleanup(now);
      keep := k;
    }

    method Finish(rle: Ref, now: Time)
      requires Valid() && Callable(View(), Call.Finish(rle, now))
      modifies this`len, this`entries, data
      ensures Valid() && View() == After(old(View()), Call.Finish(rle, now))
      ensures !entries[rle].active && entries[rle].endTime == now && entries[rle].id == old(entries)[rle].id
      ensures entries.Keys == old(entries).Keys
      ensures forall r :: r in entries && r != rle ==> entries[r] == old(entries)[r]
    {
      CallKeepsActive(View(), Call.Finish(rle, now));
      assert forall i :: 0 <= i < len ==> data[i] == Requests()[i];
      entries := entries[rle := entries[rle].(active := false, endTime := now)];
      MaybeCleanup(now);
    }

    method SetKeepTime(t: int, ghost now: Time)
      requires Valid()
      modifies this`keep
      ensures Valid() && View() == After(old(View()), SetKeep(t, now)) && keep == t
    {
      keep := t;
    }
  }
}
