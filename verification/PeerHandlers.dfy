/**
 One peer of the peering service (peering/peering.go): its reconnect timer and the randomised exponential backoff.

 The functions say what each critical section of a handler does to it; the class runs them on fields.
 */
module PeerHandlers {

  // ---------------------------------------------------------------- backoff, in nanoseconds

  const SECOND: int := 1_000_000_000
  const INITIAL_DELAY: int := 5 * SECOND
  const MAX_BACKOFF: int := 600 * SECOND
  const MAX_BACKOFF_JITTER: int := 10
  const JITTER: int := MAX_BACKOFF * MAX_BACKOFF_JITTER / 100
  const MAX_INT64: int := 0x7FFF_FFFF_FFFF_FFFF

  /** The two random draws one call may make. */
  datatype Draw = Draw(growth: int, jitter: int)

  predicate ValidDelay(d: int) { INITIAL_DELAY <= d <= MAX_BACKOFF }

  /** rand.Int63n(n) yields a value in [0, n). */
  predicate ValidDraw(d: int, draw: Draw) { 0 <= draw.growth < d && 0 <= draw.jitter < JITTER }

  function NextDelay(d: int, draw: Draw): int {
    var grown := if d < MAX_BACKOFF then d + d / 2 + draw.growth else d;
    if grown > MAX_BACKOFF then MAX_BACKOFF - draw.jitter else grown
  }

  /** The least delay that `calls` backoffs in a row can leave, whatever is drawn. */
  function LeastDelay(calls: nat): int {
    if calls == 0 then INITIAL_DELAY
    else
      var d := LeastDelay(calls - 1);
      var grown := d + d / 2;
      if grown > MAX_BACKOFF - JITTER then MAX_BACKOFF - JITTER + 1 else grown
  }

  lemma NextDelayBounds(d: int, draw: Draw, calls: nat)
    requires ValidDelay(d) && ValidDraw(d, draw) && LeastDelay(calls) <= d
    ensures ValidDelay(NextDelay(d, draw)) && 2 * NextDelay(d, draw) >= 15 * SECOND
    ensures LeastDelay(calls + 1) <= NextDelay(d, draw)
    ensures d + d / 2 + draw.growth <= MAX_INT64
  {}

  /**
   Which delays can come after `d`, over all draws: from one and a half times to just under two and a half times `d`, as
   far as that is within ten minutes; and, if it can go beyond, anything above nine and up to ten minutes.
   */
  lemma NextDelayIff(d: int, next: int)
    requires ValidDelay(d) && d < 600 * SECOND
    ensures (exists draw :: ValidDraw(d, draw) && NextDelay(d, draw) == next) <==>
            || (d + d / 2 <= next < d + d / 2 + d && next <= 600 * SECOND)
            || (d + d / 2 + d - 1 > 600 * SECOND && 540 * SECOND < next <= 600 * SECOND)
  {
    if d + d / 2 <= next < d + d / 2 + d && next <= 600 * SECOND {
      var draw := Draw(next - d - d / 2, 0);
      assert ValidDraw(d, draw) && NextDelay(d, draw) == next;
    } else if d + d / 2 + d - 1 > 600 * SECOND && 540 * SECOND < next <= 600 * SECOND {
      var draw := Draw(d - 1, 600 * SECOND - next);
      assert ValidDraw(d, draw) && NextDelay(d, draw) == next;
    }
  }

  /** Twelve backoffs since the last reset, or more, and the delay is above nine minutes for good. */
  lemma {:induction false} TwelveCallsReachTheCap(calls: nat)
    requires calls >= 12
    ensures LeastDelay(calls) > 540 * SECOND
    decreases calls
  {
    if calls > 12 {
      TwelveCallsReachTheCap(calls - 1);
    } else {
      assert LeastDelay(2) == 11_250_000_000;
      assert LeastDelay(4) == 25_312_500_000;
      assert LeastDelay(6) == 56_953_125_000;
      assert LeastDelay(8) == 128_144_531_250;
      assert LeastDelay(10) == 288_325_195_312;
    }
  }

  // ---------------------------------------------------------------- one handler

  type PeerId = nat
  type Addrs = seq<string>

  /** reconnectTimer: nil, or a timer that has fired or been left alone (Idle), or one that will fire after `wait`. */
  datatype Timer = Absent | Idle | Armed(wait: int)

  /** `calls` is the number of backoffs since the last reset of nextDelay. */
  datatype Handler = Handler(peer: PeerId, addrs: Addrs, timer: Timer, nextDelay: int, calls: nat, cancelled: bool)

  function NewHandler(peer: PeerId, addrs: Addrs): Handler { Handler(peer, addrs, Absent, INITIAL_DELAY, 0, false) }

  function Backoff(h: Handler, draw: Draw): Handler {
    h.(nextDelay := NextDelay(h.nextDelay, draw), calls := h.calls + 1)
  }

  function Rearm(h: Handler, draw: Draw): Handler {
    var h' := Backoff(h, draw);
    h'.(timer := Armed(h'.nextDelay))
  }

  function StopHandler(h: Handler): Handler { h.(timer := Absent, cancelled := true) }

  function StopIfConnected(h: Handler, connected: bool): Handler {
    if h.timer != Absent && connected then h.(timer := Absent, nextDelay := INITIAL_DELAY, calls := 0) else h
  }

  function StartIfDisconnected(h: Handler, connected: bool, draw: Draw): Handler {
    if h.timer == Absent && !connected then Rearm(h, draw) else h
  }

  /** The part of reconnect that handles a failed dial. */
  function ExtendTimeout(h: Handler, draw: Draw): Handler {
    if h.timer != Absent then Rearm(h, draw) else h
  }

  /** Delays are in bounds, grow with the number of backoffs, and start over after a reset. */
  predicate ValidHandler(h: Handler) {
    && ValidDelay(h.nextDelay) && LeastDelay(h.calls) <= h.nextDelay
    && (h.calls == 0 ==> h.nextDelay == INITIAL_DELAY)
    && (h.calls == 1 ==> 2 * h.nextDelay < 25 * SECOND)
    && (h.timer.Armed? ==> 15 * SECOND <= 2 * h.timer.wait && h.timer.wait <= MAX_BACKOFF)
  }

  lemma BackoffValid(h: Handler, draw: Draw)
    requires ValidHandler(h) && ValidDraw(h.nextDelay, draw)
    ensures ValidHandler(Backoff(h, draw)) && 15 * SECOND <= 2 * Backoff(h, draw).nextDelay
    ensures h.calls + 1 >= 12 ==> Backoff(h, draw).nextDelay > 540 * SECOND
  {
    var next := NextDelay(h.nextDelay, draw);
    NextDelayBounds(h.nextDelay, draw, h.calls);
    if h.calls == 0 {
      FirstBackoff(draw);
    }
    ManyBackoffs(h.calls + 1, next);
    BackedOffValid(h, next);
  }

  lemma BackedOffValid(h: Handler, next: int)
    requires ValidHandler(h) && ValidDelay(next) && LeastDelay(h.calls + 1) <= next
    requires h.calls == 0 ==> 2 * next < 25 * SECOND
    ensures ValidHandler(h.(nextDelay := next, calls := h.calls + 1))
  {}

  lemma ManyBackoffs(calls: nat, d: int)
    requires LeastDelay(calls) <= d
    ensures calls >= 12 ==> d > 540 * SECOND
  {
    if calls >= 12 {
      TwelveCallsReachTheCap(calls);
    }
  }

  lemma FirstBackoff(draw: Draw)
    requires ValidDraw(INITIAL_DELAY, draw)
    ensures 2 * NextDelay(INITIAL_DELAY, draw) < 25 * SECOND
  {}

  lemma RearmValid(h: Handler, draw: Draw)
    requires ValidHandler(h) && ValidDraw(h.nextDelay, draw)
    ensures ValidHandler(Rearm(h, draw))
  {
    BackoffValid(h, draw);
  }

  /** No intermediate value of a backoff leaves the range of int64. */
  lemma NoOverflow(d: int, draw: Draw)
    requires ValidDelay(d) && ValidDraw(d, draw)
    ensures 0 <= d / 2 + draw.growth <= MAX_INT64 && 0 <= d + (d / 2 + draw.growth) <= MAX_INT64
    ensures MAX_BACKOFF * MAX_BACKOFF_JITTER <= MAX_INT64 && 0 < JITTER
  {}

  class PeerHandler {
    const peer: PeerId
    var addrs: Addrs
    var reconnectTimer: Timer
    var nextDelay: int
    var cancelled: bool
    ghost var calls: nat

    constructor (peer: PeerId, addrs: Addrs)
      ensures View() == NewHandler(peer, addrs) && ValidHandler(View())
    {
      this.peer, this.addrs, reconnectTimer, nextDelay, cancelled := peer, addrs, Absent, INITIAL_DELAY, false;
      calls := 0;
    }

    ghost function View(): Handler
      reads this
    {
      Handler(peer, addrs, reconnectTimer, nextDelay, calls, cancelled)
    }

    method SetAddrs(addrs: Addrs)
      requires ValidHandler(View())
      modifies this`addrs
      ensures View() == old(View()).(addrs := addrs) && ValidHandler(View())
    {
      this.addrs := addrs;
    }

    method Stop()
      requires ValidHandler(View())
      modifies this
      ensures View() == StopHandler(old(View())) && ValidHandler(View())
      ensures reconnectTimer == Absent && cancelled && unchanged(`addrs) && unchanged(`nextDelay)
    {
      cancelled := true;
      if reconnectTimer != Absent {
        reconnectTimer := Absent;
      }
    }

    /** Every intermediate value stays within int64. */
    method NextBackoff(draw: Draw) returns (delay: int)
      requires ValidHandler(View()) && ValidDraw(nextDelay, draw)
      modifies this`nextDelay, this`calls
      ensures View() == Backoff(old(View()), draw) && delay == nextDelay
      ensures ValidHandler(View()) && 15 * SECOND <= 2 * delay && delay <= MAX_BACKOFF
      ensures calls == 1 ==> 2 * delay < 25 * SECOND
      ensures calls >= 12 ==> delay > 540 * SECOND
    {
      NoOverflow(nextDelay, draw);
      BackoffValid(View(), draw);
      if nextDelay < MAX_BACKOFF {
        nextDelay := nextDelay + (nextDelay / 2 + draw.growth);
      }
      if nextDelay > MAX_BACKOFF {
        nextDelay := MAX_BACKOFF;
        nextDelay := nextDelay - draw.jitter;
      }
      calls := calls + 1;
      return nextDelay;
    }

    method StopIfConnectedNow(connected: bool)
      requires ValidHandler(View())
      modifies this
      ensures View() == StopIfConnected(old(View()), connected) && ValidHandler(View())
      ensures connected ==> reconnectTimer == Absent && (old(reconnectTimer) != Absent ==> nextDelay == 5 * SECOND)
      ensures !connected || old(reconnectTimer) == Absent ==> unchanged(this)
      ensures unchanged(`addrs) && unchanged(`cancelled)
    {
      if reconnectTimer != Absent && connected {
        reconnectTimer := Absent;
        nextDelay := INITIAL_DELAY;
        calls := 0;
      }
    }

    method StartIfDisconnectedNow(connected: bool, draw: Draw)
      requires ValidHandler(View()) && ValidDraw(nextDelay, draw)
      modifies this
      ensures View() == StartIfDisconnected(old(View()), connected, draw) && ValidHandler(View())
      ensures !connected && old(reconnectTimer) == Absent ==> reconnectTimer == Armed(nextDelay)
      ensures connected || old(reconnectTimer) != Absent ==> unchanged(this)
      ensures unchanged(`addrs) && unchanged(`cancelled)
    {
      if reconnectTimer == Absent && !connected {
        var wait := NextBackoff(draw);
        reconnectTimer := Armed(wait);
      }
    }

    /** The critical section of reconnect after a failed dial. */
    method DialFailed(draw: Draw)
      requires ValidHandler(View()) && ValidDraw(nextDelay, draw)
      modifies this
      ensures View() == ExtendTimeout(old(View()), draw) && ValidHandler(View())
      ensures old(reconnectTimer) != Absent ==> reconnectTimer == Armed(nextDelay)
      ensures old(reconnectTimer) == Absent ==> unchanged(this)
      ensures unchanged(`addrs) && unchanged(`cancelled)
    {
      if reconnectTimer != Absent {
        var wait := NextBackoff(draw);
        reconnectTimer := Armed(wait);
      }
    }

    /**
     The whole of reconnect, with nobody else at the handler: `dialled` says how Connect went, `connected` what the last
     look at the network shows. The timer that fired is removed, rearmed or, in one case, left as it is.
     */
    method Reconnect(dialled: bool, connected: bool, draw: Draw)
      requires ValidHandler(View()) && ValidDraw(nextDelay, draw)
      modifies this
      ensures ValidHandler(View()) && unchanged(`addrs) && unchanged(`cancelled)
      ensures old(reconnectTimer) == Absent ==> reconnectTimer == Absent && unchanged(`nextDelay)
      ensures old(reconnectTimer) == Idle ==>
                && (reconnectTimer == Absent <==> connected)
                && (reconnectTimer.Armed? <==> !connected && !dialled)
                && (reconnectTimer == Idle <==> !connected && dialled)
      ensures old(reconnectTimer) == Idle && connected ==> nextDelay == INITIAL_DELAY
    {
      if !dialled {
        DialFailed(draw);
      }
      StopIfConnectedNow(connected);
    }
  }
}
