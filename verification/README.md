# Kubo: verified models of graph walks, garbage collection, streaming, peering and routing

This project models the algorithmic core of a Kubo (IPFS) node in Dafny 4.11 and proves what the code is for.
`dafny verify dfyconfig.toml` checks all of it.

| file | component |
|---|---|
| `Common.dfy`, `Ipld.dfy` | shared types; paths of a tree in preorder; CIDs, links, the link graph and reachability |
| `Refs.dfy`, `RefRoutes.dfy`, `RefFailures.dfy` | `ipfs refs`: depth-limited traversal with pruning, what it prunes, and what a failed root leaves behind |
| `Gc.dfy`, `GcTrails.dfy` | mark-and-sweep garbage collection, and what it keeps, told on pins and links as they are written |
| `Tar.dfy`, `TarExport.dfy` | the pull-based tar exporter, and the archives it delivers, node by node |
| `PeerHandlers.dfy`, `Peering.dfy`, `PeeringServices.dfy`, `PeeringStuck.dfy`, `PeeringRedial.dfy`, `PeeringRestart.dfy`, `PeeringRuns.dfy` | the peering service as a concurrent protocol, its code on the heap, when it redials too little or too long, and what runs show of one handler |
| `PinVerify.dfy`, `PinLs.dfy` | verification and listing of pins |
| `Routing.dfy` | construction of delegated routers |
| `Cat.dfy`, `Etag.dfy`, `Scrub.dfy`, `Streams.dfy`, `ReqLog.dfy` | `cat` windows, If-None-Match, config scrubbing, p2p stream registry, request log |

How the models stand to the code:

- Objects whose methods update fields are classes; their methods are proved against functions on values, and the theorems
  are about those functions. Loops of the source are loops here. What those functions hold is in turn stated without them:
  on paths, trails, single bytes, fields and literal values.
- What the code cannot decide is left open. Choices written `*` or `:|` stand for cancellation, failing fetches and
  deletes, the order in which a concurrent walk or a map iteration goes, chunk sizes and buffer sizes. A postcondition
  holds for every such choice. A ghost result (`disturbed`, `cancelled`) records that something outside the modelled data
  went wrong.
- The blocks at hand are a finite map from CIDs to links, acyclic because a node is named by a hash over its links
  (`Ipld.Ranked`). A CID outside the map cannot be fetched. Where the library answers for the links of a raw CID without a
  fetch, the map holds that CID with no links.
- In garbage collection, both versions of a CID name the same block, so links are looked up by the version-1 CID.
- The tar stream is a sequence of events: bytes, and reads that fail. Failures are thus part of what is conserved.
- The peering service runs one critical section per step. Stop and RemovePeer stop handlers while they hold the service
  lock; a section of a handler that falls between two such stops has the same effect after them if that handler was
  stopped already, and before them if it was not, so each counts as one step. The state after a step is given variable by
  variable.
- Clocks and random draws are parameters.

Where a property one might expect is false of the code:

- Marking enters direct pins into the shared set before it walks the internal pins, so an internal pin's walk stops at a
  direct pin that nothing else leads to. `Gc.InternalsMarkedIff` gives the exact condition on pins and links,
  `Gc.InternalsCanBeLost` an input, and `Gc.InternalsAreSafe` the case without such a pin.
- A non-nil reconnect timer need not be running. `PeeringStuck.PeersCanGetStuck` is a run that leaves a registered peer
  disconnected with an idle timer and no reconnect under way, `Peering.StuckIff` says by which events of a run that comes
  about, and `Peering.StuckStays` that nothing in the service ends it. `PeeringRedial.RedialsIff` says exactly when the
  service may still dial a disconnected peer by itself.
- A handler's `stop` is documented to be permanent, but whoever still gets to startIfDisconnected puts a timer back, after
  RemovePeer as well as after Stop. `PeeringRestart.RestartsIff` gives the exact condition, `PeeringRestart.RemovedRestarts`
  and `PeeringRestart.HaltedRestarts` a run for each caller.
- With Unique, a root that fails leaves CIDs in the table that were never explored, so that a later root can succeed
  without having written its scope. `RefFailures.MissedIff` says exactly which CIDs one walk misses, and
  `RefFailures.ScopeCanBeMissed` is an input. Over the whole list of roots, `RefFailures.HealthyRootsComplete` says which
  roots are safe from it: without a limit those whose own scope can be fetched (`RefFailures.UnlimitedHealthIff`); with a
  limit that is not enough (`RefFailures.FetchableScopeCanBeMissed`).
- `scrubValue` is documented to fail on a missing key; the code never does (`Scrub.ScrubMapInternal`).
- Direct pins listed by themselves are those that "all" lists as direct iff no CID is in both of the pinner's lists
  (`PinLs.DirectAlikeIff`, `PinLs.DirectCanDiffer`). The lists are arbitrary in the model; the pinner itself refuses a direct
  pin of a CID that is pinned recursively (test/sharness/t0080-repo.sh:97-100).

## Model

| member | source | states |
|---|---|---|
| Refs.RefWriter.Visit | core/commands/refs.go:271-317 | A visit is pruned exactly when it is too deep or, with Unique, the CID was seen at no greater depth (at any depth when unlimited); otherwise the depth is recorded, the CID is printed only if new, and the walk goes on only below the limit. |
| Refs.RefWriter.VisitLink | core/commands/refs.go:213-245 | The link's CID is entered unless pruned, fetched only if it is to be written or explored, and written if new; a fetch that fails leaves it in the table and ends the walk. |
| Refs.RefWriter.WriteLink | core/commands/refs.go:213-257 | One turn of the loop leaves the table and the output of the pruned traversal, failures included; without Unique the output is what the plain traversal of the link writes. |
| Refs.RefWriter.WriteRefsRecursive | core/commands/refs.go:209-260 | The same for all links of a node; the count is the number of edges written, also on failure. |
| Refs.RefWriter.WriteRefs | core/commands/refs.go:201-207 | From any table a successful walk writes exactly the CIDs that are new to the table and lie on a path past it; entries only get smaller and those made are explored; a failure means that the root or something in scope cannot be fetched. |
| Refs.WalkedProceeds | core/commands/refs.go:209-260 | The links of a node from any index on, from any table: everything entered is explored when they are done, the links are covered, what is written is what is new, and it fails only if something in scope cannot be fetched. |
| Refs.ShallowProceeds | core/commands/refs.go:217-242 | The same for one link that is pruned, lies at the limit, or cannot be fetched. |
| Refs.DeepProceeds | core/commands/refs.go:217-257 | The same for one link that is explored, given it for the links below. |
| Refs.WalkedCarries | core/commands/refs.go:209-260 | Induction over walks: what each kind of link and each step to the next link carry on holds of every walk. |
| Refs.RootExact | core/commands/refs.go:201-317 | What a successful walk adds to the output is what the old table does not have and some path reaches without passing an entry that prunes it. |
| Refs.RootProceeds | core/commands/refs.go:201-207 | All of this for the walk of one root, with the paths from all roots. |
| Refs.RootsProceed | core/commands/refs.go:124-129 | The walks of all roots one after the other: if all succeed, everything is explored and written, and if one fails, a root or something in scope cannot be fetched. |
| Refs.DescendSettles | core/commands/refs.go:239-256 | Entering a CID at a smaller depth and exploring below it leaves no entry half explored, whatever was seen before. |
| Refs.ScopeIsCovered | core/commands/refs.go:296-316 | Pruning loses nothing: once all entries are explored, every path within the limit ends at a CID entered at no greater depth than its length. |
| Refs.PrunedExact | core/commands/refs.go:201-317 | After error-free walks of all roots the CIDs written are exactly those at the end of a path of length 1 to MaxDepth, and each recorded depth is the shortest such length. |
| Refs.UnprunedExact | core/commands/refs.go:281-286 | The traversal without pruning completes exactly when everything in scope can be fetched, and then writes exactly the CIDs in scope. |
| Refs.Refs | core/commands/refs.go:114-131 | For any roots, limit and DAG: all walks succeed iff roots and scope can be fetched; then the CIDs written are those in scope, with Unique each exactly once and the same set as without it; with failures, table and output are those of the walks one after the other; counts add up; each edge written is a link. |
| RefRoutes.RoutesComplete | core/commands/refs.go:209-260 | Every route of allowed length is in the traversal's list of routes. |
| RefRoutes.RoutesInOrder | core/commands/refs.go:213-257 | The routes are listed in preorder, that is by link indices, and so none twice. |
| RefRoutes.EdgesOfRoutes | core/commands/refs.go:236-242 | The edges written are, in order, the last edges of the listed routes. |
| RefRoutes.OneEdgePerPath | core/commands/refs.go:209-260 | Without Unique exactly one edge is written per path of length 1 to MaxDepth, in preorder. |
| RefRoutes.PrunedInOrder | core/commands/refs.go:209-260 | With Unique, from any table and failing or not, a walk writes the last edges of routes in preorder: pruning leaves out edges but does not reorder them. |
| RefFailures.MissedIff | core/commands/refs.go:124-129 | After any number of walks, failed ones included, a successful walk misses a CID in its scope iff it was not written before and is already in the table or has no path past the table. |
| RefFailures.NothingMissed | core/commands/refs.go:124-129 | A successful walk misses nothing if every entry of the table in its scope is explored and written. |
| RefFailures.ScopeCanBeMissed | core/commands/refs.go:124-129 | An input: the first of two roots fails, and the second succeeds without writing a fetchable CID in its scope. |
| RefFailures.WalkedLeaves | core/commands/refs.go:209-260 | A walk, failed or not, leaves in the table only entries that are explored or lead, within the limit, to a CID that cannot be fetched; and if it fails, so does its root. |
| RefFailures.HealthyRootsComplete | core/commands/refs.go:124-129 | Over the whole list of roots, whichever of them fail and in whatever order: all of the scope of a root is written if nothing in that scope leads, within the limit, to a CID that cannot be fetched. |
| RefFailures.UnlimitedHealthIff | core/commands/refs.go:124-129 | Without a limit that condition says that the root and its own scope can be fetched. |
| RefFailures.FetchableScopeCanBeMissed | core/commands/refs.go:124-129 | An input with a limit: everything in a root's own scope can be fetched, and another root's failure still costs it a CID. |
| Gc.Marker.Send | gc/gc.go:212-216 | A report reaches the output unless the run is cancelled. |
| Gc.Marker.GetLinks | gc/gc.go:208-245 | A CID that cannot be followed is reported by name and sets the error flag, unless the walk stops there; undisturbed, nothing else is reported; only a best-effort walk tolerates an absent block. |
| Gc.Marker.Walk | gc/gc.go:178-188 | Whatever order the concurrent walk goes in: it marks only what is reachable outside the base, and if it saw no error, everything marked is clean and has all its links marked. |
| Gc.Marker.Descendants | gc/gc.go:157-191 | Without errors the set is exactly base plus reachable; an error or abort means a disturbance or a CID that could not be followed. |
| Gc.DoneIsPass | gc/gc.go:178-190 | A finished walk has marked one determined set, independent of its order. |
| Gc.Marker.MarkPass | gc/gc.go:224-232 | Unless it is cancelled or meets an error, the set afterwards is exactly the pass, all of it clean; a new error is always reported, and means a disturbance or a pass that is not clean. |
| Gc.Marker.AddDirect | gc/gc.go:260-262 | Adds exactly the direct pins, as version-1 CIDs, without walking them. |
| Gc.Marker.ColoredSet | gc/gc.go:203-283 | Yields a set only if every pass was clean, and then exactly the marked set; undisturbed, it fails only if some pass cannot be clean, and with the error for links that could not be fetched. |
| Gc.ToRawCids | gc/gc.go:32-39 | Exactly the raw version-1 CIDs whose multihash occurs in the set. |
| Gc.Sweep | gc/gc.go:93-134 | Under any cancellation and any failing deletes: only unmarked blocks go, each once, the log accounts for all of them, and the reported keys are the deleted ones in order (a prefix if cancelled); uncancelled, failed deletes are summed up by a final error. |
| Gc.Reclaim | gc/gc.go:105-122 | One delete that fails leaves the store as it was and is reported as an error; one that succeeds is reported once, and nothing else changes. |
| Gc.Gc | gc/gc.go:50-152 | No delete ever hits a block whose multihash is marked; marking that cannot succeed deletes nothing and ends with its error; an undisturbed run without delete errors leaves exactly the wanted blocks; undisturbed runs report exactly the deleted ones, and end with a summary if a delete failed. |
| Gc.PinnedIsMarked | gc/gc.go:41-47 | Direct pins, and all that is reachable over readable links from recursive pins and best-effort roots, is marked, so blocks with those multihashes are wanted. |
| Gc.MarkedIsPinned | gc/gc.go:201-283 | Nothing is marked that no pin answers for. |
| Gc.MarkedIff | gc/gc.go:203-283 | The marked set in terms of pins and links alone: direct pins, all that recursive pins and best-effort roots lead to, and all that internal pins lead to without passing a direct pin that none of those lead to. |
| Gc.WantedIff | gc/gc.go:74-104 | A block is spared iff something in that set has its multihash. |
| Gc.InternalsMarkedIff | gc/gc.go:256-276 | Everything reachable from internal pins is marked iff each link behind a direct pin that internal pins, but no recursive pins or best-effort roots, lead to ends at something that the pins keep for another reason. |
| Gc.InternalsAreSafe | gc/gc.go:41-47 | Without such a direct pin on the way, every block with the multihash of something reachable from an internal pin is spared. |
| Gc.InternalsCanBeLost | gc/gc.go:256-276 | An input on which a block reachable from an internal pin is not marked. |
| GcTrails.MarkedByTrails | gc/gc.go:155-283 | The marked set on pins and links as written, each standing for the version-1 CID of its codec and multihash: direct pins, the ends of all trails of links from recursive pins and best-effort roots, and the ends of trails from internal pins that do not go on from a direct pin to which none of those lead. |
| GcTrails.MarkableByTrails | gc/gc.go:157-241 | Marking can succeed iff everything that trails from recursive pins lead to is secure and decodes, everything else that best-effort roots lead to is secure and not unreadable, and everything else that internal pins lead to, other than direct pins, is secure and decodes. |
| GcTrails.TrailsAreSafe | gc/gc.go:41-47 | Every block with the multihash of a direct pin, or of the end of a trail from a recursive pin or best-effort root, is spared. |
| GcTrails.LinkedBlockIsSafe | gc/gc.go:194-199 | If the version-1 CID of a codec and multihash is stored and links to something, a recursive or best-effort pin on either version of that CID spares every block with the link's multihash. |
| GcTrails.VersionPlaysNoPart | gc/gc.go:182-199 | In each of the four groups of pins, pinning one version of a CID marks, spares and demands exactly what pinning the other does. |
| Tar.ReadFile | tar/format.go:217-221 | The file reader under the exporter: any chunking of the file's events, EOF with or after the last byte. |
| Tar.CountReader.Read | tar/format.go:217-221 | Counts exactly the bytes delivered. |
| Tar.TarReader.ReadHeader | tar/format.go:117-124 | Delivers the next bytes of the header, nothing else, and makes progress. |
| Tar.TarReader.ReadData | tar/format.go:137-154 | Delivers file data and then the padding that the whole file needs. |
| Tar.TarReader.ReadChild | tar/format.go:127-134 | A nested reader's events pass through unchanged and its end is not the end. |
| Tar.TarReader.OpenNext | tar/format.go:156-194 | Opens the next link as a file, as a nested reader iff there are entries and no file, or as a bare header, or reports what is broken about it. |
| Tar.OpenedHoldsEntry | tar/format.go:160-194 | Opening an entry leaves all of its serialization still to be read, and less work. |
| Tar.TarReader.Read | tar/format.go:115-197 | What was left to read is what this read delivered followed by what is left; a non-empty buffer makes progress by a bounded measure; EOF comes exactly at the end and stays. |
| Tar.Drain | tar/format.go:115-197 | For any sequence of non-empty buffers reading ends, and yields the serialization up to the first failure. |
| TarExport.ExportTar | tar/format.go:199-210 | Rejects a root without the marker; otherwise, independent of chunking, the output is the archive laid out as SerializeIsArchive has it, or all of it up to the first failure. |
| TarExport.SerializeIsArchive | tar/format.go:115-197 | Node by node over the whole tree in preorder, each named by its path and none left out or repeated: the header, then for a file its content and zero bytes up to the next multiple of 512 of the content; a node that cannot be opened reports its failure in its place. |
| TarExport.EmitAligned | tar/format.go:137-154 | One entry takes a whole number of 512-byte blocks if its headers do. |
| TarExport.SerializeAligned | tar/format.go:149-154 | So does the whole archive. |
| PeerHandlers.NextDelayBounds | peering/peering.go:101-114 | For all draws the delay stays between 5s and 10min, a computed wait is at least 7.5s, nothing overflows int64, and growth beats a fixed lower bound. |
| PeerHandlers.NextDelayIff | peering/peering.go:101-114 | Which delays can follow a given one: exactly those from one and a half to under two and a half times it, within ten minutes, and, if that can exceed ten minutes, any above nine and up to ten. |
| PeerHandlers.TwelveCallsReachTheCap | peering/peering.go:101-114 | From the twelfth backoff since a reset on the delay exceeds nine minutes. |
| PeerHandlers.PeerHandler.NextBackoff | peering/peering.go:101-114 | The bounds for the code on fields; the first wait after a reset is under 12.5s. |
| PeerHandlers.PeerHandler.Stop | peering/peering.go:90-99 | Afterwards the handler is cancelled and has no timer; its addresses and delay are as before, and delays and waits within bounds. |
| PeerHandlers.PeerHandler.StopIfConnectedNow | peering/peering.go:141-151 | Only a connected peer with a timer loses the timer and has its backoff start over; delays and waits stay within bounds. |
| PeerHandlers.PeerHandler.StartIfDisconnectedNow | peering/peering.go:154-163 | Only a disconnected peer without a timer gets one, armed within bounds. |
| PeerHandlers.PeerHandler.DialFailed | peering/peering.go:122-134 | A failed dial rearms a timer that is still there, and does not create one. |
| PeerHandlers.PeerHandler.Reconnect | peering/peering.go:116-139 | An undisturbed reconnect whose timer has fired removes the timer iff the peer is connected at the end, rearms it iff the dial failed and the peer is not, and leaves it there without rearming it iff the dial succeeded and the peer is gone again; a timer that was removed meanwhile is not put back. |
| PeeringServices.PeeringService.Start | peering/peering.go:184-202 | A step of the protocol from any reachable state to a reachable state: only from the initial state, it runs and subscribes the service and starts one goroutine per registered peer; it fails only once the service has stopped. |
| PeeringServices.PeeringService.StopNotify | peering/peering.go:212-213 | Unsubscribing is a step of its own, before the lock is taken. |
| PeeringServices.PeeringService.StopLocked | peering/peering.go:214-225 | The step that stops the handlers of exactly the registered peers, once: each is cancelled and has no timer right afterwards; later calls change nothing but the pending task. |
| PeeringServices.PeeringService.AddPeer | peering/peering.go:234-263 | The AddPeer step, in all three service states, for known and unknown peers, on handlers that live on the heap: the peer is registered and protected, with the addresses given. |
| PeeringServices.PeeringService.RemovePeer | peering/peering.go:282-293 | The RemovePeer step: unprotects and forgets the peer if it is registered, leaves its handler cancelled and without a timer, and changes no other handler. |
| PeeringServices.PeeringService.Notified | peering/peering.go:297-320 | The step of a notification: one goroutine for a registered peer, none for others. |
| PeeringServices.PeeringService.RunSection | peering/peering.go:116-163 | Each section of a handler's goroutine is the protocol's step for it, run on the handler object, and hands on to the section that follows. |
| PeeringServices.HandlerHeap.Section | peering/peering.go:116-163 | A section changes the one handler it belongs to as the protocol has it, and no other. |
| PeeringServices.PeeringService.Keeps | peering/peering.go:165-166 | Before and after every operation all invariants of the protocol hold. |
| Peering.StepKeepsTended | peering/peering.go:116-163 | Every step of the protocol keeps each registered peer looked after while the service runs and is subscribed. |
| Peering.StepKeepsCancelled | peering/peering.go:228-293 | Every step keeps: a handler is cancelled iff it was removed or the service is stopped. |
| Peering.StepKeepsInvariant | peering/peering.go:116-320 | Every step in every state keeps all invariants together. |
| Peering.RunsKeepInvariant | peering/peering.go:116-320 | They hold in every state of every run. |
| Peering.PeersAreTended | peering/peering.go:165-166 | In every interleaving, while running and subscribed, each registered peer is connected, or its handler has a timer, or a start step or disconnect notification for it is pending. |
| Peering.ProtectionAndCancellation | peering/peering.go:234-293 | In every interleaving a peer is protected iff registered, and a handler cancelled iff removed or stopped. |
| Peering.DelaysInBounds | peering/peering.go:21-32 | In every interleaving every delay and every scheduled wait is within bounds. |
| Peering.StuckIff | peering/peering.go:116-151 | In every run, until the service stops, a registered peer is disconnected with an idle timer and no reconnect under way iff it is disconnected and at some earlier step its only reconnect under way dialled successfully and found the peer gone, and no stop-if-connected step since then found it connected. |
| Peering.StuckStays | peering/peering.go:141-163 | Only a connection opened from elsewhere, removal or Stop ends that. |
| PeeringStuck.PeersCanGetStuck | peering/peering.go:116-163 | A run that gets a peer there while the service is running and subscribed. |
| PeeringRedial.RedialsIff | peering/peering.go:116-163 | From any reachable state in which the service runs and is subscribed, some continuation without outside help dials a registered, disconnected peer iff its timer is not one that has fired with nothing but successful dials under way. |
| PeeringRedial.DialledOutForGood | peering/peering.go:116-151 | A peer whose timer has fired with nothing but successful dials under way stays so in every continuation without outside help. |
| PeeringRedial.StuckIsDialledOut | peering/peering.go:116-151 | A peer that is stuck is one of those. |
| PeeringRestart.RestartsIff | peering/peering.go:89-99 | From any reachable state the timer of a stopped handler can come back in some continuation iff a start goroutine for it is pending, or its peer is registered and the service is subscribed or has a disconnect notification for it pending. |
| PeeringRestart.OffForGood | peering/peering.go:89-99 | Otherwise it never comes back, in any continuation. |
| PeeringRestart.RemovedRestarts | peering/peering.go:282-293 | A run in which the timer of a handler that RemovePeer stopped can come back. |
| PeeringRestart.HaltedRestarts | peering/peering.go:212-226 | A run in which the timer of a handler that Stop stopped can come back. |
| PeeringRuns.StoppedHasNoTimer | peering/peering.go:90-99 | In every run, right after RemovePeer, after Stop's section and after AddPeer on a stopped service, the handlers concerned are cancelled and have no timer. |
| PeeringRuns.FiresAfterStart | peering/peering.go:90-163 | In every run the timer of a cancelled handler fires only if a startIfDisconnected that found neither timer nor connection has run since every stop of it, and there has been a stop. |
| PeeringRuns.AddrsAreLatest | peering/peering.go:228-239 | In every run a registered peer has the addresses that AddPeer gave for it last. |
| PeeringRuns.DialsLatest | peering/peering.go:116-121 | In every run a reconnect of a registered peer dials those. |
| PeeringRuns.ReconnectEndsWithCheck | peering/peering.go:116-139 | In every run a reconnect that a timer set off is still under way, or a stopIfConnected at the end of a reconnect has run since, whether the dial failed or not. |
| PeeringRuns.ConnectedAreCalmed | peering/peering.go:297-308 | In every interleaving, while running and subscribed, a registered peer that is connected has no timer, or a connect notification or stop-if-connected step for it is pending. |
| PeeringRuns.FoundStartsOver | peering/peering.go:141-151 | Such a step that finds the peer leaves no timer, and the backoff starts over at 5s. |
| PinVerify.Verifier.CheckPin | core/coreapi/pin.go:199-227 | The memoised check returns what plain recursion returns, under the CID it was asked about and with its bad nodes in path order, and remembers only such results. |
| PinVerify.Verify | core/coreapi/pin.go:186-238 | One status per recursive pin, under that pin's CID; its bad nodes are the ends of the link paths to CIDs that cannot be fetched, one per path, in lexicographic order of link indices; ok iff there are none. |
| PinVerify.BadNodesFollowPaths | core/coreapi/pin.go:208-223 | The same of plain recursion, for every CID. |
| PinVerify.BadNodesCountPaths | core/coreapi/pin.go:208-223 | A node is reported as bad once per path to it if it cannot be fetched, and never otherwise. |
| PinVerify.BadNodesAreReachable | core/coreapi/pin.go:216-223 | Only reachable nodes are reported. |
| PinVerify.OkIff | core/coreapi/pin.go:208-226 | A pin is ok iff every CID reachable from it can be fetched. |
| PinLs.Walk | core/coreapi/pin.go:318-328 | One concurrent walk that skips its root over a shared set: in any order only descendants are found, and without error every found node and the root have all their links found. |
| PinLs.WalkPins | core/coreapi/pin.go:317-328 | The walks of all recursive pins find exactly their proper descendants. |
| PinLs.Lister.AddToResultKeys | core/coreapi/pin.go:267-281 | Sends each CID not seen before once, under the given type. |
| PinLs.Lister.VisitKeys | core/coreapi/pin.go:283-287 | Marks CIDs as seen without sending them. |
| PinLs.PinLsAll | core/coreapi/pin.go:262-372 | Without errors "all" lists each pinned CID once, as recursive if it can be and else as direct if it can be; "indirect" lists nothing of the pinner's lists; it fails undisturbed only if something below a pin cannot be fetched; listings of recursive and of direct pins hold exactly the pinner's lists. |
| PinLs.ListedByKind | core/coreapi/pin.go:289-356 | Under which kinds an error-free listing of each type has a CID, by the pinner's lists and the paths of links. |
| PinLs.ListedAlike | core/coreapi/pin.go:333-356 | For error-free listings of the same lists, "recursive" and "indirect" hold exactly the pins that "all" holds with that kind. |
| PinLs.DirectAlikeIff | core/coreapi/pin.go:294-314 | Direct pins listed by themselves are those that "all" lists as direct, iff no CID is in both lists of the pinner. |
| PinLs.DirectCanDiffer | core/coreapi/pin.go:294-314 | Two lists with a CID in common, and the listings that differ. |
| Routing.Parser.Parse | routing/delegated.go:65-148 | With whatever was created before, the result, error included, is that of unmemoised expansion along the current chain; terminates on every configuration. |
| Routing.Parser.ParseParts | routing/delegated.go:98-134 | Parts are built in order up to the first error, each with the error handling, timeout and, in parallel only, delay (zero if none is given) of its own entry. |
| Routing.TreeIsExpand | routing/delegated.go:72-81 | The chain does not matter to a router whose dependencies stay clear of it, so a remembered router may be shared. |
| Routing.ErrorsAreTrue | routing/delegated.go:78-137 | An error names a dependency that is really missing, of unknown type, not constructible or on a cycle; a shared dependency is never called a loop. |
| Routing.ExpandIff | routing/delegated.go:65-148 | A name expands iff all its dependencies are defined, of known type, constructible and on no cycle. |
| Routing.Check | config/routing.go:37-65 | Passes iff exactly the five methods are configured; otherwise names one that is missing or unsupported. |
| Routing.RouterAsConfigured | routing/delegated.go:83-134 | A name that parses stands for what is configured: a leaf that was built, or a composition of that kind with one part per entry, in order, set as the entry says, each the router of the name in the entry. |
| Routing.Parse | routing/delegated.go:31-63 | Succeeds iff the check passes and all needed routers are constructible; then there are exactly the five methods, and the field for each is the expansion of the router configured under that method's name, whatever the order of methods; an error names a method that is missing or unsupported if the check fails, and otherwise a dependency of some method's router that is missing, of unknown type, not constructible or on a cycle. |
| Cat.Cat | core/commands/cat.go:124-181 | The readers yield exactly max bytes from offset of the concatenated files, with that length and no negative limit; it fails iff an entry that is no file comes before the window is full, with the error of the first such entry. |
| Cat.WindowBytes | core/commands/cat.go:124-181 | The window byte by byte: which bytes of the data it has, and how many. |
| Cat.LeadingBytes | core/commands/cat.go:124-181 | Where the bytes of each file are in the concatenated data. |
| Cat.Finishes | core/commands/cat.go:167-177 | Cutting the last reader by the overshoot fills the window exactly. |
| Etag.ScanETag | core/corehttp/gateway_handler.go:824-847 | The loop finds the first entity-tag as the specification does, or nothing. |
| Etag.EtagMatch | core/corehttp/gateway_handler.go:792-818 | Terminates on every header and computes the match over what is left of it. |
| Etag.ScansTag | core/corehttp/gateway_handler.go:824-847 | A well-formed tag in front of any text is read back whole, and the text after it is kept. |
| Etag.MatchesList | core/corehttp/gateway_handler.go:792-818 | On every list in the syntax of sections 2.3 and 3.2 of RFC 7232, where a "*" may stand among the items, the answer is yes iff the list has a "*" or a tag that matches either argument; text after the first thing that is no item makes no difference. |
| Etag.WeakMatchIff | core/corehttp/gateway_handler.go:850-852 | Two entity-tags match iff their opaque-tags are the same, as section 2.3.2 of RFC 7232 has weak comparison. |
| Etag.MatchesOpaque | core/corehttp/gateway_handler.go:792-818 | For entity-tags as arguments the answer is yes iff the list has a "*" or one of their opaque-tags, weak or strong. |
| Etag.EveryHeaderAnswered | core/corehttp/gateway_handler.go:792-818 | Every header whatsoever reads as such a list up to where it goes wrong, and the answer is what that list says. |
| Etag.NotModifiedIff | core/corehttp/gateway_handler.go:395-407 | The gateway answers that a CID is unmodified iff the list has a "*" or one of the two opaque-tags it gives that CID, the file's or the directory listing's. |
| Etag.TagsDifferIff | core/corehttp/gateway_handler.go:855-868 | For CIDs without a dot, two tags from getEtag are equal iff the CIDs are and either neither has a format or both have one of the same short name. |
| Etag.ShortFormatEnds | core/corehttp/gateway_handler.go:862 | The short name is what follows the last '/' or '.' of a format. |
| Etag.DirTagsDifferIff | core/corehttp/gateway_handler_unixfs_dir.go:220-222 | Directory listing tags for assets of one hash length are equal iff asset hash and CID are. |
| Etag.EchoMatches | core/corehttp/gateway_handler.go:855-868 | A tag from getEtag matches when a list sends it back, weak or strong. |
| Etag.EchoAloneMatches | core/corehttp/gateway_handler.go:855-868 | And when it comes back alone. |
| Scrub.ScrubEither | core/commands/config.go:243-249 | Never fails; a selected value that is no object goes. |
| Scrub.ScrubMapInternal | core/commands/config.go:258-277 | Never fails, whatever okIfMissing says, and leaves exactly the scrubbed fields. |
| Scrub.MatchesGlobPrefix | core/commands/config.go:159-173 | True iff all parts that have a pattern are selected by it. |
| Scrub.ScrubAt | core/commands/config.go:258-277 | At every path: unchanged if the selector does not match it, otherwise what scrubbing that value alone gives. |
| Scrub.ScrubbedByCases | core/commands/config.go:258-277 | At every path, with "*" covering any key and other patterns the keys equal up to case: not covered, it is unchanged; covered beyond the selector's length, it is gone; covered up to there, exactly the objects are left, as empty objects at full length. This determines the result. |
| Scrub.FullMatchConceals | core/commands/config.go:258-277 | A path matched in full is absent or an empty object afterwards. |
| Scrub.ScrubTwice | core/commands/config.go:258-277 | Scrubbing is idempotent. |
| Streams.StreamRegistry.Register | p2p/stream.go:75-87 | Keeps the registry consistent; the id was never handed out before; the peer gains this stream and is tagged, and other peers are untouched. |
| Streams.StreamRegistry.Deregister | p2p/stream.go:90-106 | Keeps the registry consistent; the stream is gone, the peer's count falls by one and its tag goes iff that was its last stream; any other id changes nothing. |
| Streams.EveryInterleaving | p2p/stream.go:43-120 | In any order of calls: counts equal the registered streams per peer, a peer is tagged iff it has one, no id is reused or deregistered twice. |
| ReqLog.ReqLog.Cleanup | commands/reqlog.go:69-80 | The in-place compaction is the order-preserving filter of the entries that stay. |
| ReqLog.CleanedExactly | commands/reqlog.go:69-80 | An entry survives iff it is active or ended less than keep ago. |
| ReqLog.ReqLog.MaybeCleanup | commands/reqlog.go:61-67 | Cleans up exactly at lengths that are multiples of ten. |
| ReqLog.ReqLog.AddEntry | commands/reqlog.go:37-48 | Appends with the next id and changes no other entry; only an inactive entry can set off a cleanup; an entry may be in the log already. |
| ReqLog.ReqLog.ClearInactive | commands/reqlog.go:51-59 | Leaves exactly the entries that are active or marked as ending in the future, in order, and restores keep. |
| ReqLog.ReqLog.Finish | commands/reqlog.go:103-111 | Marks the entry as inactive and ended now, leaves all other entries as they are, and cleans up at lengths that are multiples of ten. |
| ReqLog.CallKeepsActive | commands/reqlog.go:37-111 | No call drops a request that is active at that moment, or brings in any but the added one. |
| ReqLog.ActiveStaysLogged | commands/context.go:95-111 | In every run a logged request stays in the log for as long as it is active. |
| ReqLog.ClearedRunsAreActive | commands/reqlog.go:51-59 | In every run, ClearInactive leaves exactly the requests that are active. |
| ReqLog.FinishedIsCleared | commands/reqlog.go:51-59 | In every run no ClearInactive after the end of a request leaves it in the log. |
| ReqLog.FinishedStaysIff | commands/reqlog.go:61-111 | In every run a logged request that is finished is still there later iff no ClearInactive, and no cleanup at a length that is a multiple of ten at least keep after its end, has come in between. |
| ReqLog.KeptForKeepTime | commands/reqlog.go:61-111 | With keep unchanged it survives every cleanup before its end plus keep and falls to the first one from then on. |
| ReqLog.KeepIsLatest | commands/reqlog.go:82-86 | In every run keep is the value set last. |
| ReqLog.AppendOrderedIff | commands/reqlog.go:41-43 | Appending an entry keeps ids increasing along the log iff the entry is not in it already. |
| ReqLog.RunsStayOrdered | commands/reqlog.go:37-111 | In every run that adds no entry while it is in the log, ids increase along the log. |

## Left out

- HTTP serving, command parsing, output formats, metrics, tracing and FUSE: plumbing over libraries.
- WriteEdge failing on a cancelled context, and the text it prints.
- CollectGarbage of the datastore after the sweep, and the datastore itself.
- ImportTar and escapePath: they rest on archive/tar and the DAG editor; only the exporter is modelled.
- The walk of go-merkledag, the file reader and the blockstore are given by the behaviour their callers rely on.
- Router leaf constructors: an arbitrary function that succeeds or fails. A configuration whose parameters have the wrong type makes the code panic and is not representable here.
- Which addresses a dial uses has no effect on how it ends in the peering model; a dial may succeed only while a connection is open.
- Peering: connections opening and closing, timers firing and dials returning are steps of the protocol only, not methods.
- Error values of failed fetches in pin verification: a bad node is its CID.
- Cat.Cat: the total length is unbounded, so an unlimited read of more than 2^64 bytes does not wrap around.
- Streams.StreamRegistry.Register: ids are unbounded, so the wrap-around of a 64-bit counter is not modelled.
- Case folding in Scrub is an arbitrary folding function, and a key arrives already split at its dots.
- Entries of the request log are kept in a map from pointers to contents. In a run the clock does not go back, and an entry that has ended did so by the first call or through Finish.
- Report, ListPeers, GetState and the other accessors: they would only add easy members.
