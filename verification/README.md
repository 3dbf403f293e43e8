# VDA 5050 core: verified model

A Dafny model of the parts of the VDA 5050 library that keep redundant state consistent or enforce protocol
rules, with proofs about every reachable state. `dafny verify dfyconfig.toml` checks all of it.

**Layout graph.** The graph owns a layout document (layouts holding nodes, edges, stations) and keeps seven hash
indices beside it. `Graph.dfy` is the class: nine mutators patch the document and the indices in place, deletion is
swap-and-pop, renaming a node visits only what the adjacency lists and the station index reach. `GraphSpec.dfy` says
what each call means by scanning the document, without any index. `GraphIndex.dfy` and `GraphSteps.dfy` prove that
indices and document agree after every call, `GraphRebuild.dfy` that the patched indices are those of a full
rebuild, `GraphLaws.dfy` and `GraphRoundTrips.dfy` the laws of pruning, round trips, and kept validity.
`LayoutRules.dfy` is load-time validation, `Visitors.dfy` the visitors. `Tables.dfy` and `ReverseIndex.dfy` hold the
theory of position indices and reverse lists; `Lif.dfy` the document, `Common.dfy` a few shared definitions.

**Orders.** `Orders.dfy` decides the base/horizon shape of an order (sections 6.6.1 and 6.6.2 of VDA 5050 version
2.0.0) with sequence ids modulo 2^32. `Stitching.dfy` glues chains of accepted updates into one path.
`OrderInLayout.dfy` shows that an accepted order is a walk in the layout. `OrderMerge.dfy` merges an update into the
active order.

**The master's view of one vehicle.** `OrderStitcher.dfy` routes an outgoing order and drains waiting updates,
`OrderLifecycle.dfy` tracks the active order, `OrderPublisher.dfy` checks an order before it is sent. `AgvSpec.dfy` is the
vehicle as a state machine over values: outbound queues, mode-cancelled buffer, connection and operational state,
stale-message gates, the order in flight; every step gives the whole next state and a log of what happened. `Agv.dfy` is
the class; each of its methods does, and reports, exactly what the state machine says. `AgvEvents.dfy` says which step
logs what, `AgvSending.dfy` exactly when an order goes out, waits or is refused, `AgvStatus.dfy` and `AgvQueues.dfy` what each
step does to the vehicle's status, buffer, queues and gates, all of it in the vehicle's own fields. `AgvLedger.dfy` shows that the log
accounts for every order, and in which order they go; `AgvLaws.dfy` is about gates and signals, `AgvTracking.dfy` about the
active order and its routes, `AgvCompletion.dfy` about when it is complete and what starts after it, `AgvLost.dfy` about when it is
given up, all over all runs; `AgvExamples.dfy` and `AgvOvertaking.dfy` give the runs on which three tempting claims fail. Every handler is one atomic step,
except that sending an order and recording it are two. `Heartbeat.dfy` is the loop that notices silence. `MasterTypes.dfy`
holds the messages.

How the three meet: whatever the master publishes as an update continues the released base of the active order, so over
any run everything released under the active order is one contiguous valid path, unless the active order was started by an
update recorded after its base had been given up (`AgvTracking.ActiveOrderIsOnePath`); and as long as the loaded layout
stays the same, the route of every sent order is a directed walk in it (`AgvTracking.SentRoutesWalk`).

## Where the code and its documentation differ

The model follows the code.

- `order_graph_validator.hpp` and a comment in `order_publisher.cpp` call graph findings warnings; the code makes them fatal.
- `docs/validation.md` says an update must keep the order id; `is_valid_update` accepts another id and then skips the update id check.
- `agv.hpp` says a State must be strictly newer than the cached one; the code also takes one with an equal header id.
- Node equality compares actions by type and id only (`action.hpp:60-66`).
- The heartbeat promises one callback per silence. A silence can go unreported when polls are as far apart as the timeout age, with an interval of one second even when they are on time: `Heartbeat.OneSecondMisses` gives the schedule, `Heartbeat.ExactIffDense` and `Heartbeat.ExactIffTwoSeconds` the exact conditions.
- `combine_order` promises to merge an accepted update. When the update is shorter than the old horizon and ends at another node, the merge is a broken route, which the publisher then refuses: `OrderMerge.DetourIsRefused` gives the orders. Ids are compared as plain numbers although they wrap, so some updates that wrap cannot be merged either. `OrderMerge.AcceptedUpdateMergesIff` is the exact condition.
- `record_published` says that it adopts the full merged order so that later checks see the true route. If the tracking is cleared between sending and recording, it adopts the bare update: `AgvExamples.UpdateIsOrphaned` gives the run, `AgvTracking.RecordingIsValidIff` the exact condition.
- `order_stitcher.cpp` starts an order of another id only once the prior is complete. An update that the tracker released is not judged again (`agv.cpp:1093-1095`), so one released under a complete order can replace the order that was sent in between, although that is not complete: `AgvOvertaking.FlaggedUpdateOvertakes` gives the run, `AgvSending.IncompleteOrderBlocksOthers` the exact condition, `AgvCompletion.OthersStartAfterEnd` what holds of every run.
- A layout can be swapped under an active order (`set_graph`), and an update is then checked against the new layout by itself: `AgvExamples.SwapLosesTheRoute` gives the run, `OrderPublisher.RouteFitsIffRestKnown` the exact condition.

## Model

| member | source | states |
|---|---|---|
| LayoutGraph.Graph.FromLif | vda5050_core/src/layout/graph.cpp:33-44 | a document is accepted exactly when it satisfies the declarative load rules; the new graph owns it unchanged, agrees with it, and lists edges and stations in scan order |
| LayoutGraph.Graph.RebuildIndices | vda5050_core/src/layout/graph.cpp:46-85 | fills all seven indices so that they agree with the document, lists being exactly the full scan |
| LayoutGraph.Graph.AddNode | vda5050_core/src/layout/graph.cpp:305-328 | outcome and document are those of the scan-level meaning, agreement is kept, a throw changes nothing |
| LayoutGraph.Graph.AddEdge | vda5050_core/src/layout/graph.cpp:329-367 | the same for edges: unknown ends, start outside the layout and duplicate ids throw before any write |
| LayoutGraph.Graph.AddStation | vda5050_core/src/layout/graph.cpp:369-401 | the same for stations, every reference counted, repeated ones as often as they occur |
| LayoutGraph.Graph.DeleteNode | vda5050_core/src/layout/graph.cpp:403-455 | throws exactly when an edge touches or a station references the node in the document; otherwise swap-and-pop with the moved node repointed |
| LayoutGraph.Graph.DeleteEdge | vda5050_core/src/layout/graph.cpp:457-473 | removes the edge from document and both lists, self-loops and parallel edges included, and stays in agreement |
| LayoutGraph.Graph.DeleteStation | vda5050_core/src/layout/graph.cpp:475-492 | removes the station and one list entry per reference, and stays in agreement |
| LayoutGraph.Graph.UpdateNodeId | vda5050_core/src/layout/graph.cpp:494-540 | visiting only listed edges and stations gives the document with the id substituted in every node, edge end and station reference of all layouts, all else unchanged |
| LayoutGraph.Graph.UpdateEdgeId | vda5050_core/src/layout/graph.cpp:542-561 | the edge is renamed in the document and in both lists, everything else unchanged |
| LayoutGraph.Graph.UpdateStationId | vda5050_core/src/layout/graph.cpp:563-588 | the station is renamed in the document and in the list of every node it references |
| LayoutGraph.Graph.Prune | vda5050_core/src/layout/graph.cpp:590-598 | returns the nodes isolated by a document scan and leaves the document without exactly those, never throwing |
| LayoutGraph.Graph.ListUnconnected | vda5050_core/src/layout/graph.cpp:222-253 | lists, in scan order, the nodes that no edge and no station mentions in the document |
| LayoutGraph.Graph.EdgesBetween | vda5050_core/src/layout/graph.cpp:187-200 | exactly the edges a full scan finds from one node to the other, each once; absent only for an unknown start |
| LayoutGraph.Graph.OutboundEdges | vda5050_core/src/layout/graph.cpp:163-173 | exactly the edges that start at the node by a full scan, each once |
| LayoutGraph.Graph.InboundEdges | vda5050_core/src/layout/graph.cpp:175-185 | exactly the edges that end at the node by a full scan, each once |
| LayoutGraph.Graph.FindNode | vda5050_core/src/layout/graph.cpp:132-138 | finds a node iff the document has one of that id, and then that node |
| LayoutGraph.Graph.FindEdge | vda5050_core/src/layout/graph.cpp:140-146 | finds an edge iff the document has one of that id, and then that edge |
| LayoutGraph.Graph.FindStation | vda5050_core/src/layout/graph.cpp:148-154 | finds a station iff the document has one of that id, and then that station |
| LayoutGraph.Graph.HasNode | vda5050_core/src/layout/graph.cpp:87-90 | true iff a scan finds the id |
| LayoutGraph.Graph.HasEdge | vda5050_core/src/layout/graph.cpp:92-95 | true iff a scan finds the id |
| LayoutGraph.Graph.HasStation | vda5050_core/src/layout/graph.cpp:97-100 | true iff a scan finds the id |
| LayoutGraph.Graph.Counts | vda5050_core/src/layout/graph.cpp:202-220 | index sizes are the numbers of records in the document |
| LayoutGraph.VecEraseValue | vda5050_core/src/layout/graph.cpp:261-266 | drops the first occurrence only |
| LayoutGraph.EraseSwap | vda5050_core/src/layout/graph.cpp:285-301 | the last element moves into the hole and its index entry follows |
| LayoutGraph.Graph.Call | vda5050_core/src/layout/graph.cpp:305-598 | any call in any reachable state behaves as its scan-level meaning and keeps agreement |
| LayoutGraph.Graph.CallAll | vda5050_core/src/layout/graph.cpp:305-598 | any sequence of calls gives the document of the scan-level run and keeps agreement throughout |
| GraphIndex.ListedEdgesSuffice | vda5050_core/src/layout/graph.cpp:494-540 | rewriting only the edges listed at a node equals redirecting every edge of the document |
| GraphIndex.ListedStationsSuffice | vda5050_core/src/layout/graph.cpp:494-540 | rewriting only the stations listed at a node equals redirecting every station reference |
| GraphSteps.AgreementIsStructure | vda5050_core/src/layout/graph.cpp:46-85 | indices that agree imply unique ids, resolved references, and edge starts in their own layout |
| GraphSteps.EdgeGuard | vda5050_core/src/layout/graph.cpp:403-420 | empty adjacency lists mean that no edge of the document touches the node |
| GraphSteps.StationGuard | vda5050_core/src/layout/graph.cpp:403-435 | an empty station list, missing key or not, means that no station references the node |
| GraphRebuild.RebuiltAgrees | vda5050_core/src/layout/graph.cpp:46-85 | the rebuilt indices of a structurally valid document agree with it |
| GraphRebuild.MaintainedEqualsRebuilt | vda5050_core/src/layout/graph.cpp:46-85 | after any run, position indices equal a rebuild's and every list is a permutation of the rebuild's, missing keys read as empty |
| GraphRebuild.AgreeingIndicesEqual | vda5050_core/src/layout/graph.cpp:46-85 | a document determines its indices: two agreeing sets differ at most in list order |
| GraphRebuild.ListsMatchScan | vda5050_core/src/layout/graph.cpp:46-85 | every maintained list is a permutation of the full scan of the document |
| GraphRebuild.ListLengthsConserved | vda5050_core/src/layout/graph.cpp:187-210 | outbound lengths and inbound lengths each sum to the number of edges, station lists to the number of references |
| GraphRebuild.CountsMatch | vda5050_core/src/layout/graph.cpp:202-220 | index sizes equal record counts |
| GraphRebuild.ListedEdges | vda5050_core/src/layout/graph.cpp:163-185 | the lists hold exactly the incident edges, each once |
| GraphLaws.PruneLaw | vda5050_core/src/layout/graph.cpp:590-598 | prune keeps structure, removes exactly the isolated nodes, keeps every other record with its value, leaves none isolated, and is idempotent |
| GraphLaws.PrunePrefix | vda5050_core/src/layout/graph.cpp:590-598 | no deletion inside prune throws, however many came before |
| GraphLaws.ApplyKeepsStructure | vda5050_core/src/layout/graph.cpp:305-598 | every call keeps unique ids, resolved references and local edge starts |
| GraphLaws.RunKeepsStructure | vda5050_core/src/layout/graph.cpp:305-598 | so does every sequence of calls |
| GraphLaws.AddNodeKeeps | vda5050_core/src/layout/graph.cpp:305-328 | adding a node adds that record, changes no other, and keeps the structure |
| GraphLaws.AddEdgeKeeps | vda5050_core/src/layout/graph.cpp:329-367 | adding an edge adds that record, changes no other, and keeps the structure |
| GraphLaws.AddStationKeeps | vda5050_core/src/layout/graph.cpp:369-401 | adding a station adds that record, changes no other, and keeps the structure |
| GraphLaws.DeleteNodeKeeps | vda5050_core/src/layout/graph.cpp:403-455 | swap-and-pop removes that record, changes no other, and keeps the structure |
| GraphLaws.DeleteEdgeKeeps | vda5050_core/src/layout/graph.cpp:457-473 | the same for edges |
| GraphLaws.DeleteStationKeeps | vda5050_core/src/layout/graph.cpp:475-492 | the same for stations |
| GraphLaws.UpdateNodeIdKeeps | vda5050_core/src/layout/graph.cpp:494-540 | renaming a node keeps the structure |
| GraphLaws.UpdateEdgeIdKeeps | vda5050_core/src/layout/graph.cpp:542-561 | renaming an edge moves its record to the new id, changes no other, and keeps the structure |
| GraphLaws.UpdateStationIdKeeps | vda5050_core/src/layout/graph.cpp:563-588 | renaming a station moves its record to the new id, changes no other, and keeps the structure |
| GraphRoundTrips.RenameNodeRoundTrip | vda5050_core/src/layout/graph.cpp:494-540 | renaming to a fresh id and back restores the document exactly |
| GraphRoundTrips.RenameEdgeRoundTrip | vda5050_core/src/layout/graph.cpp:542-561 | the same for edges |
| GraphRoundTrips.RenameStationRoundTrip | vda5050_core/src/layout/graph.cpp:563-588 | the same for stations |
| GraphRoundTrips.AddDeleteNode | vda5050_core/src/layout/graph.cpp:305-455 | adding a fresh node and deleting it restores the document exactly |
| GraphRoundTrips.AddDeleteEdge | vda5050_core/src/layout/graph.cpp:329-473 | the same for edges |
| GraphRoundTrips.AddDeleteStation | vda5050_core/src/layout/graph.cpp:369-492 | the same for stations |
| GraphRoundTrips.AddDeleteEdgeLists | vda5050_core/src/layout/graph.cpp:329-473 | adding and deleting a fresh edge restores both adjacency maps |
| GraphRoundTrips.AddDeleteStationLists | vda5050_core/src/layout/graph.cpp:369-492 | adding and deleting a fresh station restores every list, up to lingering empty ones |
| GraphRoundTrips.RunKeepsValid | vda5050_core/src/layout/graph.cpp:305-598 | if every added element passes the element rules, the document stays valid over any run |
| GraphRoundTrips.AddKeepsValidIff | vda5050_core/src/layout/graph.cpp:305-401 | one successful add keeps a document valid exactly when the added element passes the element rules |
| LayoutRules.ValidateLayout | vda5050_core/src/layout/validate_layout.cpp:119-278 | each kind of error is reported iff the document breaks the rule of that kind; no errors iff the declarative predicate holds |
| LayoutRules.ValidateTrajectory | vda5050_core/src/layout/validate_layout.cpp:48-115 | reports are exact for knot range and global order, weights, and knot count = control points + degree + 1 |
| LayoutRules.ValidateOneLayout | vda5050_core/src/layout/validate_layout.cpp:135-252 | one layout's reports are exact against the ids seen so far, and the seen sets grow by exactly its ids |
| Visitors.VisitOrdered | vda5050_core/include/vda5050_core/layout/graph.hpp:266-315 | every record once, in strictly increasing id order |
| Visitors.Visit | vda5050_core/include/vda5050_core/layout/graph.hpp:230-263 | every record once, in document order |
| Visitors.EmplaceOrdered | vda5050_core/include/vda5050_core/layout/graph.hpp:266-315 | inserting into the ordered map keeps it strictly ordered and adds just that record, or nothing if the id is there already |
| Visitors.LessIsLexicographic | vda5050_core/include/vda5050_core/layout/graph.hpp:266-315 | the order of the visit: at the first place where two ids differ, the smaller has the smaller character or has ended |
| Orders.IsValidGraph | vda5050_core/src/validation/order_graph_validator.cpp:29-166 | no error iff the order has the global base/horizon shape; otherwise each reported kind occurs at some position and each occurring kind is reported |
| Orders.ChecksDecideShape | vda5050_core/src/validation/order_graph_validator.cpp:29-166 | the header checks and the one-pass loop with its flag decide the global shape: one split, consecutive ids modulo 2^32 from an even start, joined edges |
| Orders.ShapeUnique | vda5050_core/src/validation/order_graph_validator.cpp:29-166 | an order has at most one base/horizon split |
| Orders.IsValidUpdate | vda5050_core/src/validation/order_graph_validator.cpp:169-217 | no error iff the update id rises under the same order id, the update is valid by itself, and it starts at the last released node; the stitching failure is reported, alone, exactly if all before it passes and the first node differs from that one in some field, actions up to type and id |
| Orders.SameNodeIffBare | vda5050_core/include/vda5050_core/types/node.hpp:66-82 | nodes count as equal exactly if they agree in every field once each action is reduced to its type and id |
| Orders.SequencesRun | vda5050_core/src/validation/order_graph_validator.cpp:29-166 | local id steps force node i to s0 + 2i and edge i to s0 + 2i + 1 modulo 2^32 |
| Stitching.ChainIsOnePath | vda5050_core/src/validation/order_graph_validator.cpp:169-217 | any chain of accepted updates glues into one contiguous, fully released, valid path made of exactly the released edges |
| Stitching.UpdateIdsIncrease | vda5050_core/src/validation/order_graph_validator.cpp:169-217 | along orders with one order id, update ids strictly increase |
| Stitching.GlueShape | vda5050_core/src/validation/order_graph_validator.cpp:169-217 | gluing an update at the shared node gives the global shape with the splits added |
| OrderInLayout.ValidateGraphIntegrity | vda5050_core/src/validation/traversability_validator.cpp:121-191 | with a graph loaded, no error iff the document has every node on the named map and every edge with the same ends; without one, a warning only |
| OrderInLayout.AcceptedOrderWalks | vda5050_core/src/validation/traversability_validator.cpp:121-191 | a valid order that passes the integrity check is a directed walk in the layout |
| OrderInLayout.WalkInAdjacency | vda5050_core/src/validation/traversability_validator.cpp:121-191 | each order edge is in the outbound list of its node, in the inbound list of the next, and joins the two |
| OrderInLayout.AcceptOrder | vda5050_core/src/validation/traversability_validator.cpp:121-191 | the two checks together accept exactly valid integral orders, which are walks |
| OrderInLayout.ChainWalks | vda5050_core/src/validation/traversability_validator.cpp:121-191 | the path glued from a chain of integral updates is one directed walk |
| OrderMerge.CombineOrder | vda5050_core/src/master/order/order_lifecycle_manager.cpp:62-277 | the loops compute the merge function on all inputs, every fault included, in order; what that function does is stated by the next two and by the laws below |
| OrderMerge.MergeFaults | vda5050_core/src/master/order/order_lifecycle_manager.cpp:138-225 | a newer update that comes in time is faulted for altering the base exactly if it names a node before the stitch node or an edge not after the last released one, and at the stitch node exactly if it names it with other content, actions up to type and id |
| OrderMerge.PlaceKeepsAscending | vda5050_core/src/master/order/order_lifecycle_manager.cpp:162-199 | into a list with ascending ids an element goes where its id belongs, replacing the one of that id and keeping all others; it is turned down exactly for taking back a release |
| OrderMerge.MergedIsAcceptedUpdate | docs/validation.md:106-109 | a sender may check only the merged order: for every update at all, if merging gives a valid order, that order is an accepted update of the base, so the released base is never changed |
| OrderMerge.MergeOfAcceptedUpdate | vda5050_core/src/master/order/order_lifecycle_manager.cpp:62-277 | where no sequence id wraps in the overlap of the two, merging an accepted update fails only for a passed stitch point, and otherwise lays it over the old horizon behind the base's own stitch node |
| OrderMerge.MergeIsValidIffJoined | vda5050_core/src/master/order/order_lifecycle_manager.cpp:62-277 | that merge is a valid order iff the update reaches past the old horizon or ends at the node the horizon has there |
| OrderMerge.AcceptedUpdateMergesIff | vda5050_core/src/master/order/order_lifecycle_manager.cpp:62-277 | whatever the sequence ids do, merging an accepted update gives a valid order iff the stitch point is not passed, the update joins the old horizon, and it brings nothing or no id wraps in the overlap |
| OrderMerge.WrappedHorizonBreaks | vda5050_core/src/master/order/order_lifecycle_manager.cpp:93-200 | if the base's horizon wraps past 2^32, then whatever the update is, a merge of it that is a valid order brings no node behind the stitch point |
| OrderMerge.WrapAtStitchRefuses | vda5050_core/src/master/order/order_lifecycle_manager.cpp:200-260 | if the base wraps exactly at its stitch point, every update that brings an edge is refused |
| OrderMerge.DetourIsRefused | vda5050_core/src/master/order/order_lifecycle_manager.cpp:62-277 | a concrete accepted update whose merge is a broken route |
| OrderMerge.WrappingUpdateIsRefused | vda5050_core/src/master/order/order_lifecycle_manager.cpp:138-147 | an accepted update whose sequence ids wrap past 2^32 is refused, because ids are compared as plain numbers |
| OrderMerge.MergeInventsNothing | vda5050_core/src/master/order/order_lifecycle_manager.cpp:62-277 | every node and edge of a merge comes from the base or the update |
| OrderMerge.ShortOrdersAnchorFirst | vda5050_core/src/master/order/order_lifecycle_manager.cpp:93-122 | the stitch point's sequence id is unambiguous in any valid order of at most 2^31 nodes |
| OrderStitcher.DrainConserves | vda5050_core/src/master/order/order_lifecycle_manager.cpp:564-624 | draining loses and duplicates nothing, and what stays is the unchanged end of the queue |
| OrderStitcher.DrainInOrder | vda5050_core/src/master/order/order_lifecycle_manager.cpp:564-624 | the updates that leave, and then those that stay, are in the order in which they were queued |
| OrderStitcher.DrainConfirms | vda5050_core/src/master/order/order_lifecycle_manager.cpp:564-624 | updates of the active order leave with increasing update ids, each only after the State confirmed what was sent before it |
| OrderStitcher.BlockedHeadIsDropped | vda5050_core/src/master/order/order_lifecycle_manager.cpp:585-599 | an update at the head that is blocked in 61 drains is dropped by the last of them and not before, whatever joins behind it, and that drain goes on behind it |
| OrderStitcher.DecisionsAreExact | vda5050_core/src/master/order/order_stitcher.cpp:60-169 | with an order active, another goes only once it is complete, an update of it only if newer, in time, and the order confirmed with its last update; a newer update waits exactly until that confirmation, as long as it is not too late; a repeated one is ignored |
| OrderStitcher.HeadOfDrain | vda5050_core/src/master/order/order_lifecycle_manager.cpp:564-624 | the oldest waiting update leaves if it may go, and the next is judged as if it were active; it stays if it must wait and has done so fewer than sixty times; otherwise it is dropped |
| OrderLifecycle.LostVehicleIsCleared | vda5050_core/src/master/order/order_lifecycle_manager.cpp:514-562 | a vehicle that keeps reporting other orders is given up within eight States, whatever mix of ids it reports |
| OrderLifecycle.ClearingNeedsThree | vda5050_core/src/master/order/order_lifecycle_manager.cpp:514-562 | tracking is never cleared by fewer than three States, nor without a foreign order id |
| OrderLifecycle.ClearsIffThreeComplaints | vda5050_core/src/master/order/order_lifecycle_manager.cpp:514-562 | by counting: from a fresh count, States clear the tracking iff at some point those of a third order since the last of the active order, and those of the previous order beyond the first five, are three together |
| OrderLifecycle.HandoverIsGraced | vda5050_core/src/master/order/order_lifecycle_manager.cpp:526-545 | a vehicle that reports only the active order, the previous one or none is never cleared while the previous one is reported at most seven times |
| OrderLifecycle.CompletionIsEnd | vda5050_core/src/master/order/order_lifecycle_manager.cpp:356-379 | a State completes the active order iff it names it with its last update, stands at its last node by id and sequence id, has no node or edge left, and every action finished or failed |
| OrderLifecycle.OrderLifecycleManager.OnStateUpdate | vda5050_core/src/master/order/order_lifecycle_manager.cpp:334-384 | a stale State changes nothing; otherwise the tracking is cleared exactly when the strikes say so, the drain decides what leaves, none lost, and completion is announced once: exactly by a State that is heeded, names the active order with its last update while it is not complete, stands at its last node with nothing left to go, and has every action finished or failed |
| OrderLifecycle.OrderLifecycleManager.DrainPending | vda5050_core/src/master/order/order_lifecycle_manager.cpp:564-624 | the loop computes the drain function, nothing without an active order |
| OrderLifecycle.OrderLifecycleManager.CountMismatch | vda5050_core/src/master/order/order_lifecycle_manager.cpp:514-562 | a State adds a strike exactly if it names another order that is not the previous one within its first five times, and the third strike clears; a clear forgets order and waiting updates, anything else forgets nothing |
| OrderLifecycle.OrderLifecycleManager.RecordPublished | vda5050_core/src/master/order/order_lifecycle_manager.cpp:290-332 | a newer update of the active order is adopted merged and reopens it, anything else is adopted as it is, another order with tracking reset |
| OrderLifecycle.OrderLifecycleManager.RequeuePendingFront | vda5050_core/src/master/order/order_lifecycle_manager.cpp:408-417 | unsent updates return to the front in their order |
| OrderLifecycle.OrderLifecycleManager.EnqueuePendingUpdate | vda5050_core/src/master/order/order_lifecycle_manager.cpp:393-406 | appends unless eight updates already wait |
| OrderPublisher.Publish | vda5050_core/src/master/order/order_publisher.cpp:37-150 | sent iff every check passes, the graph check taken on the merged order for an update; a sent update hands back a valid merged order |
| OrderPublisher.SentUpdateContinuesBase | vda5050_core/src/master/order/order_publisher.cpp:58-99 | a sent update continues the active order's base, has a higher update id, and is sent only while the vehicle is not beyond that base |
| OrderPublisher.RouteFitsIffRestKnown | vda5050_core/src/master/order/order_publisher.cpp:58-126 | only the update itself is checked against the layout, so its route fits the layout iff the layout knows the active order's stitch node and those of its horizon nodes and edges whose sequence ids the update does not use |
| OrderPublisher.RouteFitsIffTailKnown | vda5050_core/src/master/order/order_publisher.cpp:58-126 | for an accepted update whose sequence ids do not wrap where it overlaps the active order, and an unambiguous stitch point: iff the layout knows the old horizon behind the position where the update ends |
| OrderPublisher.SentRouteWalks | vda5050_core/src/master/order/order_publisher.cpp:58-126 | the route of a sent order is a directed walk in the loaded layout, for an update if the active order fits that layout |
| AgvEvents.EventsAreExact | vda5050_core/src/master/agv.cpp:131-1200 | every step logs exactly what occurs at it, for every kind of entry and with which orders: accepted, evicted, taken, sent, set aside, refused, released, captured, restored, cleared from queue, buffer or waiting updates |
| AgvSending.TurnIsExact | vda5050_core/src/master/agv.cpp:1029-1191 | a turn takes the oldest order iff nothing is in flight, the processor runs and no instant action waits; it is sent exactly if it carries the flag or is due, and passes every check, set aside exactly if it comes early and fewer than eight wait, refused otherwise, all conditions written out in the fields of vehicle, tracker and order |
| AgvSending.SentIff | vda5050_core/src/master/agv.cpp:1082-1191 | over any run from any state, an order is sent iff some turn takes it and those conditions hold then |
| AgvSending.PostponedIff | vda5050_core/src/master/order/order_stitcher.cpp:60-169 | over any run from any state, an order is set aside iff some turn takes it, unflagged, as a newer update of the active order for which no State has cleared the way, with fewer than eight waiting |
| AgvSending.SentWhenAllowed | vda5050_core/src/validation/pre_send_validator.cpp:50-100 | over any run from any state, every order sent was the oldest in the queue of a vehicle that was online, available, under master control, localized and not stopped; if it was an update, it was newer than the active order and the vehicle not beyond the stitch point |
| AgvSending.IncompleteOrderBlocksOthers | vda5050_core/src/master/order/order_stitcher.cpp:92-103 | in any run from any state, while an order of another id is active and not complete, the order a turn takes is refused unless it carries the stitch flag; with the flag it is sent iff there is an adapter and it passes the checks |
| AgvSending.FlaggedWasReleased | vda5050_core/src/master/agv.cpp:618-635 | over any run from an empty queue, every queued order with the flag was released by a State: as an update of the active order which that State reports, or under an order that was complete |
| AgvStatus.StatusIsExact | vda5050_core/src/master/agv.cpp:131-443 | after every step, connection, operational state, cached State, watching and sending, the signals, and the parked queue with its modes and time are what the step and the fields before it say; a restart leaves no cached State |
| AgvStatus.CapturedIffLeaves | vda5050_core/src/validation/operating_mode_control.cpp:23-27 | the queues are captured exactly by a State that is kept and takes the vehicle from AUTOMATIC or SEMIAUTOMATIC to MANUAL, SERVICE or TEACHIN |
| AgvStatus.RestartForgets | vda5050_core/src/master/agv.cpp:153-185 | after a restart nothing is queued, parked, waiting, in flight, active or cached, and all gates are open |
| AgvStatus.RecoveriesAreSignalled | vda5050_core/src/master/agv.cpp:637-646 | in any run from any state, recovery is signalled once for each step that ends a silence while somebody listens |
| AgvQueues.QueuesAreExact | vda5050_core/src/master/agv.cpp:445-567 | after every step, both live queues are what the step makes of them: who joins, in front or behind, with or without the flag, how many released updates fit, what is taken, and when both are emptied; the gates open exactly on the edge to online and on a restart |
| AgvLedger.RunPlays | vda5050_core/src/master/agv.cpp:131-1200 | over any run, playing the log entry by entry from where orders were parked, queued and waiting leads to where they are: nothing moves unlogged, nothing is logged that does not move |
| AgvLedger.OrdersAreConserved | vda5050_core/src/master/agv.cpp:445-567 | from any state, over any steps in any order: what was held and what was accepted is held still, or was sent, evicted, cleared or refused, with multiplicity |
| AgvLedger.FatesAreExact | vda5050_core/src/master/agv.cpp:887-922 | an order is accepted, evicted or sent exactly once at a step at which that occurs, and at no other: accepted on a client's call that the queue takes, evicted by the drop-oldest branch of such a call, sent at a turn whose decision and checks allow it |
| AgvLedger.QueueIsFifo | vda5050_core/src/master/agv.cpp:892-922 | over any run without capture, resume or clearing, what was queued and then what joined is what left and then what is queued: the log of removed orders followed by the live queue is the acceptance log |
| AgvLedger.LineIsFifo | vda5050_core/src/master/agv.cpp:455-551 | over any run that clears nothing and takes nothing off the live queue while orders are parked, the same for parked and live orders together, captures and resumes included |
| AgvLedger.LineKeepsOrder | vda5050_core/src/master/agv.cpp:455-551 | over any run at all, the orders parked and queued are some of those that were and then of those that joined, in that order: nothing overtakes, whatever is captured, resumed, cleared or taken in between |
| AgvLedger.WaitingKeepsOrder | vda5050_core/src/master/agv.cpp:618-635 | over any run at all, the updates released and then those still waiting are some of those that waited and then of those set aside, in that order, however often released ones are put back |
| AgvLedger.ActionsAreFifo | vda5050_core/src/master/agv.cpp:924-950 | the same first-in-first-out law for instant actions |
| AgvLedger.TurnsTakeInOrder | vda5050_core/src/master/agv.cpp:1029-1078 | however many turns the processor takes, the orders taken followed by those still queued are the orders that were queued |
| AgvLaws.CachedStateIsNewest | vda5050_core/src/master/agv.cpp:594-616 | over any run from open gates, the cached State has the largest header id of all schema-valid States since the last reconnect or restart, and the order tracker has seen the same one last |
| AgvLaws.GatesAreKept | vda5050_core/src/master/agv.cpp:412-418 | over any run, each gate is shut exactly if a message arrived since it was opened, and then holds the largest id seen, for States and visualizations |
| AgvLaws.RecoveriesAreSeparated | vda5050_core/src/master/agv.cpp:317-341 | in any run from any state, between two recovery signals there is a timeout signal or a stop |
| AgvTracking.ActiveOrderIsOnePath | vda5050_core/src/master/agv.cpp:1082-1200 | over any run of a new vehicle, the versions recorded since the active order began end in it and carry its id; unless the first of them is an update whose base had been given up, all are valid orders, and if no version that was extended has more than 2^31 nodes, each is an accepted update of the one before and all that was released in them is one contiguous valid path made of exactly their released edges |
| AgvTracking.VersionsIncrease | vda5050_core/src/master/agv.cpp:1082-1200 | over any run of a new vehicle, update ids strictly increase from version to version |
| AgvTracking.SentIsRecorded | vda5050_core/src/master/agv.cpp:1146-1200 | over any run, the routes that went out are, in order, the routes recorded, followed by the one in flight if there is one; all are valid orders |
| AgvTracking.RecordingIsValidIff | vda5050_core/src/master/order/order_lifecycle_manager.cpp:290-332 | recording an order in flight makes a valid order the active one iff the order was no update, or its base is still tracked, or it is a valid order by itself |
| AgvTracking.SentRoutesWalk | vda5050_core/src/master/order/order_publisher.cpp:58-126 | over any run of a new vehicle whose turns all see one layout, every order sent leads to a valid route that is a directed walk in it and the active order fits it; unless the active order was started by an update whose base had been given up, all that was released in its versions is one directed walk, extended versions having at most 2^31 nodes |
| AgvCompletion.CompleteIffReported | vda5050_core/src/master/order/order_lifecycle_manager.cpp:356-379 | over any run of a new vehicle, the active order counts as complete iff some State that reached the tracker reported its end, in the terms of `CompletionIsEnd`, and no order was recorded or given up since |
| AgvCompletion.SentAfterEnd | vda5050_core/src/master/order/order_stitcher.cpp:92-103 | over any run of a new vehicle, when an order without the stitch flag is sent while one of another id is active, the end of that one was reported and nothing recorded or given up since |
| AgvCompletion.OthersStartAfterEnd | vda5050_core/src/master/order/order_stitcher.cpp:92-103 | over any run of a new vehicle, between the recording of one order and that of an order with another id, the first is given up, or its end is reported by a State that reached the tracker, or an order of another id goes out under the stitch flag |
| AgvLost.GivenUpIffCleared | vda5050_core/src/master/order/order_lifecycle_manager.cpp:514-562 | over any run without a restart in which no other order begins, the active order is given up iff the order ids of the States that reach the tracker clear it, whatever else happens in between; from a fresh count iff at some point those of a third order since the last of the active order, and those of the previous order beyond the first five, are three together |
| AgvLost.LostOrderIsGivenUp | vda5050_core/src/master/order/order_lifecycle_manager.cpp:514-562 | so eight States that all report other orders are enough, in whatever state the run begins |
| AgvLost.GivingUpNeedsThree | vda5050_core/src/master/order/order_lifecycle_manager.cpp:514-562 | and from a fresh count fewer than three States, or States without a foreign order id, never suffice |
| AgvLost.LaggingOrderIsKept | vda5050_core/src/master/order/order_lifecycle_manager.cpp:526-545 | and a vehicle that still reports the previous order at most seven times, and otherwise the active one or none, keeps its order |
| AgvExamples.SwapLosesTheRoute | vda5050_core/src/master/master.cpp:935-963 | a run in which one loadable layout is swapped for another under an active order that fits the first: the last turn, with the second loaded, finds that the update passes every check and sends it, yet the route it leads to is no walk there |
| AgvExamples.UpdateIsOrphaned | vda5050_core/src/master/order/order_lifecycle_manager.cpp:290-332 | a run in which three States of another order clear the tracking between sending and recording an update: the bare update, no valid order, becomes the active one |
| AgvOvertaking.FlaggedUpdateOvertakes | vda5050_core/src/master/agv.cpp:1093-1095 | a run in which another order is recorded, and two turns later, with no State in between, an update released before goes out under the stitch flag and replaces it, although it is not complete |
| AgvSpec.TurnsWork | vda5050_core/src/master/agv.cpp:1029-1078 | a running processor gets something done at every turn until both queues are empty and everything sent is recorded |
| Agv.AGV.EnqueueOrder | vda5050_core/src/master/agv.cpp:892-922 | a full queue refuses a drained update always and an order unless the oldest may go; the queue never grows past the larger of limit and previous length |
| Agv.AGV.SendOrder | vda5050_core/src/master/agv.cpp:887-922 | an accepted order joins behind parked and live ones, and is logged once, an eviction before it |
| Agv.AGV.SendInstantActions | vda5050_core/src/master/agv.cpp:924-950 | the same rules for instant actions |
| Agv.AGV.CaptureAndDrainOnLeaveMasterControl | vda5050_core/src/master/agv.cpp:455-493 | the loops move both queues into the buffer in order; into an empty buffer the line of parked and live entries is unchanged, an older buffer is cleared |
| Agv.AGV.ResumeModeCancelledQueue | vda5050_core/src/master/agv.cpp:501-551 | the loops put parked entries back in front of later ones, the line is unchanged, their stitch flag is reset, and the limit does not apply |
| Agv.AGV.DiscardModeCancelledQueue | vda5050_core/src/master/agv.cpp:553-567 | exactly the parked entries are cleared |
| Agv.AGV.CancelPendingOrders | vda5050_core/src/master/agv.cpp:445-451 | exactly the live entries are cleared |
| Agv.AGV.OnStateHeartbeatTimeout | vda5050_core/src/master/agv.cpp:317-341 | silence is signalled only while watching and only when it takes effect |
| Agv.AGV.SetOperationalState | vda5050_core/src/master/agv.cpp:276-315 | silence never masks a lost connection or an error |
| Agv.AGV.SetConnectionStatus | vda5050_core/src/master/agv.cpp:233-274 | any lost connection makes the vehicle unavailable |
| Agv.AGV.StopQueueProcessor | vda5050_core/src/master/agv.cpp:998-1027 | joining the processor's thread records the order it sent last |
| Agv.AGV.Stop | vda5050_core/src/master/agv.cpp:131-151 | offline, silent, both queues cleared, workers off, caches and buffer kept |
| Agv.AGV.Restart | vda5050_core/src/master/agv.cpp:153-185 | as stop, then gates opened, tracker and parked queue emptied: all that is forgotten is logged |
| Agv.AGV.Pause | vda5050_core/src/master/agv.cpp:187-201 | unavailable with queues and caches kept |
| Agv.AGV.HandleConnection | vda5050_core/src/master/agv.cpp:383-443 | malformed changes nothing; the workers run iff online, the gates open exactly on the edge to online, queues and waiting updates are dropped exactly on a last will |
| Agv.AGV.HandleVisualization | vda5050_core/src/master/agv.cpp:696-735 | kept iff well-formed and not older than the newest seen since the gate opened |
| Agv.AGV.EnqueueReady | vda5050_core/src/master/agv.cpp:622-635 | the loop queues as many updates as there is room for, in order, and returns the rest in order to the front of the waiting ones; nothing is evicted |
| Agv.AGV.TrackState | vda5050_core/src/master/agv.cpp:618-635 | the updates the drain releases are appended as far as there is room, marked as stitched, the rest put back, those given up refused |
| Agv.AGV.HandleState | vda5050_core/src/master/agv.cpp:569-666 | malformed or stale changes nothing, but a stale one is still logged as seen, which is where the listener is poked; otherwise cached and available, recovery signalled exactly on the edge from silence, queues captured exactly from AUTOMATIC or SEMIAUTOMATIC to MANUAL, SERVICE or TEACHIN, with both modes, and the buffer kept otherwise |
| Agv.AGV.PublishOrder | vda5050_core/src/master/agv.cpp:1082-1191 | sent iff an adapter exists, the order carries the flag or is due (nothing active, or another order that is complete, or a newer update in time of an order confirmed with its last update), and every check passes; set aside iff it comes early and fewer than eight wait; refused otherwise |
| Agv.AGV.RecordInFlight | vda5050_core/src/master/agv.cpp:1192-1200 | what was sent is recorded in a second step, against whatever the tracker holds by then |
| Agv.AGV.ProcessOne | vda5050_core/src/master/agv.cpp:1029-1078 | one turn records what was sent last, or takes the oldest instant action if any, else the oldest order |
| Agv.AGV.ProcessQueues | vda5050_core/src/master/agv.cpp:1029-1078 | left alone, the running processor empties both queues and records everything, in a run of turns in which orders leave in the order they were queued |
| Agv.AGV.Step | vda5050_core/src/master/agv.cpp:131-1200 | any step does to the vehicle exactly what the state machine says, and logs exactly what it says |
| Agv.Run | vda5050_core/src/master/agv.cpp:131-1200 | so does any run of steps from a new vehicle, so that every law about runs holds of the object |
| Heartbeat.HeartbeatListener.Create | vda5050_core/src/master/heartbeat.cpp:42-56 | an interval that is not positive is refused |
| Heartbeat.HeartbeatListener.ReceivedConnection | vda5050_core/src/master/heartbeat.cpp:123-133 | a report counts only while the listener runs |
| Heartbeat.HeartbeatListener.Listen | vda5050_core/src/master/heartbeat.cpp:66-224 | for any schedule of reports, polls and a stop, the callback runs at exactly the events where the loop's memory says so |
| Heartbeat.GraceAndPolls | vda5050_core/src/master/heartbeat.cpp:156-185 | the timeout age is the interval and a tenth of it, polls are a quarter of it apart but at least a second, all in whole seconds rounded down |
| Heartbeat.FiresAtFirst | vda5050_core/src/master/heartbeat.cpp:188-224 | for polls at most some gap below the timeout age apart, the callback runs exactly at the first poll of a silence that sees the timeout age |
| Heartbeat.OncePerSilence | vda5050_core/src/master/heartbeat.cpp:188-224 | on such schedules a silence that some poll sees long enough is reported exactly once |
| Heartbeat.FiresInTime | vda5050_core/src/master/heartbeat.cpp:157-224 | on such schedules never before the timeout age, so not before the interval has passed, and always less than one gap after it, so less than one gap after eleven tenths of the interval |
| Heartbeat.FiresWithinTwice | vda5050_core/src/master/heartbeat.cpp:157-185 | with polls one check interval apart and an interval of at least two seconds, within twice the interval |
| Heartbeat.ExactIffDense | vda5050_core/src/master/heartbeat.cpp:188-224 | all schedules with polls at most a gap apart are reported exactly iff the gap is below the timeout age |
| Heartbeat.ExactIffTwoSeconds | vda5050_core/src/master/heartbeat.cpp:157-224 | every schedule polled exactly at the check interval is reported exactly iff the interval is at least two seconds |
| Heartbeat.OneSecondMisses | vda5050_core/src/master/heartbeat.cpp:188-224 | the schedule on which a one-second listener misses a silence |

## Left out

- OrderMerge.MergeOfAcceptedUpdate: gives the merged order where no sequence id wraps in the overlap; the other cases are those of `AcceptedUpdateMergesIff`.
- OrderMerge.AcceptedUpdateMergesIff: for orders of at most 2^31 nodes, since sequence ids repeat beyond that.
- OrderMerge.WrappedHorizonBreaks: for bases of at most 2^31 nodes, for the same reason.
- OrderPublisher.RouteFitsIffRestKnown: for an active order and an update of at most 2^31 nodes together, since beyond that an id no longer names one node.
- AgvLedger.LineIsFifo: not for runs in which the processor takes a live order while others are parked; what holds over every run is `AgvLedger.LineKeepsOrder`.
- AgvLost.GivenUpIffCleared: a restart gives up the order without counting, and another order starts a new count.
- AgvCompletion.OthersStartAfterEnd: not without its last case, which `AgvOvertaking.FlaggedUpdateOvertakes` shows to occur.
- AgvTracking.ActiveOrderIsOnePath: for extended versions of at most 2^31 nodes, or otherwise with an unambiguous stitch point.
- Agv.AGV.PublishOrder: taking an order off the queue, deciding on it, checking and sending it are one step, recording it is another; what other threads do inside the first is not interleaved.
- Agv.AGV.HandleState: the poke of the heartbeat listener is the log entry `StateSeen`; what the listener does with it is `Heartbeat.dfy`.
- Agv.AGV.ProcessOne: what publishing an instant action checks is not modelled.
- Threads, mutexes, condition variables and destructors: handlers and lock-guarded regions are atomic steps, time and check outcomes are inputs.
- Callbacks, fleet events, cached connection and factsheet, pose view, factsheet alignment.
- Schema, protocol-limit, reachability and capability checks: their outcomes are inputs of `OrderPublisher.Publish`.
- Reuse of an id held inside the graph as an argument, and iterator invalidation: ids are values.
- `get_node`, `get_edge`, `get_station` throw where the `Find` functions return `None`; `find_layout`, `dump_dot` and graph comparison are not part of this model.
- Fields of orders, nodes and edges that no modelled check reads, and message headers except the State's header id.
- Floating-point corner cases: coordinates, knots and weights are reals.
- Error texts and references: the kind and the level are kept.
- JSON and file loading, MQTT transport, bindings, `Engine`, `EventQueue`, `Provider`, `Handler` and the other validators.
- A queue limit of zero: the constructor of `Agv.AGV` asks for a positive one.
