# metasim tree collectives in Dafny

metasim servers run collectives over a rotated k-ary tree that no rank ever sees as a whole:
each rank computes its own parent and children from its rank, the number of ranks, the root
and the degree. Two collectives use the tree. `metasim-rpc.c` sums `rank + seed` with nested
RPCs: a handler asks its children, waits for them in order, adds its own value and replies.
`margotree.c` broadcasts a request and reduces a file size to its maximum with separate
response RPCs, one global state slot per rank and a mutex and condition variable at the root.
The client program `sum.c` runs sums in barrier-separated rounds so that only a limited
number is in flight.

The project models these pieces and proves what they promise, for every number of ranks, root
and degree, and for every interleaving.

| file | contents |
|---|---|
| `Arith`, `Int32` | division facts, finite sums; C integers |
| `KaryTree`, `SpanningTree`, `RpcTree` | what one rank computes; the separate views form one spanning tree; the in-place construction in C integers |
| `RankSums` | sums of `r + seed` over sets of ranks, the closed form |
| `SumProtocol`, `SumInvariant`, `SumResult`, `SumProgress` | one sum operation as a step machine with explicit failures: its invariant, its result, its termination |
| `SumServer`, `SumChecks` | `sum_forward` and its callers as imperative code; the machine against that code, the integer range |
| `SumComplete`, `SumClients` | when a result is complete, and what a return code and the clients' comparison tell of it |
| `SumLoad` | what an operation leaves behind at the servers, and exactly which failures make it |
| `SumServers` | any number of sums at once, with failures |
| `Throttle`, `ThrottledSums` | the rounds of `do_sum_limited`; clients at their barriers together with the servers |
| `FilesizeProtocol`, `FilesizeInvariant`, `FilesizeWorld` | the reduction as a step machine: one reduction rank by rank, then all consecutive reductions with slot, mutex and lifetimes |
| `FilesizeResult`, `FilesizeProgress`, `FilesizeTermination` | result, slot, use after free, conservation; no deadlock; finite runs |
| `FilesizeState` | `state_filesize_t` as a class with the code between two RPCs; the machine against that code |

## How the step machines are cut

A handler is cut at its RPC calls and blocking calls; the stretch between two of them is one
step and runs without interruption. That is an assumption about margotree: `num_responses++`
and the test that follows are not locked, and margo is started with four handler streams
(`server/src/margotree.c:647`). `margo_respond` is a cut too, so a caller may run on before
the handler that replied to it has done anything else; in noreply mode neither that cut nor
the wait for the reply exists, and both modes are covered. RPCs are reliable; every delivered
request gets a thread, and a blocked thread blocks no other. `ABT_cond_wait` does not wake up
by itself, since the code does not test again after it.

Sum operations share no mutable state in the servers, so several operations are several
machines side by side. Reductions do share the slot `glb_st`, so there all reductions are one
machine; a response handler updates whatever state the slot points to. Every reduction has a
degree and a reply mode of its own. The reduction's number on threads, messages and states is a
label of the model: the tags in the code are stored but never looked up.

In the sum machine `corpc_get_handle` and `corpc_forward_request` failing are one action (the
request is not sent), `corpc_wait_request` failing is another and may happen whether or not
the reply is there. A handler may lack the memory for its tree, and a server may have lacked it
for its cached tree at start-up; both go on without children as the code does. Failures are
part of every result about sums unless it says otherwise; failure-free runs start with the
cached tree. A step is called a failure if it is one of these; it is harmless if every rank that the failing handler had asked has returned.

In the benchmark the root of `MPI_Gather` waits for the times of all others, and the others do
not wait.

## Where the code does less than one might expect

- The return code of a sum is about the invoking rank only. A failure deeper in the tree is
  logged there and the partial sum replied, so `metasim_rpc_invoke_sum` can return 0 with
  ranks missing. Success means a complete result exactly if the server is alone, or has its
  cached tree and there are at most three servers (`SumComplete.SuccessMeansCompleteIff`). A
  result is complete exactly if no helper failed anywhere and every handler with children had
  its tree (`SumComplete.CompleteIffLossless`).
- The clients compare what they receive, which is -1 after an error, with the expected sum.
  With a seed of at least 1 that tells whether the result is complete. With seed 0, which
  client 0 uses, the contribution of rank 0 can be missing unnoticed: exactly if rank 0 is a
  leaf and the last child of a rank other than the root, for instance with 4 servers and root
  1; and, for a server without its cached tree, if it is rank 1 of two
  (`SumClients.CheckTellsIff`).
- A call can return while handlers it caused are still at work, unless the server is alone or
  has no cached tree (`SumLoad.NeverLeavesAnythingIff`). This happens exactly through failures of a handler that
  has asked a rank that has not returned (`SumLoad.HarmlessIffNothingLeft`); a handler without
  memory for its tree, or failing at its first request, does no harm. The bound on the load
  holds from a state on, harmful failures aside, exactly if no handler has returned there
  before the ranks it asked (`SumServers.BoundIffTidy`); once the abandoned handlers have
  returned it holds again.
- `metasim_rpc_register` ignores whether the cached tree could be built. If not, every sum that
  this server invokes returns success and its own contribution alone
  (`SumResult.NoTreeSumsOneRank`).
- `calculate_expected_sum` forms `n*(n-1)` before halving. It stays in range exactly if the sum
  does and there are at most 46341 ranks (`Throttle.ExpectedFitsIff`); with seed 0 the sum itself
  would be in range up to 65536 (`Throttle.ExpectedOverflowsFirst`).
- The option `--limited` takes negative numbers; the promise "at most N in parallel" is kept
  exactly for positive ones (`Throttle.PromiseNeedsPositiveLimit`). A negative one gives one
  round for all ranks, or none at all (`Throttle.RoundCount`).
- The header comments speak of a tree rooted at rank 0; the code builds it for any root. A
  comment in `margotree.c` speaks of a map from tags to states; the code has one slot. The
  model follows the code in both.

## Model

| member | source | states |
|---|---|---|
| KaryTree.RotateInverse | server/src/metasim-rpc-tree.c:41-46 | rotating and unrotating around the root are inverse, and only the root is at distance 0 |
| KaryTree.RotationIsModular | server/src/metasim-rpc-tree.c:41-46 | unrotating is subtracting, rotating adding the root modulo the number of ranks |
| KaryTree.ViewIsModular | server/src/metasim-rpc-tree.c:61-125 | parent, number of children and each child of a rank, as arithmetic on rank, ranks, root and degree |
| KaryTree.ParentIsCloser | server/src/metasim-rpc-tree.c:76-79 | every rank but the root computes a parent that is a rank, and closer to the root |
| KaryTree.ChildPointsBack | server/src/metasim-rpc-tree.c:81-101 | whoever is in a rank's child list computes that rank as parent, and its position in the list as slot |
| KaryTree.ParentLists | server/src/metasim-rpc-tree.c:111-125 | every rank but the root stands at its slot in the list its parent computes |
| SpanningTree.LocalViewsAgree | server/src/metasim-rpc-tree.c:76-125 | c is in the child list of p if and only if c computes parent p; only the root has parent -1 |
| SpanningTree.ChildListsPartition | server/src/metasim-rpc-tree.c:86-101 | the child lists of all ranks together contain every rank but the root exactly once |
| SpanningTree.ReachesRoot | server/src/metasim-rpc-tree.c:76-79 | following parent ranks reaches the root after exactly Depth steps, fewer than there are ranks |
| SpanningTree.SiblingsDisjoint | server/src/metasim-rpc-tree.c:97-100 | different children of one rank have disjoint subtrees |
| SpanningTree.DepthExactly | server/src/metasim-rpc-tree.c:76-84 | which virtual ranks lie at which depth, between powers of the degree |
| SpanningTree.DepthBound | server/src/metasim-rpc-tree.c:76-84 | k^depth is at most (ranks-1)(k-1)+1; for degree 2 at most ranks |
| RpcTree.Tree.Init | server/src/metasim-rpc-tree.c:32-128 | every field and array entry of the object built in place, as arithmetic on the arguments; so it is the rank's view of the tree; ENOMEM leaves a childless one |
| RpcTree.ParentInTree | server/src/metasim-rpc-tree.c:76-79 | parent_rank as computed and rotated |
| RpcTree.ChildRange | server/src/metasim-rpc-tree.c:81-95 | leftmost child and number of children, the last group cut off, never more than k |
| RpcTree.FillChildren | server/src/metasim-rpc-tree.c:97-100 | consecutive children are written, the rest of the array stays |
| RpcTree.RotateChildren | server/src/metasim-rpc-tree.c:119-125 | exactly the written entries are rotated, in place |
| RpcTree.ChildrenInTree | server/src/metasim-rpc-tree.c:81-125 | the front of the array becomes the child list |
| RpcTree.IndicesFit | server/src/metasim-rpc-tree.c:61-125 | all index arithmetic of all ranks and roots stays in int if and only if k*ranks and 2*ranks-2 do |
| SumServer.Server.Register | server/src/metasim-rpc.c:322-337 | the cached bcast_tree is this rank's view of the tree rooted here, or childless if there was no memory |
| SumServer.Server.SendAll | server/src/metasim-rpc.c:200-215 | requests go to the children in order up to the first failing handle or send, whose code is returned |
| SumServer.Server.CollectAll | server/src/metasim-rpc.c:217-238 | results are added in order up to the first failing wait, whose code is returned |
| SumServer.Server.SumForward | server/src/metasim-rpc.c:169-248 | the sum is the collected results and the own contribution; the code is that of the handle, send or wait that failed first, else 0; requests name the children in order; nothing is written if calloc fails |
| SumServer.Server.HandleSum | server/src/metasim-rpc.c:250-280 | a handler asks its children in the tree of the root named in the request, or nobody without memory, naming that root and seed, and replies its sum whatever failed; only a failing calloc leaves the reply undefined |
| SumServer.Server.InvokeSum | server/src/metasim-rpc.c:283-316 | the invoker asks the children of the cached tree, naming itself as root; the code is that of the helper or calloc that failed first; *sum is set only on success |
| SumServer.Server.HandleClientSum | server/src/metasim-listener.c:149-190 | the client gets the sum on success, and -1 with an error code otherwise |
| SumInvariant.InvokeInv | server/src/metasim-rpc.c:300-303 | a fresh operation satisfies the invariant |
| SumInvariant.StepInv | server/src/metasim-rpc.c:169-280 | every step, failing or not, keeps: one request per issued slot, one reply per finished handler, sums match collected results |
| SumInvariant.RunInv | server/src/metasim-rpc.c:169-280 | the invariant holds throughout every run |
| SumResult.CoverageSplits | server/src/metasim-rpc.c:217-238 | the ranks in a result are the rank itself and those its collected children cover |
| SumResult.ResultIsPartialSum | server/src/metasim-rpc.c:240-247 | whatever failed, a result is the sum of r+seed over the ranks it covers, each once |
| SumResult.PartialSumInEveryRun | server/src/metasim-rpc.c:200-247 | in every run each returned value is the sum over a path-closed set of ranks of its subtree |
| SumResult.CompleteIffGathered | server/src/metasim-rpc.c:222-247 | the invoker's result covers all ranks exactly when every rank gathered all its children |
| SumResult.SumIsExpectedIff | server/src/metasim-rpc.c:240-247 | with seed >= 0 the invoker's sum is never too large, and the expected one exactly when all ranks with nonzero contribution are in it |
| SumResult.ClientCheck | examples/src/sum.c:33-48 | what a client receives (-1 after an error) is never too large, and what it expects exactly when the call succeeded and all ranks with nonzero contribution are in the sum |
| SumResult.ClientCheckDecides | examples/src/sum.c:33-48 | with seed >= 1 the client's comparison succeeds exactly when every rank gathered all its children |
| SumResult.NoTreeSumsOneRank | server/src/metasim-rpc.c:335-336 | with the childless cached tree the only run is the invoker returning success and its own contribution |
| SumClients.CheckTellsIff | examples/src/sum.c:33-63 | a client that receives what it expects has a complete result, in all runs, if and only if its seed is at least 1 or rank 0 cannot get lost alone |
| SumClients.ZeroLosableIs | server/src/metasim-rpc-tree.c:76-95 | rank 0 is a leaf and the last child of a rank other than the root exactly under the stated arithmetic condition |
| SumClients.LostAloneIsLastLeaf | server/src/metasim-rpc.c:217-248 | the only rank missing from a successful result is a leaf and the last child of a rank other than the root |
| SumClients.LoseZero | server/src/metasim-rpc.c:217-248 | for every such tree a run with seed 0 in which the client receives what it expects without rank 0 |
| SumComplete.CompleteIffLossless | server/src/metasim-rpc.c:200-270 | a finished call's result covers all ranks if and only if no request and no wait failed, no handler with children lacked its tree, and the invoker had its own |
| SumComplete.SuccessMeansCompleteIff | server/src/metasim-rpc.c:270-336 | success of every call by a root means a complete result if and only if it is alone, or has its cached tree and there are at most three ranks |
| SumComplete.LossySuccess | server/src/metasim-rpc.c:200-279 | with four or more ranks, for every root: a run with success and ranks missing |
| SumResult.HealthyResult | server/src/metasim-rpc.c:250-316 | when a failure-free invoker returned, every rank ran and returned, and the result is the closed form |
| SumResult.SumIsExact | server/src/metasim-rpc.c:283-316 | in every failure-free interleaving the call returns success and n(n-1)/2 + n*seed |
| RankSums.SumOfAll | examples/src/sum.c:53-63 | the sum over all ranks is the clients' closed form |
| RankSums.MissingRanksLowerTheSum | examples/src/sum.c:44-63 | leaving ranks out lowers the sum unless their contributions are 0 |
| SumProgress.WaitsOnlyDeeper | server/src/metasim-rpc.c:218-226 | a waiting handler waits on a rank one level deeper, which is on its way |
| SumProgress.HandlerCanProceed | server/src/metasim-rpc.c:200-238 | below every unfinished handler some step that is not a failure is possible |
| SumProgress.NeverStuck | server/src/metasim-rpc.c:200-238 | an operation that is not settled can take a step; a settled one has returned |
| SumProgress.StepUsesBudget | server/src/metasim-rpc.c:200-280 | every step strictly lowers a natural-number budget |
| SumProgress.EveryRunEnds | server/src/metasim-rpc.c:200-280 | a run on n ranks has at most 9n steps, and one that cannot go on has returned |
| SumProgress.CanFinish | server/src/metasim-rpc.c:200-248 | from every state, whatever failed before, the call can come to its end without further failures |
| SumProgress.ExactlyOnce | server/src/metasim-rpc.c:200-215 | every other rank is sent and starts at most one request, exactly one without failures |
| SumProgress.RootStartsOnce | server/src/metasim-rpc.c:300-303 | nobody sends the root a request |
| SumProgress.RequestsInAll | server/src/metasim-rpc.c:200-215 | a finished failure-free operation issued exactly ranks-1 requests |
| SumChecks.AccumulatorsFit | server/src/metasim-rpc.c:229-242 | every accumulator and every value added to it is an int32, if the extreme subset sums are |
| SumChecks.TotalFitsSuffices | server/src/metasim-rpc.c:174-176 | for seed >= 0 it is enough that the final total fits |
| SumChecks.HandlerIsSumForward | server/src/metasim-rpc.c:169-248 | a returned handler of the machine has exactly the outcome sum_forward has for the answers it met, and sum_forward may be called on them if the extreme subset sums are in range |
| SumChecks.MachineSends | server/src/metasim-rpc.c:200-215 | the machine's next request goes to the next child in the operation's tree and names its root and seed, as the code's does |
| SumChecks.ReceivedIsAnswer | server/src/metasim-listener.c:167-175 | what the client receives in the machine is the listener's answer for the replies and failures the invoker met |
| SumLoad.NothingLeftIffTidy | server/src/metasim-rpc.c:200-238 | when the invoker has returned, no handler is at work and no request in flight if and only if no handler returned before the ranks it asked |
| SumLoad.StepTidy | server/src/metasim-rpc.c:200-226 | that order is kept by exactly the harmless steps |
| SumLoad.HarmlessRunLeavesNothing | server/src/metasim-rpc.c:200-248 | a call whose failures are harmless leaves nothing at any server |
| SumLoad.FinishAround | server/src/metasim-rpc.c:217-248 | while an abandoned handler is at work the rest of the call can come to its end without it |
| SumLoad.HarmfulLeavesHandler | server/src/metasim-rpc.c:200-226 | after one harmful failure, and no other, the invoker can return while a handler is at work |
| SumLoad.TidyIffNothingLeftFromNowOn | server/src/metasim-rpc.c:200-248 | no handler has returned before the ranks it asked if and only if all failure-free continuations leave nothing behind |
| SumLoad.HarmlessIffNothingLeft | server/src/metasim-rpc.c:200-248 | a step from such a state is harmless if and only if all failure-free continuations leave nothing behind |
| SumLoad.NeverLeavesAnythingIff | server/src/metasim-rpc.c:200-248 | the calls of a root never leave anything behind, whatever fails, if and only if it is alone or lacks its cached tree |
| SumServers.EveryConcurrentSumIsExact | server/src/metasim-rpc.c:250-316 | however operations overlap, one that meets no failure itself returns its closed form, whatever happens to the others |
| SumServers.EveryConcurrentValueIsPartialSum | server/src/metasim-rpc.c:250-316 | however they overlap and fail, every value returned is the sum over a path-closed set of ranks |
| SumServers.ServersNeverStuck | server/src/metasim-rpc.c:250-279 | no set of overlapping operations blocks itself, whatever failed before |
| SumServers.EveryConcurrentRunEnds | server/src/metasim-rpc.c:250-279 | M operations take at most M(9n+1) steps in all, failures included |
| SumServers.LoadBound | server/src/metasim-rpc.c:268-277 | while no handler returned before the ranks it asked, no server holds more live activations than operations are in flight |
| SumServers.LoadBoundInEveryRun | server/src/metasim-rpc.c:268-277 | so in every run without harmful failures |
| SumServers.HarmfulBreaksLoadBound | server/src/metasim-rpc.c:200-226 | after any harmful failure the servers can come to a state with nothing in flight and a handler at work |
| SumServers.BoundIffTidy | server/src/metasim-rpc.c:200-279 | the bound holds however the servers go on without harmful failures if and only if no handler has returned before the ranks it asked |
| SumServers.LoadBoundIffHarmless | server/src/metasim-rpc.c:200-279 | so a step from such a state is harmless if and only if the bound goes on holding |
| Throttle.CalculateExpectedSum | examples/src/sum.c:53-63 | the C computation gives the closed form when its intermediate values fit |
| Throttle.ExpectedFitsIff | examples/src/sum.c:53-63 | the formula stays in int for a client rank if and only if its sum does and there are at most 46341 servers |
| Throttle.ExpectedOverflowsFirst | examples/src/sum.c:59-60 | with seed 0 the sum fits up to 65536 ranks, the formula up to 46341 |
| Throttle.RoundCount | examples/src/sum.c:123-127 | enough rounds for all ranks, and one fewer would not be; for a negative limit one round or none |
| Throttle.RoundsAreLeast | examples/src/sum.c:123-127 | r rounds of the given size have room for all ranks if and only if r is at least the number of rounds |
| Throttle.RoundSize | examples/src/sum.c:142-151 | a round has at most `limited` ranks |
| Throttle.PromiseNeedsPositiveLimit | examples/src/sum.c:123-151 | every rank gets a turn and no round exceeds the limit, exactly if the limit is positive |
| Throttle.DoSumLimited | examples/src/sum.c:139-156 | the barriers, calls and gathers of a rank are its schedule |
| Throttle.OneTurnPerRepeat | examples/src/sum.c:142-151 | each round of a schedule is a barrier, the call exactly if it is the rank's round, a barrier |
| Throttle.GatherEndsRepeat | examples/src/sum.c:153-155 | each repeat ends with the gather, and nothing follows the last |
| Throttle.OneRunPerRepeat | examples/src/sum.c:139-151 | a schedule has as many calls as there are repeats |
| ThrottledSums.Setup.RoundsEach | examples/src/sum.c:123-127 | the benchmark's rounds have room for all clients, and one fewer would not |
| ThrottledSums.LimitedAt | examples/src/sum.c:139-156 | a client's schedule in the benchmark is what do_sum_limited does at its rank |
| ThrottledSums.MoveInv | examples/src/sum.c:142-156 | every move of clients and servers keeps them in step and every operation in flight owned by one caller |
| ThrottledSums.PlayIsServe | examples/src/sum.c:33-41 | what the servers do in a play of the benchmark is a run of the servers |
| ThrottledSums.CallersShareARound | examples/src/sum.c:143-150 | the clients inside a call all belong to one round, and are at most `limited` |
| ThrottledSums.AtMostLimited | examples/src/sum.c:107-156 | at most `limited` operations are in flight in every reachable state, and without harmful failures at most as many live activations at each server |
| ThrottledSums.EveryCallReturnsExpected | examples/src/sum.c:33-48 | every measured call that meets no failure itself gives its client the sum it expects; none gives more, and as much exactly on success with all nonzero contributions |
| ThrottledSums.ClientsNeverBlocked | examples/src/sum.c:139-156 | barriers, gathers and calls never block each other, whatever failed |
| ThrottledSums.NobodyRunsAhead | examples/src/sum.c:143-155 | a client past a barrier, or client 0 past a gather, shows that all have come that far |
| ThrottledSums.EveryPlayEnds | examples/src/sum.c:139-156 | every play is finite, and one that cannot go on has every client through its schedule with exactly `repeat` calls |
| FilesizeState.StateFilesize.Alloc | server/src/margotree.c:199-225 | a new state with the rank's view of the tree |
| FilesizeState.AllocAtRoot | server/src/margotree.c:762-764 | the state main allocates is the one the machine starts a reduction with |
| FilesizeState.AllocForRequest | server/src/margotree.c:501-502 | the state a request handler allocates is the one the machine allocates for that request |
| FilesizeState.StateFilesize.ResponseForward | server/src/margotree.c:373-430 | with all responses in, the own size is taken and the result goes to the parent or wakes the root |
| FilesizeState.StateFilesize.TakeResponse | server/src/margotree.c:538-556 | maximum, error and count are updated, then the result is passed on if and only if it is complete |
| FilesizeState.StateFilesize.RequestForward | server/src/margotree.c:432-462 | all children are asked in order; a leaf passes its result on at once |
| FilesizeState.MachineResponds | server/src/margotree.c:373-430 | whatever meets the contract of ResponseForward posts the message and starts the thread that the machine does |
| FilesizeState.MachineTakesResponse | server/src/margotree.c:538-556 | likewise for a response being counted |
| FilesizeState.MachineEndsForward | server/src/margotree.c:458-461 | likewise for a leaf at the end of its loop |
| FilesizeInvariant.LocalKeeps | server/src/margotree.c:432-557 | every action of a reduction keeps the message balances, counters, maxima and state lifetimes of every rank |
| FilesizeInvariant.CountKeeps | server/src/margotree.c:538-556 | so does counting a response in the reduction's own state, which is live and incomplete then |
| FilesizeWorld.SlotIsRight | server/src/margotree.c:496-541 | a response about to be counted finds, in glb_st, the live state of its own reduction |
| FilesizeWorld.RootUpMeansAllUp | server/src/margotree.c:385-410 | when the root's result is complete, every rank's is, and counted |
| FilesizeWorld.ActInv | server/src/margotree.c:754-842 | every action keeps old reductions retired, the slots current, and mutex, signaller and main thread in agreement |
| FilesizeResult.EveryResultIsMaximum | server/src/margotree.c:751-786 | every result the root reads is 100*(ranks-1), each reduction with a degree and reply mode of its own |
| FilesizeResult.RootMaximum | server/src/margotree.c:386-393 | the maximum gathered along the child lists is that over all ranks |
| FilesizeResult.EachInItsMode | server/src/margotree.c:751-810 | every state and every request of a reduction carries the root, degree and reply mode planned for it |
| FilesizeResult.AsksItsChildren | server/src/margotree.c:432-462 | a rank asks the entries of its child list in that tree, in order, and waits for the answers in reply mode |
| FilesizeResult.OnlySendingAsks | server/src/margotree.c:444-456 | nothing else posts a request |
| FilesizeResult.SlotNeverStale | server/src/margotree.c:538-556 | in every run of consecutive reductions the slot is never stale when a response is counted |
| FilesizeResult.NoUseAfterFree | server/src/margotree.c:400-461 | no action of any run reads, writes or frees a freed state |
| FilesizeResult.UntouchedStays | server/src/margotree.c:373-461 | an action changes no state but those it is said to touch |
| FilesizeResult.ChildIsSomewhere | server/src/margotree.c:444-456 | every child is in exactly one of five stages |
| FilesizeResult.ResponsesConserved | server/src/margotree.c:385-410 | num_responses and the outstanding children add up to child_count; the result is passed on exactly when none is outstanding |
| FilesizeResult.PassedOnOnce | server/src/margotree.c:400-410 | a rank sends its response at the step that completes its result, and never again |
| FilesizeProgress.OneResponseEach | server/src/margotree.c:400-410 | over a run each rank but the root sends at most one response per reduction, and exactly one when all is over |
| FilesizeResult.SignalFindsWaiter | server/src/margotree.c:417-424 | the signal never comes before the wait and always wakes the root |
| FilesizeResult.MainNeverSignals | server/src/margotree.c:458-461 | with more than one rank the main thread never reaches the signalling branch |
| FilesizeResult.FreedAfterUnlock | server/src/margotree.c:780-794 | the root frees its state only after the signalling handler's unlock |
| FilesizeProgress.NeverBlocked | server/src/margotree.c:767-794 | no deadlock and no lost wakeup: until all is over some action is possible |
| FilesizeProgress.NothingLeaks | server/src/margotree.c:400-444 | in the end every result was delivered and every allocated state freed |
| FilesizeTermination.EveryRunEnds | server/src/margotree.c:804-842 | a reduction takes at most 13n+4 steps, so every run is finite, and one that cannot go on has delivered all results |

## Left out

- SumServer.Server.HandleSum: what a handler replies when calloc fails in sum_forward is an unset variable (`server/src/metasim-rpc.c:195-198`); the contract says so, the step machine does not have that failure.
- FilesizeState.StateFilesize.RequestForward: takes the loop whole; the responses that other handlers count between two of its requests are in the step machine only.
- FilesizeState.StateFilesize.Alloc: malloc failing here or in `tree_init` of `margotree.c` is not modelled; the code goes on with a null pointer.
- Margo, Mercury and Argobots themselves, address lookup, handles: reliable send, deliver, reply and wait, with failures as explicit actions in the sum collective only.
- Data races between handler streams: see "How the step machines are cut".
- `margo_get_output` and `margo_get_input` failing: unchecked in the sum handler, and an early return without a reply.
- A request that is reported as not sent but arrives all the same.
- A failure source for the file size: no code sets `err`, so it is carried and stays 0.
- The tags of requests and responses as lookup keys: never used as such.
- A different root for each reduction: `main` always starts them at rank 0; the model takes any one root for all.
- The unlimited warm-up sum in `do_sum_limited`; the serial and the unlimited benchmark; the times that MPI_Gather collects.
- Ping, echo, init, terminate and sumrepeat, the client library, the rest of the listener, logging, option parsing, timing.
- Wrap-around: signed overflow is undefined in C, so integer code is modelled where its values fit, and where they fit is proved.
