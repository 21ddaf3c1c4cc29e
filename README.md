# SolidityNode block synchronisation, modelled in Dafny

A solidity node replicates blocks that are already solidified from one
trusted upstream node. It applies them in order to its local database. The
model covers the node's synchronisation core, which lives in
`SolidityNode.java`:

- **Startup reconciliation.** When the local head is above the persisted
  latest solidified block number (the *marker*), the marker is raised to
  the head. Otherwise nothing is written.
- **The fetcher** (`getBlock`). It keeps a cursor `ID` and the last known
  upstream height `remoteBlockNum`. In each iteration it either re-reads the
  upstream height or fetches the block at the cursor. A fetched block is put
  into `blockQueue`, which holds at most 100 blocks, and the cursor then
  advances.
- **The applier** (`processBlock` / `loopProcessBlock`). It takes the oldest
  block and pushes it into the local database. On success it saves the
  block's own number as the marker. On failure it fetches the same height
  again from the upstream and retries.
- **`getBlockByNum`.** It retries until the upstream answers with a block
  whose header number is the requested height.

Files:

- `upstream.dfy` (module `Upstream`): blocks, the upstream's answers, and
  the two retry loops that read from the upstream.
- `pipeline.dfy` (module `Pipeline`): the pipeline as a state machine. It
  defines the state `Node`, the atomic steps `Event`, the functions `Next`
  and `Run`, and the invariant `Inv`. The lemmas over runs prove the
  ordering guarantees.
- `local_store.dfy` (module `LocalStore`): the parts of the local database
  that the node uses.
- `solidity_node.dfy` (module `Solidity`): the class `SolidityNode`. Its
  methods are tied to the state machine as follows:
  - The constructor leaves the state `Boot` gives. Its reconciliation step,
    `ResolveCompatibilityIssueIfUsingFullNodeDatabase`, leaves `Reconcile`
    of the old state. Neither is a loop iteration.
  - `Start` (thread start plus the fetcher's first cursor increment) makes
    the one `Next` step `Start`.
  - `GetBlockIteration` is one fetcher-loop iteration. It makes one `Next`
    step (`Refresh` or `Put`), except when `put` throws; then it makes no
    step and the state is unchanged.
  - `TakeBlock` and `ApplyAttempt` each make one `Next` step.
  - `LoopProcessBlock` and `ProcessBlockIteration` each make a `Run` of
    steps: the failed attempts, the accepted one, and, for the latter, the
    take before them.
- `scenarios.dfy`: clients that replay small runs using only the method
  contracts.

The two threads are modelled as atomic steps that can interleave in any
order. A thread that would block is a step that is not enabled. A `put` on a
full queue is a precondition `|blockQueue| < 100`, and a `take` on an empty
queue is a precondition that the queue is non-empty.

The upstream and the local store are oracles. A retry-forever loop takes a
finite sequence of answers and stops at the first good one, so it is any
number of failed attempts followed by one that succeeds. Whether the local
store accepts a pushed block is a boolean input.

In the code, the refresh of `remoteBlockNum` (`SolidityNode.java:75`) is a
plain assignment, not a maximum, so the known upstream height can go down.
The model follows the code. This cannot make the fetcher skip or repeat a
height: a refresh only happens while the cursor is already above the old
value, and the cursor never moves during a refresh.

## Model

| member | source | states |
|---|---|---|
| Upstream.FirstMatch | dapp-chain/side-chain/src/main/java/org/tron/program/SolidityNode.java:117-136 | the attempt at which a fetch of height h succeeds: its answer is a block numbered h, and every earlier answer was an exception or a block with another number |
| Upstream.Fetched | dapp-chain/side-chain/src/main/java/org/tron/program/SolidityNode.java:117-136 | the block a fetch of h yields carries number h and is one of the upstream's answers |
| Upstream.GetBlockByNum | dapp-chain/side-chain/src/main/java/org/tron/program/SolidityNode.java:117-136 | returns only a block whose own number equals the requested height; failed calls and mismatched blocks are retried for the same height; the block is the first matching answer |
| Upstream.FirstAnswer | dapp-chain/side-chain/src/main/java/org/tron/program/SolidityNode.java:138-152 | the attempt at which reading the upstream height succeeds is the first one that did not throw |
| Upstream.LatestRemote | dapp-chain/side-chain/src/main/java/org/tron/program/SolidityNode.java:138-152 | the height a read of the upstream yields is one of the upstream's answers (the first that did not throw, by FirstAnswer) |
| Upstream.GetLastSolidityBlockNum | dapp-chain/side-chain/src/main/java/org/tron/program/SolidityNode.java:138-152 | returns the value of the first call that did not throw; all earlier calls threw |
| Pipeline.Next | dapp-chain/side-chain/src/main/java/org/tron/program/SolidityNode.java:69-115 | one atomic iteration of getBlock, processBlock or loopProcessBlock: fetcher steps never touch the marker, the applied blocks or the block in hand; applier steps never touch the cursor or the remote height; no step touches the local head; Put is enabled only with room in the queue (< 100) and a block numbered with the cursor; Refresh only when the cursor is past the remote height; a re-fetch after a refused push keeps the held height |
| Pipeline.Run | dapp-chain/side-chain/src/main/java/org/tron/program/SolidityNode.java:69-115 | a sequence of loop iterations: it never changes the local head, and the log of marker writes only grows at its end |
| Pipeline.Reconcile | dapp-chain/side-chain/src/main/java/org/tron/program/SolidityNode.java:161-171 | the marker becomes max(marker, head); nothing is written exactly when the marker is already at or above the head; otherwise the head is written once; nothing else changes |
| Pipeline.Boot | dapp-chain/side-chain/src/main/java/org/tron/program/SolidityNode.java:48-54 | after construction the marker is max(stored marker, head), the cursor equals that reconciled marker, the remote height is the value read, nothing is queued, and the pipeline invariant holds |
| Pipeline.NextKeepsInv | dapp-chain/side-chain/src/main/java/org/tron/program/SolidityNode.java:69-115 | every fetcher or applier step keeps the invariant: the queue holds at most 100 blocks, its heights are contiguous and ascending up to cursor - 1, and the block in hand is marker + 1 |
| Pipeline.StepWritesNextMarker | dapp-chain/side-chain/src/main/java/org/tron/program/SolidityNode.java:100-115 | only an accepted push writes the marker; it writes marker + 1, the pushed block's own number; every other step, including a refused push, leaves the marker, its log and the applied blocks unchanged |
| Pipeline.RunSnoc | dapp-chain/side-chain/src/main/java/org/tron/program/SolidityNode.java:69-115 | a run extended by one event ends where one more step from the run's end state ends |
| Pipeline.RunKeepsInv | dapp-chain/side-chain/src/main/java/org/tron/program/SolidityNode.java:69-115 | every interleaving of fetcher and applier steps keeps the invariant: the queue never exceeds 100 blocks and stays contiguous and ascending, ending at cursor - 1 |
| Pipeline.RunWritesConsecutiveMarkers | dapp-chain/side-chain/src/main/java/org/tron/program/SolidityNode.java:88-115 | over any run the marker never decreases; the values written are exactly marker + 1, marker + 2, ... in order (ascending, gap-free); the applied blocks have exactly these heights |
| Pipeline.RunFetchesConsecutiveHeights | dapp-chain/side-chain/src/main/java/org/tron/program/SolidityNode.java:69-86 | once started, the fetcher puts heights cursor, cursor + 1, ... in order, each exactly once; the cursor ends just past the last height put |
| Pipeline.LifetimeMarkersAscend | dapp-chain/side-chain/src/main/java/org/tron/program/SolidityNode.java:48-115 | from construction onward every marker value written is above the marker the node was built on, and the values strictly ascend; the earlier log is kept as it was |
| LocalStore.Store.SaveLatestSolidifiedBlockNum | dapp-chain/side-chain/src/main/java/org/tron/program/SolidityNode.java:105 | the marker becomes n and n is appended to the marker's log; the head and the applied blocks are unchanged |
| LocalStore.Store.PushVerifiedBlock | dapp-chain/side-chain/src/main/java/org/tron/program/SolidityNode.java:104 | an accepted block is appended to the applied blocks; a refused one changes nothing; the marker is never touched |
| Solidity.SolidityNode.constructor | dapp-chain/side-chain/src/main/java/org/tron/program/SolidityNode.java:48-54 | reconciles the marker, sets the cursor to the reconciled marker, and reads the remote height once; the resulting state is Boot of the store's old state |
| Solidity.SolidityNode.ResolveCompatibilityIssueIfUsingFullNodeDatabase | dapp-chain/side-chain/src/main/java/org/tron/program/SolidityNode.java:161-171 | the new state is Reconcile of the old state |
| Solidity.SolidityNode.Start | dapp-chain/side-chain/src/main/java/org/tron/program/SolidityNode.java:56-70 | the first height the fetcher asks for is the reconciled marker + 1 |
| Solidity.SolidityNode.GetBlockIteration | dapp-chain/side-chain/src/main/java/org/tron/program/SolidityNode.java:71-85 | with the cursor past the remote height: the remote height is replaced by a fresh read (plain assignment), and the cursor and queue are unchanged; otherwise exactly one block, numbered with the cursor height, is appended at the tail and then the cursor moves up by exactly 1; if put throws, nothing changes; each case is one Next step |
| Solidity.SolidityNode.TakeBlock | dapp-chain/side-chain/src/main/java/org/tron/program/SolidityNode.java:91 | the applier holds the oldest queued block, which is marker + 1, and the queue loses exactly that block |
| Solidity.SolidityNode.ApplyAttempt | dapp-chain/side-chain/src/main/java/org/tron/program/SolidityNode.java:101-113 | accepted: the marker becomes the block's own number and the block is applied; refused: the marker, its log and the applied blocks are unchanged, and the block held is a fresh fetch of the same height |
| Solidity.SolidityNode.LoopProcessBlock | dapp-chain/side-chain/src/main/java/org/tron/program/SolidityNode.java:100-115 | after any number of refusals and then an acceptance, the marker is the held height, written once; exactly one block is applied; after any refusal that block is the one the last re-fetch returned, not the one first dequeued |
| Solidity.SolidityNode.ProcessBlockIteration | dapp-chain/side-chain/src/main/java/org/tron/program/SolidityNode.java:88-98 | takes the head of the queue and moves the marker from m to exactly m + 1, which is the taken block\'s height; the queue loses its head; exactly one block is applied: the taken block if the first push is accepted, otherwise the block the last re-fetch returned |

## Left out

- The two threads, the `volatile flag`, and what `AtomicLong` and `LinkedBlockingDeque` do under concurrency (`SolidityNode.java:38-46`, `:56-67`). The threads are modelled as interleaved atomic steps. The flag is never cleared anywhere in the file, so the loops never exit, and the model has no stop step.
- The gRPC client, `sleep`, the back-off delays, timing and logging. These are I/O and wall-clock time. The upstream's answers are parameters.
- Liveness. That the upstream eventually answers and the store eventually accepts is an assumption. The model does not prove it. The "eventually" is a precondition that a good answer exists in the given sequence.
- `main`, `mockWitness` and the maintenance-time set-up in `main` (`SolidityNode.java:176-287`). These are bootstrap and deployment fixtures.
- The internals of `Manager.pushVerifiedBlock` and of the dynamic-properties store. A push is accepted or refused by an oracle.
- LocalStore.Store.PushVerifiedBlock: keeps `headBlockNum` unchanged, although the real push advances the local head. The head is read only at construction (`SolidityNode.java:163`), so no later step depends on it.
- An exception thrown by `saveLatestSolidifiedBlockNum` after an accepted push. The push and the save are treated as one outcome.
- An `InterruptedException` out of `blockQueue.take()`. It leaves the state unchanged and retries, which is the same as the step not happening.
- A thread blocked in `put` while holding a fetched block is not a separate state. The fetch and the put are one step, taken only when the queue has room. Fetching has no side effect on the node, so this changes no observable state.
- Overflow of Java `long`: `ID.incrementAndGet()` would wrap at 2^63 - 1. Heights are unbounded integers.
- `AbiUtilTest.java` tests code that is not part of this model.
