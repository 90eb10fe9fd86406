# Soroban authorization, storage and fees, and the campaign contracts

A Dafny model of the parts of this repository that carry state and arithmetic, and proofs about them.

- **Authorization manager** (`Authorization*.dfy`, `Invocation*.dfy`, `Nonces.dfy`): trees of pre-authorized
  invocations are matched incrementally against a live call stack, with single-use nodes, nested authentication,
  rollback of failed frames, scoped invoker trackers, nonces, and a recording mode whose output feeds enforcing mode.
  A run is a tree of steps; every theorem is about all runs, and about every state inside them.
- **Campaign escrow, contributor pools and token balances** (`PoolContract`, `EscrowContract`, `Campaigns`,
  `Settlement`, `CampaignInvariants`, `EscrowSafety`, `CampaignSafety`, `CampaignTheorems`, `CampaignPayments`,
  `CampaignAuthority`, `CampaignGuards`, `TokenLedger`): one world, any number of pools, any caller, any order of calls.
  A call that returns an error changes nothing.
- **Storage footprints** (`LedgerStorage`, `StorageReads`, `StorageReplay`, `LedgerChanges`, `Storage`): recording mode
  is a read-through cache that notes accesses, enforcing mode is closed under its footprint; reads see the last write,
  and the first mode predicts the second exactly.
- **Fees** (`WriteFee`, `RentFee`, `RentTotal`, `RentPotential`, `Saturation`): saturating 64- and 128-bit arithmetic against exact
  formulas, and rent as a potential.
- **Account signatures** (`AccountSignatures`): who can sign for an account.

Each part has two layers. The first is a model on values, on which the theorems are proved. The second is the code's own
form, classes whose methods update their fields in place and loops with invariants (`InvocationTracker`,
`AuthorizationManager`, `Storage`, `ContributorPool`, `CampaignEscrow`, and the fee and signature methods); each method
is proved to leave exactly the state, and to return exactly the result, of the first layer, error cases included.

Two internal errors that the source treats as impossible can be reached; the model keeps the code as it is and proves
exactly when:

- rolling a frame back fails when the number of invoker trackers changed. A frame that authorized a sub-call as an
  invoker, made no further call and failed gets there, and nothing else does (`FailedCallIsUndone`,
  `FailingWithPendingTrackerCrashes`).
- a root match takes the index of the frame on top of the match stack. A frame that asks for the very call it authorized
  for a sub-contract reaches an invoker tracker with an empty stack; but for internal errors of account code run to
  authenticate, it is the only one of a request (`AskingOwnPendingTrackerBreaks`, `AskingForOwnCallCrashes`).

One thing that recording is for does not hold in general. It skips `__check_auth` of contract accounts, so a run that
was recorded and granted can be denied when its entries are enforced: the frame of `__check_auth` can end the life of a
waiting invoker tracker, and its code can use up a node recorded for somebody else (`AuthorizationAccountCode`). Where
that code is harmless what was recorded suffices (`RecordedAuthorizationSuffices`).

Verify everything with `dafny verify dfyconfig.toml`.

## Model

| member | source | states |
|---|---|---|
| `AuthorizationReplay.RecordedAuthorizationSuffices` | soroban-env-host-patch/src/auth.rs:982-1089 | For every run with one handle per address and genuine signatures outside failing calls, contract accounts and failing calls included: if every request outside failing calls is recorded and granted, and the code a contract account runs to authenticate is harmless (no invoker tracker waits for a call when it starts, it asks only for the contract that calls, and it ends without internal error), then the recorded trees, signed and loaded on any ledger that knows none of their nonces and on which they have not expired, grant every request outside failing calls of the same run; at its end exactly all recorded nodes are used and every tracker is verified |
| `AuthorizationReplay.NewTrackerReplays` | soroban-env-host-patch/src/auth.rs:2004-2029 | Authenticating a newly recorded account in the replay: it is granted whenever the account's code asks only for its callers and ends; both managers stay in lockstep after it iff no code is run or no invoker tracker waits for a call |
| `AuthorizationAccountCode.CheckCutsTrackerShort` | soroban-env-host-patch/src/builtin_contracts/account_contract.rs:118-143 | Recording does not predict every run with contract accounts: a run that is recorded and granted, then denied, because popping the frame of `__check_auth` drops the invoker tracker that the asking contract meant for its next call |
| `AuthorizationAccountCode.CheckSpendsNode` | soroban-env-host-patch/src/auth.rs:2033-2072 | A second such run, with no invoker tracker involved: the code of the account, which recording skips, asks for another account and uses up a node recorded for a later call |
| `AuthorizationLockstep.EndingCheck` | soroban-env-host-patch/src/builtin_contracts/account_contract.rs:118-143 | Account code that asks only for its callers, run to authenticate on any manager with the same frames, drops exactly the invoker trackers that wait for a call and changes nothing else |
| `AuthorizationLockstep.SelfContainedCall` | soroban-env-host-patch/src/auth.rs:1339-1372 | A call whose code, nested calls included, asks only for direct callers leaves exactly the state of an empty call, whether it fails or not |
| `AuthorizationReplay.FailedCallsAreNotRecorded` | soroban-env-host-patch/src/auth.rs:1115-1167 | Why requests inside failing calls are not counted: what a failed call recorded is gone, so the replay denies the request made inside it |
| `AuthorizationLockstep.RunLockstep` | soroban-env-host-patch/src/auth.rs:868-1373 | Whatever their modes and account trackers, two managers with the same call stack and invoker trackers keep them equal over any run in which account code is harmless wherever a request could start it, and end in an internal error together |
| `AuthorizationReplay.FailingCallReplays` | soroban-env-host-patch/src/auth.rs:1170-1244 | A failing call leaves recording and enforcing in lockstep, whatever was granted or denied inside it, provided account code is harmless wherever a request inside it could start it |
| `AuthorizationReplay.RunDraws` | soroban-env-host-patch/src/auth.rs:2162-2221 | The nonces a recording draws were not live on the ledger it started on |
| `AuthorizationReplay.RequestReplays` | soroban-env-host-patch/src/auth.rs:913-979 | One recorded request, with the handle of its address and a genuine signature: enforcing mode finds the tracker that mirrors the recording one, grants, and both managers stay in lockstep, provided account code it starts is harmless |
| `AuthorizationReplay.RunReplays` | soroban-env-host-patch/src/auth.rs:982-1089 | Lockstep over any run with one handle per address, every request outside failing calls granted and account code harmless, failing calls included: the exhausted nodes of the enforcing trees are at each point outside failing calls exactly the nodes recorded so far |
| `AuthorizationReplay.OverlayAppend` | soroban-env-host-patch/src/auth.rs:1672-1701 | Appending a node while recording and exhausting that node of the full tree while enforcing are the same step |
| `AuthorizationReplay.ActiveTrackerAnswers` | soroban-env-host-patch/src/auth.rs:1621-1664 | A recorded tracker about to append a node for a function matches that function when it is enforced, with the same path |
| `AuthorizationReplay.LeftTrackersAreSilent` | soroban-env-host-patch/src/auth.rs:1556-1575 | A tracker that has left the call stack answers nothing in the replay, whether root matches are allowed or not |
| `AuthorizationReplay.RecordingCases` | soroban-env-host-patch/src/auth.rs:982-1089 | Recording uses the one tracker of the address still in the call stack, or creates one; which of the two is decided and the resulting state given |
| `AuthorizationReplay.NewTrackerVerified` | soroban-env-host-patch/src/auth.rs:2162-2221 | The nonce drawn by a recording is free, and its signed form is accepted, when the recorded entry is enforced |
| `AuthorizationTheorems.EveryStateEmbeds` | soroban-env-host-patch/src/auth.rs:1556-1601 | In every state between operations of every run each tracker, borrowed or not, has at most one root match, no sub-match before it, sub-matches that spell a path of exhausted nodes, is active iff the root match is on its stack, and both tree walks end without internal error |
| `AuthorizationTheorems.InvokerTrackersScoped` | soroban-env-host-patch/src/auth.rs:846-865 | In every state an invoker tracker's match stack is as long as the calls made since its creation, and these lengths do not increase along the list |
| `AuthorizationTheorems.CallEndsPendingTrackers` | soroban-env-host-patch/src/auth.rs:1339-1372 | A call ends every invoker tracker created by its caller or inside it, and the pop-from-the-end loop leaves no out-of-scope tracker anywhere |
| `AuthorizationTheorems.FailedCallIsUndone` | soroban-env-host-patch/src/auth.rs:1316-1373 | A failed call restores every tracker, the ledger and the call stack to what they were before the push, even with trackers borrowed by nested authentication; it is an internal error iff its body was one or an invoker tracker with an empty match stack is pending |
| `AuthorizationTheorems.FailingWithPendingTrackerCrashes` | soroban-env-host-patch/src/auth.rs:1217-1225 | A concrete run that meets this internal error: a contract authorizes a sub-call, makes none, and fails |
| `AuthorizationTheorems.AskingOwnPendingTrackerBreaks` | soroban-env-host-patch/src/auth.rs:868-910 | The invoker trackers end in an internal error iff the first that answers was created by the asking frame itself: its match stack is empty and has no frame index. A request ends in an internal error iff they do, or the code of an account, run to authenticate, does |
| `AuthorizationTheorems.AskingForOwnCallCrashes` | soroban-env-host-patch/src/auth.rs:1643-1652 | A concrete run that meets this internal error: a contract called by another authorizes its own call as a sub-call and asks for it |
| `AuthorizationTheorems.NonceServesOneTracker` | soroban-env-host-patch/src/auth.rs:1844-1870 | Two trackers that share address and nonce are never both verified, in any state of any run |
| `AuthorizationUse.GrantUsesOneNode` | soroban-env-host-patch/src/auth.rs:913-979 | A request granted by an account tracker exhausts exactly one unused node, for the asking function, of one tree of that address |
| `AuthorizationRequests.RequestExact` | soroban-env-host-patch/src/auth.rs:913-979 | A request in enforcing mode that no invoker answers: the first tracker whose tree has a place for the call answers, else it is denied and nothing changes; a verified or source tracker grants it; any other needs a genuine signature, without which it is denied, the tracker stays unverified and the ledger is as it was, and then a usable nonce on the ledger that account code left; an accepted nonce is live afterwards |
| `AuthorizationRequests.UnsignedIsNeverVerified` | soroban-env-host-patch/src/auth.rs:1844-1870 | In no state of any run, account code and failing calls included, is a tracker of an address verified (but for the source account) if no request for it came with a genuine signature |
| `AuthorizationRequests.RunVerifiesNobody` | soroban-env-host-patch/src/auth.rs:1844-1870 | The same for the state a run ends in, from any state in which none is verified |
| `AuthorizationRequests.ExtendExact` | soroban-env-host-patch/src/auth.rs:1598-1664 | A tracker answers iff the frame is free and its tree has a place: an unused child for the call below the node matched last if the tree is in use, else its unused root; of several children the first is used |
| `AuthorizationRequests.InvokersGrant` | soroban-env-host-patch/src/auth.rs:868-910 | A request is granted for the direct caller at no cost, or by the first invoker tracker of the address that can answer, at the cost of one node of it and nothing else; an internal error iff that tracker waits for a call of the asking frame |
| `AuthorizationRequests.InvokersExact` | soroban-env-host-patch/src/auth.rs:868-910 | Nobody is found iff the address is not the caller and no invoker tracker of it can answer |
| `AuthorizationRequests.InvokersSpeakForFrames` | soroban-env-host-patch/src/auth.rs:846-865 | In every state of every run an invoker tracker stands for the contract whose frame made it, and that frame is still on the call stack |
| `AuthorizationRequests.AuthorizeExact` | soroban-env-host-patch/src/auth.rs:846-865 | Only a contract authorizes sub-calls; each entry becomes one invoker tracker of it with exactly the entry's nodes, none used, waiting for the next call |
| `AuthorizationRequests.RunConcat` | soroban-env-host-patch/src/auth.rs:822-843 | A run is granted iff each part of it is, in the state the part before left |
| `AuthorizationRequests.NewRecordingExact` | soroban-env-host-patch/src/auth.rs:1055-1089 | A recorded request with no tree to continue is denied away from the outermost frame if non-root authorization is disabled, and if its nonce cannot be used; otherwise it starts a tree at the frame on top, without a nonce for the source account, else with the drawn nonce live as long as possible |
| `AuthorizationRequests.ContinuedRecordingExact` | soroban-env-host-patch/src/auth.rs:989-1054 | A recorded request continues the tree its handle names, else the first of the address that the frame can extend, by one used node below the node matched last; denied without change if the frame was already recorded in the tree its handle names |
| `Nonces.VerifyExact` | soroban-env-host-patch/src/auth.rs:1938-1978 | A signed nonce is accepted iff the ledger has not passed its expiration, that lies within the longest life of an entry, and the nonce is not live; its entry then lives to the expiration or for the least life, whichever is longer, and nothing else changes |
| `AuthorizationUse.AnsweredEqualsUsed` | soroban-env-host-patch/src/auth.rs:1631-1652 | Over every run the trees lose exactly as many unused nodes as requests were answered in frames that were not rolled back |
| `AuthorizationUse.ExhaustAddsOne` | soroban-env-host-patch/src/auth.rs:1631-1652 | Exhausting an unused node adds exactly one to the used nodes of its tree, wherever it is |
| `AuthorizationInvariants.PushKeeps` | soroban-env-host-patch/src/auth.rs:1247-1311 | Pushing a frame keeps the invariant of the manager |
| `AuthorizationInvariants.PopTopKeeps` | soroban-env-host-patch/src/auth.rs:1339-1372 | Popping a frame keeps the invariant; the trackers that stay were created below |
| `AuthorizationInvariants.PopInvokers` | soroban-env-host-patch/src/auth.rs:1347-1371 | The loop that drops invoker trackers from the end drops exactly those created in frames that are gone |
| `AuthorizationInvariants.PopAfterPush` | soroban-env-host-patch/src/auth.rs:1247-1373 | A pop undoes a push, but for the invoker trackers that waited for this call |
| `AuthorizationInvariants.FailureUndoes` | soroban-env-host-patch/src/auth.rs:1170-1244 | Rolling back after any well-nested run and popping is popping at once; the rollback fails iff an invoker tracker is pending, so the bad-borrow branch is unreachable |
| `AuthorizationInvariants.RollBackAccountsExact` | soroban-env-host-patch/src/auth.rs:1176-1210 | Rolling the account trackers back to their snapshot never fails and restores each, borrowed ones excepted, which are not touched |
| `AuthorizationInvariants.RollBackInvokersExact` | soroban-env-host-patch/src/auth.rs:1217-1231 | Rolling the invoker trackers back succeeds iff none is pending |
| `AuthorizationInvariants.CheckInvokersKeeps` | soroban-env-host-patch/src/auth.rs:868-910 | Asking the invoker trackers keeps the invariant and breaks exactly in the one case of a pending tracker of the asking frame |
| `AuthorizationInvariants.RequireEnforcingKeeps` | soroban-env-host-patch/src/auth.rs:913-979 | An enforced request keeps the invariant, through any nested authentication |
| `AuthorizationInvariants.AuthenticateKeeps` | soroban-env-host-patch/src/auth.rs:1827-1872 | Authentication releases the borrowed tracker and keeps the invariant, whatever the account's own code calls |
| `AuthorizationInvariants.RequireRecordingKeeps` | soroban-env-host-patch/src/auth.rs:982-1089 | A recorded request never ends in an internal error and keeps the invariant |
| `AuthorizationInvariants.RequireCrashExact` | soroban-env-host-patch/src/auth.rs:822-843 | A request ends in an internal error iff the invoker trackers break or the code of an account, run to authenticate, does |
| `AuthorizationInvariants.AuthorizeKeeps` | soroban-env-host-patch/src/auth.rs:846-865 | Authorizing as the current contract keeps the invariant |
| `AuthorizationInvariants.CheckNonceConsumes` | soroban-env-host-patch/src/auth.rs:1938-1978 | A successful nonce check of a non-source tracker leaves a nonce entry that was not there before |
| `AuthorizationInvariants.StepKeeps` | soroban-env-host-patch/src/auth.rs:1092-1373 | Every step keeps the invariant and the frame conditions of its frame |
| `AuthorizationInvariants.RunKeeps` | soroban-env-host-patch/src/auth.rs:1092-1373 | So does every run |
| `InvocationTree.RestoreRecovers` | soroban-env-host-patch/src/auth.rs:723-751 | Restoring a snapshot into any tree of the same shape gives back the tree the snapshot was taken of |
| `InvocationTree.ExhaustExact` | soroban-env-host-patch/src/auth.rs:1631-1652 | Exhausting the node at one path changes that node's flag and nothing else |
| `InvocationTree.ExhaustChild` | soroban-env-host-patch/src/auth.rs:1631-1652 | Exhausting a child of a node on a used path keeps exhaustion closed under parents |
| `InvocationTree.SpentPath` | soroban-env-host-patch/src/auth.rs:692-720 | A path of exhausted nodes is valid and ends in an exhausted node |
| `InvocationExport.ReducedExportExact` | soroban-env-host-patch/src/auth.rs:672-687 | Pruning an exhausted root to exhausted sub-invocations keeps every used node in place and nothing else iff used nodes are closed under parents; otherwise it loses some |
| `InvocationExport.UnusedClosed` | soroban-env-host-patch/src/auth.rs:672-687 | In a closed tree an unused root has no used node below it |
| `InvocationExport.FullExportIsFresh` | soroban-env-host-patch/src/auth.rs:672-687 | The full export is the tree with all nodes unused |
| `InvocationTracking.WalkNeverBreaks` | soroban-env-host-patch/src/auth.rs:1556-1575 | For a consistent tracker the walk finds the path spelled by the match stack iff the tracker is active, and never meets an internal error |
| `InvocationTracking.ExtendUsesOne` | soroban-env-host-patch/src/auth.rs:1621-1664 | Extending a match fails iff the match stack is empty and the unused root matches; otherwise a match exhausts exactly one unused node for the function, below the last matched one or the root, and keeps the tracker consistent |
| `InvocationTracking.RecordConsistent` | soroban-env-host-patch/src/auth.rs:1672-1701 | Recording appends one used node below the last matched one and keeps the tracker consistent |
| `InvocationTracking.PushConsistent` | soroban-env-host-patch/src/auth.rs:1577-1582 | Pushing a frame keeps the tracker consistent |
| `InvocationTracking.PopConsistent` | soroban-env-host-patch/src/auth.rs:1584-1597 | Popping keeps the tracker consistent, also when the root match leaves the stack |
| `InvocationTracking.PopUndoesPush` | soroban-env-host-patch/src/auth.rs:1577-1597 | Popping undoes pushing |
| `InvocationTracking.RollBackThenPop` | soroban-env-host-patch/src/auth.rs:1715-1725 | Rolling back a tracker to the snapshot of its frame and popping equals popping without the frame's work |
| `InvocationTracking.EvolvedThroughCall` | soroban-env-host-patch/src/auth.rs:1577-1597 | A call that succeeds changes only the entry of the frame on top |
| `Nonces.AcceptedAtMostOnce` | soroban-env-host-patch/src/auth.rs:1938-1978 | Over any sequence of ledgers, transactions and extensions a given address, nonce and expiration is accepted at most once in committed history |
| `Nonces.BlockedForever` | soroban-env-host-patch/src/auth.rs:2162-2221 | A consumed nonce blocks every signature that expires no later than its entry, until those have expired |
| `Nonces.ReuseOnlyAfterExpiry` | soroban-env-host-patch/src/ledger_info.rs:16-30 | A nonce accepted again serves a signature that expires strictly later |
| `InvocationTrackerObject.InvocationTracker.PushFrame` | soroban-env-host-patch/src/auth.rs:1577-1581 | Appends an unmatched entry to the match stack |
| `InvocationTrackerObject.InvocationTracker.PopFrame` | soroban-env-host-patch/src/auth.rs:1584-1591 | Drops the top entry and marks the tracker processed when its root frame is gone |
| `InvocationTrackerObject.InvocationTracker.LastAuthorizedInvocation` | soroban-env-host-patch/src/auth.rs:692-720 | The descent in the tree, as a recursive walk over the match stack |
| `InvocationTrackerObject.InvocationTracker.LastMatched` | soroban-env-host-patch/src/auth.rs:1556-1575 | The search for the root match followed by the descent equals the walk of the specification, error branches included |
| `InvocationTrackerObject.InvocationTracker.MaybeExtendInvocationMatch` | soroban-env-host-patch/src/auth.rs:1621-1664 | In-place matching equals the specified extension |
| `InvocationTrackerObject.InvocationTracker.RecordInvocation` | soroban-env-host-patch/src/auth.rs:1672-1701 | In-place recording equals the specified one |
| `InvocationTrackerObject.InvocationTracker.Rollback` | soroban-env-host-patch/src/auth.rs:1715-1725 | In-place rollback equals the specified one |
| `InvocationTrackerObject.InvocationTracker.constructor` | soroban-env-host-patch/src/auth.rs:1526-1533 | A fresh tracker |
| `InvocationTrackerObject.InvocationTracker.Recording` | soroban-env-host-patch/src/auth.rs:1535-1551 | A tracker that records, its root matched in the frame on top |
| `AuthorizationManagerObject.AuthorizationManager.PushFrame` | soroban-env-host-patch/src/auth.rs:1247-1311 | Updates every tracker that is not borrowed and equals the specified push |
| `AuthorizationManagerObject.AuthorizationManager.PopFrame` | soroban-env-host-patch/src/auth.rs:1316-1373 | With a snapshot rolls back before it pops, and equals the specified pop, failure included |
| `AuthorizationManagerObject.AuthorizationManager.PopTopFrame` | soroban-env-host-patch/src/auth.rs:1339-1372 | Pops all trackers and drops the invoker trackers out of scope |
| `AuthorizationManagerObject.AuthorizationManager.Rollback` | soroban-env-host-patch/src/auth.rs:1170-1244 | Equals the specified rollback, failure included |
| `AuthorizationManagerObject.AuthorizationManager.Snapshot` | soroban-env-host-patch/src/auth.rs:1115-1167 | The snapshot covers all trackers that are not borrowed, or in recording mode copies all |
| `AuthorizationManagerObject.AuthorizationManager.AuthorizeAsCurrentContract` | soroban-env-host-patch/src/auth.rs:846-865 | Adds one fresh invoker tracker per entry for the contract on top |
| `AuthorizationManagerObject.AuthorizationManager.CheckInvokerContractAuth` | soroban-env-host-patch/src/auth.rs:868-910 | Direct invoker first, then the first invoker tracker that answers |
| `AuthorizationManagerObject.AuthorizationManager.RequireAuthEnforcing` | soroban-env-host-patch/src/auth.rs:913-979 | The search over account trackers with borrowing, matching and authentication equals the specified one |
| `AuthorizationManagerObject.AuthorizationManager.AuthenticateTracker` | soroban-env-host-patch/src/auth.rs:1827-1872 | Runs the code of a contract account in a frame of its own while the tracker is borrowed, rolled back if it fails, then the nonce check |
| `AuthorizationManagerObject.AuthorizationManager.FinishAuthentication` | soroban-env-host-patch/src/auth.rs:1827-1872 | Releases the tracker; verified iff signature and nonce hold |
| `AuthorizationManagerObject.AuthorizationManager.RequireAuthRecording` | soroban-env-host-patch/src/auth.rs:982-1089 | By handle, by address, or a new tracker, as specified |
| `AuthorizationManagerObject.AuthorizationManager.RequireAuth` | soroban-env-host-patch/src/auth.rs:822-843 | A request in either mode equals the specified one |
| `AuthorizationManagerObject.AuthorizationManager.ExecuteCall` | soroban-env-host-patch/src/host/frame.rs:163-224 | A call pushes a frame with its rollback point, runs, and pops with or without it |
| `AuthorizationManagerObject.AuthorizationManager.Execute` | soroban-env-host-patch/src/auth.rs:1092-1373 | Any run of the object equals the run of the specification |
| `AuthorizationManagerObject.AskAccounts` | soroban-env-host-patch/src/auth.rs:938-970 | The loop finds the first account tracker that is not borrowed and answers, and updates only that one |
| `AuthorizationManagerObject.AskInvokers` | soroban-env-host-patch/src/auth.rs:895-909 | The loop finds the first invoker tracker that answers and updates only that one |
| `AuthorizationManagerObject.AnyActive` | soroban-env-host-patch/src/auth.rs:919-936 | Whether some tracker of the address is active and free in this frame |
| `AuthorizationManagerObject.InScope` | soroban-env-host-patch/src/auth.rs:1351-1371 | The while-pop loop drops the trailing trackers with an empty match stack and stops at the first other one |
| `AuthorizationManagerObject.FindRecording` | soroban-env-host-patch/src/auth.rs:1034-1057 | The first tracker of the address in the call stack that is free in this frame |
| `AuthorizationManagerObject.RollbackAccounts` | soroban-env-host-patch/src/auth.rs:1176-1210 | The loop over account trackers restores each from its snapshot or reports failure |
| `AuthorizationManagerObject.RollbackInvokers` | soroban-env-host-patch/src/auth.rs:1217-1231 | The loop over invoker trackers fails when their number changed |
| `CampaignSafety.ReachableSafe` | contracts/campaign_escrow/src/lib.rs:112-529 | From deployment on, over every sequence of calls by anyone, every state is safe: solvent escrow, pools whose books add up, agreement of both, and payouts that match what was settled and claimed |
| `CampaignSafety.RunKeeps` | contracts/campaign_escrow/src/lib.rs:112-529 | Any run keeps a safe state safe, and no call makes or destroys tokens |
| `CampaignSafety.ExecuteKeeps` | contracts/campaign_escrow/src/lib.rs:112-529 | Every single call that succeeds keeps a safe state safe |
| `CampaignSafety.ExecuteConserves` | contracts/campaign_escrow/src/lib.rs:267-397 | No call changes the supply of any token |
| `CampaignSafety.InitialSafe` | contracts/contributor_pool/src/lib.rs:109-163 | Contracts that are deployed but not set up are in a safe state, whatever tokens they hold |
| `CampaignSafety.ClaimExact` | contracts/contributor_pool/src/lib.rs:318-391 | In a safe state a claim is paid iff its recipient asks in time for an allocation still open in an active manifest of a running pool; no deficit is reachable |
| `CampaignSafety.PoolCallFrame` | contracts/contributor_pool/src/lib.rs:169-199 | A pool keeps its escrow and token for ever, and only its escrow makes it record a credit |
| `CampaignSafety.PoolCallClaims` | contracts/contributor_pool/src/lib.rs:205-314 | No call but a claim changes what was claimed or by whom |
| `CampaignSafety.PoolCallKeepsBooks` | contracts/contributor_pool/src/lib.rs:109-666 | Every call of a pool that pays nobody keeps its books |
| `CampaignSafety.ClaimKeepsSafe` | contracts/contributor_pool/src/lib.rs:318-391 | A paid claim keeps a safe state safe |
| `CampaignTheorems.SponsorIsNeverStuck` | contracts/campaign_escrow/src/lib.rs:364-397 | Whatever happens after funding, paused or not: once expired, a campaign is completed, or refunded in full, or anyone can refund it now, in full, to its sponsor |
| `CampaignTheorems.SettledOnceForAll` | contracts/campaign_escrow/src/lib.rs:267-397 | A settled campaign never changes again, and over any run its total outflow stays exactly its amount |
| `CampaignTheorems.EscrowAndPoolsAgree` | contracts/campaign_escrow/src/lib.rs:267-360 | In every reachable state both pools are credited for exactly the completed campaigns, with a twentieth and a fiftieth of each rounded down; every pool has paid exactly the sum of its claimed allocations and of its payouts, owes exactly what is left of its manifests, both within its credit; its balance covers credit less payments, and the escrow holds what it owes |
| `CampaignTheorems.CompletePays` | contracts/campaign_escrow/src/lib.rs:311-354 | A settlement changes each holder's balance by exactly its legs, also when parties coincide: a tenth to the treasury, a twentieth and a fiftieth to the pools, a hundredth to the referrer, each rounded down, the rest to the creator, and the escrow's by the amount |
| `CampaignTheorems.FundTakes` | contracts/campaign_escrow/src/lib.rs:174-225 | Funding moves exactly the amount from the sponsor to the escrow, opens a campaign for thirty days, adds the amount to the liability, and changes nothing else |
| `CampaignPayments.CommitmentIsPaid` | contracts/campaign_escrow/src/lib.rs:229-354 | What a sponsor names when it activates is binding over any later run: nothing is paid while the campaign is open; once completed the treasury got a tenth of the funded amount, the pools a twentieth and a fiftieth, the named referrer a hundredth, the named creator the rest, and nobody else anything; once refunded the sponsor got all of it |
| `CampaignPayments.ReachablePaysDue` | contracts/campaign_escrow/src/lib.rs:267-397 | In every reachable state the payments ever made for a campaign are exactly those due, in order: five legs, or one refund, or none |
| `CampaignTheorems.CampaignRunsToCompletion` | contracts/campaign_escrow/src/lib.rs:174-360 | From any safe state of a running escrow a sponsor that holds the amount can fund, activate and see its campaign completed, as long as the pools' totals still fit |
| `CampaignTheorems.RunKept` | contracts/campaign_escrow/src/lib.rs:112-529 | Over any run: sponsor, amount and dates of a campaign never change, nor its terms and payees once active, nor the escrow's token, treasury and pools; credits, claims and allocations are never undone |
| `CampaignAuthority.ChangesAreAuthorized` | contracts/campaign_escrow/src/lib.rs:174-526 | In every reachable state, whatever a call changes in the set-up, roles and campaigns of the escrow, in the set-up, roles, manifests, allocations and credits of any pool, or takes from any balance, was authorized by whom the contracts name: sponsor, settlement authority, governance, both role holders, the proposed account, the recipient, the escrow, or the passing of time |
| `CampaignAuthority.TokensLeaveByRight` | contracts/campaign_escrow/src/lib.rs:174-397 | No call takes a token from an address that did not sign; the escrow loses tokens only when it settles a campaign, a pool only when one of its allocations is claimed |
| `CampaignAuthority.PoolsAuthorized` | contracts/contributor_pool/src/lib.rs:109-666 | The same for every pool in every call of the whole system |
| `CampaignAuthority.EscrowCallAuthorized` | contracts/campaign_escrow/src/lib.rs:112-526 | Per call: roles pass only to a proposed account that signs, proposals and pausing take governance, the set-up stays, and a campaign changes in exactly four ways, each with its cause |
| `CampaignAuthority.PoolCallAuthorized` | contracts/contributor_pool/src/lib.rs:169-666 | Per call of a pool that pays nobody: manifests take both role holders and then change only by expiring when due, allocations stay, credits take the escrow, proposals and pausing take governance, and the set-up stays |
| `CampaignAuthority.ClaimAuthorized` | contracts/contributor_pool/src/lib.rs:318-391 | A claim takes its recipient in time, marks one allocation and takes its amount off one manifest |
| `CampaignAuthority.PublishingNeedsTwo` | contracts/contributor_pool/src/lib.rs:205-229 | In every reachable state a manifest takes at least two distinct signers |
| `CampaignGuards.InitializeExact` | contracts/campaign_escrow/src/lib.rs:112-170 | The escrow is set up iff its deployer and governance sign, once, with two different pools set up for it and its token; treasury, settlement authority and the two pools are stored each in its place, and it owes nothing |
| `CampaignGuards.InitializePoolExact` | contracts/contributor_pool/src/lib.rs:109-166 | A pool is set up iff deployer, governance and eligibility authority sign, once, the last two being different; everything given is stored in its place and all totals start at zero |
| `CampaignGuards.EscrowRoleHandedOver` | contracts/campaign_escrow/src/lib.rs:489-525 | A role passes by a proposal of governance and the acceptance of the proposed account, which then holds it with no proposal left; nothing else changes |
| `CampaignGuards.PoolRoleHandedOver` | contracts/contributor_pool/src/lib.rs:621-660 | The same for a pool, where an account never takes both roles |
| `CampaignGuards.PauseStops` | contracts/campaign_escrow/src/lib.rs:412-428 | Pausing takes governance and changes only the switch; while it is on nothing is funded, activated, completed, published or claimed |
| `CampaignGuards.NoSettlementInDeficit` | contracts/campaign_escrow/src/lib.rs:284-305 | In no state, reachable or not, is a campaign settled while the escrow holds less than it owes or owes less than the amount, or completed for an operation used before |
| `CampaignGuards.NoPoolDealInDeficit` | contracts/contributor_pool/src/lib.rs:169-391 | In no state does a pool pay, publish or take a credit when its balance is short of its books; what it reports as available is exactly the free credit, or a deficit |
| `CampaignGuards.CompletionNeedsItsPools` | contracts/campaign_escrow/src/lib.rs:311-354 | In any state a completion that succeeds has both pools set up for this escrow |
| `CampaignGuards.CompleteErrors` | contracts/campaign_escrow/src/lib.rs:267-360 | In any state each error of `complete` names a guard that is not met |
| `CampaignGuards.RefundErrors` | contracts/campaign_escrow/src/lib.rs:364-397 | So for `refund_expired` |
| `CampaignGuards.FundErrors` | contracts/campaign_escrow/src/lib.rs:174-225 | So for `fund` |
| `CampaignGuards.ActivateErrors` | contracts/campaign_escrow/src/lib.rs:229-265 | So for `activate` |
| `CampaignGuards.InitializeErrors` | contracts/campaign_escrow/src/lib.rs:112-170 | So for `initialize` |
| `CampaignGuards.ClaimErrors` | contracts/contributor_pool/src/lib.rs:318-391 | So for `claim` |
| `CampaignGuards.PublishErrors` | contracts/contributor_pool/src/lib.rs:205-314 | So for `publish_manifest` |
| `CampaignGuards.ExpireErrors` | contracts/contributor_pool/src/lib.rs:396-421 | So for `expire_manifest` |
| `CampaignGuards.CreditErrors` | contracts/contributor_pool/src/lib.rs:169-203 | So for `record_credit` |
| `CampaignInvariants.CompleteExact` | contracts/campaign_escrow/src/lib.rs:267-360 | In a safe state `complete` succeeds iff its visible guards hold and both pools' running totals still fit an i128; the deficit and the pool errors are unreachable |
| `CampaignInvariants.SettleExact` | contracts/campaign_escrow/src/lib.rs:267-327 | The checks before payment pass iff the visible guards hold |
| `CampaignInvariants.OwedWithinLiability` | contracts/campaign_escrow/src/lib.rs:303-305 | An unsettled campaign never owes more than the escrow in all |
| `CampaignInvariants.SettlementLogged` | contracts/campaign_escrow/src/lib.rs:329-354 | Payments for a campaign that was open keep the log of payouts exact |
| `CampaignInvariants.SharesChanged` | contracts/campaign_escrow/src/lib.rs:309-328 | Completing one campaign adds its share, and no other change of a campaign moves the sum |
| `EscrowSafety.RefundExact` | contracts/campaign_escrow/src/lib.rs:364-397 | `refund_expired` succeeds iff the campaign is unsettled and has expired, paused or not, and pays the sponsor; a deficit is unreachable |
| `EscrowSafety.FundExact` | contracts/campaign_escrow/src/lib.rs:174-225 | `fund` succeeds iff its visible guards hold and the sponsor holds the amount: the liability cannot overflow |
| `EscrowSafety.CompleteKeeps` | contracts/campaign_escrow/src/lib.rs:267-360 | Completion keeps a safe state safe |
| `EscrowSafety.RefundKeeps` | contracts/campaign_escrow/src/lib.rs:364-397 | A refund keeps a safe state safe |
| `EscrowSafety.FundKeeps` | contracts/campaign_escrow/src/lib.rs:174-225 | Funding keeps a safe state safe |
| `EscrowSafety.ActivateKeeps` | contracts/campaign_escrow/src/lib.rs:229-264 | Activation keeps a safe state safe |
| `EscrowSafety.InitializeKeeps` | contracts/campaign_escrow/src/lib.rs:112-172 | Setting up the escrow keeps a safe state safe: its two pools answer for it and are uncredited |
| `EscrowSafety.RolesKeep` | contracts/campaign_escrow/src/lib.rs:489-526 | Role hand-over and pausing keep a safe state safe |
| `Settlement.SplitExact` | contracts/campaign_escrow/src/lib.rs:15-24 | For every amount `fund` admits the legs are its tenth, twentieth, fiftieth and hundredth, rounded down and positive, and the rest for the creator, at least 82% and less than 82% plus four units; no product overflows |
| `Settlement.DistributeExact` | contracts/campaign_escrow/src/lib.rs:329-354 | The five payments and two credits go through iff both running totals fit, and then balances, pools and log change by exactly the five legs |
| `Settlement.PayPoolMore` | contracts/contributor_pool/src/lib.rs:169-199 | A pool that was just paid its leg accepts the credit unless its running total overflows |
| `PoolContract.PublishSucceedsExactly` | contracts/contributor_pool/src/lib.rs:205-314 | On consistent books publishing succeeds iff both role holders sign a valid list within window and free credit under a new highest id; deficit and overflow of the liability are unreachable |
| `PoolContract.PublishKeeps` | contracts/contributor_pool/src/lib.rs:205-314 | Publishing keeps the books: liability is the sum of what active manifests still owe |
| `PoolContract.PublishWrites` | contracts/contributor_pool/src/lib.rs:276-304 | Publishing writes the manifest, one open allocation per recipient, the latest id and the added liability, and nothing else |
| `PoolContract.ClaimSucceedsExactly` | contracts/contributor_pool/src/lib.rs:318-391 | On consistent books a claim meets no deficit |
| `PoolContract.ClaimKeeps` | contracts/contributor_pool/src/lib.rs:318-391 | A claim pays a positive amount within the balance to a signing recipient and keeps the books: owed is what is left of the manifests, paid the sum of what was claimed |
| `PoolContract.ExpireSucceedsExactly` | contracts/contributor_pool/src/lib.rs:396-421 | Expiry succeeds iff the manifest is active and overdue, releases what it owed, and keeps the books |
| `PoolContract.CreditKeeps` | contracts/contributor_pool/src/lib.rs:169-199 | A credit covered by a payment succeeds iff it is authorized, new, positive and fits, and keeps the books |
| `PoolContract.AvailableNeverDeficit` | contracts/contributor_pool/src/lib.rs:484-494 | On consistent books the available balance is credit less paid less owed, without error |
| `PoolContract.ManifestWithinLiability` | contracts/contributor_pool/src/lib.rs:396-421 | No manifest owes more than the pool does in all |
| `TokenLedger.TransferMoves` | contracts/contributor_pool/src/lib.rs:376-381 | A transfer moves exactly the amount and keeps every supply |
| `TokenLedger.TransferSucceeds` | contracts/contributor_pool/src/lib.rs:376-381 | It succeeds iff the sender holds the amount |
| `TokenLedger.TransferExact` | contracts/campaign_escrow/src/lib.rs:192-197 | On any balances a transfer succeeds iff the sender holds the amount and the receiver has room for it |
| `ContributorPoolObject.Validate` | contracts/contributor_pool/src/lib.rs:246-265 | The nested validation loops accept iff all amounts are positive, no recipient occurs twice and the sum fits an i128, and return the sum |
| `ContributorPoolObject.ContributorPool.Initialize` | contracts/contributor_pool/src/lib.rs:109-163 | In-place set-up equals the specified one, each error leaving the state as it was |
| `ContributorPoolObject.ContributorPool.RecordCredit` | contracts/contributor_pool/src/lib.rs:169-199 | In-place credit equals the specified one |
| `ContributorPoolObject.ContributorPool.AvailableBalance` | contracts/contributor_pool/src/lib.rs:484-494 | The available balance or a deficit, as specified |
| `ContributorPoolObject.ContributorPool.StoreAllocations` | contracts/contributor_pool/src/lib.rs:276-285 | The storing loop writes exactly one open allocation per recipient |
| `ContributorPoolObject.ContributorPool.PublishManifest` | contracts/contributor_pool/src/lib.rs:205-314 | In-place publishing equals the specified one, error order included |
| `ContributorPoolObject.ContributorPool.MarkClaimed` | contracts/contributor_pool/src/lib.rs:318-375 | The checks and writes of a claim, undone when the last check fails |
| `ContributorPoolObject.ContributorPool.Claim` | contracts/contributor_pool/src/lib.rs:318-391 | A claim with its transfer; a failed transfer undoes it |
| `ContributorPoolObject.ContributorPool.ExpireManifest` | contracts/contributor_pool/src/lib.rs:396-421 | In-place expiry equals the specified one |
| `ContributorPoolObject.ContributorPool.AcceptRole` | contracts/contributor_pool/src/lib.rs:635-666 | Only the proposed account takes a role, and never both |
| `ContributorPoolObject.ContributorPool.ProposeRole` | contracts/contributor_pool/src/lib.rs:621-633 | Only governance proposes |
| `ContributorPoolObject.ContributorPool.SetPaused` | contracts/contributor_pool/src/lib.rs:439-455 | Only governance pauses |
| `CampaignEscrowObject.CampaignEscrow.Initialize` | contracts/campaign_escrow/src/lib.rs:112-172 | In-place set-up with the answers of both pools equals the specified one |
| `CampaignEscrowObject.CampaignEscrow.Fund` | contracts/campaign_escrow/src/lib.rs:174-225 | In-place funding equals the specified one; an overflow after the transfer undoes it |
| `CampaignEscrowObject.CampaignEscrow.Activate` | contracts/campaign_escrow/src/lib.rs:229-264 | In-place activation equals the specified one |
| `CampaignEscrowObject.CampaignEscrow.Settle` | contracts/campaign_escrow/src/lib.rs:267-328 | Checks and writes of a settlement in source order; success equals the specified one |
| `CampaignEscrowObject.CampaignEscrow.Distribute` | contracts/campaign_escrow/src/lib.rs:327-354 | Five transfers and two sub-calls in source order |
| `CampaignEscrowObject.CampaignEscrow.Complete` | contracts/campaign_escrow/src/lib.rs:267-360 | `complete` leaves the specified world, or after any failure the whole world it found, pools and balances included |
| `CampaignEscrowObject.CampaignEscrow.RefundExpired` | contracts/campaign_escrow/src/lib.rs:364-397 | In-place refund equals the specified one |
| `CampaignEscrowObject.CampaignEscrow.RollBack` | contracts/campaign_escrow/src/test.rs:406-412 | What the host does after an error: escrow, pools, balances and log are restored |
| `CampaignEscrowObject.CampaignEscrow.RestorePools` | contracts/campaign_escrow/src/test.rs:406-412 | The loop over all pools restores each |
| `CampaignEscrowObject.CampaignEscrow.CheckPools` | contracts/campaign_escrow/src/lib.rs:134-146 | The order of the cross-checks of set-up |
| `CampaignEscrowObject.CampaignEscrow.AcceptRole` | contracts/campaign_escrow/src/lib.rs:503-526 | Only the proposed account takes a role |
| `CampaignEscrowObject.CampaignEscrow.ProposeRole` | contracts/campaign_escrow/src/lib.rs:489-502 | Only governance proposes |
| `CampaignEscrowObject.CampaignEscrow.SetPaused` | contracts/campaign_escrow/src/lib.rs:412-429 | Only governance pauses |
| `StorageReplay.ReplaysExactlyWhenCovered` | soroban-env-host-patch/src/storage.rs:210-597 | Replaying a recorded run under a footprint and the map it loads gives the recorded replies iff the footprint covers the recorded one, and then both modes end with the same values |
| `StorageReplay.RecordedFootprintExact` | soroban-env-host-patch/src/storage.rs:79-127 | A recorded footprint holds exactly the keys accessed, failed frames included, read-write exactly those written |
| `StorageReplay.RecordedFootprintMinimal` | soroban-env-host-patch/src/storage.rs:79-127 | Dropping any key or downgrading any write makes some operation of the replay exceed the limit |
| `StorageReplay.RunReplays` | soroban-env-host-patch/src/storage.rs:210-597 | Lockstep of recording and enforcing over any run with nested failing frames |
| `StorageReplay.OpReplays` | soroban-env-host-patch/src/storage.rs:210-557 | Lockstep for each operation, its error replies included |
| `StorageReplay.OpRecords` | soroban-env-host-patch/src/storage.rs:79-101 | Recording notes exactly the access of the operation and never exceeds a limit |
| `StorageReplay.RunConfined` | soroban-env-host-patch/src/storage.rs:103-127 | In enforcing mode map keys stay the footprint's, read-only values never change and their life only grows, within the maximum |
| `StorageReplay.OpConfined` | soroban-env-host-patch/src/storage.rs:316-557 | The same for each operation |
| `StorageObject.Storage.NoteAccess` | soroban-env-host-patch/src/storage.rs:79-101 | In-place recording of an access |
| `StorageObject.Storage.EnforceAccess` | soroban-env-host-patch/src/storage.rs:103-127 | Whether the footprint allows the access |
| `StorageObject.Storage.PrepareReadOnlyAccess` | soroban-env-host-patch/src/storage.rs:576-597 | Read-through in recording mode, enforcement otherwise |
| `StorageObject.Storage.TryGetFull` | soroban-env-host-patch/src/storage.rs:210-224 | In-place read equals the specified one |
| `StorageObject.Storage.PutOptional` | soroban-env-host-patch/src/storage.rs:316-337 | In-place put or delete equals the specified one |
| `StorageObject.Storage.ExtendTtl` | soroban-env-host-patch/src/storage.rs:466-557 | In-place extension equals the specified one, clamping and errors included |
| `StorageObject.Storage.Perform` | soroban-env-host-patch/src/storage.rs:210-557 | Every operation of the object equals the specified one |
| `StorageObject.Storage.Execute` | soroban-env-host-patch/src/storage.rs:210-557 | So does every run with nested frames |
| `StorageReads.LastWriteIsRead` | soroban-env-host-patch/src/storage.rs:316-337 | In either mode, after any run: a key that was put reads as it was put by every kind of read until the next write that is not rolled back, and a deleted key as missing |
| `StorageReads.UnwrittenIsRead` | soroban-env-host-patch/src/storage.rs:210-314 | A key that no write outside failing scopes touches reads as the snapshot has it, after any run, while recording and, within the footprint, while enforcing |
| `StorageReads.ExtensionIsRead` | soroban-env-host-patch/src/storage.rs:466-557 | An extension is done iff the entry is live, the new end fits and, for a temporary entry, lies within the longest life; it prolongs only an entry with at most the threshold left, to the clamped target, never shortens, and changes nothing else; each error has its cause |
| `StorageReads.OthersAreRead` | soroban-env-host-patch/src/storage.rs:210-557 | An operation changes no read of another key |
| `StorageReads.FailedScopeIsUndone` | soroban-env-host-patch/src/storage.rs:210-557 | A failing scope leaves every read as it was |
| `StorageReads.WritesDone` | soroban-env-host-patch/src/storage.rs:316-337 | While recording every supported write is done, while enforcing exactly those the footprint allows |
| `StorageReads.RefusedAccess` | soroban-env-host-patch/src/storage.rs:104-224 | An unsupported key or entry is an internal error and a key outside the footprint exceeds its limit, for every operation and without any change |
| `LedgerChanges.GetLedgerChanges` | soroban-env-host-patch/src/e2e_invoke.rs:123-201 | Reports exactly one change per key of the map, or an error iff some key is outside the footprint or has an entry, now or before, that can expire but carries no end of life |
| `LedgerChanges.ChangesAfterRun` | soroban-env-host-patch/src/e2e_invoke.rs:123-201 | After any enforcing run the change of a key is an error iff its entry can expire and was last written without a TTL, which is never so for a read-only key; otherwise it reports the size and end of life the entry started with, its value now, and its end of life now, never an earlier one; read-only keys report no new value, and a deleted entry no value and no life |
| `LedgerChanges.NoChangeMissing` | soroban-env-host-patch/src/e2e_invoke.rs:123-201 | If every put of an entry that can expire carries a TTL, the missing-TTL and missing-access errors are unreachable |
| `LedgerChanges.BuildStorageMap` | soroban-env-host-patch/src/e2e_invoke.rs:728-797 | Fails iff some supplied entry is unsupported, outside the footprint, expired, or without the TTL its kind needs; otherwise has exactly the footprint's keys, the last entry supplied under each, none for the rest |
| `LedgerChanges.SuppliedEntriesLoad` | soroban-env-host-patch/src/e2e_invoke.rs:728-797 | Supplying what a snapshot holds for the footprint gives the map a replay starts from |
| `LedgerChanges.BuildFootprint` | soroban-env-host-patch/src/e2e_invoke.rs:702-726 | A key listed both ways ends up read-only |
| `LedgerChanges.SplitFootprint` | soroban-env-host-patch/src/e2e_invoke.rs:403-422 | The two lists of a footprint hold exactly its keys by access |
| `LedgerChanges.FootprintRoundTrip` | soroban-env-host-patch/src/e2e_invoke.rs:403-422 | Splitting and rebuilding a footprint gives it back |
| `WriteFee.ComputeWriteFeePer1kb` | soroban-env-host-patch/src/fees.rs:241-276 | The saturating computation is exact: the low fee plus the size's fraction of the target times the span, above the target the high fee plus the growth factor times the excess's fraction, rounded up; 1000 or the largest 64-bit number exactly when the value is at or beyond that end |
| `WriteFee.FeeGrowsWithSize` | soroban-env-host-patch/src/fees.rs:241-276 | The fee never falls as the bucket list grows, across the target included |
| `WriteFee.FeeAtTheEnds` | soroban-env-host-patch/src/fees.rs:241-276 | The low fee for an empty list, the high fee at the target, floored |
| `WriteFee.AboveTarget` | soroban-env-host-patch/src/fees.rs:261-275 | Above the target saturation of the 128-bit product never changes the clamped result |
| `WriteFee.BelowTarget` | soroban-env-host-patch/src/fees.rs:250-260 | Below the target nothing saturates |
| `RentFee.ComputeRentFee` | soroban-env-host-patch/src/fees.rs:286-317 | The loop of saturating additions gives the exact total, limited once at the end |
| `RentTotal.ChangeFeeExact` | soroban-env-host-patch/src/fees.rs:319-388 | Any change of an entry costs the whole entry for the added ledgers plus the added bytes for the ledgers already paid, at the price of its durability per 1024 bytes, each part rounded up, and less only where a product exceeds 64 bits |
| `RentTotal.TotalRentExact` | soroban-env-host-patch/src/fees.rs:286-317 | A transaction pays its changes, and per extended entry the write of one entry and of 48 bytes at the rate for 1024, together rounded up; the total never exceeds 64 bits |
| `RentTotal.FeesAdd` | soroban-env-host-patch/src/fees.rs:291-301 | Every change is charged once, in any order, and every extension counted once |
| `RentFee.RentFeePerEntryChange` | soroban-env-host-patch/src/fees.rs:356-388 | The fee of one change: extension at the new size plus growth over the ledgers already paid |
| `RentFee.EntryFeeNonnegative` | soroban-env-host-patch/src/fees.rs:356-388 | No change has a negative fee |
| `RentPotential.RentIsPotential` | soroban-env-host-patch/src/fees.rs:329-388 | Over any history within one ledger unrounded rent is at least the rate times the gain of size times remaining life, and equal to it if sizes never shrink |
| `RentPotential.FeeBounds` | soroban-env-host-patch/src/fees.rs:356-409 | The charged fee is the unrounded rent rounded up by less than two units |
| `RentPotential.SplittingSavesAtMostOne` | soroban-env-host-patch/src/fees.rs:319-409 | No splitting or reordering undercuts the direct change by more than one unit, whether the entry ends up larger or smaller |
| `RentPotential.RentCoversCut` | soroban-env-host-patch/src/fees.rs:329-388 | Whatever sizes come in between, unrounded rent covers the gain in potential below any bound on the size |
| `RentPotential.DirectIsCut` | soroban-env-host-patch/src/fees.rs:329-388 | A direct change pays, before rounding, exactly the gain in potential below its final size |
| `RentPotential.SplittingCanSaveOne` | soroban-env-host-patch/src/fees.rs:319-409 | One unit can be saved: a concrete history |
| `RentPotential.StepPotential` | soroban-env-host-patch/src/fees.rs:356-388 | One change pays at least its gain in potential |
| `AccountSignatures.CheckAccountAuthentication` | soroban-env-host-patch/src/builtin_contracts/account_contract.rs:145-234 | Accepts iff there are 1 to 20 signatures in strict key order, each valid and of a key with weight, whose weights reach the medium threshold |
| `AccountSignatures.GetSignerWeight` | soroban-env-host-patch/src/host/data_helper.rs:345-394 | The master weight for the account's own key, the weight of the first signer with the key, at most 255, or 0 |
| `AccountSignatures.WeightsAdd` | soroban-env-host-patch/src/builtin_contracts/account_contract.rs:205-225 | Every signature adds the weight of its key |
| `AccountSignatures.NoKeyCountsTwice` | soroban-env-host-patch/src/builtin_contracts/account_contract.rs:145-234 | Accepted keys are distinct and never weigh more than the account's signers do once each |
| `AccountSignatures.TwoMembersNeeded` | README.md:131-133 | With weights 1/1/1, master 0 and threshold 2, accepted iff two or three distinct members signed |

## Left out

- Host plumbing is left out: the object table, XDR, the interpreter, budget metering, events and diagnostics are not part of the model, and no budget failure is considered.
- Host-function frames, which push no entry on the call stack, and the emulated authentication of recording mode are not modelled; only contract and create-contract frames are.
- An invocation tree is a value inside its tracker and not a graph of shared cells; no two trackers share a tree in the host.
- `born` is a field the host does not have: the call depth at which an invoker tracker was created, kept so that scoping can be stated.
- What `__check_auth` does inside its frame, and its verdict on the signature, are inputs of a run; signature schemes are not modelled. An account contract that cannot be called at all counts as a frame that fails at once.
- AuthorizationReplay.RecordedAuthorizationSuffices: where account code is not harmless the property fails on the inputs of `AuthorizationAccountCode.CheckCutsTrackerShort` and `AuthorizationAccountCode.CheckSpendsNode`; harmlessness is sufficient over a whole run, and necessary only for the lockstep of one request (`AuthorizationReplay.NewTrackerReplays`). Nothing is said about several handles for one address, or a contract that carries on after a denial, outside failing calls.
- Contract data expiry inside the campaign contracts: entries are taken to stay live, and `extend_*_ttl` and the plain getters, which only prolong lives or return one stored value, are left out; no modelled operation depends on them.
- The token is honest: it moves what it is asked to move, keeps a supply within an i128, and neither mints nor claws back during a run.
- Every address used as a contributor pool holds that contract; a foreign contract that imitates its answers is not modelled. The deployed-address check is an input.
- Manifest and policy hashes, terms as bytes, and event payloads are abstracted; terms are only compared with the empty sequence.
- Authorization inside the campaign contracts is the set of addresses that authorize the call; the escrow and the pools never authorize a call on their own initiative, so no sponsor or recipient is one of them. (The deficit test at contracts/campaign_escrow/src/test.rs:406 moves the escrow's tokens under mocked authorization.)
- `reputation_anchor` lets its admin overwrite one score record per profile and lets anyone read it; no modelled contract calls it.
- The `testutils` liveness checks of storage and `compute_transaction_resource_fee` are left out; rent for read-only TTL bumps is not claimed.
- Ledger entries are abstract values with a size and a TTL; XDR encoding and key hashing are left out, and metered maps are mathematical maps.
- A recording snapshot returns only live entries.
- WriteFee.ComputeWriteFeePer1kb: says nothing for a negative size, a target below one, or a low fee above the high one, which the network configuration excludes.
- RentFee.ComputeRentFee: assumes nonnegative fee rates, as the network configuration does.
- RentPotential.SplittingSavesAtMostOne: assumes that no product of a step exceeds 64 bits; beyond that the saturated fee is no measure of the rent.
