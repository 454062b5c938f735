# IriX Node: verified models

IriX Node is a daemon that manages game-server processes. This project models the six parts of it that carry hard
properties over unbounded runs, and proves those properties for all inputs and all runs.

| part | files | form |
|---|---|---|
| encrypted block store | `Sealing`, `VaultObjects`, `VaultPaths`, `VaultIndex`, `VaultMoves`, `VaultListing`, `VaultStore`, `VaultCrash`, `VaultLeaks` | a class that refines a tree of paths, and a transition system with crashes |
| vault keys, sessions, challenges | `VaultLedger`, `VaultKeys`, `VaultRuns`, `VaultPolicy`, `VaultAuthority`, `VaultReuse` | steps on a ledger, a class that takes them and logs them, theorems over every log, and two concrete runs |
| accounts and login limiter | `Accounts`, `AccountRuns`, `LoginLimiter`, `AccountHandlers`, `LoginRuns`, `LoginAddresses` | classes against functions and relations on tables, two requests end to end, runs of requests and of login attempts |
| debounced persistence and shutdown | `AutoSave`, `ShutdownEnds` | a transition system, any number of interleaved threads |
| logs | `LogRing`, `SessionLog`, `LineLogs`, `LogFiles` | classes against functions of the byte stream |
| WebSocket frames | `WebSocket` | a class against a parser on values |

The vault's log has a type, `VaultLedger.Record`, that only histories inhabit, and `VaultKeys.VaultState.Handle` enters every
request in it; so each theorem of `VaultRuns`, `VaultPolicy` and `VaultAuthority` holds of every vault and every sequence of requests.

`Common` holds shared datatypes and sequence facts. `dafny verify dfyconfig.toml` checks everything.

## Assumptions

- Passwords, names, paths and addresses are sequences of single-byte characters.
- The clock never goes backwards. Random ids, tokens, salts and keys were never drawn before.
- Sealing, key derivation, password hashing, signatures and one-time codes are ideal: `Sealed(key, plain)` opens under
  `key` alone, a code belongs to one secret and one time step, and outcomes the model cannot compute are parameters.
- A rename is atomic and a synced effect is durable before the next one starts. The index file is written and renamed
  without a sync (`cmd/irix-node/vault_store.go:810-818`); the model takes that rename as durable once `flush` goes on.
- Redis is not configured and SQL statements succeed; saving `vault.json` succeeds.
- Account and vault requests are handled one at a time, except that the store loads after an unlock while other requests
  go on. In the store one foreground operation runs at a time, and the background flush runs between any two of its steps.
  Instance persistence is modelled with every interleaving.
- `readHeader` opens the object file read-only, where cutting its tail fails and is ignored
  (`cmd/irix-node/vault_store.go:113-146`), against what its comment says. The model keeps an interrupted append's tail;
  no proof needs the cut.

## What the proofs found out about the code

- An append is a concatenation exactly when the old size is not a block multiple or no counted block is spare
  (`VaultObjects.AppendIsConcatenationIff`). The guard fails for a touched file: touching and then appending up to a block
  reports success and leaves it empty, for every block size (`VaultStore.TouchedFileLosesFirstBlock`). It fails after a
  crash between raising the header count and saving the index, in a run from the empty store
  (`VaultCrash.InterruptedAppendHappens`).
- Moving a path onto itself removes it. Moving a directory up onto one of its ancestors loses an entry that lands on the
  source, and one that another entry lands on before its own turn in the sorted order. `VaultMoves.MovesCleanly` is the
  exact guard: to any destination outside the source the result is the moved tree if and only if it holds.
- A move of a file onto another file leaves the other's object behind, which no flush deletes, only the next load's sweep
  (`VaultLeaks.MoveOntoFileLeaks`). Without such moves nothing leaks (`VaultLeaks.NothingLeaks`).
- An account session is renewed only once less than half its life is left. So it goes on for as long as it is used at
  intervals of less than half a life (`AccountRuns.KeptAlive`), and an interval of exactly that length can end it
  (`AccountRuns.HalfIsTooLong`).
- A session-log write at least as long as the buffer does not count the bytes it displaces, so the offset equals the
  number of bytes written exactly when there is no such write onto a non-empty log (`SessionLog.OffsetIsStreamLengthIff`).
- A 64-bit frame length with the top bit set is read as a negative number and passes the size check; the read then fails
  at making the buffer. It happens exactly for the headers of `WebSocket.NegativeLengthIff`.
- The login table's eviction at its cap can drop a lock while its lockout is on, in a run from the empty table for any
  user and any sufficiently many addresses (`LoginRuns.EvictionDropsLock`). A locked entry survives making room exactly when there is room, or at least as many
  entries are strictly older as have to go (`LoginRuns.EvictionSparesIff`).
- A vault user removed and added again may unlock a second time in one one-time window, in a run from an empty vault
  (`VaultReuse.ReaddedUserReusesWindow`). In every run in which a name is not added again its windows strictly increase
  (`VaultRuns.UnlockWindowsIncrease`, `VaultRuns.LastTenureGoesOn`).
- The replay guard compares windows of the server's clock, not steps of codes, so one code can unlock three times, in a
  run from an empty vault (`VaultReuse.OneCodeUnlocksThrice`), and never more often, whoever shows it
  (`VaultRuns.CodeUnlocksAtMostThrice`). A code is spent by its first unlock exactly when it was the code of the step
  before (`VaultLedger.SpentByFirstUseIff`).
- Reading an instance log back gives the lines of the bytes its files hold exactly when before every file with more than
  newlines there is nothing, or whole lines of which the last is not blank (`LogFiles.LogIsReadBackIff`). Process output is
  logged in raw chunks, so rotation may cut a line in two.

## Model

| member | source | states |
|---|---|---|
| VaultObjects.PlainSlice | cmd/irix-node/vault_store.go:150-173 | the i-th slice of a file's plaintext of block length is exactly what block i seals, for every counted block |
| VaultObjects.GrownContent | cmd/irix-node/vault_store.go:458-499 | growing an object behind its counted blocks changes no content that the old blocks covered |
| VaultObjects.AppendClean | cmd/irix-node/vault_store.go:420-507 | under the guard, reading after an append gives the old content followed by the data |
| VaultObjects.AppendDropped | cmd/irix-node/vault_store.go:455-506 | where the guard fails, data that fits the spare counted blocks vanishes |
| VaultObjects.AppendShifted | cmd/irix-node/vault_store.go:455-506 | where the guard fails and the data does not fit, the spare blocks show and as many bytes of the data are lost at its end |
| VaultObjects.AppendIsConcatenationIff | cmd/irix-node/vault_store.go:420-507 | the guard holds if and only if appending is concatenation for every data |
| VaultObjects.AppendToEmptyFileIsLost | cmd/irix-node/vault_store.go:457-462 | data up to a block appended to an empty file of one counted block vanishes, for every block size |
| VaultIndex.UnrelatedPathKept | cmd/irix-node/vault_store.go:377-612 | over any run of writes, removals, moves and new directories, each as the code does it, a path no operation concerns reads as at the start |
| VaultIndex.LinkedView | cmd/irix-node/vault_store.go:387-411 | linking a new object at a path is a write on the tree, keeps every file backed, and releases just the replaced object's id |
| VaultMoves.UnnestedMovesCleanly | cmd/irix-node/vault_store.go:567-582 | between paths that do not lie within each other every move meets the guard of a clean move |
| VaultMoves.MoveUpLosesNamesake | cmd/irix-node/vault_store.go:567-582 | a concrete failing input: moving /u/a up to /u while it holds a file named a is not clean and loses the file |
| VaultMoves.MoveResultIff | cmd/irix-node/vault_store.go:565-582 | for every source and every destination outside it, what the code leaves is the moved tree if and only if the move is clean |
| VaultMoves.MoveFrame | cmd/irix-node/vault_store.go:565-582 | no move, clean or not, to outside or inside the source, touches a path outside source and destination |
| VaultMoves.MoveOntoItself | cmd/irix-node/vault_store.go:565-582 | a move onto itself is a removal of the path and everything below it |
| VaultMoves.SettledView | cmd/irix-node/vault_store.go:576-579 | renaming index entries one by one in sorted order is renaming the nodes they stand for |
| VaultListing.WriteLists | cmd/irix-node/vault_store.go:383-398 | writing a new name adds the file and, unless it is the root or listed, its directory one level up, and nothing else |
| VaultListing.FilesAreListed | cmd/irix-node/vault_store.go:383-398 | over any run of writes and new directories the directory of every file not directly below the root is listed |
| VaultListing.RemoveTakes | cmd/irix-node/vault_store.go:510-545 | a removal takes the path, with a directory all names below it, and no other |
| VaultListing.FileMoves | cmd/irix-node/vault_store.go:565-569 | a moved file is read at its new path, no longer at the old one, and no other path changes |
| VaultListing.DirectoryMoves | cmd/irix-node/vault_store.go:570-582 | after a clean move what was below the source reads the same below the destination |
| VaultListing.DirectoryLeaves | cmd/irix-node/vault_store.go:570-582 | after a move between unnested paths no old name is left |
| VaultStore.Store.ReadHeader | cmd/irix-node/vault_store.go:113-146 | with the vault unlocked, succeeds exactly for an object of valid block size whose data key the master key opens, and returns that key and the block count |
| VaultStore.Store.ReadBlock | cmd/irix-node/vault_store.go:150-173 | returns the plaintext exactly for a counted block that is there and opens, and an error for every other index |
| VaultStore.Store.SealBlocks | cmd/irix-node/vault_store.go:222-240 | the sealed blocks all have block size, one key, and concatenate to the data zero-padded |
| VaultStore.Store.NewObject | cmd/irix-node/vault_store.go:176-256 | one new object is added that reads back as the data, with the block count the size needs and at least one |
| VaultStore.Store.ReadFile | cmd/irix-node/vault_store.go:291-322 | returns exactly the bytes the tree holds at the path, and the right error for locked, missing and directory |
| VaultStore.Store.ReadRange | cmd/irix-node/vault_store.go:325-374 | equals the full content sliced to the requested range clipped to the size |
| VaultStore.Store.BlockSpan | cmd/irix-node/vault_store.go:350-351 | the blocks a range opens lie below the header count and cover the range |
| VaultStore.Store.WriteFile | cmd/irix-node/vault_store.go:377-413 | the tree changes by one write, whose names `VaultListing.WriteLists` spells out; the replaced object is queued, not deleted |
| VaultStore.Store.AppendFile | cmd/irix-node/vault_store.go:420-507 | the path holds the content `Appended` defines, nothing else changes, and errors change nothing |
| VaultStore.Store.AppendBlocks | cmd/irix-node/vault_store.go:457-499 | counted blocks stay bit for bit and the new ones hold the padded data |
| VaultStore.Store.AppendAligned | cmd/irix-node/vault_store.go:445-507 | the exact new content, early stop included; otherwise the states it goes through are the steps start, write tail, raise count, grow size of the crash model |
| VaultStore.Store.CopyFile | cmd/irix-node/vault_store.go:548-554 | the destination is written with the source's bytes |
| VaultStore.Store.Mkdir | cmd/irix-node/vault_store.go:588-597 | adds a directory where nothing was, and leaves what exists alone |
| VaultStore.Store.Touch | cmd/irix-node/vault_store.go:600-612 | creates an empty file, or changes no content |
| VaultStore.Store.Remove | cmd/irix-node/vault_store.go:510-545 | the tree loses the path and everything below it, and exactly the objects it alone used are deleted |
| VaultStore.Store.Move | cmd/irix-node/vault_store.go:557-585 | for every source and destination the tree becomes exactly what renaming the entries in sorted order makes of it; outside source and destination nothing changes; it is the moved tree if and only if the move is clean; no object changes |
| VaultStore.TouchedFileLosesFirstBlock | cmd/irix-node/vault_store.go:420-462 | touching a new file and appending up to a block both succeed and leave the file empty |
| VaultMoves.UncleanMove | cmd/irix-node/vault_store.go:571-582 | after an unclean move a name is missing that the moved tree has, whatever the files hold |
| VaultPaths.CleanlySettled | cmd/irix-node/vault_store.go:576-579 | when every entry lands clear, renaming them one by one in sorted order is moving them all at once |
| VaultPaths.GoneAtLast | cmd/irix-node/vault_store.go:576-579 | wherever entries land, an old name below the source is free in the end unless a later entry landed on it |
| VaultStore.Store.Flush | cmd/irix-node/vault_store.go:788-823 | the index file holds the index, queued objects are gone, and the tree is unchanged |
| VaultStore.Store.SweepOrphans | cmd/irix-node/vault_store.go:757-785 | every object the index does not name is deleted and the tree is unchanged |
| VaultStore.Store.Load | cmd/irix-node/vault_store.go:720-755 | a fresh process reads the tree of the stored index, and a wrong key fails |
| VaultCrash.StepKeeps | cmd/irix-node/vault_store.go:176-823 | every step keeps the invariant, and only a flush changes what a restart would read, making it the live tree |
| VaultCrash.DurableIsLastFlushed | cmd/irix-node/vault_store.go:788-823 | in every run and at every point, what a restart would read is the live tree of the last flush |
| VaultCrash.CrashDurability | cmd/irix-node/vault_store.go:720-823 | after any crash and load every path reads what it read at the last flush, and no file is broken |
| VaultCrash.CountedBlocksNeverRewritten | cmd/irix-node/vault_store.go:455-506 | in every run no block below the header count is rewritten and no count shrinks; the appends of those runs are what the store does, by Store.AppendAligned |
| VaultLeaks.NothingLeaks | cmd/irix-node/vault_store.go:757-823 | in every run whose loads sweep and whose moves land on no file, every object is a file's, of the operation under way, or waits for deletion |
| VaultLeaks.FlushLeavesTheFiles | cmd/irix-node/vault_store.go:788-823 | after a flush and its deletions the objects are exactly those the saved index names |
| VaultLeaks.MoveOntoFileLeaks | cmd/irix-node/vault_store.go:565-569 | from every such state a move onto a file leaves its object where nothing names it |
| VaultCrash.AppendInStages | cmd/irix-node/vault_store.go:460-506 | an append in place is four steps of the crash model, from the tail written behind the counted blocks to the grown size |
| VaultCrash.InterruptedAppendLeavesSpareBlocks | cmd/irix-node/vault_store.go:491-506 | a crash between header and index leaves a file for which the append guard fails |
| VaultCrash.InterruptedAppendHappens | cmd/irix-node/vault_store.go:457-506 | a run from the empty store, for every block size, that ends with such a file and drops the next append |
| VaultKeys.VaultState.Handle | cmd/irix-node/vault_handlers.go:79-990 | every request, the end of a load and every janitor tick takes its step on the ledger, which is entered in a log that never forgets; users, root keys, sessions and challenges stay sound; issued, revoked, spent and the names' histories only grow and the keys never change |
| VaultLedger.StepSound | cmd/irix-node/vault_handlers.go:79-990 | whatever the request and its answer, the step keeps wraps, windows, sessions and the key in memory sound |
| VaultLedger.HistorySound | cmd/irix-node/vault_handlers.go:79-990 | the ledger is sound after every history from an empty vault |
| VaultRuns.OneUser | cmd/irix-node/vault_handlers.go:203-990 | every request treats each user as its kind says, and leaves all other users alone |
| VaultRuns.OneToken | cmd/irix-node/vault_handlers.go:203-990 | every request treats each session as its kind says, and leaves all other sessions alone |
| VaultRuns.LedgersGrow | cmd/irix-node/vault_handlers.go:79-990 | over every run tokens stay issued and revoked, names' histories go on and the master key stays |
| VaultRuns.OnlyTheLatestPasswordOpens | cmd/irix-node/vault_handlers.go:526-557 | after every run a user's wrap opens under the password set by the last request that set one, and under no other, to the key of the one initialisation |
| VaultRuns.UnlockedWasSetUp | cmd/irix-node/vault_handlers.go:465-520 | in every run an unlock comes after the user was added, confirmed the code of the secret now in force and bound the certificate now registered, and it shows the password last set |
| VaultRuns.UnlockWindowsIncrease | cmd/irix-node/vault_handlers.go:478-486 | in every run two unlocks of one name without an addition of it in between lie in increasing one-time windows |
| VaultRuns.LastTenureGoesOn | cmd/irix-node/vault_handlers.go:478-486 | in every run in which a name is not added again its last tenure goes on by exactly the unlocks granted, and its windows increase |
| VaultRuns.CodeUnlocksAtMostThrice | internal/vaultcrypto/vault_crypto.go:91-102 | over every run one code unlocks at most three times, whoever shows it |
| VaultRuns.CodeAgain | internal/vaultcrypto/vault_crypto.go:91-102 | a code that unlocks again does so for the same user in a later window |
| VaultAuthority.EditsAreAuthorised | cmd/irix-node/vault.go:412-433 | in every run a granted change of a credential is made for one user on that user's own authority, a fresh onboarding token, a recovery less than five minutes old or an unlock that still stands, and shows the code in force, the signature, or with an unlocked session the password last set |
| VaultAuthority.OwnersChangeCredentials | cmd/irix-node/vault_handlers.go:203-740 | in every run a user's secret, certificate and wrap change only by such a request or by the user's own unlock |
| VaultAuthority.UnlockShowsFactors | cmd/irix-node/vault_handlers.go:465-520 | in every run an unlock shows a certificate that holds and a code, good at that time, of the secret last drawn for the user |
| VaultAuthority.OnlyUnlockedActs | cmd/irix-node/vault_handlers.go:613-990 | in every run locking, reading, adding and removing take a token of an unlock that still stands, with the key in memory |
| VaultAuthority.MembersChange | cmd/irix-node/vault_handlers.go:837-990 | in every run users come with the one initialisation or by an unlocked session, and go by one that leaves another user |
| VaultAuthority.TokensApart | cmd/irix-node/vault_handlers.go:79-923 | in every run no token is an onboarding token and a session at once |
| VaultPolicy.CodeLifetime | internal/vaultcrypto/vault_crypto.go:91-102 | a code is good for ninety seconds: its own half minute, the one before and the one after |
| VaultLedger.SpentByFirstUseIff | cmd/irix-node/vault_handlers.go:478-486 | a code is worthless after its first unlock if and only if it was the code of the step before |
| VaultReuse.OneCodeUnlocksThrice | cmd/irix-node/vault_handlers.go:478-486 | a run from an empty vault in which one code unlocks in three windows in a row |
| VaultRuns.SessionIff | cmd/irix-node/vault_handlers.go:561-740 | in every run a token is in force if and only if an unlock issued it and no lock, removal, password change, failed load or expiry has ended it since |
| VaultRuns.AdmittedWasUnlocked | cmd/irix-node/vault.go:507-566 | in every run an admitted read shows a token of exactly one granted unlock that nothing has ended since, last used no longer ago than the idle timeout |
| VaultRuns.BeginsOnce | cmd/irix-node/vault_handlers.go:561-570 | in every run no token is issued by two unlocks |
| VaultPolicy.ExpiredIsReplaced | cmd/irix-node/vault_handlers.go:526-557 | in every run an unlock on a password as old as the limit, with forced expiry, sets the new one it shows; every other unlock leaves the password as it is |
| VaultPolicy.UnlocksOnFreshPassword | cmd/irix-node/vault_handlers.go:526-557 | in every run with forced expiry the password met after an unlock was set less than the limit ago |
| VaultPolicy.PasswordsAreStrong | cmd/irix-node/vault_handlers.go:526-700 | in every run every password is strong, whichever request set it |
| VaultPolicy.StrongIff | cmd/irix-node/vault.go:326-345 | strong means the length asked for, an upper-case letter, a lower-case letter and a digit |
| VaultPolicy.OneKeyStep | cmd/irix-node/vault.go:293-300 | in every run only an unlock brings the key into memory; locking, a failed load, and a sweep or removal that leaves no unlocked session take it away; nothing else touches it or the load gate |
| VaultPolicy.KeyOutlivesIff | cmd/irix-node/vault_handlers.go:972-983 | in every run the key outlives a sweep or the removal of a user if and only if it was there and an unlock of the log still stands |
| VaultPolicy.ReadsWaitForLoad | cmd/irix-node/vault.go:507-566 | in every run an admitted read after an unlock comes after the end of a load, or a lock |
| VaultPolicy.LockedIsNotRead | cmd/irix-node/vault_handlers.go:613-642 | in every run nothing is read between a lock or a failed load and the next unlock |
| VaultPolicy.ReadFromItsAddress | cmd/irix-node/vault.go:378-392 | where sessions are bound to addresses, an admitted read comes from the address of the unlock that issued its token |
| VaultPolicy.OneInitToken | cmd/irix-node/vault_handlers.go:207-278 | every request treats each onboarding token as its kind says: handed out with no failures, counted up, completed, voided or swept |
| VaultPolicy.OnboardingIsBrief | cmd/irix-node/vault.go:412-433 | in every run whoever acts by an onboarding token does so for the user it was made for, within ten minutes, before any binding with it and before a fifth wrong code |
| VaultPolicy.FreshIsThere | cmd/irix-node/vault.go:412-433 | and until then the token is there, with the wrong codes of the log counted |
| VaultPolicy.RecoveryIff | cmd/irix-node/vault_handlers.go:745-832 | in every run a recovery session is there if and only if a recovery opened it and no sweep has come after its five minutes |
| VaultPolicy.RecoveryIsBrief | cmd/irix-node/vault_handlers.go:745-832 | in every run whoever acts by a recovery session does so within five minutes of the recovery |
| VaultPolicy.CutIsRevoked | cmd/irix-node/vault_handlers.go:613-740 | in every run a session that ends before a sweep takes it has its token revoked |
| VaultPolicy.FailuresAddUp | cmd/irix-node/vault.go:348-366 | failures of one key within one window add up, and lock from the limit on until a lockout after the last |
| VaultPolicy.FailureAfterWindow | cmd/irix-node/vault.go:354-366 | a failure after the window starts over |
| VaultReuse.ReaddedUserReusesWindow | cmd/irix-node/vault_handlers.go:892-899 | a run from an empty vault in which a name, removed and added again, unlocks twice in the same window, under two secrets |
| VaultReuse.VisitTwice | cmd/irix-node/vault_handlers.go:929-990 | the same from any calm vault with an unlocked host, for any name and strong password |
| VaultKeys.VaultState.Init | cmd/irix-node/vault_handlers.go:79-201 | succeeds exactly once with a strong password, and plants one master key under the user's password, the recovery token and the index wrap |
| VaultKeys.VaultState.VerifyTotp | cmd/irix-node/vault_handlers.go:207-278 | the exact outcome for every request, the binding of the one user concerned, and the voiding of an onboarding token at its fifth failure |
| VaultKeys.VaultState.ResetTotp | cmd/irix-node/vault_handlers.go:282-310 | an unlocked or recovery session, and nothing else, gives its user a fresh secret to be confirmed |
| VaultKeys.VaultState.IssueChallenge | cmd/irix-node/vault_handlers.go:316-363 | the pool never exceeds its bound; a full one drops exactly the expired challenges first; refusal means it is full of live ones |
| VaultKeys.VaultState.SpendChallenge | cmd/irix-node/vault_handlers.go:390-395 | succeeds exactly for a live unused challenge of the purpose; it was never spent before and is not spendable again; all others stay |
| VaultKeys.VaultState.BindCert | cmd/irix-node/vault_handlers.go:369-421 | succeeds exactly on authorisation, live challenge and signature; the challenge is spent even when the rest fails |
| VaultKeys.VaultState.Unlock | cmd/irix-node/vault_handlers.go:426-585 | succeeds exactly when challenge, window, code, password, certificate and any forced change hold; on a password of the limiting age only with a strong new one, on a younger one whatever new one is sent; then one session, the key in memory and one more used window behind a shut gate, and otherwise no key, session or history moves |
| VaultKeys.VaultState.EndLoad | cmd/irix-node/vault_handlers.go:587-603 | the load ends any number of requests later; its failure ends and revokes the session and forgets the key |
| VaultLedger.UnlockedSound | cmd/irix-node/vault_handlers.go:426-585 | a granted unlock keeps wraps, histories and sessions sound |
| VaultKeys.VaultState.Prove | cmd/irix-node/vault_handlers.go:465-557 | yields the master key exactly when all factors hold and an expired password was replaced by a strong one |
| VaultKeys.VaultState.CheckFactors | cmd/irix-node/vault_handlers.go:465-520 | the master key exactly when every factor holds, and otherwise exactly one counted failure |
| VaultKeys.VaultState.Lock | cmd/irix-node/vault_handlers.go:613-642 | forgets the key, ends all unlocked sessions, revokes every token issued so far |
| VaultKeys.VaultState.ChangePassword | cmd/irix-node/vault_handlers.go:647-740 | rewraps for the target user alone, demands the old password of unlocked sessions only, and revokes the user's other sessions |
| VaultKeys.VaultState.Recover | cmd/irix-node/vault_handlers.go:745-832 | the recovery token exactly, for a determinable user, opens a session holding the master key |
| VaultKeys.VaultState.AddUser | cmd/irix-node/vault_handlers.go:837-923 | only an unlocked session adds a user, whose wrap holds the same master key |
| VaultKeys.VaultState.RemoveUser | cmd/irix-node/vault_handlers.go:929-990 | never the last user; the user's sessions are revoked, and the key goes with the last unlocked session |
| VaultKeys.VaultState.Gate | cmd/irix-node/vault.go:507-566 | admits exactly live unlocked tokens, from their own address where bound, behind an open gate with the key in memory, and leaves more than the idle timeout minus the renewal interval |
| VaultKeys.VaultState.UnlockedByIff | cmd/irix-node/vault.go:378-398 | an unlocked session is live until it expires, and where bound from its own address alone |
| VaultKeys.VaultState.TargetIff | cmd/irix-node/vault.go:412-433 | whom a token speaks for: an onboarding token comes first, then a live session, which unless it is a recovery needs the key in memory |
| VaultKeys.VaultState.LimitedIff | cmd/irix-node/vault.go:348-366 | a key with failures within one window is limited if and only if they reach the limit and the lockout after the last is not over |
| VaultKeys.VaultState.Sweep | cmd/irix-node/vault.go:274-319 | drops exactly the expired sessions, forgets the key with the last unlocked one, and lifts no lock that still holds |
| VaultKeys.VaultState.Fail | cmd/irix-node/vault.go:354-366 | one failure counted in a running or restarted window, locking from the limit on |
| Accounts.AccountSystem.LookupSession | cmd/irix-node/accounts.go:597-634 | the cached lookup answers what the tables alone would answer at that time |
| Accounts.AccountSystem.AuthenticateRequest | cmd/irix-node/accounts_handlers.go:78-96 | identity, renewal and clean-up are those of the uncached tables, whose renewal `AccountRuns.UseProlongs` spells out |
| Accounts.AccountSystem.PutSession | cmd/irix-node/accounts.go:554-592 | the row is written or prolonged and the cache agrees with it; an expired session is not stored |
| Accounts.AccountSystem.DelSession | cmd/irix-node/accounts.go:638-652 | row and cache entry of the token go |
| Accounts.AccountSystem.RevokeUserSessions | cmd/irix-node/accounts.go:674-718 | exactly the user's sessions but the kept one leave table and cache |
| AccountHandlers.HandleLogin | cmd/irix-node/accounts_handlers.go:140-187 | refused without a look at the password exactly when account or address is locked, else let in exactly on the right password; limiter and tables move as one attempt and one login |
| Accounts.AccountSystem.LogIn | cmd/irix-node/accounts_handlers.go:162-186 | behind the limiter: succeeds exactly on the right password, purging expired rows, and the new token resolves |
| Accounts.AccountSystem.CreateAccount | cmd/irix-node/accounts.go:296-309 | the table gains the account exactly when the name is free, and a cached absence is forgotten |
| AccountHandlers.HandlePassword | cmd/irix-node/accounts_handlers.go:313-384 | done exactly when the caller shows the old password or is an administrator, for the one target; then every session of the target but the caller's stops resolving, for good |
| Accounts.AccountSystem.ChangePassword | cmd/irix-node/accounts_handlers.go:343-349 | behind the checks: the table changes as without caches, and the caches stay true |
| Accounts.AccountSystem.DeleteAccount | cmd/irix-node/accounts.go:448-469 | account, sessions and cached entries go together |
| Accounts.AccountSystem.LoadPermissions | cmd/irix-node/accounts.go:829-848 | the answer is the table's, in a map the cache does not hold |
| Accounts.AccountSystem.ChangePermissions | cmd/irix-node/accounts_handlers.go:390-467 | done exactly for an existing account that is no administrator, with something to change, a known group with its switch, and known keys; the first fault otherwise; then the permissions after a group switch and single switches, and a failed edit reaches neither table nor cache |
| Accounts.MutationIsInvisible | cmd/irix-node/accounts.go:506-532 | whatever a caller does to a loaded map, the next load answers from the tables |
| Accounts.RevokedStaysRevoked | cmd/irix-node/accounts.go:638-718 | over any run a token without a row never resolves again |
| Accounts.RevocationIsComplete | cmd/irix-node/accounts.go:448-469 | password change and deletion end every other session of the user, and no one else's |
| AccountRuns.UseProlongs | cmd/irix-node/accounts_handlers.go:78-96 | using a session leaves it at least half its life from now on, never shortens it, never grants more than a whole life, and touches no other row |
| AccountRuns.KeptAlive | cmd/irix-node/accounts_handlers.go:78-96 | over any run a session used at intervals of less than half its life goes on, unless it is logged out, its account deleted or its password changed from another session |
| AccountRuns.HalfIsTooLong | cmd/irix-node/accounts_handlers.go:90-94 | a concrete run in which a use after exactly half a life does not renew and the next, half a life later, comes too late |
| AccountRuns.LoginLetsIn | cmd/irix-node/accounts_handlers.go:162-186 | a login gives the new token a whole life exactly on the right password, and lets no other token in or out |
| AccountRuns.LogoutEnds | cmd/irix-node/accounts.go:638-652 | a logout ends its token and no other |
| AccountRuns.SweepIsInvisible | cmd/irix-node/accounts.go:721-727 | sweeping expired rows changes no present or later answer |
| AccountRuns.AccountStays | cmd/irix-node/accounts.go:296-469 | over any run an account changes only by requests that name it |
| AccountRuns.LatestPasswordLogsIn | cmd/irix-node/accounts_handlers.go:140-187 | over any run a login succeeds with the password last set and no other |
| AccountRuns.LatestPermsAreLoaded | cmd/irix-node/accounts.go:829-848 | over any run the permissions loaded are those last set, and none after the account is deleted |
| AccountRuns.LastSwitchDecides | cmd/irix-node/accounts_handlers.go:441-451 | the last change of a permission decides it |
| AccountRuns.UnnamedStays | cmd/irix-node/accounts_handlers.go:441-451 | a permission that is not named keeps its value |
| AccountRuns.GroupSwitchDecides | cmd/irix-node/accounts_handlers.go:421-434 | a group switch sets the keys of the group and no other |
| LoginLimiter.PairKeyInjective | cmd/irix-node/accounts.go:733-738 | distinct account and address pairs have distinct keys as long as addresses hold no at sign |
| LoginLimiter.PurgeIsInvisible | cmd/irix-node/accounts.go:816-824 | purging changes no present or later answer |
| LoginRuns.RunTimely | cmd/irix-node/accounts.go:755-793 | in every run a lock ends at most a window and a lockout after its window began |
| LoginRuns.LockHolds | cmd/irix-node/accounts_handlers.go:158-173 | in every run in which room is made for it a locked pair stays refused for its whole lockout, through any attempts by anyone |
| LoginRuns.EvictionSparesIff | cmd/irix-node/accounts.go:767-778 | a locked entry survives making room, however ties fall, if and only if there is room or enough entries are strictly older |
| LoginRuns.EvictionDropsLock | cmd/irix-node/accounts.go:767-778 | for every user and all sufficiently many distinct addresses, a run from the empty table at whose end a pair is let through while its lockout is on |
| LoginRuns.ClientsExist | cmd/irix-node/accounts.go:767-778 | so many addresses exist, in dotted decimal form |
| LoginRuns.BoundedGuesses | cmd/irix-node/accounts.go:755-793 | in every run from the empty table a stretch of one lockout holds at most eight failed password checks of a pair that does not log in and that room is made for |
| LoginRuns.FifthCheckLocks | cmd/irix-node/accounts.go:755-793 | over runs: the fifth failed check of a new pair within one window, or any later one, locks it for the lockout |
| LoginAddresses.AddressLockHolds | cmd/irix-node/accounts.go:743-793 | in every run in which room is made for it a locked address keeps the very entry that locks it until the deadline, through any attempts by anyone |
| LoginAddresses.ThirtiethCheckLocks | cmd/irix-node/accounts.go:755-793 | over runs: the thirtieth failed check from a new address within one window, under whatever names, or any later one, locks it for the lockout |
| LoginAddresses.LockEndsOnTime | cmd/irix-node/accounts.go:743-793 | a lock is over exactly a lockout after the failure that set it |
| LoginAddresses.FewChecksDoNotLock | cmd/irix-node/accounts.go:755-793 | in every run from the empty table four checks of a pair and twenty-nine from an address lock neither |
| LoginAddresses.LoginForgets | cmd/irix-node/accounts.go:797-804 | a login forgets the failures of its pair and its address and lifts no other lock |
| LoginLimiter.Limiter.RecordFailure | cmd/irix-node/accounts.go:755-793 | both keys count one failure in the table left by making room: unchanged below the cap, else purged, else the oldest windows evicted until one key fits; the bound holds |
| LoginLimiter.Limiter.Attempt | cmd/irix-node/accounts_handlers.go:158-173 | refused exactly when pair or address is locked; in every case the table moves as the attempt relation says |
| AutoSave.StepKeeps | cmd/irix-node/daemon.go:428-557 | every atomic step of any thread keeps the invariant |
| AutoSave.NoMarkedChangeIsLost | cmd/irix-node/daemon.go:490-508 | in every interleaving a marked change is on disk, or dirty is set, or a save that will write it or re-mark is in flight |
| AutoSave.QuietMeansSaved | cmd/irix-node/daemon.go:494-508 | once the loop is joined, a clear flag means that every change of every admitted request through Add, UpdateInstance or Remove is on disk |
| AutoSave.ShutdownSavesEveryRequest | cmd/irix-node/app_runtime.go:106-142 | when the shutdown's flush succeeds, every change made by an admitted request through Add, UpdateInstance or Remove is on disk |
| AutoSave.FlushMeansSaved | cmd/irix-node/daemon.go:494-508 | in every interleaving, when FlushDirty returns without error every marked change is on disk or a mark has been set again |
| AutoSave.DiskNeverGoesBack | cmd/irix-node/daemon.go:428-487 | in every run the saved list never returns to an older version of any instance |
| ShutdownEnds.NeverStuck | cmd/irix-node/app_runtime.go:106-142 | in every reachable state before the last flush has ended some thread can take a step that begins nothing new and does not fail |
| ShutdownEnds.HolderWorksAlways | cmd/irix-node/daemon.go:428-487 | in every run whoever holds the save lock is at work under it |
| ShutdownEnds.ShutdownIsBounded | cmd/irix-node/app_runtime.go:106-142 | once nothing new begins the shutdown is over after boundedly many steps, in whatever order threads take them |
| ShutdownEnds.ShutdownCanEnd | cmd/irix-node/app_runtime.go:106-142 | in every run, at every point before the last flush has failed, the shutdown can still end with every admitted change on disk |
| LogRing.LogBuffer.Write | cmd/irix-node/process.go:41-80 | holds the last bytes of what was held and the chunk, with capacity within the limit |
| LogRing.LogBuffer.Tail | cmd/irix-node/process.go:102-125 | the last KiB asked for, or everything held, across the wrap point |
| LogRing.RingIsTailOfStream | cmd/irix-node/process.go:41-80 | after any writes the ring holds the last bytes of the whole stream, however chunked |
| LogRing.RingStep | cmd/irix-node/process.go:73-77 | overwriting the oldest bytes in place drops as many from the front as it adds at the end |
| SessionLog.SessionBuffer.Write | cmd/irix-node/container_bastille.go:1168-1182 | the buffer and count after one write, within the limit |
| SessionLog.SessionBuffer.Snapshot | cmd/irix-node/container_bastille.go:1187-1206 | the text and next offset for every since and tail |
| SessionLog.OffsetIsStreamLengthIff | cmd/irix-node/container_bastille.go:1168-1182 | the offset is the stream length if and only if every write was shorter than the buffer or came first |
| SessionLog.SnapshotIsStreamSuffix | cmd/irix-node/container_bastille.go:1187-1206 | a snapshot from a remembered offset is the stream from there on |
| SessionLog.PollingRebuildsStream | cmd/irix-node/container_bastille.go:1156-1206 | a client that keeps up reassembles the stream without gap or repeat |
| SessionLog.ForgottenGetsAll | cmd/irix-node/container_bastille.go:1187-1206 | a client whose offset has been forgotten gets the last bytes of the stream, as many as the buffer holds |
| LineLogs.SplitResumes | cmd/irix-node/process.go:275-300 | cutting lines may stop at any chunk and go on from the residue |
| LineLogs.JoinSplit | cmd/irix-node/container_bastille.go:1209-1216 | joining the lines of a text gives the text back |
| LineLogs.SplitJoin | cmd/irix-node/process.go:275-300 | splitting the joined text of lines without newlines gives those lines back, so the split is the only one there is |
| LineLogs.SplitsIntoLines | cmd/irix-node/process.go:275-300 | no line of a split text holds a newline |
| LineLogs.LineSplitter.Write | cmd/irix-node/process.go:275-300 | emits the ended lines of carry and chunk, and carries the rest |
| LineLogs.LineSplitter.Flush | cmd/irix-node/process.go:303-314 | a non-empty rest becomes the last line |
| LineLogs.SplitterChunkInvariant | cmd/irix-node/process.go:275-314 | what is emitted depends on the concatenated bytes alone and equals the direct split |
| LineLogs.LogCollector.Write | cmd/irix-node/container.go:153-174 | keeps the last lines of the log and the collected ended lines |
| LineLogs.CollectorChunkInvariant | cmd/irix-node/container.go:148-174 | the kept job log is the last 500 collected lines of the stream, however chunked |
| LineLogs.LineIsShown | cmd/irix-node/process.go:283-300 | a line shows its bytes without one carriage return at its end, and of an over-long one the last 8192 |
| LineLogs.CrLfIsShown | cmd/irix-node/process.go:275-314 | a text of lines ended by carriage return and newline is shown as those lines |
| LineLogs.LineIsKept | cmd/irix-node/container.go:153-174 | the collector keeps a line without the carriage returns at its end and drops an empty one |
| LogFiles.FileLogger.WriteAll | cmd/irix-node/logger.go:192-235 | at most one rotation per segment, exactly when size or age asks for it, and the files hold a suffix of the accepted stream |
| LogFiles.FileLogger.Rotate | cmd/irix-node/logger.go:257-283 | the newest keep + 1 files remain, renumbered, with an empty current one |
| LogFiles.FileLogger.ShiftRotated | cmd/irix-node/logger.go:266-276 | every numbered file moves up by one and the oldest falls off |
| LogFiles.FileLogger.Clear | cmd/irix-node/logger.go:342-360 | nothing is left on disk |
| LogFiles.LoggedIsSuffix | cmd/irix-node/logger.go:192-283 | with or without rotation the files concatenate to a suffix of the stream, cut between segments |
| LogFiles.AllFilesHoldAll | cmd/irix-node/logger.go:192-235 | the files ever begun concatenate to everything logged, segment by segment |
| LogFiles.NewestFilesAreHeld | cmd/irix-node/logger.go:257-283 | however often the log rotates, the newest keep + 1 of the files ever begun are held whole |
| LogFiles.SplitLogLines | cmd/irix-node/instance_logs.go:40-56 | the lines of a file, an unended one included, blank ones at the end dropped |
| LogFiles.ReadLogTail | cmd/irix-node/instance_logs.go:61-96 | the last n lines of all files in order, though read from the newest back and only as far as needed |
| LogFiles.TailOfFilesIsTailOfStream | cmd/irix-node/instance_logs.go:61-96 | when files end between lines, the lines of the files are the lines of the stream they hold |
| LogFiles.LogIsReadBackIff | cmd/irix-node/instance_logs.go:25-96 | whatever was logged, reading the files back gives the lines of the bytes they hold if and only if rotation cut them cleanly |
| LogFiles.FilesKeepLinesIff | cmd/irix-node/instance_logs.go:40-96 | the lines of any files are the lines of their concatenation if and only if before each file with more than newlines there is nothing or whole lines with a last one that is not blank |
| LogFiles.LoggedLinesAreRead | cmd/irix-node/instance_logs.go:25-96 | so for a logger of whole lines, reading its files back gives the lines of the suffix of the stream that they still hold |
| WebSocket.Conn.ReadFrame | cmd/irix-node/websocket.go:92-138 | reading consumes and returns what the parser on values says, every error case included |
| WebSocket.Conn.WriteFrame | cmd/irix-node/websocket.go:141-170 | appends exactly the unmasked frame of section 5.2 of RFC 6455 |
| WebSocket.MaskTwice | cmd/irix-node/websocket.go:128-130 | masking is its own inverse (section 5.3 of RFC 6455) |
| WebSocket.BigEndianRoundTrip | cmd/irix-node/websocket.go:100-113 | the extended lengths decode to what was encoded |
| WebSocket.ClientFrameIsRead | cmd/irix-node/websocket.go:92-138 | a masked frame in any of the three length forms is read back, leaving what follows |
| WebSocket.ServerFrameIsRefused | cmd/irix-node/websocket.go:117-119 | a frame as the server writes it is refused as unmasked |
| WebSocket.StreamRoundTrip | cmd/irix-node/websocket.go:92-170 | every list of accepted frames, under any keys, is read back exactly and consumes every byte |
| WebSocket.NegativeLengthIff | cmd/irix-node/websocket.go:107-127 | the read fails on a negative length exactly for a complete 64-bit length with the top bit set |
| WebSocket.ShortestForm | cmd/irix-node/websocket.go:141-162 | a server's header is final and unmasked and announces the length, in the shortest of the three forms |
| WebSocket.TooLargeIff | cmd/irix-node/websocket.go:100-116 | a frame is too large if and only if its complete header announces more than a mebibyte, masked or not |
| WebSocket.NotMaskedIff | cmd/irix-node/websocket.go:114-119 | it is refused as unmasked if and only if its complete header announces no more and has no mask bit |
| WebSocket.EofIff | cmd/irix-node/websocket.go:92-133 | reading waits for exactly the bytes the header announces |
| WebSocket.RawFrameIsJudged | cmd/irix-node/websocket.go:131-138 | a masked frame of any first byte is refused exactly when it is binary, or neither final nor a control frame, and is read otherwise |

## Left out

- LogFiles.FileLogger.Open: a log file left by an earlier process, whose size the code takes as 0.
- Two concurrent foreground operations on one path of the store, and locking and unlocking without a restart in between
  in the crash model: loading does not clear the queue of replaced objects.
- `remove` in the crash model: it deletes objects before the index is durable, so it is in the live model only.
- Directory listing, the block counter of index entries, modification times beyond being set, materialising to and
  encrypting back from plain directories, migration and backup.
- Durability of a start count: starting an instance changes it without a mark and saves directly, dropping the error
  (`cmd/irix-node/instance.go:764-768`). The step is modelled; nothing is promised about it.
- Failures of saving `vault.json`, of random number generation and of decoding stored base64 fields.
- The vault-on path of instance saving, and loading the instance list.
- The Redis layer: best effort, and a failed delete there returns before the in-process entry is dropped.
- Trimming of user names and other request parsing; HTTP, container and download plumbing; validators and redaction.
- The timestamped line ring, log archiving by age, and reading logs since a time: easy next to what is modelled.
