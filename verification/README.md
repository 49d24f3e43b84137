# Verification of the credential vault and the machines around it

A Dafny 4.11 model of the parts of this repository whose promises span many steps:

- **The credential vault.** `Envelope` is the versioned ciphertext format over several keys,
  `EncryptionConfig` what feeds it, `RefreshWindow` the per-grant window. `TokenMerge` is the
  merge of what a provider sends over what is stored, `GrantRefresh` one refresh inside its
  lock transaction with every exit, `GrantHistory` what survives any sequence of saves and
  refreshes, and `LazyReencrypt` the read path with its compare-and-swap. `RenewProtocol`
  takes the refresh apart into single reads, locks, calls and commits of any number of
  callers, hosts and accounts; `RenewEpisode` proves what a whole run does with one stale
  token, `RenewWitness` that such a run exists, `RenewLock` what the grant lock guarantees
  about every provider call, `RenewReads` where served tokens come from, and
  `RenewConservation` what overlapping saves and refreshes do to the refresh token.
- **Deliveries.** `DeliveryPipeline` (the state graph and the privacy boundary),
  `DeliverySet` (the rollup), `GroupExpansion` (the fan-out and its retries) and
  `TargetResolution` (resolver and catalog).
- **`LaunchToken`**, one-time tokens with a used set that forgets; **`Migrations`**, the
  migration runner with crashes; **`Trending`** and **`PostAggregate`**, two loops whose
  results must not depend on order.

`Common` holds options and results, the few string operations of the standard library that
the modelled code calls, and sorting by a strict order. `dafny verify dfyconfig.toml` checks
everything.

Objects that the code updates in place are classes here, and its loops are loops; each such
method is proved against a function of the old state, and the promises are proved about that
function. What such a function decides is stated a second time without it, as a condition on
columns, claims and rows: the lemmas whose names end in `Exactly`. Things outside the code are parameters: the cipher is a pair of functions of which
only `Open(k, n, Seal(k, n, p)) = p` is assumed (and, where a lemma says so, that nobody
forges), digests and signatures are functions with the laws named where they are used, and
every clock reading, store failure, lost acknowledgement and crash is an input.

## Where the code and its comments differ

The code is followed, and the exact condition is proved.

- `EnforcePrivacyInvariant` lets every update through in `thumbnail_failed` and
  `publish_failed`, although the video is there and must stay private
  (`DeliveryPipeline.PrivateExactly`, `GuardCanLeak`).
- `Consume` reads the clock twice, so a used token that expires between the readings is
  forgotten before it is looked up (`LaunchToken.ForgettingExactly`, `OneTimeExactly`,
  `LateReplayHappens`).
- `Save` takes no lock, looks first and writes later. One that overlaps a refresh can lose
  its refresh token, or undo one that the refresh has just rotated
  (`GrantHistory.SaveInsideRenew`); over whole runs the stored token is the last one
  supplied exactly when every write has seen what it replaces
  (`RenewConservation.LastShownExactly`, `OverlapLosesToken`, `AloneConserves`). The
  histories of `GrantHistory` treat each operation as one step.
- A refresh can succeed and leave the row stale, so that the next caller asks again: when
  the reply omits the lifetime, because the stale expiry is then kept, and when it names
  another token type (`GrantHistory.NextAsksExactly`, `OmittedLifetimeAsksAgain`,
  `RenewEpisode.RowFreshAfterCommit`). The at-most-once theorem is about replies that state
  a lifetime.
- A reply that names another token type than the one asked for is merged over the asked
  row and stored over the other one, whose refresh token it can overwrite
  (`GrantHistory.CrossingReplyExactly`, `CrossingReplyOverwrites`, `LastSuppliedExactly`).
- Without the transactional status write a stored token can sit on a grant that is not
  marked active (`GrantRefresh.StatusGapExactly`).
- A refresh expiry further away than a duration can express is not carried over within a
  second (`TokenMerge.CarriedExpiryDrift`).
- A modified migration stops the run only after pending ones before it have been applied
  (`Migrations.ModifiedStopsExactly`, `ModifiedAfterPending`), and running up to a number
  first changes the order unless the numbers have one width
  (`Migrations.UpToThenAllExactly`).
- A set id does not depend on the workspace (`GroupExpansion.SetIDExactly`).
- A published target makes the outcome partial only while no target is still moving,
  against the comment above the rules (`PostAggregate.PartialExactly`,
  `QueuedBeatsPublished`).
- A stated lifetime too long for a duration wraps around
  (`TokenMerge.StatedLifetimeExactly`).

## Model

| member | source | states |
|---|---|---|
| RefreshWindow.Window | internal/credentials/vault.go:217-228 | Every grant id, read as a 64-bit word, gets a window between five and ten minutes that no 64-bit duration overflows; ids that are not positive get exactly five |
| RefreshWindow.MixBijective | internal/credentials/vault.go:217-228 | The mixing is a permutation of the 64-bit words: each step has an inverse, both ways round |
| RefreshWindow.GrantsNeverCollide | internal/credentials/vault.go:217-228 | Distinct grant ids stay distinct until the final reduction |
| RefreshWindow.WindowExactly | internal/credentials/vault.go:217-228 | The jitter is the mixed id modulo its range, so two grants share a window exactly when their mixes agree modulo it |
| RefreshWindow.ReferenceOutputs | internal/credentials/vault.go:217-228 | The first two outputs are those published for SplitMix64, and the window of grant 1 in nanoseconds |
| Envelope.NewEncryptor | internal/crypto/encrypt.go:107-134 | Succeeds exactly when the map is not empty, holds the active id and every key is base64 of 32 bytes; the loaded map has the same ids and their decoded keys |
| Envelope.Encrypt | internal/crypto/encrypt.go:189-208 | Produces the version byte, the active key id, the nonce and the sealed text, or fails for want of randomness |
| Envelope.KeyIdRoundTrip | internal/crypto/encrypt.go:200-202 | The big-endian key id reads back, and four bytes are the id they spell |
| Envelope.EnvelopeShape | internal/crypto/encrypt.go:196-206 | An envelope starts with byte 1 and the id, most significant byte first, is recognised as versioned and yields the id, nonce and text it was built from |
| Envelope.DecryptUndoesEncrypt | internal/crypto/encrypt.go:224-258 | Every text written with a key comes back under any key map that still holds that key, whatever key is active there |
| Envelope.DecryptsExactly | internal/crypto/encrypt.go:224-258 | Any bytes decrypt to what they open to as a current envelope under the key they name, and only if they do not, to what they open to in the older format under key 1; with the exact cause of two of the errors |
| Envelope.LegacyDecrypts | internal/crypto/encrypt.go:224-258 | A legacy ciphertext reads back exactly when the text is not hijacked by the versioned attempt succeeding with something else |
| Envelope.LegacyCollisionRecovers | internal/crypto/encrypt.go:215-223 | A legacy nonce that starts with the version byte is still read under key 1 as long as nobody can forge what was never sealed |
| Envelope.CurrentExactly | internal/crypto/encrypt.go:170-184 | A ciphertext needs no rotation exactly when it has the shape of an envelope under the active key |
| Envelope.FreshIsCurrent | internal/crypto/encrypt.go:150-184 | What was just encrypted never needs rotation |
| EncryptionConfig.Config.ResolveEncryptionConfig | internal/config/config_encryption.go:32-80 | Accepts exactly the two unambiguous shapes, sets the key map and the active id, and changes nothing on a rejection |
| EncryptionConfig.ParseEncryptionKeysCSV | internal/config/config_encryption.go:99-131 | The loop over the entries computes the map that the parsed list describes |
| EncryptionConfig.KeysOfDescribes | internal/config/config_encryption.go:99-131 | There is a map exactly when every entry parses and no id comes twice, and it then holds each entry's key under its id and nothing else |
| EncryptionConfig.EntryExactly | internal/config/config_encryption.go:99-131 | An entry parses exactly when it is a 32-bit decimal, a colon and a base64 text of 32 bytes, and to those |
| EncryptionConfig.ResolvesExactly | internal/config/config_encryption.go:32-68 | What each combination of the three variables resolves to: one key alone as key 1, or the list alone with one of its ids active |
| EncryptionConfig.ListReadsBack | internal/config/config_encryption.go:99-131 | Every list of keys with distinct ids, written down, resolves to exactly those keys and the active id that was named |
| EncryptionConfig.ConfiguredFeedsEncryptor | internal/config/config_encryption.go:32-80 | Every configuration that resolves has valid keys and an active id among them |
| EncryptionConfig.StartEncryptor | internal/crypto/encrypt.go:107-134 | What resolves, the encryptor accepts, with the same active key |
| EncryptionConfig.SortedKeyIDs | internal/config/config_encryption.go:150-161 | The in-place insertion sort lists the keys of the map strictly ascending, each once, and nothing else |
| TokenMerge.NonEmptyScopeValues | internal/credentials/vault_legacy_fallback.go:49-57 | The loop keeps the trimmed scopes that are not blank, in order |
| TokenMerge.NonBlankParts | internal/credentials/vault_legacy_fallback.go:49-57 | Each scope is judged on its own: blank ones go, others stay, trimmed and in place |
| TokenMerge.PrepareTokenForOAuthConnection | internal/credentials/vault_encryption.go:50-178 | The step-by-step merge of a new token over the stored row computes the row that Prepared describes, or the same error |
| TokenMerge.PreparedFails | internal/credentials/vault_encryption.go:50-132 | A preparation fails exactly when the caller has gone, the refresh token to be kept does not open, or entropy is missing, in this order |
| TokenMerge.PreparedTokens | internal/credentials/vault_encryption.go:86-178 | Both access columns open to the access token that was given, the refresh column to the refresh token that was given or holds the very bytes that were there; the account is a hint only without a subject |
| TokenMerge.PreparedExpiries | internal/credentials/vault_encryption.go:79-157 | A stated expiry counts from the clock; an omitted one is the one that was there, or the clock reading for an access token, or none for a refresh token |
| TokenMerge.CarriedExpiryExactly | internal/credentials/vault_encryption.go:109-118 | What becomes of an omitted refresh expiry, for every expiry and both clock readings: exact once it has passed, otherwise the whole seconds that remain, at least one |
| TokenMerge.CarriedExpiryDrift | internal/credentials/vault_encryption.go:109-157 | With one clock reading the drift of one save is less than a second exactly when the remaining time fits a duration in seconds (about 292 years) |
| TokenMerge.DriftOverManySaves | internal/credentials/vault_encryption.go:79-157 | Carried through n saves that each found at least a second left, a refresh expiry E lies in (E - n s + the delays between the readings, E + the delays] |
| TokenMerge.OneReadingNoDelays | internal/credentials/vault_encryption.go:110-153 | With one clock reading per save the delays vanish, so the expiry lies in (E - n s, E] |
| GrantHistory.RefreshExpiryCarried | internal/credentials/vault_encryption.go:109-157 | The refresh expiry of the stored row after any history of saves and refreshes that omit it, each of them merged over that row, is the original one carried through exactly the operations that were stored |
| GrantHistory.RefreshExpiryDrift | internal/credentials/vault_encryption.go:109-157 | So the stored row obeys that interval, over saves and refreshes alike |
| TokenMerge.AccessExpiryKept | internal/credentials/vault_encryption.go:79-85 | The access expiry survives a save, whatever it was, exactly when the provider omits it |
| TokenMerge.StatedLifetimeExactly | internal/credentials/vault_encryption.go:141-143 | A stated lifetime puts the expiry that many seconds ahead exactly when it fits a duration; a longer one wraps around |
| GrantRefresh.LockTx.Commit | internal/credentials/vault_refresh.go:155-157 | A commit applies all pending writes or none; it ends the transaction unless the context had ended before |
| GrantRefresh.CredentialVault.RenewUnderGrantLock | internal/credentials/vault_refresh.go:122-240 | However it exits, a transaction that was begun has ended exactly once, and store, error and the material sent are those of Refresh |
| GrantRefresh.CredentialVault.Save | internal/credentials/vault_encryption.go:17-37 | Stores the merged row without a lock, or leaves the store alone |
| GrantRefresh.CredentialVault.Rotate | internal/credentials/vault_encryption.go:181-183 | Behaves like Save in every case |
| GrantRefresh.ExitsAreAtomic | internal/credentials/vault_refresh.go:122-240 | With transactional status writes: rows and scopes change only together with an active grant; a denied grant keeps its row and is marked with its accounts; any other failure leaves rows and scopes, unless the acknowledgement of the commit itself was lost |
| GrantRefresh.CalledOnlyWhenStale | internal/credentials/vault_refresh.go:150-184 | The provider is asked exactly when nothing stands in the way, the expiry column (or its alias) of the stored token is inside the window, and the refresh ciphertext, or for long-lived tokens without one the access ciphertext, opens; and with the text of that ciphertext |
| GrantRefresh.SentAsWritten | internal/credentials/vault_legacy_fallback.go:16-38 | A refresh token written by any holder of the same key is sent as it was written; without one a long-lived token sends itself and any other nothing |
| GrantRefresh.StopsExactly | internal/credentials/vault_refresh.go:122-180 | Every exit before the provider is asked, with its exact cause; none of them changes anything |
| GrantRefresh.DeniedExactly | internal/credentials/vault_refresh.go:184-211 | Every exit after a refusal, with its exact cause and what it leaves: a transient failure marks the grant where it can and nothing else, a final one the grant and its accounts |
| GrantRefresh.IssuedExactly | internal/credentials/vault_refresh.go:212-240 | Every exit after a token was issued, with its exact cause; what cannot be stored marks the grant, a refused commit changes nothing |
| GrantRefresh.SaveExactly | internal/credentials/vault_encryption.go:17-37 | When a save succeeds and why it fails; it changes one row and the scopes of its grant, or nothing |
| GrantRefresh.StatusGapExactly | internal/credentials/vault_refresh.go:221-238 | Without the transactional status write, exactly when a stored token can sit on a grant that is not marked active |
| GrantRefresh.MergedRowFresh | internal/credentials/vault_encryption.go:79-145 | Merged over a stale row, a reply makes a fresh row exactly when it states a lifetime that outlasts the window |
| GrantHistory.NextAsksExactly | internal/credentials/vault_refresh.go:150-184 | After a successful refresh the next one asks again, however soon, unless the reply named the type that was asked for and states a lifetime that outlasts the window |
| GrantHistory.OmittedLifetimeAsksAgain | internal/credentials/vault_encryption.go:79-85 | A success with an omitted lifetime after which the next refresh asks again |
| GrantHistory.RefreshAndScopesConserved | internal/credentials/vault_encryption.go:86-140 | After any history of saves, rotations and refreshes, with replies of any type: the stored refresh token is the last one supplied with its type, or carried into it by a reply from the row that was asked about; the scopes of the grant are the last non-blank list that any operation stored, whatever its type |
| GrantHistory.ScopesStep | internal/repository/token_repo.go:254-263 | One operation replaces the scopes of the grant by the non-blank ones it stores, or keeps them, whichever row it looked at or wrote |
| GrantHistory.AccessConserved | internal/credentials/vault_encryption.go:120-176 | After any history the stored access token is the last one stored with its type |
| GrantHistory.AskedWithTheLast | internal/credentials/vault_refresh.go:177-184 | After any history a refresh of a stale row asks with the last refresh token; a long-lived row without one asks with the last access token, any other such row not at all |
| GrantHistory.ReadAfterSave | internal/credentials/vault_lazy_reencrypt.go:31-78 | A save and then a read: the very access token, with its type, expiry and scopes, until it expires, and nothing afterwards |
| GrantHistory.LastSuppliedExactly | internal/credentials/vault_encryption.go:86-140 | Throughout a history the refresh token is the last one supplied with its type, exactly when every operation that omits it finds none where it looks or the one that is there |
| GrantHistory.SameTypeIsHarmless | internal/credentials/vault_encryption.go:69-107 | Saves, and refreshes answered with the type that was asked for, always do |
| GrantHistory.CrossingReplyExactly | internal/credentials/vault_refresh.go:212-219 | A reply of another type leaves the asked row alone; if it omits the refresh token, the named row keeps its ciphertext exactly when the asked row has none or the very same |
| GrantHistory.CrossingReplyOverwrites | internal/credentials/youtube_token.go:50-60 | A reply of another type that overwrites a refresh token |
| GrantHistory.RefreshBytesKept | internal/credentials/vault_encryption.go:89-139 | Across operations that omit it, the refresh ciphertext keeps its very bytes throughout, exactly when none of them looked at a row with another one |
| GrantHistory.SaveInsideRenew | internal/credentials/vault_refresh.go:150-212 | A write over what was seen earlier: a supplied refresh token is stored; otherwise the current one survives exactly when none or that very one was seen |
| LazyReencrypt.RowStore.Get | internal/credentials/vault_lazy_reencrypt.go:17-79 | Returns what was stored when it looked; the row moves as the machine says, with everybody else's events in between |
| LazyReencrypt.ReadExactly | internal/credentials/vault_lazy_reencrypt.go:31-78 | A read refuses a missing row, then one whose expiry has passed, then one that does not open, and nothing else; otherwise it returns text, type, expiry and scopes of the row |
| LazyReencrypt.RowStore.UpdateCiphertexts | internal/credentials/vault_lazy_reencrypt.go:54-67 | Swaps exactly when id and ciphertext are still the ones that were read |
| LazyReencrypt.TextPreserved | internal/credentials/vault_lazy_reencrypt.go:31-79 | In every interleaving of readers with any active keys, saves and revocations, the row is the last saved one up to re-encryption: no text changes and no older token returns |
| LazyReencrypt.UpgradedAtMostOnce | internal/credentials/vault_lazy_reencrypt.go:54-67 | Once all share an active key, a stale ciphertext is upgraded at most once and a current one never |
| LazyReencrypt.UpgradedExactly | internal/credentials/vault_lazy_reencrypt.go:54-67 | With anything the others do in between, a read re-encrypts the row exactly when it could read it, found it stale, had entropy, and the row still holds the same ciphertext; otherwise it changes nothing |
| LazyReencrypt.OneReadUpgrades | internal/credentials/vault_lazy_reencrypt.go:54-67 | So one undisturbed read brings a stale row up to date with the same text |
| LazyReencrypt.CurrentRowRests | internal/crypto/encrypt.go:150-184 | A current row keeps its bytes until the next save or revocation |
| RenewProtocol.EveryRunSafe | internal/credentials/vault_refresh.go:34-184 | In every interleaving, with saves, revocations and relinking anywhere: at most one flight is inside the grant lock, and every provider call was made by its holder, with usable material, about a token that was stale at a check no later than the call; InitialIsSafe starts it |
| RenewLock.CalledUnderTheLock | internal/credentials/vault_refresh.go:134-184 | And that token was the stored row: in every run from an opening state, every call goes back to a moment at which the row it is about was stored, with the grant lock in the caller's hands from then until the call and the stale check in between; so does every flight that has seen a row and is still at work |
| RenewLock.LinkedUnderTheLock | internal/credentials/vault_refresh.go:134-145 | At every moment of every run a flight inside its lock transaction holds the row lock of its account alone, and the account is linked to the grant being refreshed |
| RenewLock.LocksAreReleased | internal/credentials/vault_refresh.go:122-132 | No row lock outlives its transaction: in every run each belongs to a flight of that account which is still at work |
| RenewLock.OneFlightPerHost | internal/credentials/vault_refresh.go:24-70 | Concurrent requests do not queue duplicate transactions: a host never has two flights for one token type that are not over |
| RenewProtocol.SoloRefines | internal/credentials/vault_refresh.go:122-240 | An undisturbed flight of the protocol leaves rows and scopes exactly as the single refresh does |
| RenewConservation.LastShownExactly | internal/credentials/vault_encryption.go:28-48 | In every interleaving of saves that look first and write later with refreshes, revocations and readers, the stored refresh token is always the last one supplied, exactly when every write that supplies none has seen none or the one that is there when it appears |
| RenewConservation.OverlapLosesToken | internal/credentials/vault_encryption.go:28-48 | A run of two overlapping saves in which the last supplied refresh token is lost |
| RenewConservation.SavesWait | internal/repository/token_repo.go:38-56 | While a refreshed row is written and not committed, a save of its type neither writes nor gives up |
| RenewConservation.AloneConserves | internal/credentials/vault_refresh.go:146-150 | So it is in every run in which a row changes only while nobody else is between a look at it and a write |
| RenewEpisode.OneRefreshServesAll | internal/credentials/vault_refresh.go:34-93 | Any number of callers find one stale token: while the lifetimes that the replies stated outlast the window, at most one row becomes visible; everybody served gets the access token of that row's reply, with its type and stated expiry, and the scopes that the grant has when it is read; and the provider is asked again only after a flight that asked has failed |
| RenewEpisode.ExactlyOneCall | internal/credentials/vault_refresh.go:34-163 | If no flight fails after asking, the provider is called at most once, and exactly once as soon as somebody is served |
| RenewReads.CommitsAreReplies | internal/credentials/vault_refresh.go:184-212 | In every run each refreshed row holds the data of a reply that the provider gave to the very flight that stored it |
| RenewReads.ServedFromStore | internal/credentials/vault_refresh.go:34-93 | In every run whoever is served has the text, type, expiry and scopes of a row that was stored at a moment when the caller was already waiting, and that had not expired when it was read |
| RenewReads.JudgedExactly | internal/credentials/vault_refresh.go:52-59 | The fast path returns exactly a readable token outside the window, fails exactly on an unexpired one that does not open, and goes on otherwise |
| RenewReads.LandedExactly | internal/credentials/vault_refresh.go:76-90 | A caller waits until its flight is over, fails with it, and otherwise reads again, if its account still belongs to the grant |
| RenewReads.FinishedExactly | internal/credentials/vault_lazy_reencrypt.go:31-78 | That read gives the token exactly when it has not expired and opens |
| RenewEpisode.RowFreshAfterCommit | internal/credentials/vault_refresh.go:184-233 | From the reply to the commit, with any time between write and commit: the row is fresh exactly when the reply named the type asked for and states a lifetime that outlasts the window |
| RenewWitness.SomeRunServes | internal/credentials/vault_refresh.go:34-240 | From every opening state with free locks, a caller on a linked account can be served alone: one provider call, one visible row, no failed flight, and the access token of the reply in the caller's hands; with a lasting reply the run meets all hypotheses of ExactlyOneCall |
| DeliveryPipeline.GraphShape | internal/deliveries/state.go:225-402 | The table of happy successors and the graph agree; exactly the terminal states have no way out |
| DeliveryPipeline.ExitsExactly | internal/deliveries/state.go:225-307 | Which error exit is open at which point of the happy path |
| DeliveryPipeline.RunsAreThePath | internal/deliveries/state.go:225-307 | The runs from the queue are exactly the front parts of the happy path, each perhaps with one last step into an error exit |
| DeliveryPipeline.PublishedRuns | internal/deliveries/state.go:225-307 | Every run has at most 13 steps, and those that publish are one and the same path of 14 states |
| DeliveryPipeline.BoundaryIsRemembered | internal/deliveries/state.go:131-143 | A run has passed the private upload exactly when it is in a floor state or in one of the two late failures |
| DeliveryPipeline.NeverCancelledAfterBoundary | internal/deliveries/state.go:254-307 | Nothing is cancelled after the private upload |
| DeliveryPipeline.PrivateExactly | internal/deliveries/state.go:350-361 | The guarded video stays private throughout a run exactly when nobody updates it to something else in a late failure, where the guard lets everything through |
| DeliveryPipeline.PrivateInAnyCase | internal/deliveries/state.go:350-358 | What the guard takes for private: that word in any mix of cases |
| DeliveryPipeline.GuardCanLeak | internal/deliveries/state.go:350-361 | A run in which it does |
| DeliverySet.AggregateStatus | internal/deliveries/group_expand_status.go:87-167 | The pass with four counters returns the status that describes the children |
| DeliverySet.ExactlyOneStatus | internal/deliveries/group_expand_status.go:75-86 | For every list of children exactly one status fits its description |
| DeliverySet.FinalExactly | internal/deliveries/group_expand_status.go:172-181 | The set is terminal exactly when every child is, and never pending |
| DeliverySet.OrderFree | internal/deliveries/group_expand_status.go:87-167 | Only which states occur matters |
| DeliverySet.SettledStays | internal/deliveries/group_expand_status.go:172-181 | A settled set never changes, whatever is requested of its children |
| DeliverySet.SettledWithin | internal/deliveries/state.go:225-307 | From the queue no run takes more than 13 n steps, one that takes them all is settled, and one that is not settled can go on |
| GroupExpansion.DeliveryStores.ExpandForGroup | internal/deliveries/group_expand.go:213-324 | An attempt, failing anywhere, performs a front part of the plan and reports what stopped it |
| GroupExpansion.SetIDExactly | internal/deliveries/group_expand.go:334-345 | Two requests share a set id exactly when six fields agree; the workspace is not one of them |
| GroupExpansion.ChildIDExactly | internal/deliveries/group_expand.go:358-365 | Two child ids agree exactly for the same account of the same set |
| GroupExpansion.Converges | internal/deliveries/group_expand.go:206-212 | Any attempts that fail partway, on listings in any order, followed by one success leave the same store as one clean run, whatever was there before and whichever row wins a conflict |
| GroupExpansion.CleanRun | internal/deliveries/group_expand.go:242-321 | A clean run on distinct members leaves one delivery and one membership per member, numbered by rank, and one set row, and nothing else |
| GroupExpansion.SuccessIsComplete | internal/deliveries/group_expand.go:213-324 | A success has done the whole plan, and without faults every valid request for a non-empty group succeeds |
| GroupExpansion.FailsExactly | internal/deliveries/group_expand.go:213-324 | Every error of an attempt with its exact cause, and what a success returns |
| GroupExpansion.JoiningMember | internal/deliveries/group_expand.go:242-286 | A joining member moves exactly the ordinals above it, by one |
| LaunchToken.IssuedTokenVerifies | internal/editorlaunch/token.go:102-237 | The whole fate of an issued token: its project, its scopes, until the second of its expiry (section 4.1.4 of RFC 7519), with the claims it was issued for |
| LaunchToken.IssuesExactly | internal/editorlaunch/token.go:102-142 | When a token is issued, why not otherwise, and with which claims |
| LaunchToken.VerifiesExactly | internal/editorlaunch/token.go:175-237 | Any text verifies exactly when it opens and names this issuer and audience, the kind, an id, a positive user and workspace, a well-formed project that is the one asked for, a time that was issued, short enough and not over, and the scope; with those claims |
| LaunchToken.RefusedExactly | internal/editorlaunch/token.go:197-219 | Which refusals are about the project and which about the time |
| LaunchToken.ParsesExactly | internal/editorlaunch/token.go:197-204 | A claim that is text counts as a number exactly when it spells a signed decimal of 64 bits |
| LaunchToken.KindsStayApart | internal/editorlaunch/token.go:144-150 | No token verifies both as launch and as session token |
| LaunchToken.Manager.Consume | internal/editorlaunch/token.go:155-173 | Purges what has expired and takes the token unless it is there |
| LaunchToken.ConsumeAll | internal/editorlaunch/token.go:155-173 | The object's calls are the history that the properties speak of |
| LaunchToken.ForgettingExactly | internal/editorlaunch/token.go:155-173 | The purging set decides a whole history like one that never forgets, exactly when no used token is presented so late that it expires between the two clock readings |
| LaunchToken.OneTimeExactly | internal/editorlaunch/token.go:152-173 | Each token is accepted at most once, under exactly the same condition |
| LaunchToken.LateReplayHappens | internal/editorlaunch/token.go:155-173 | Every issued token can be used twice: at its issue, and in its last nanosecond |
| LaunchToken.OneSecondSuffices | internal/editorlaunch/token.go:216-218 | Readings within one second rule such replays out |
| LaunchToken.HoldsOnlyTheLiving | internal/editorlaunch/token.go:162-171 | After an accepted verification nothing expired is held but perhaps the token just taken |
| Migrations.MigrationSQLForTransaction | internal/database/migrations.go:294-317 | The two loops and line edits compute the text without its outer wrapper |
| Migrations.UnwrapUndoesWrap | internal/database/migrations.go:289-317 | Taking the wrapper off undoes putting it on, for every body and any comments around it |
| Migrations.UnwrapChangesExactly | internal/database/migrations.go:289-317 | Exactly which bodies are changed |
| Migrations.ExtractMigrationSeq | internal/database/migrations.go:321-331 | The number that the leading digits spell |
| Migrations.LoadMigrationFiles | internal/database/migrations.go:135-172 | The migration files of the directory, in the order of their names, up to the number |
| Migrations.LoadsExactly | internal/database/migrations.go:135-172 | A file is looked at exactly when it lies in the directory, ends in .sql and has a number up to the limit |
| Migrations.LoadedInOrder | internal/database/migrations.go:141-144 | They come out strictly ordered by name |
| Migrations.Database.ApplyMigration | internal/database/migrations.go:261-287 | Schema and record change together or not at all |
| Migrations.Database.RunMigrationsRange | internal/database/migrations.go:71-133 | The run skips, stops or applies each file in turn, on the records it loaded at its start |
| Migrations.StartsExactly | internal/database/migrations.go:71-113 | When a run does not start; it then changes nothing |
| Migrations.AppliedExactly | internal/database/migrations.go:261-287 | When one migration succeeds, why it fails and what it leaves, a lost commit answer included |
| Migrations.SucceedsExactly | internal/database/migrations.go:115-132 | An undisturbed run over any database succeeds exactly when no recorded file was modified and the pending ones succeed in turn, and has then added exactly those |
| Migrations.CompletesExactly | internal/database/migrations.go:71-133 | Whatever earlier runs left behind, an undisturbed run succeeds exactly when all bodies together do, and holds them all; a second one succeeds and changes nothing |
| Migrations.AlwaysAFrontPart | internal/database/migrations.go:71-133 | After any runs that fail or crash anywhere, the records are those of the first n files and the schema is the fold of exactly their bodies |
| Migrations.ModifiedStopsExactly | internal/database/migrations.go:115-130 | A modified applied file stops the run; when the pending files before it succeed in turn, everything is left unchanged exactly when there are none |
| Migrations.ModifiedAfterPending | internal/database/migrations.go:115-130 | A run that stops at a modified file after it has changed the database |
| Migrations.UpToThenAllExactly | internal/database/migrations.go:63-69 | Whenever the runs succeed, running up to a number and then all leaves the same schema and the same records in the same order as running all, exactly when no file up to the number comes after one beyond it |
| Migrations.FixedWidthSuffices | internal/database/migrations.go:141-155 | Numbers of one width meet that condition for every number |
| Migrations.WidthsMatter | internal/database/migrations.go:141-155 | Two names that do not |
| TargetResolution.ResolveAccountIDForChannel | internal/deliveries/target_resolver_direct.go:111-141 | The given account, or that of the first channel that matches, or none |
| TargetResolution.ResolveGroupTarget | internal/deliveries/target_resolver_group.go:13-122 | The loop over the members gives the verdict that depends only on the set of members, with everybody's rows in order |
| TargetResolution.Resolve | internal/deliveries/target_resolver.go:212-225 | Every kind of request, also of an unsupported type or for a workspace that is missing or cannot be read, gets its verdict |
| TargetResolution.RefusedExactly | internal/deliveries/target_resolver.go:212-225 | Which requests are refused as such |
| TargetResolution.ChannelExactly | internal/deliveries/target_resolver_group.go:125-188 | When a channel request is valid (bound, of the platform, the expected channel, active, not waiting for its owner, enabled), which code it gets otherwise, when it fails, and the one row it shows |
| TargetResolution.NobodyAsked | internal/deliveries/target_resolver_direct.go:18-34 | A request that names nobody in the workspace is not available |
| TargetResolution.SavedExactly | internal/deliveries/target_resolver.go:227-320 | The same for a saved destination; Google Drive needs no binding |
| TargetResolution.MemberRowExactly | internal/deliveries/target_resolver_group.go:60-106 | Every group member whose account is there has exactly one row, with the code it would get alone |
| TargetResolution.GroupRequestValidExactly | internal/deliveries/target_resolver_group.go:66-122 | A group request is valid exactly when its workspace is there, the group belongs to it and has members, and each of them resolves on its own |
| TargetResolution.GroupCodesExactly | internal/deliveries/target_resolver_group.go:13-122 | When a group request fails, is blocked or is empty, member by member, and that it shows their rows |
| TargetResolution.EntriesInOrder | internal/deliveries/target_resolver_group.go:66-97 | The rows of a group are those of its members, one after the other |
| TargetResolution.GroupValidExactly | internal/deliveries/target_resolver_group.go:66-122 | The group code is clear exactly when every member is valid, fails exactly when some member's lookup does, and ignores the order |
| TargetResolution.ListWorkspaceTargets | internal/deliveries/target_catalog.go:32-121 | The loops that index the destinations and collect the rows compute the catalog |
| TargetResolution.CatalogFailsExactly | internal/deliveries/target_catalog.go:32-60 | When the catalog fails, and of what |
| TargetResolution.CatalogCovers | internal/deliveries/target_catalog.go:82-121 | Every channel of the workspace on the platform is listed, and one whose account is gone as missing |
| TargetResolution.CatalogAscends | internal/deliveries/target_catalog.go:116-121 | In ascending order of account |
| TargetResolution.LeastDestination | internal/deliveries/target_catalog.go:62-80 | Among several enabled destinations of this system for an account the least id is shown, in whatever order they are listed |
| TargetResolution.CatalogAgreesWithDirect | internal/deliveries/target_catalog.go:28-31 | Every catalog row carries exactly the code of direct resolution, except that an account without destination is marked |
| TargetResolution.NoDrift | internal/deliveries/target_catalog.go:28-31 | A row without a code resolves directly with the very same row, and through its destination id |
| Trending.ScoreGrowing | internal/analytics/trending_scorer.go:79-92 | Scores a copy in place and sorts it, leaving the input alone |
| Trending.RankMostViewed | internal/analytics/trending_scorer.go:104-114 | The same with sanitising only |
| Trending.ScoresAreFinite | internal/analytics/trending_scorer.go:140-211 | Scores are finite and not negative whatever the growth, and nothing else of a video changes |
| Trending.SanitisedExactly | internal/analytics/trending_scorer.go:204-211 | What sanitising alone does to a video |
| Trending.ScoreExactly | internal/analytics/trending_scorer.go:140-202 | Without rounding the score is the product of views per day of age, growth and recency, with each factor and its limits |
| Trending.ExtremeGrowth | internal/analytics/trending_scorer.go:173-182 | What undefined and unbounded growth does to a score |
| Trending.OrdersAreStrict | internal/analytics/trending_scorer.go:219-244 | Unless a score is a NaN, both comparators are strict total orders on videos with distinct ids |
| Trending.NaNBreaksTheOrder | internal/analytics/trending_scorer.go:206-211 | Without sanitising the comparator would be no order |
| Trending.OrderExactly | internal/analytics/trending_scorer.go:206-244 | Among two videos or more it is a strict total order exactly when no score is a NaN |
| Trending.OneRanking | internal/analytics/trending_scorer.go:79-92 | The result is the one sorted arrangement of the scored videos |
| Trending.GrowingDescends | internal/analytics/trending_scorer.go:219-230 | The growing list descends by score, then views, then ascends by publication and id |
| Trending.MostViewedDescends | internal/analytics/trending_scorer.go:236-244 | The other one descends by views in the same way |
| Trending.RankingsIgnoreInputOrder | internal/analytics/trending_scorer.go:57-61 | Neither ranking depends on the order of the candidates |
| PostAggregate.Resolve | internal/models/post_aggregate_status.go:33-125 | The pass with nine flags and the cascade compute the meaning of the set of statuses, or name the first unknown one |
| PostAggregate.OrderFree | internal/models/post_aggregate_status.go:5-8 | Order and multiplicity of the targets do not matter |
| PostAggregate.PublishedExactly | internal/models/post_aggregate_status.go:91-93 | Published means a non-empty list of published targets |
| PostAggregate.MovingExactly | internal/models/post_aggregate_status.go:91-108 | Among moving targets the furthest one decides, whatever else there is |
| PostAggregate.DraftExactly | internal/models/post_aggregate_status.go:33-36 | A post is a draft exactly when it has no targets or only drafts |
| PostAggregate.TerminalExactly | internal/models/post.go:127-135 | Terminal exactly when some target is no draft and all such targets are terminal; without drafts, when all targets are |
| PostAggregate.FailedExactly | internal/models/post_aggregate_status.go:113-124 | Failure alone or beside drafts; only the latter reaches the last line |
| PostAggregate.PartialExactly | internal/models/post_aggregate_status.go:29-31 | With a published target the outcome is partial exactly when another target is not published and none is still moving |
| PostAggregate.QueuedBeatsPublished | internal/models/post_aggregate_status.go:29-31 | A target set on which the comment fails: published beside queued is queued |

## Left out

- SQL text, drivers and Postgres beyond atomic commit, row lock and advisory lock; the repositories are maps whose upserts keep what the incoming row leaves empty.
- The inside of AES-GCM, SHA-256, HMAC and base64, and randomness: functions and inputs.
- HTTP handlers, command line tools, bootstrap wiring, metrics and logging.
- Deadlock between processes: the account row is locked before the advisory lock and sibling accounts are touched afterwards, so no claim of progress is made.
- Retiring old keys: only the access ciphertext is re-encrypted on reads, so no such claim is made.
- Hosts with different key maps: all readers and flights of one grant share the map, though not the active key.
- A caller whose account is relinked to another grant leaves the modelled grant and is not followed further.
- Deadlines of detached flights appear as an abort that can happen at any moment; a refresher that is still entered with a context that has just ended, after the driver has rolled the lock transaction back, is not modelled; how the OAuth client key is chosen is not modelled.
- RenewEpisode.OneRefreshServesAll: saves of the same token type, revocations, replies for another token type and replies without a lasting lifetime are excluded from the episode, because each of them rewrites, bypasses or fails to renew the one token that the statement is about; NextAsksExactly says what the last two do, and EveryRunSafe and CalledUnderTheLock hold over runs with all of them.
- GrantHistory.RefreshAndScopesConserved: revocations are excluded and each save or refresh is one step; overlapping ones and revocations are the subject of RenewConservation, for the refresh token only.
- Scopes that the authorization flow writes into the grant record itself, beside any token; `LazyReencrypt` keeps the scopes with its one row.
- All hosts of the refresh protocol share one clock. A written row that is not yet committed holds back saves, but not revocations and re-encryption, which in the database wait for the row lock too; so the protocol has more runs than the code.
- Expiries are points on an unbounded time line in nanoseconds; only differences and durations have the width of the source.
- Decoding delivery states from JSON and listing the legal transitions in alphabetical order: finite tables.
- Created and updated times of delivery sets.
- GroupExpansion.SetIDExactly: assumes that the shortened digest does not collide and that the joined fields contain no bar.
- Secrets that are too short and nil receivers of the launch token manager; issue and expiry claims so large that the library's time type wraps around.
- A migration text is applied in one atomic step: a body with a COMMIT line of its own, which the unwrapping leaves in place, would end the runner's transaction early.
- The identity preflight of a migration run, release of its advisory lock, and its timeouts; migration numbers are unbounded.
- Messages that accompany error codes; the message of a group verdict, unlike its code, depends on the order of its members.
- TargetResolution.CatalogAgreesWithDirect: account id zero is excluded, because the direct request reads it as not given.
- TargetResolution.NoDrift: saved destinations whose binding cannot be read pass eligibility without one, so only the direction from the catalog to the resolver is stated.
- Publishing capabilities of a resolved target: branching only.
- Trending.ScoresAreFinite: rounding is any function that keeps signs; the two zeros are one.
- Trending.ScoreExactly: the formula is stated for arithmetic without rounding; under rounding only finiteness, sign and the resulting order are.
- External delivery and livestream state tables, capability intersection, period windows, CSV channel import, API key prefixes: sound but easy.
