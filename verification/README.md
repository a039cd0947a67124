# gosestor, modelled and verified in Dafny

gosestor is a Caddy middleware that keeps backend cookies on the server. A client holds
one opaque key; the key leads to a session in a store (in memory or in Redis); backend
responses bind owners, grant labels, rotate the key, revoke the session and set cookies
through response headers that must never reach the client. Paths can require a label.

This project models the parts where that is hard to get right and proves what they
promise. The layers fit together from the bottom up:

| file | what it holds |
|---|---|
| `Stores.dfy` | the store as a value: its atomic operations and what they keep |
| `Memory.dfy`, `Redis.dfy` | the two stores as classes, each method proved equal to its operation or script |
| `RedisRefinement.dfy`, `RedisScripts.dfy`, `RedisRuns.dfy` | the Redis keyspace, with deadlines and expiry, refines the plain store over whole runs |
| `MixedTimeouts.dfy` | proxies with different final timeouts on one Redis store |
| `Labels.dfy`, `MaxAge.dfy`, `OwnerIds.dfy` | label sets, `Max-Age` and owner ids as texts |
| `Authz.dfy`, `Policy.dfy`, `WayBack.dfy` | clean paths, the compiled authorization policy, and the redirect of a denied browser |
| `Sessions.dfy`, `Manager.dfy`, `Outcomes.dfy` | what the manager decides, its operations step by step on the store, and what they come to |
| `Protocol.dfy`, `ProtocolSteps.dfy`, `ProtocolRuns.dfy` | all requests at once as a state machine, its invariant, and what holds along every run |
| `LabelRuns.dfy`, `CookieRuns.dfy`, `Lifetimes.dfy` | labels, cookies and timeouts along every run |
| `ManagerSteps.dfy`, `RedisProtocol.dfy` | the manager's operations are protocol steps; runs on Redis are protocol runs |
| `Response.dfy`, `ResponseEffects.dfy`, `Processing.dfy` | what a backend response does: as a value, read off its headers, and as the code does it |
| `Upstream.dfy`, `RoundTrip.dfy` | the cookies a backend is sent, and that what it stored comes back |
| `Staging.dfy`, `Interception.dfy`, `Serving.dfy` | body staging and its budget, the interceptor, and one request from resolve to last byte |

Requests interleave at every store step, and any step may fail without effect. Where one
request is looked at alone (`Manager.dfy`, `Response.dfy`, `Processing.dfy`), each of its
store steps comes with a `Turn`: the store other requests left it, and whether the step
fails. What the operating system, the client and the handler do is passed in as data and
is arbitrary.

Six promises turn out not to hold everywhere. The code is modelled as it is, the failing
input is given, and the exact condition is proved:

- Discarding managed headers before an upgrade happens once only. A handler that repeats
  a hijack after a failed one, with no final header out yet, gets past it: the headers it
  set in between go out at once if a status was written (`RepeatedHijackLeaks`), and
  otherwise with the next write or the end of the request (`PendingHeadersLeak`).
  `Hijack` and `Write` say exactly when the wire and what is pending for it stay fit,
  `Conclude` when everything sent is, and `Serve` that it is whenever the handler tries
  to hijack once at most.
- The check against redirect loops looks at an endpoint's path as it is spelled. An
  endpoint with a fragment or with escapes passes it and still loops (`FragmentLoops`,
  `EscapeLoops`); redirects do not loop exactly when the path the endpoint stands for
  needs no label by the configured rules, or is no path a server takes
  (`NoRedirectLoop`). The way back reaches the endpoint exactly if it has no fragment
  (`WayBackArrives`).
- Labels that contain white space inside run together when stored
  (`SpacedLabelsCollide`); a label set survives being stored exactly when none does
  (`FieldsNormalizeIff`). Grants from response headers are split on white space, so for
  them it always survives (`GrantsAreCanonical`).
- The deadline of an owner's session list is taken from the binding made last. Among
  proxies with different final timeouts a session can drop off the list while it lives
  (`MixedTimeoutsLoseSessions`, a run from an empty server). Left alone, a session is
  listed while it lives exactly when it ends by the new deadline (`ListedIffEndsFirst`).
  In use, it stays listed along every continuation in which later bindings leave the
  list until its limits exactly when its deadline and its final limit both end by the
  new deadline, and otherwise responses that set a cookie take it off the list alive
  (`StaysListedIff`, `OutlivesList`). Under the touches of resolves alone the final limit
  counts exactly if a touch can still find the session unexpired in a later second, which
  a one-second inactivity timeout rules out (`TouchesIff`). With one final timeout for
  all the list is complete (`OwnerListIsComplete`).
- A new session's lifetime is counted from when the server stores it, so its deadline is
  within its limits exactly when the server's clock is not past the second of its
  creation (`CreationCapsIff`); the first call that advances the session puts it there
  (`AdvancingCaps`), and no call takes it out again (`RunCaps`).

- A resolve reads cookies and digests after its touch. If the session is deleted in
  between, it still returns a handle, without the cookies that were stored
  (`DeletedMeanwhile`, a run from an empty store); it returns what was committed last
  exactly if the session is there at the reads (`CookieComesBack`).

## Model

| member | source | states |
|---|---|---|
| Stores.ApplySound | internal/store/memory.go:59-117 | a commit keeps every key, cookie row and hash row attached to an existing session, at most one key per session, and an owner index that lists exactly the bound sessions |
| Stores.DeleteIsExpire | internal/store/memory.go:138-155 | deleting a session removes it with all its keys, cookies, hashes and index entries, and nothing else |
| Stores.DeleteByOwnerIsExpire | internal/store/memory.go:292-311 | an owner's delete removes the whole session if it is still bound to that owner, and otherwise changes nothing |
| Stores.RepliesAreExact | internal/store/memory.go:39-91 | a touch and a commit go through exactly if the session is there under its key and a new key is free; a missing session is told apart |
| Stores.ExpireIsExact | internal/store/memory.go:138-155 | the cascade, row by row: the given sessions' keys, cookies, digests and index entries go, every other row stays as it was |
| Stores.BatchLastWins | internal/store/memory.go:100-113 | in a batch the last mutation of a name decides: its value as the cookie, its digest as the digest, neither after a delete |
| Stores.BatchKeepsOthers | internal/store/memory.go:100-113 | a batch leaves every other cookie alone |
| Stores.CommitWrites | internal/store/memory.go:59-117 | a commit that goes through leaves the last value of each name in the cookie table and its digest in the digest table, or neither after a delete |
| Stores.CommitKeepsOthers | internal/store/memory.go:59-117 | and every other cookie and digest of every session as it was |
| MemoryStore.Memory.PutSession | internal/store/memory.go:32-37 | the maps represent the store with the session put |
| MemoryStore.Memory.TouchSession | internal/store/memory.go:39-57 | the touch succeeds only while the key maps to the session, moves access time forward only, and reports missing and lost keys apart |
| MemoryStore.Memory.ApplySessionControls | internal/store/memory.go:59-117 | owner, labels, times, key swap, cookies and owner index change together under the old key, or nothing changes and the reply says why |
| MemoryStore.Memory.WriteCookies | internal/store/memory.go:100-113 | the loop leaves both tables with the batch applied in order |
| MemoryStore.Memory.RotateSessionKey | internal/store/memory.go:119-126 | a rotation is a commit that changes the key alone |
| MemoryStore.Memory.DeleteSession | internal/store/memory.go:138-155 | the loop over keys and the index update delete exactly the session's cascade |
| MemoryStore.Memory.PutKey | internal/store/memory.go:157-165 | a key is stored only for an existing session |
| MemoryStore.Memory.OwnerSessions | internal/store/memory.go:255-263 | the list is the owner's set in the index |
| MemoryStore.Memory.DeleteSessionByOwner | internal/store/memory.go:292-311 | the session goes only if still bound to the owner; a stale index entry is pruned either way |
| RedisStore.Redis.PutSession | internal/store/redis.go:30-47 | the script leaves the session row with its own deadline |
| RedisStore.Redis.TouchSession | internal/store/redis.go:49-100 | the script's effect on every row and deadline, and its reply, for any time and any lifetime passed in |
| RedisStore.Redis.GrantedTtl | internal/store/redis.go:59-78 | the lifetime granted is the least of the one asked for and what the two limits leave |
| RedisStore.Redis.MoveOwner | internal/store/redis.go:136-153 | the owner sets and their deadlines after a session moves from one owner to another |
| RedisStore.Redis.ApplySessionControls | internal/store/redis.go:102-223 | the commit script as a whole: its replies, and on success every row and every deadline |
| RedisStore.Redis.DeleteSession | internal/store/redis.go:255-284 | the script drops the keys of the reverse set, all rows of the session, and its owner entry |
| RedisStore.Redis.PutKey | internal/store/redis.go:286-323 | the key and the reverse set take the session's remaining lifetime; a session with none left gets no key |
| RedisStore.Redis.OwnerSessions | internal/store/redis.go:479-481 | the list is the owner's set as stored, stale members included |
| RedisStore.Redis.DeleteSessionByOwner | internal/store/redis.go:547-576 | the session goes only if still bound to the owner |
| RedisRefinement.EvictIsExpire | internal/store/redis.go:49-100 | what expiry takes away at any moment is a set of whole sessions with everything that belongs to them |
| RedisRefinement.OrderlyIsFull | internal/store/redis.go:102-223 | no keyspace that keeps the invariant holds an empty set or hash, which the commit script takes for granted |
| RedisScripts.PutSessionRefines | internal/store/redis.go:30-47 | putting a session keeps the invariant and is the plain operation |
| RedisScripts.PutKeyRefines | internal/store/redis.go:286-323 | putting a key is the plain operation, or rejected because the session is gone or out of time |
| RedisScripts.TouchRefines | internal/store/redis.go:49-100 | the touch is the plain operation with the same reply, or rejected without effect because no lifetime is left |
| RedisScripts.ApplyRefines | internal/store/redis.go:102-223 | the commit is the plain operation with the same reply, or rejected without effect because no lifetime is left |
| RedisScripts.DeleteRefines | internal/store/redis.go:255-284 | the delete is the plain operation |
| RedisScripts.DeleteByOwnerRefines | internal/store/redis.go:547-576 | the owner's delete is the plain operation with the same reply |
| RedisRuns.ScriptRefines | internal/store/store.go:50-96 | every script the manager runs keeps the invariant (one deadline for all rows of a session, exact reverse sets, owner sets that outlive their sessions) and refines its plain operation |
| RedisRuns.RunRefines | internal/store/store.go:50-96 | every run of scripts under one clock represents the plain run in which sessions expire whole and late calls are rejected |
| RedisRuns.ScriptCaps | internal/store/redis.go:59-78 | a script leaves a session's deadline alone or sets it within the inactivity and the final limit, and never takes a capped session beyond them |
| RedisRuns.RunCaps | internal/store/redis.go:59-78 | along every run a session's deadline is the one creation gave it or lies within both limits, and once within it stays there |
| RedisRuns.CreationCapsIff | internal/session/manager.go:78-110 | the deadline creation gives respects both limits if and only if the server's clock is not past the second of the creation |
| RedisRuns.AdvancingCaps | internal/store/redis.go:59-78 | the first touch or commit that advances a session puts its deadline within both limits |
| RedisRuns.OwnerListIsComplete | internal/store/redis.go:136-153 | at any time after any run, an owner's list holds every live session bound to that owner |
| MixedTimeouts.RunLasts | internal/store/redis.go:102-223 | a session whose deadline and final limit end by a time its owner's list lasts until stays so along every run in which later bindings leave the list until then, whatever their timeouts |
| MixedTimeouts.TouchExtends | internal/store/redis.go:49-100 | a touch of an unexpired session, by a proxy whose clock shows the server's second, in a later second than the last access, extends it up to its final limit, leaves the list's deadline alone and can be repeated |
| MixedTimeouts.CommitExtends | internal/store/redis.go:102-223 | so does a response that sets a cookie, as long as the session's rows are there, for every inactivity timeout |
| MixedTimeouts.OutlivesList | internal/store/redis.go:49-100 | a session in use whose list ends before its final limit is taken off the list alive by such commits alone, or by such touches alone if one can still come in time |
| MixedTimeouts.ListedIffEndsFirst | internal/store/redis.go:136-153 | after another session is bound to the owner, a session left alone is listed for as long as it lives if and only if it ends by the deadline that binding set |
| MixedTimeouts.StaysListedIff | internal/store/redis.go:136-153 | after another session is bound to the owner, a session in use is listed while alive along every continuation in which later bindings leave the list until the session's limits, if and only if neither its deadline nor its final limit lies beyond the deadline that binding set |
| MixedTimeouts.TouchesIff | internal/session/manager.go:114-168 | with the touches of resolves alone, a session in use stays listed if and only if the list lasts until its final limit, or, when no touch can come in a later second before it expires, until its rows end |
| MixedTimeouts.MixedTimeoutsLoseSessions | internal/store/redis.go:102-223 | a run from an empty server, for any two final timeouts: two sessions are created, keyed and bound to one owner, and once the shorter one is over the other is alive and bound and the list is gone |
| Labels.FieldsNormalizeIff | internal/session/manager.go:216-229 | a label set read back after being stored is the sorted set that was meant, if and only if no label contains white space |
| Labels.Canonical | internal/session/manager.go:216-229 | two lists of labels are stored alike if and only if they are equal as sets |
| Labels.SpacedLabelsCollide | internal/session/manager.go:216-229 | two different label sets that are stored alike |
| Labels.GrantsAreCanonical | session_store.go:702-704 | two grants count as a change exactly when they differ as sets, and a stored grant reads back as the sorted set it names |
| Labels.NormalizedIsStored | internal/session/manager.go:216-229 | tokens are stored in a form that normalizing leaves alone and that reads back as the same set |
| Labels.DiffersIff | internal/session/manager.go:276-280 | a grant of tokens differs from labels stored in that form if and only if it names another set |
| Labels.SortStrings | internal/session/manager.go:216-229 | the sort returns an ascending permutation |
| Labels.NormalizeLabels | internal/session/manager.go:216-229 | trimming, sorting, dropping repeats and joining give the canonical form of the set |
| Labels.SplitsAtSeparators | session_store.go:702-704 | a labels header is split at every comma and white space, and nowhere else |
| MaxAge.SplitIsExact | session_store.go:1457-1461 | splitting at a separator loses nothing and leaves none inside a part |
| MaxAge.LastDecides | session_store.go:1457-1491 | the Max-Age that counts is the well-formed one behind which there is no other |
| OwnerIds.AgeReads | session_store.go:1457-1491 | a Max-Age value denotes the number it writes, with any leading zeros, below zero behind a minus sign |
| OwnerIds.NamesOwnerIff | session_store.go:1281-1291 | an identity header names an owner if and only if it writes a positive 64-bit number, with any zeros and at most a plus sign in front, and then that number |
| MaxAge.MaxAgeDeletes | session_store.go:1457-1491 | the digit scan agrees with arithmetic on numerals of any length: the last valid Max-Age decides, and it deletes exactly when it denotes a number not above zero |
| MaxAge.CookieDeletesNow | session_store.go:1447-1452 | a cookie is a deletion exactly when its last Max-Age is not above zero, or it has none and its expiry is not after now |
| Authz.PlaceBelow | internal/authz/authz.go:102-110 | where a path leads, segment by segment: a name goes down, double dots go up and never above the root, empty and dot segments stay |
| Authz.CleanKeepsPlace | internal/authz/authz.go:102-110 | cleaning a rooted path keeps the place it names, and cleaning twice is cleaning once |
| Authz.CoversIsPrefix | internal/authz/authz.go:102-110 | on clean paths the string test of a rule holds exactly when the rule's segments are a prefix of the path's segments |
| Policy.RequiredLoop | internal/authz/authz.go:102-110 | the loop returns the label of the first rule that covers the cleaned path, or the default |
| Policy.RequiredMeansNeeded | internal/authz/authz.go:102-110 | that label is the one of the rule with the longest matching segment prefix among all rules |
| Policy.RequiredOfClean | internal/authz/authz.go:102-110 | no spelling of a path dodges a rule: a path and its cleaned form need the same label |
| Policy.CompiledMeansConfig | internal/authz/authz.go:36-96 | what a compiled policy needs is what the configuration's rules mean |
| Policy.OrderFree | internal/authz/authz.go:36-96 | two configurations with the same rules in any order need the same label on every path |
| Policy.SortLongestFirst | internal/authz/authz.go:36-96 | longest rules first, and the same rules with the same multiplicity |
| Policy.CompileRules | internal/authz/authz.go:36-96 | rules compile exactly when all are rooted, labelled and distinct after cleaning |
| Policy.CheckEndpoints | internal/authz/authz.go:36-96 | endpoints pass exactly when every label in force has one and each is rooted with a spelled path that needs no label |
| Policy.New | internal/authz/authz.go:36-96 | a policy loads exactly when its rules and endpoints are in order, and then compiles the configuration |
| Policy.NoRedirectLoop | session_store.go:740-760 | a denied path has an endpoint; following the redirect, with any client's way of resolving paths, meets no second denial if and only if the path the endpoint stands for needs no label by the configured rules or has a malformed escape, which loading guarantees for endpoints spelled as that path |
| Policy.FragmentLoops | session_store.go:740-760 | accepted configurations, for every name and fragment, whose redirects loop |
| Policy.EscapeLoops | session_store.go:740-760 | accepted configurations, for every name of bytes written as escapes, whose redirects loop |
| WayBack.ReadsEscaped | session_store.go:740-760 | the way back, escaped for a query, reads back as it was and ends no value |
| WayBack.WayBackArrives | session_store.go:740-760 | the redirect starts with the endpoint, and the last parameter of its query has the configured name and reads as the path and query denied, if and only if the endpoint has no fragment |
| Sessions.TtlWithinLimits | internal/session/manager.go:343-362 | an unexpired session gets a positive lifetime that ends exactly when it expires if untouched, and by the final limit |
| Manager.Live.MakeControls | internal/session/manager.go:263-340 | the transition asked of the store: what changes, whether to rotate, under which key |
| Manager.Live.ApplyControls | internal/session/manager.go:263-340 | one read, then at most one conditional commit; the handle follows exactly when the commit succeeded |
| Manager.Live.BindOwner | internal/session/manager.go:390-412 | an owner change rotates even an undelivered key, and on failure the pending key is put back |
| Manager.Live.RotateKey | internal/session/manager.go:422-436 | one conditional swap; the handle takes the new key exactly on success |
| Manager.Live.Rotate | internal/session/manager.go:175-212 | rotation on demand, or when still due on a second look, and never while a key is pending |
| Manager.Live.Revoke | internal/session/manager.go:440-450 | the session is deleted and the handle emptied, or the handle is as before |
| Manager.Begin | internal/session/manager.go:78-110 | a new session and then its key, a handle exactly when both steps succeed |
| Manager.Resolve | internal/session/manager.go:114-168 | the store steps in order, a handle exactly when the touch and both cookie reads succeed, and an expired session is deleted |
| Manager.RevokeOwner | internal/session/manager.go:453-469 | every listed session, stale ones included, gets its own delete step whatever happened to the others, and any failure is reported |
| Manager.StaleIsAllOrNothing | internal/session/manager.go:263-340 | a handle whose key was lost changes nothing: no own step has an effect, and key and pending cookie stay |
| Manager.FailureChangesNothing | internal/session/manager.go:263-340 | an operation that reports anything but success left store and handle as they were |
| Outcomes.SucceedsIff | internal/session/manager.go:263-340 | applying a response succeeds if and only if its session is read and there is nothing to do, or the commit finds the session under its key and a free new key where one is needed |
| Outcomes.FailsAs | internal/session/manager.go:263-340 | how it ends otherwise: session gone, key lost, or store or minting failed |
| Outcomes.RotatesIff | internal/session/manager.go:263-340 | a response that succeeds retires its key for a new one, which then leads to the session, if and only if rotation was forced, the interval was over at the read, the labels change, or the owner does and login rotates, and no fresh key is pending |
| Outcomes.RowIsExact | internal/session/manager.go:263-340 | the session row it leaves, field by field: owner, labels, last access and last rotation |
| Outcomes.NotDueAgain | internal/session/manager.go:187-212 | after a swap rotation is not due until the interval is over once more |
| Outcomes.StoredAsAsked | internal/session/manager.go:263-340 | owner and labels asked for are in the store and in the handle |
| Outcomes.CookiesWritten | internal/session/manager.go:263-340 | of the last write of each name the value and its hash are in the store and in the handle, or neither after a delete |
| Outcomes.CookiesKept | internal/session/manager.go:263-340 | every other cookie of every session stays, in the store and in the handle |
| Outcomes.RotationIsExact | internal/session/manager.go:175-212 | a rotation swaps the key and restarts the rotation clock, and nothing else, if and only if it is forced or still due and no fresh key is pending |
| Outcomes.BindIsExact | internal/session/manager.go:390-412 | a bind leaves the owner in store and handle, swaps even a pending key if and only if the owner is another and login rotates, and binds nobody to an owner that is not positive |
| Outcomes.ResolveEnds | internal/session/manager.go:114-168 | exactly when a resolve returns a handle, and exactly when it reports an error |
| ManagerSteps.TriedIsSteps | internal/session/manager.go:263-340 | interleaved with anything, applying a response takes the store steps and leaves the handle of the protocol's read and commit, whether or not the read works and a needed identifier can be minted |
| ManagerSteps.RotatedIsSteps | internal/session/manager.go:175-212 | so does a rotation, with the same failures |
| ManagerSteps.BoundIsSteps | internal/session/manager.go:390-412 | so does binding an owner, with failures of both reads and a session gone at either |
| ManagerSteps.BeginningIsSteps | internal/session/manager.go:78-110 | so does creating a session; without both identifiers nothing happens |
| ManagerSteps.ResolveReads | internal/session/manager.go:114-168 | the reads of a resolve fail or find what the protocol's reads do, and end or go on with them |
| ManagerSteps.ResolveTouches | internal/session/manager.go:114-168 | a resolve returns a handle exactly when the protocol's touch lets it pass, with the handle the protocol holds |
| ManagerSteps.ResolveIsCurrent | internal/session/manager.go:114-168 | a resolve that returns a handle, as steps of a run: at its touch the key maps to the session, and the labels and owner shown are those stored then |
| ManagerSteps.ResolveFetches | internal/session/manager.go:155-167 | the handle returned is the one the protocol's request holds after its two reads, with the cookie row and the digest row of the worlds they are taken in |
| Protocol.ReqStable | internal/session/manager.go:114-340 | whatever another request does in one step, what a request relies on at any point of its run still holds |
| ProtocolSteps.Step | internal/session/manager.go:78-469 | every step of every request, and every expiry, keeps the invariant and what other requests rely on |
| ProtocolRuns.ReachableStoresAreSound | internal/store/store.go:50-96 | in every reachable world rows belong to sessions, a created session has exactly one key, and the owner index is exact |
| ProtocolRuns.RetiredForever | internal/session/manager.go:422-436 | a key or session that is gone never comes back, along any run |
| ProtocolRuns.RightsAreConstant | internal/session/manager.go:263-340 | for as long as a delivered key lives, it leads to the same session with the same labels, and the same owner when login rotates |
| ProtocolRuns.RightsChangeRetiresKey | internal/session/manager.go:263-340 | a step that changes a session's rights retires every delivered key of that session in the same step |
| ProtocolRuns.ResolveLinearizes | internal/session/manager.go:114-168 | a resolve that passes its touch returns the rights stored at that very step under a key that maps at that step |
| ProtocolRuns.GateIsSound | session_store.go:564-570 | in every reachable world a label shown by a handle whose key lives is in the store |
| LabelRuns.RunKeepsLabels | internal/session/manager.go:263-340 | along every run whose grants name tokens, which response headers always do, all stored labels are in that form |
| LabelRuns.HeadersGrantTokens | session_store.go:1316-1329 | what response headers grant are tokens |
| LabelRuns.RotatesIffLabelsChange | internal/session/manager.go:263-340 | in every world reached by such runs a grant changes the stored labels if and only if it names another set than the session carries, and one that asks for nothing else rotates the key if and only if it does and no fresh key is pending |
| CookieRuns.DigestsMatch | internal/store/memory.go:59-117 | in every reachable world both tables hold the same cookies and every digest is the hash of the value next to it |
| CookieRuns.RunKeepsCookie | internal/store/memory.go:59-117 | along every run a cookie no successful commit mentions stays as it is while its session is there, and goes with it |
| CookieRuns.CommitLasts | internal/session/manager.go:263-340 | what a commit wrote last under a name, and its hash, stay stored until another commit mentions the name or the session goes |
| CookieRuns.CookieComesBack | internal/session/manager.go:114-168 | a resolve after it returns a handle with that value and that hash, or neither after a delete, if the session is there at its reads, and without them otherwise |
| CookieRuns.DeletedMeanwhile | internal/session/manager.go:114-168 | a run in which a session is deleted between touch and reads, and the handle returned lacks the cookie |
| Lifetimes.LifeIsExact | internal/session/manager.go:78-110 | along every run a session keeps the configuration's timeouts in whole seconds and its time of creation, and its row shows when it was last used and its key last rotated |
| Lifetimes.ResolvesIff | internal/session/manager.go:114-168 | after any run a key resolves if and only if its session was used less than the inactivity timeout ago and begun less than the final timeout ago, and otherwise the session is deleted; rotation is due if and only if the interval has gone by |
| Lifetimes.UnusedResolvesIff | internal/session/manager.go:343-353 | a key begun and not used since resolves exactly until the shorter timeout is over, and is not due for rotation before the interval is |
| Lifetimes.TouchedResolvesIff | internal/session/manager.go:343-353 | after a touch the inactivity timeout counts from it, and the final limit stays |
| ProtocolRuns.CommitLinearizes | internal/session/manager.go:263-340 | a commit that succeeds decided from the rights stored at the commit, and its handle shows the rights it stored |
| ProtocolRuns.StaleRequestsChangeNothing | internal/store/memory.go:59-117 | a request that lost its key changes nothing at its touch or commit |
| ProtocolRuns.SnapshotIsExact | internal/session/manager.go:453-469 | a sweep's list holds every session bound to the owner and otherwise only stale members the store still had |
| ProtocolRuns.OwnedDeleteIsExact | internal/session/manager.go:453-469 | one delete of a sweep removes exactly the session if it is still the owner's, and nothing otherwise |
| ProtocolRuns.SweepIsComplete | internal/session/manager.go:453-469 | under any interference, once a sweep is done with a session that stayed the owner's, the session is gone for good |
| RedisProtocol.CallsAreLegal | internal/session/manager.go:78-469 | the protocol calls the store only in the ways the scripts need |
| RedisProtocol.AdvanceIsShadow | internal/store/redis.go:30-576 | one request step on Redis, from rows read and replies received, is an expiry and one protocol step |
| RedisProtocol.RedisRunIsRun | internal/store/redis.go:30-576 | every run on Redis is a run of the protocol with the same requests, answers and store |
| RedisProtocol.FreshIsLinked | internal/store/redis.go:30-576 | an empty Redis represents the protocol's initial world |
| RedisProtocol.RedisRightsAreConstant | internal/store/redis.go:102-223 | on Redis, over every run with expiry, a delivered key keeps its session and its rights for as long as it lives |
| RedisProtocol.RedisDigestsMatch | internal/store/redis.go:102-223 | on Redis, over every run with expiry, the two hashes of a session have the same fields and every digest is the hash of the value next to it |
| RedisProtocol.RedisSweepIsComplete | internal/store/redis.go:547-576 | on Redis, logout everywhere is complete, whatever expires meanwhile |
| Response.DiscardedIsScrubbed | session_store.go:689-699 | after discarding, no control header, cookie or managed trailer is left |
| Response.ProcessExtends | session_store.go:1221-1249 | what a response does depends on the request's earlier store steps in nothing |
| Response.NothingManagedLeaves | session_store.go:1189-1382 | whatever a response asks and whatever fails, no control header, managed trailer or store-listed cookie is left in its headers, and no cookie at all after a failure |
| Response.CookiesAreExact | session_store.go:1251-1382 | the cookies a response leaves with are those the site forwards, unchanged and in order, then the one that announces a pending key; after a revocation the one that expires the client's key; after a failure none |
| Response.NobodyIsStranded | session_store.go:1251-1382 | no step of a response touches the presented key, or the response succeeds and its last step swaps the key for the one announced in its headers, or it is a revocation that expires the client's cookie |
| Response.RevocationIsHonest | session_store.go:1189-1382 | a requested revocation deletes the session with everything of it or is answered 502 with nothing changed, in both failure modes |
| ResponseEffects.CookiesAreStored | session_store.go:1334-1381 | after a response that succeeds, of the last line about each store-listed cookie: neither value nor hash is stored if its last Max-Age is not above zero, or it has none and its expiry has come, and otherwise its value and hash are, in the store and in the handle |
| ResponseEffects.OtherCookiesKept | session_store.go:1334-1381 | no step of it touches a cookie no line is about, or another session's |
| ResponseEffects.SessionIffNeeded | session_store.go:1334-1370 | a request without a session gets one, with the configured timeouts and a key that leads to it, if and only if its response stores a cookie, binds an owner or grants a label; otherwise nothing happens in the store |
| ResponseEffects.KeySwappedIff | session_store.go:1297-1381 | on a session a response that succeeds retires the key, restarts the rotation clock and announces the new key if and only if its rotate header says so, the interval is over, its grant differs, or its owner does and login rotates |
| ResponseEffects.ControlsAreStored | session_store.go:1281-1381 | the owner named is stored, and exactly the labels named in all values of the header without the reserved one; what is not mentioned stays |
| ResponseEffects.UnmanagedIsFilter | session_store.go:656-684 | trailer declarations are filtered one by one, in order |
| ResponseEffects.ForwardedIsFilter | session_store.go:1334-1358 | so are the cookie lines forwarded |
| ResponseEffects.OthersPassThrough | session_store.go:1189-1382 | whatever a response asks and whatever fails, a header or trailer that is not managed leaves as the backend set it |
| ResponseEffects.DiscardKeepsOthers | session_store.go:656-699 | so it does when managed metadata is discarded |
| ResponseEffects.RevokesIff | session_store.go:1221-1237 | a revocation is asked for if and only if it is enabled and some value of its header reads as true |
| ResponseEffects.FailsIff | session_store.go:1189-1382 | exactly when processing a response fails, that a refused lock or an unresolved session leaves the store alone, and that a failure is answered 502 if and only if the site fails closed or a revocation was asked for |
| Upstream.PrepareUpstream | session_store.go:712-731 | the cookies a backend is sent: the client's own in order, then the session's, each once |
| Upstream.SentIff | session_store.go:712-731 | a store-listed cookie or the proxy's key reaches the backend only as the session holds it, whatever the client sends; every other cookie of the client passes |
| RoundTrip.BackendSeesItsCookie | session_store.go:576-580 | a cookie a response stored reaches the backend with that value and no other, with every later request that resolves to the session, as long as nobody writes it and the session is there |
| Interception.StripTrailers | session_store.go:656-684 | the loop leaves the unmanaged trailer declarations in order and no managed value |
| Interception.Scrub | session_store.go:1086-1093 | a scrubbed header is fit to leave |
| Interception.Interceptor.WriteHeader | session_store.go:1039-1067 | the first final status wins, informational ones are staged within count and budget, and the interceptor's invariant holds |
| Interception.Interceptor.Write | session_store.go:1069-1084 | what is staged is what the handler was told is written, every shortfall is remembered, nothing reaches the wire before an upgrade; after one the client may take any part, and the wire is fit if and only if it was and the pending headers are |
| Interception.Interceptor.ReserveFinal | session_store.go:1027-1037 | final metadata is reserved once, exactly when it fits |
| Interception.Interceptor.Discard | session_store.go:689-699 | managed metadata is discarded the first time and never again |
| Interception.Interceptor.CommitInformational | session_store.go:1095-1101 | staged informational responses go out in order, each scrubbed |
| Interception.AnnouncedInOrder | session_store.go:1095-1101 | every staged informational response goes out in order under its own status |
| Interception.Interceptor.FlushError | session_store.go:1122-1155 | only an extended CONNECT can commit early; then a fit header is on the wire and all staging is released, and a wire that is fit with its pending headers stays so |
| Interception.Interceptor.Hijack | session_store.go:1159-1187 | when a hijack goes through and what it sends; the wire and what is pending for it are fit afterwards if and only if they were, or, when one is repeated with no final header out, if and only if the wire was fit and the headers set in between are or the connection is handed over before they go out |
| Processing.WantsRevocation | session_store.go:1228-1237 | a revocation is requested exactly when the feature is on and some value parses as true |
| Processing.KeepGrantable | session_store.go:1316-1329 | the reserved label is dropped from grants, the others stay in order |
| Processing.Transition.SiftCookies | session_store.go:1334-1358 | the cookie loop, with its own reading of the clock for each cookie: forwarded ones stay, stored ones become mutations, a session is created at most once, and a failure ends it |
| Processing.Transition.Revoke | session_store.go:1262-1276 | the revocation branch with its failure |
| Processing.Transition.Commit | session_store.go:1364-1381 | one conditional commit after all cookies were read, and the new key announced exactly if one is pending |
| Processing.Transition.ProcessLocked | session_store.go:1251-1382 | the response path as coded computes the response transition: headers, handle, store steps and failure |
| Processing.Transition.Process | session_store.go:1221-1249 | the revoke signal is read and stripped before anything that can fail |
| Processing.Transition.EnsureProcessed | session_store.go:1189-1218 | with its clean-up on failure: the whole processing, about which nothing leaves, nobody is stranded and revocation is honest |
| Staging.Budget.Reserve | session_store.go:798-806 | a reservation succeeds exactly when it fits and then takes exactly that much |
| Staging.Body.AskWrite | session_store.go:839-845 | the reserve of a write: granted exactly when the body's cap and the budget allow, and not counted by the body yet |
| Staging.Body.StageWrite | session_store.go:846-874 | the part of a write between its calls on the budget: what is staged, what is reported and how much is due back, for every failure |
| Staging.Body.GiveBack | session_store.go:831-836 | bytes due back go back to the budget and are still counted by the body |
| Staging.Body.Write | session_store.go:839-874 | the staged bytes grow by exactly what is reported, the caps hold, and every reserved byte is used or given back, whatever the disk does |
| Staging.Body.Validate | session_store.go:876-895 | a spool passes exactly when it reads back as many bytes as were accepted, and then it holds them |
| Staging.Body.FlushTo | session_store.go:897-910 | the client gets a prefix of the accepted bytes, and all of them unless an error is returned |
| Staging.Body.Clear | session_store.go:920-955 | reset and close give every byte back and change nobody else's share |
| Staging.Body.ReserveMetadata | session_store.go:999-1009 | metadata shares the budget and has its own cap |
| Staging.StageAndFlush | session_store.go:814-955 | for any chunking, spill point and I/O behaviour, staging and flushing send exactly the bytes written, or a prefix and an error |
| Staging.Perform | session_store.go:792-955 | one step of one response (a write, metadata, a clear, an upgrade's release, a check or a send), with at most one call on the budget and the others in the middle of anything, keeps the budget in use equal to what all bodies count and what is in flight, within the limit, and every body within its caps |
| Staging.Interleave | session_store.go:792-955 | so does every schedule of such steps, under every failure, also when a response upgrades and reserves metadata anew |
| Staging.AtRest | session_store.go:792-837 | when no operation is in progress the budget in use is the sum of the bodies' counters |
| Staging.CloseAll | session_store.go:920-955 | from any point of any schedule, finishing and closing all bodies frees the whole budget |
| Serving.Admit | session_store.go:543-570 | a request reaches the handler only if its path needs no label or its key led to an unexpired session carrying it, even when store errors fail open |
| Serving.GateIsCurrent | session_store.go:543-570 | the label the gate goes by is stored at the resolve's touch, under a key that maps to the session at that moment, although it was read before |
| Serving.Deny | session_store.go:740-760 | the denial on the wire: a redirect to the label's endpoint with the way back for browsers, 401 with the endpoint for others |
| Serving.RunHandler | session_store.go:583-589 | whatever calls a handler makes, the interceptor's invariant holds, other responses' budget is untouched and no store step is taken; with one hijack at most everything on the wire and pending for it is fit |
| Serving.Screen | session_store.go:590-624 | exactly which responses are not processed, and what is on the wire then |
| Serving.Transact | session_store.go:625-626 | the session changes exactly as the response transition says, on the headers the handler left |
| Serving.Complete | session_store.go:625-648 | the transition and the wire together: which steps were taken, what was sent, that the client is told of its key, exactly which cookies it gets, and that a revocation is honest |
| Serving.Conclude | session_store.go:590-648 | the session changes if and only if the handler returned cleanly with nothing on the wire, metadata fits and the body reads back; then the client gets the informational responses, the processed headers with exactly the cookies due and the bytes the handler was told are written, or a bare 502; everything sent is fit if and only if it was before and, after an upgrade, what was pending is; its key is kept or it is told on the wire, and a revocation is done or answered 502 |
| Serving.Serve | session_store.go:525-648 | one whole request: gate, denial, the cookies sent to the backend, everything sent is fit if the handler hijacks once at most, the response's own share of the budget is zero at the end, the presented key outlives the request's steps or the last header sent carries the key it was swapped for or expires it, and a revocation asked for in a processed response is done or answered 502 |
| Serving.RepeatedHijackLeaks | session_store.go:1159-1187 | a run in which headers set after a failed hijack reach the wire as they are |
| Serving.PendingHeadersLeak | session_store.go:1159-1187 | a run in which they stay pending and the next write sends them |

## Left out

- Caddyfile parsing, provisioning, validation of the configuration, the admin API and cleanup: wiring and string handling without the state this model is about.
- Redis.TouchSession, Redis.ApplySessionControls and the other scripts: the TYPE checks on keys, key prefixes, argument encoding and the client library are not modelled; Lua numbers are exact integers.
- Store operations the manager does not call (ReplaceKey, DeleteKey, PutCookie, DeleteCookie, AddOwnerIndex, RemoveOwnerIndex, ReassignOwner) and the per-session lock: the protocol results hold for every interleaving, so none of them relies on the lock; whether it was obtained is an input of the response path.
- Random identifiers: minting is a parameter, and an identifier is assumed not to be in use.
- SHA-256, base64, cookie parsing and cookie building: abstract functions of the site and the configuration.
- ManagerSteps.ResolveIsCurrent: cookies and digests are read after the touch, each at its own moment, and are not claimed to belong to the moment of the rights; what they are is stated by CookieRuns.CookieComesBack.
- Outcomes.StoredAsAsked and ResponseEffects.ControlsAreStored: assume that nobody changed the session's owner or labels between read and commit; that a commit which goes through finds its session's rights as read is stated by ProtocolRuns.CommitLinearizes.
- WayBack.WayBackArrives: is about parameter names a query can carry unescaped; the code does not escape the configured name.
- 64-bit and `time.Duration` overflow, and seconds as fractions: times are unbounded integers and durations are truncated to whole seconds as the manager does.
- RedisProtocol.RedisRunIsRun: assumes one final timeout of at least a second for all sessions, and a proxy clock that is not ahead of the server's when a session is created; what different timeouts break, and exactly when, is stated by MixedTimeouts.StaysListedIff.
- Serving.Serve: the removal of control headers and trailers from the request is left out, and the request's cookies are pairs of name and value, not the text of a header.
- Interception.Interceptor.WriteHeader: takes a status from 100 to 999, for others the code panics; the size of a header in bytes is passed in.
- Response.NothingManagedLeaves: header names are taken as canonical; folding their case is not modelled.
- Paths and endpoints are byte strings, one character for each byte; labels and other text are code points.
- Authz.CleanKeepsPlace: cleaning is modelled on rooted paths, the only ones the policy and the gate use it on.
- MixedTimeouts.StaysListedIff and MixedTimeouts.TouchesIff: are about a session that has its key and was last used by a proxy whose clock shows the server's second; that its list lasts if both its limits do needs neither and is stated by MixedTimeouts.RunLasts.
- Serving.Serve and Serving.Answer: one request is followed alone, so what other responses hold of the budget stays as it was; how they interleave is stated by Staging.Interleave.
- Policy.NoRedirectLoop: an endpoint that begins with two slashes leads a client to another host and is treated like any path; what a client does to a path before asking for it is an arbitrary function.
