# Secure store: a Dafny model of its stores and of the handlers that drive them

Secure store keeps encrypted objects in buckets and hands them out through access keys: links that can be limited in
use, can expire, and can demand an unlock key. This project models the parts of it where something can go wrong between
steps, and proves what every run of them keeps. `dafny verify dfyconfig.toml` checks all of it.

## The three subjects

**Access keys under concurrency** (`access/memory.go`, `access/access.go`, the download handler in `router.go`).
`AccessProtocol` is a step system. Its state holds the shared map from url keys to key objects, the use counters, all
requests with their handler, answering goroutine and access goroutine, all timers, all outside `DeleteKey` calls, the
timer loop, the killer loop and a clock. One action is one thing another goroutine can observe: a Load, Store or Delete
of the map, one atomic operation on a counter, one rendezvous on an unbuffered channel, one timer event. `Enabled` and
`Next` give the actions, `Reachable` the states that some interleaving of them produces. What the code does is kept as
it is: kills go by url key and may hit a successor, overlapping `AddKey` calls may both succeed, the deferred cancel may
overtake the answer, a limit of zero still lets one request through, a panic in the download answers false, and the
counter wraps at 2^64. `AccessTheorems` states what holds in every reachable state; `AccessPromise`, `AccessExact`,
`AccessThreats`, `AccessSuccessors`, `AccessLost` and `AccessAdds` say exactly when the promises hold that the code does
not always keep, and `AccessCancel` when a request can be cancelled.
`AccessStore.MemoryStore` is the same store as one caller sees it: methods that update its fields in place, each proved
to be one of the interleavings of the step system and each with its whole new state stated.

**The compound store** (`storeend.go` over `metadata/memory.go`, `security/memory.go`, `storage/memory.go` and
`storage/fs.go`). `Ofb` models the stream reader after section 6.4 of NIST SP 800-38A with an arbitrary block cipher.
`CompoundStores.CompoundStore` refines the single map of `ObjectMap` over every sequence of calls.
`CompoundConcurrent` and `CompoundAgreement` let `Write`, `Read` and `NewBucket` interleave between sub-store operations,
over the in-memory storage or over files that fill piece by piece; `CompoundMetadata` says which metadata a `Read` can
hand out meanwhile, and `CompoundOutcomes` how every call ends and that calls do succeed. `FsConcurrent` and `FsOutcomes`
look at the file storage alone, with the paths its names stand for, and `CompoundOverFiles` shows that the file phases of
the compound store are its steps.

**Representations that must agree with something simpler.** `FsStores` (remembered names against the directory tree) and
`StorageRefinement` (files against memory, call by call); `Users` (two secondary indexes against the user map, over
every sequence of creates and deletes); `ProtoKeys` (access keys to wire records and back); `Identifiers` and `Paths`
(the regular expressions, their languages, and why the paths built from accepted names never collide); `Base64`.

## Where a stronger promise fails, and exactly when it holds

- A limit does not bound the grants when requests overlap: `AccessSuccessors.StaleKillsCanHitSuccessors` grants a key with
  a limit of one twice. `AccessPromise` counts what is promised to a key: the true answers added, and those that requests
  under way may still add. Without another request the true answers stay within n if and only if the promise does
  (`PromiseIsExact`), and over any run they are never in danger of passing n if and only if each admitted request starts
  while fewer than n are promised (`BoundIffGuarded`). With n = max(1, limit) that guard makes limits exact
  (`AccessExact.GuardedRunsAreExact`); requests one at a time meet it by themselves (`AccessExact.DrainedRunsAreExact`).
- A kill goes by url key and may take out a successor that is neither limited nor expiring: by the second of two
  overlapping kills (`StaleKillsCanHitSuccessors`), by the kill of a request that was itself refused, with one grant only
  (`RefusedRequestsCanHitSuccessors`), and without any overlap by the timer of a predecessor that was used up
  (`StaleTimersCanHitSuccessors`). `AccessThreats.Threatened` lists what can take a url key out: the timer loop or the
  killer loop at work for a key object of it, an `AddKey` call about to hand one over, a timer that has not sent its kill,
  a `DeleteKey` call under way, and a request on a limited key object that is about to kill or may still find the limit
  reached. In every reachable state, as long as fewer than 2^64 answers are promised, a url key in the map can go without
  another call if and only if it is threatened (`AccessThreats.GoesIffThreatened`); at rest, whatever the counts, that
  means a key object with that url key has a timer ahead (`AccessSuccessors.GoesIffTimerWaits`).
- A download may never be counted (`AccessLost.AnswersCanBeLost`). In every reachable state a download that was or will
  be made can be lost if and only if its goroutine has not received an answer (`AccessLost.LostIffUnanswered`); at rest
  the downloads not counted are those whose goroutine was cancelled and, after a panic only, those answered false
  (`AccessLost.LostAtRest`). A download of more than 100 seconds can be lost before its handler has closed
  (`AccessCancel.SlowDownloadsAreLost`): a waiting request can be cancelled if and only if its handler has closed or it
  was made 100 seconds ago (`AccessCancel.CancelledIffContextEnded`).
- Two `AddKey` calls on one url key may both succeed (`AccessAdds.OverlappingAddsCanBothSucceed`). In every reachable
  state the calls under way can store over a key object if and only if one is about to store although the url key is
  taken, or two have not stored yet and the url key is free or threatened (`AccessAdds.OverwriteIffEarly`); calls that
  start when no other one is at that point never do (`AccessAdds.SpacedRunsExclude`).
- A `Read` of the compound store may hand out the metadata of a `Write` that lost (`CompoundMetadata.LosersCanMislead`;
  from any reachable state with contents, `LoserCanMislead`). In every reachable state a `Read` may look up metadata other
  than given ones, such as the winner's, if and only if others are stored or a `Write` under way has yet to store others
  (`LookUpIffUnsettled`); once contents are there, it may also succeed with them under the same condition
  (`MisledIffUnsettled`).
- A `Write` that got past `WriteKey` and whose reader does not fail can still end in an error, when it came to the storage
  before the bucket it names did (`CompoundOutcomes.WinnersCanFail`). With the bucket in the storage when it starts, it
  succeeds if and only if it got past `WriteKey` and its reader does not fail (`CompoundOutcomes.WriteOutcome`); without
  that, if and only if moreover its data are stored (`CompoundOutcomes.EndedIffStored`). The file storage alone needs no
  such condition (`FsOutcomes.WriteOutcome`).
- Converting an access key to a record and back (`access/redis.go:35-36`, Go 1.16 loop variables) keeps its set of valid
  keys if and only if the set has at most one member: `ProtoKeys.RoundTrip`.
- After a write whose reader fails, file storage keeps the object with what had arrived and memory storage has nothing:
  they part exactly when that write had been accepted (`StorageRefinement.Pair.WriteBoth`).
- A repeated `Write` of the compound store fails and keeps the contents, but has replaced the metadata by then; a `Write`
  whose reader fails leaves an entry without contents, which `Delete` clears while it reports an error
  (`ObjectMap.After`, `ObjectMap.ReplyTo`).
- `ListBuckets` of the file storage puts one empty name in front for every bucket (`FsStores.FsStorage.ListBuckets`).

## Assumptions

- There is one monotone clock, in nanoseconds; a timer fires at any moment from its due time on.
- Every `AddKey` call brings a key object of its own, as `FromExAccessKey` makes one for each request. Key objects,
  requests, timers and calls are numbered by their position in a sequence.
- The unlock keys a request shows enter already decoded, `None` standing for text that is not base64.
- A reader delivers its data in arbitrary pieces and then ends or fails. What `Download` sends is not part of the access
  model; an object that cannot be read still uses up the key, as in the code.
- Requests to store an object name a bucket that exists: the upload handler (`router.go:82-134`) does not look, and
  `metadata.Write` would store into a nil map, a panic that the router recovers from.
- A new object comes with an encryption key of 16, 24 or 32 bytes, since the storage would read from a nil reader
  otherwise; the upload handler generates 32.
- A file system call fails only in the ways of `FsStores.Disk`; paths are absolute; the root starts out with nothing in it
  that is named like a bucket; names have passed the matcher.

## Model

| member | source | states |
|---|---|---|
| AccessKeys.HashSet.Insert | access/access.go:121-123 | the digest is in the set afterwards and every other member stays |
| AccessKeys.NewKeyOptions | access/access.go:70-88 | refused exactly when a ttl is given and already past; otherwise each flag says whether its pointer was set |
| AccessKeys.CopyDigest | access/access.go:44-47 | copying byte by byte into a fresh array gives the first 64 bytes of the slice |
| AccessKeys.FromExAccessKey | access/access.go:35-58 | the length check precedes the ttl check; a key is built iff all submitted keys have length 64 and the ttl is not past; it needs an unlock key iff the list is not empty, and then holds exactly the submitted keys |
| AccessKeys.ValidKey | access/access.go:157-166 | a wrong length is an error; otherwise valid iff the shown bytes are in the set, which is never consulted when missing |
| Router.CheckUnlock | router.go:278-322 | the handler's nested checks let a request in iff the key admits it, for every well-formed key |
| Router.UnlockAgreement | router.go:278-322 | from submitted list to answer: everyone is admitted without a list, otherwise exactly those who show one of its members, whatever order and repetitions |
| Router.Authenticate | router.go:83-98 | resolve-then-verify succeeds iff a live user has exactly these key bytes, and returns that unique user even when an id was deleted and created again under another key |
| AccessProtocol.StepKeepsWellFormed | access/memory.go:20-94 | every step keeps: entries point to stored key objects of that url key, a handler answers only what it decided, a kill is sent only past the limit or at the ttl |
| AccessProtocol.RunKeepsWellFormed | access/memory.go:20-94 | so does every interleaving of any length |
| AccessCounting.StepMovesCount | access/memory.go:71-75 | the add after a received true answer is the only step that moves the count of true answers, and moves it by one |
| AccessCounting.StepKeepsCount | access/memory.go:71-75 | the atomic counter stays equal to that count modulo 2^64 |
| AccessCounting.CounterWraps | access/memory.go:72-76 | the counter counts modulo 2^64, written out |
| AccessCounting.StepKeepsCounter | access/memory.go:76 | a value loaded later than the add never exceeds the true answers added |
| AccessCounting.AnswersNeedDownloads | router.go:249-323 | true answers are at most the Download calls; Access calls are the waiting, the cancelled and the answered ones |
| AccessLimit.StepKeepsObligation | access/memory.go:70-80 | no step loses the kill that is owed for a key in the map that has used up its limit |
| AccessExpiry.StepKeepsExpiry | access/memory.go:29-44 | no step adds or loses a source of timed removal of a key in the map |
| AccessRemoval.SentMeansJustified | access/memory.go:76-79 | a kill was sent iff there is a goroutine of that key with a reason: a loaded counter at or above the limit and backed by as many true answers, or a ttl that is past |
| AccessRemoval.StepKeepsPresent | access/memory.go:48-58 | a stored key whose url key nobody else uses and nobody deletes is in the map until a kill of it was sent |
| AccessRemoval.StepKeepsDelivered | access/memory.go:20-28 | a kill that was sent has been carried out, or the killer loop is at it |
| AccessRemoval.JustifiedRemoval | access/memory.go:86-94 | a step that takes a url key out of the map is an outside DeleteKey for it or the killer loop working on a justified kill; with url keys never reused it removes that very key object |
| AccessDrain.InternalStepFalls | access/memory.go:20-44 | a well-founded measure over adders, timers, handlers, goroutines and loop phases falls on every internal step |
| AccessDrain.GoroutinesStop | access/memory.go:20-44 | hence, left alone and in whatever order they are scheduled, the goroutines take at most that many steps, however the clock moves meanwhile |
| AccessDrain.PendingMoves | access/memory.go:53-56 | no deadlock: while a sender is blocked on killer or timeKiller, or a kill is in hand, a step of the store is enabled |
| AccessDrain.Drain | access/memory.go:20-44 | a state in which they stop is always within reach of internal steps |
| AccessTheorems.LimitObligation | access/memory.go:60-84 | in every reachable state a limited key used max(1, limit) times is out of the map or its kill is owed by a goroutine or the killer loop |
| AccessTheorems.ExpiryObligation | access/memory.go:29-44 | in every reachable state an expiring key has at most one live source of timed removal, exactly one while it is in the map, and none sends before its ttl |
| AccessTheorems.UsesAreDownloads | access/memory.go:66-82 | in every reachable state the counter is the number of true answers added, at most the downloads, each by a request the key admits |
| AccessTheorems.RemovalIsJustified | access/memory.go:86-94 | in every reachable state a url key leaves the map only by DeleteKey from outside or by a justified kill |
| AccessTheorems.RestIsInOrder | access/memory.go:20-44 | wherever the goroutines stop, in every interleaving, no send is blocked, no kill is in hand, and nothing in the map is overdue |
| AccessTheorems.RestIsEnforced | access/memory.go:60-84 | at rest no key in the map has used up its limit, and every expiring one has a timer still ahead |
| AccessTheorems.TimeRunsOut | access/memory.go:29-44 | left alone while the clock moves, the store can always come to rest without any expiring key in the map |
| AccessPromise.StepKeepsPromise | access/memory.go:60-84 | no step but a new request raises the true answers that are added or may still be added to a key |
| AccessPromise.PromiseIsExact | access/memory.go:60-84 | without another request the true answers stay within n, in every interleaving, iff those promised are at most n |
| AccessPromise.BoundIffGuarded | router.go:249-323 | over every run, overlapping requests or not, the bound n is never in danger iff each request the key admits starts while fewer than n are promised |
| AccessExact.RestIsExact | access/memory.go:60-84 | at rest an undisturbed limited key is in the map iff fewer than limit true answers were given; with limit zero iff no request was answered at all |
| AccessExact.GuardedRunsAreExact | access/memory.go:60-84 | requests that meet this guard, overlapping or not, get a limited key at most max(1, limit) grants, and an undisturbed one with limit at least one is gone at rest iff exactly limit true answers were given |
| AccessExact.DrainedRunsAreExact | access/memory.go:60-84 | when each request settles before the next, every one of them meets the guard, so the limit is exact |
| AccessLost.DownloadsAreCountedOrNot | router.go:262-268 | the downloads of a key are the true answers added and the downloads not counted |
| AccessLost.LostAtRest | router.go:250-268 | at rest the latter are those whose goroutine was cancelled and those answered false, of which there are none without a panic |
| AccessLost.LostIffUnanswered | router.go:250-268 | in every reachable state a request can end up downloaded and cancelled iff its download was or will be made and its goroutine has not received an answer; nothing else about it prevents that |
| AccessLost.AnswersCanBeLost | router.go:250-268 | a run in which a download took place and its answer was never received |
| AccessCancel.CancelledIffContextEnded | access/memory.go:66-70 | in every reachable state a waiting request can be cancelled iff its handler has closed or it was made 100_000_000_000 nanoseconds ago, also while it downloads; nothing else changes then |
| AccessCancel.CancelledStays | access/memory.go:68-69 | a cancelled request stays so and is never counted |
| AccessCancel.IssuedBefore | router.go:250 | no request is served before the moment its 100 seconds start |
| AccessCancel.SlowDownloadsAreLost | router.go:250-268 | a run in which a download completes after 150 seconds, before its handler has closed, and is not counted: the limit-one key stays |
| AccessAdds.SpacedRunsExclude | access/memory.go:48-58 | over every run, AddKey calls on a url key that start when no other one there is between its call and its Store never store over a key |
| AccessAdds.OverwriteIffEarly | access/memory.go:48-58 | in every reachable state, with fewer than 2^64 answers promised, the calls under way can store over a key object without another call iff one is about to store although the url key is taken, or two have not stored yet and the url key is free or threatened |
| AccessAdds.OverwriteIffTwoEarly | access/memory.go:48-58 | under a free url key, in every state and whatever the counts, iff two of them have not stored yet |
| AccessAdds.OverlappingAddsCanBothSucceed | access/memory.go:48-58 | a run in which two AddKey calls on one url key both succeed |
| AccessThreats.StepStaysSafe | access/memory.go:20-94 | no step brings up a threat to a url key in the map out of nothing, and without one the url key stays |
| AccessThreats.GoOn | access/memory.go:20-94 | a threatened url key always has a next step that removes it or brings its removal nearer, unless only a timer is left that is not due |
| AccessThreats.GoesIffThreatened | access/memory.go:20-94 | in every reachable state, with any requests, AddKey calls, DeleteKey calls, timers and kills under way, a url key in the map can go without another call iff it is threatened, as long as fewer than 2^64 answers are promised |
| AccessSuccessors.GoesIffTimerWaits | access/memory.go:20-44 | at rest, whatever the counts, a url key in the map can go without another call iff some key object with that url key has a timer ahead, which for a key that does not expire is another one's; no other threat is left there |
| AccessSuccessors.RunKeepsUndisturbed | access/memory.go:86-94 | otherwise the very same key object stays in the map, however the clock moves |
| AccessSuccessors.StaleKillsCanHitSuccessors | access/memory.go:77-79 | a run that grants a limit-one key twice and whose stale kill removes an unlimited successor |
| AccessSuccessors.RefusedRequestsCanHitSuccessors | access/memory.go:71-79 | a run with one grant in which a refused request's late false answer leads to the kill of an unlimited successor |
| AccessSuccessors.StaleTimersCanHitSuccessors | access/memory.go:37-42 | a run without any overlap in which the timer of a used-up key takes out its unlimited successor |
| AccessStore.MemoryStore.NewMemoryStore | access/memory.go:16-46 | the store starts with an empty map, nobody at work and both loops waiting |
| AccessStore.MemoryStore.Load | access/memory.go:49-52 | the call is refused iff the url key is taken |
| AccessStore.MemoryStore.Store | access/memory.go:53 | the url key leads to this key object from then on |
| AccessStore.MemoryStore.AddKey | access/memory.go:48-58 | fails iff the url key is taken; an expiring key ends up with a timer due at its ttl; nothing else changes |
| AccessStore.MemoryStore.HandOver | access/memory.go:31-43 | the hand-over on timeKiller leads to one timer due at the ttl, whatever the clock shows |
| AccessStore.MemoryStore.Access | access/memory.go:60-84 | fails iff the url key is unknown; otherwise one goroutine waits for that key object, and the moment the request was made is kept: from 100 seconds later on it may give up, see AccessCancel |
| AccessStore.MemoryStore.Decide | router.go:262-322 | Download is called iff the key admits the request, and the answer launched is true iff it completes without a panic |
| AccessStore.MemoryStore.Finish | router.go:250-268 | the goroutine either receives that answer or, when the deferred cancel overtakes it, gives up |
| AccessStore.MemoryStore.Handle | router.go:249-323 | the whole handler, panic and cancel included: what was downloaded, what was answered and whether the answer arrived |
| AccessStore.MemoryStore.CountAndLoad | access/memory.go:72-76 | a true answer adds one, a false one nothing, and the loaded value is the new counter |
| AccessStore.MemoryStore.Settle | access/memory.go:71-80 | an answer leads to a kill iff the key is limited and the new counter has reached the limit, and then the url key is gone |
| AccessStore.MemoryStore.Kill | access/memory.go:77-79 | the send on killer and the round of the killer loop it starts |
| AccessStore.MemoryStore.KillerRound | access/memory.go:20-28 | the killer loop takes out the url key of the key object it received, whoever is under it |
| AccessStore.MemoryStore.DeleteKey | access/memory.go:86-94 | fails iff nothing is under the url key; otherwise the entry goes and nothing else changes |
| AccessStore.MemoryStore.Expire | access/memory.go:37-42 | once a timer is due its goroutine's kill takes the url key out |
| AccessStore.MemoryStore.Download | router.go:249-323 | one request from start to finish: granted iff a key object is there that admits it; uses it once unless the download panics or the answer is overtaken; removes it iff an answer arrived and the limit is reached |
| AccessStore.MemoryStore.DownloadInTurn | router.go:249-323 | of requests in turn one is granted iff it is admitted and fewer than limit uses were counted before; refused, panicking and overtaken ones cost nothing; the key is in the map until the limit is reached |
| Ofb.StreamIsByBlocks | storeend.go:18-24 | the byte stream is what section 6.4 of NIST SP 800-38A prescribes block by block, short last block included |
| Ofb.FirstBlocks | storeend.go:18-24 | the first two blocks written out: the initialization vector is 16 zero bytes |
| Ofb.ChunksDoNotMatter | storeend.go:20-24 | the result does not depend on how the data was cut into reads |
| Ofb.RoundTrip | storeend.go:59-81 | for every cipher, key, plaintext and chunking on both sides, reading back a prefix of the ciphertext gives that prefix of the plaintext |
| Ofb.OfbStream.XorKeyStream | storeend.go:19-22 | the stateful stream applies the key stream at its position and moves on by the length |
| Ofb.CreateStreamReader | storeend.go:12-25 | no reader iff the key has none of 16, 24 and 32 bytes; otherwise it will deliver the data encrypted from position zero |
| Ofb.StreamReader.Read | storeend.go:20-24 | what was delivered and what remains together stay the same stream |
| Ofb.ReadAll | storage/memory.go:41 | reading to the end gives all that remained, and success iff the source does not fail |
| MemoryStores.MetadataStore.Write | metadata/memory.go:21-27 | overwrites that entry and no other |
| MemoryStores.MetadataStore.Read | metadata/memory.go:29-38 | the entry, or one error for a missing bucket and a missing object alike |
| MemoryStores.MetadataStore.NewBucket | metadata/memory.go:40-49 | fails iff the bucket is there |
| MemoryStores.MetadataStore.Delete | metadata/memory.go:51-64 | removes that entry only, with an error of its own for each missing part |
| MemoryStores.MetadataStore.DeleteBucket | metadata/memory.go:66-75 | removes the bucket with everything in it, fails iff there is none |
| MemoryStores.MetadataStore.ListBuckets | metadata/memory.go:77-85 | every bucket name exactly once |
| MemoryStores.MemorySecurityStore.NewBucket | security/memory.go:20-29 | fails iff the bucket is there |
| MemoryStores.MemorySecurityStore.WriteKey | security/memory.go:31-44 | never replaces a key: the first write for a name wins |
| MemoryStores.MemorySecurityStore.ReadKey | security/memory.go:46-58 | the key, or an error of its own for each missing part |
| MemoryStores.MemorySecurityStore.DeleteKey | security/memory.go:60-73 | removes that key only |
| MemoryStores.MemorySecurityStore.DeleteBucket | security/memory.go:75-84 | removes the bucket, fails iff there is none |
| MemoryStores.MemoryStorage.NewBucket | storage/memory.go:22-31 | fails iff the bucket is there |
| MemoryStores.MemoryStorage.Write | storage/memory.go:33-50 | stores everything the reader delivers under a free name, nothing if it fails |
| MemoryStores.MemoryStorage.Read | storage/memory.go:52-67 | a fresh reader over the stored bytes, or an error of its own for each missing part |
| MemoryStores.MemoryStorage.Delete | storage/memory.go:69-81 | removes that object only |
| MemoryStores.MemoryStorage.DeleteBucket | storage/memory.go:83-92 | removes the bucket, fails iff there is none |
| CompoundStores.FirstWriteRefines | storeend.go:49-66 | metadata, key and ciphertext of a new object together stand for its entry in the single map, without contents if the reader fails |
| CompoundStores.RepeatedWriteRefines | storeend.go:49-66 | metadata written before the key store refuses replace the old ones and keep the plaintext |
| CompoundStores.WriteRefines | storeend.go:49-66 | a write that comes first, second or fails on its reader changes the single map as it should |
| CompoundStores.DeleteRefines | storeend.go:85-99 | the three deletes together remove one entry, also one without contents |
| CompoundStores.CompoundStore.NewBucket | storeend.go:33-47 | fails iff the bucket is there and otherwise adds an empty one; state and reply are those of the single map; the three bucket sets stay equal |
| CompoundStores.CompoundStore.Write | storeend.go:49-66 | succeeds iff the name is free and the reader does not fail, and then the entry holds the metadata and the plaintext; state and reply are those of the single map, for a first write, a repeated one and a failing reader; objects with metadata and with keys stay the same and include those with contents |
| CompoundStores.CompoundStore.Read | storeend.go:68-83 | succeeds iff there is an entry with contents, and then gives its metadata and a reader that will deliver its plaintext; otherwise the error of the single map |
| CompoundStores.CompoundStore.Delete | storeend.go:85-99 | succeeds iff there is an entry with contents; an entry without is cleared and still an error; state and reply are those of the single map |
| CompoundStores.CompoundStore.DeleteBucket | storeend.go:101-115 | removes the bucket with everything in it, fails iff there is none; state and reply are those of the single map |
| CompoundStores.CompoundStore.ListBuckets | storeend.go:117-119 | every bucket of the single map exactly once |
| CompoundStores.CompoundStore.Serve | storeend.go:33-115 | over every sequence of calls the replies and the final state are those of the single map |
| ObjectMap.UntouchedStays | storeend.go:33-115 | an entry of the single map stays as it is through every sequence of operations that do not write or delete it |
| CompoundStores.CompoundStore.WriteThenRead | storeend.go:49-83 | after a Write that reported success, and any further calls that neither write nor delete that name, Read finds its metadata and its whole plaintext |
| CompoundStores.CompoundStore.UploadAndRead | storeend.go:49-83 | with a key of 32 bytes, a free name and a reader that succeeds, an upload succeeds and is read back whole |
| CompoundAgreement.StepKeepsAgreed | storeend.go:33-83 | every step of overlapping Writes, Reads and NewBuckets keeps the agreement of the three stores |
| CompoundAgreement.StoresAgree | storeend.go:49-66 | in every interleaving without deletes contents have keys and keys have metadata, at most one Write per name gets past WriteKey, and what is stored is its plaintext (over files a prefix of it) under the key in the security store |
| CompoundAgreement.SuccessMeansStored | storeend.go:49-66 | at most one Write per name reports success, and from then on its whole plaintext is there under its key |
| CompoundOutcomes.WriteOutcome | storeend.go:49-66 | in every interleaving, over memory and over files, a Write that started with its bucket in the storage has ended in success iff it got past WriteKey and its reader does not fail, with the error of its reader iff it got past and that fails, and otherwise because the name is taken |
| CompoundOutcomes.EndedIffStored | storeend.go:49-66 | in every reachable state, whether or not the bucket was there, an ended Write succeeded iff it got past WriteKey, its reader does not fail and its data are stored |
| CompoundOutcomes.WinnersCanFail | storeend.go:33-66 | a run in which a Write gets past WriteKey with a reader that does not fail and ends in an error, as NewBucket had not come to the storage yet |
| CompoundOutcomes.BucketOutcome | storeend.go:33-47 | in every reachable state a NewBucket that succeeded has its bucket in all three stores, and one that failed has found one |
| CompoundOutcomes.FollowNewBucket | storeend.go:33-47 | from every reachable state without the bucket NewBucket can run to success |
| CompoundOutcomes.FinishWrite | storeend.go:49-66 | a Write on its way, left to itself, runs to success with its metadata, key and plaintext |
| CompoundOutcomes.ReadsAreServed | storeend.go:68-83 | in every interleaving, no Read that starts once contents are there is refused |
| CompoundOutcomes.RefusalsAreRight | storeend.go:68-83 | in every reachable state a Read is refused only for what is missing then: metadata, the bucket or the object behind them, or a file that is claimed but not made yet |
| CompoundOutcomes.UploadAndRead | storeend.go:49-83 | from every reachable state, over memory and over files, an object can be stored under a free name with a key of 32 bytes and read back whole with its metadata |
| CompoundOutcomes.UploadsHappen | storeend.go:33-83 | such a run from the start, for every cipher and plaintext and both storages |
| CompoundAgreement.CallsNeverBlock | storeend.go:33-83 | in every interleaving every unfinished call can go on; no step that takes a bucket or a file for granted ever misses it |
| CompoundAgreement.ReadsDecryptTheWinner | storeend.go:68-83 | every successful Read decrypts to the winning Write's plaintext, over files to a prefix of it; for its metadata see the rows of CompoundMetadata |
| CompoundMetadata.MetadataComeFromAWrite | storeend.go:49-83 | the metadata a successful Read hands out are those of some Write call on the name |
| CompoundMetadata.LookUpIffUnsettled | metadata/memory.go:21-38 | in every reachable state, with or without contents, a Read from here on can look up other metadata than given ones iff others are stored or a Write under way has yet to store others |
| CompoundMetadata.MisledIffUnsettled | storeend.go:49-83 | once contents are there under the name, a Read from here on can succeed with other metadata than given ones, such as the winner's, under the same condition and no other |
| CompoundMetadata.LoserCanMislead | storeend.go:49-57 | from every reachable state with contents, a second Write that fails can make a Read hand out its metadata instead of the winner's |
| CompoundMetadata.LosersCanMislead | storeend.go:49-57 | and such a state is reached from the start |
| CompoundAgreement.ReadsAgree | storeend.go:68-83 | of any two successful Reads of one name one is a prefix of the other; over memory they are equal |
| FsConcurrent.OneWriterPerFile | storage/fs.go:116-142 | in every interleaving one Write at most claims a name and creates its file, creation truncates nothing, and a Write that succeeds leaves exactly its data |
| FsOutcomes.WriteOutcome | storage/fs.go:116-142 | in every reachable state an ended Write succeeded iff it claimed its name and its reader does not fail, reports its reader iff it claimed and that fails, and otherwise found the bucket missing or the name claimed by another Write |
| FsOutcomes.LosersFindTheName | storage/fs.go:116-128 | a Write that started with its bucket there and did not claim its name reports that the name is taken, and only such a one does |
| FsOutcomes.FinishWrite | storage/fs.go:116-142 | a Write on a free name in a bucket that is there, or one that has claimed its name, can run to success |
| FsOutcomes.RefusalsAreRight | storage/fs.go:144-156 | a Read is refused only if its file is missing then, each error iff that part is missing |
| FsOutcomes.WriteThenRead | storage/fs.go:116-162 | from every reachable state with the bucket, what is written under a free accepted name can be read back whole |
| FsOutcomes.WritesHappen | storage/fs.go:100-162 | such a run from an empty storage, for all bytes |
| FsConcurrent.ReadsArePrefixes | storage/fs.go:144-162 | a Read during a Write is refused or yields a prefix of what the one writer delivers |
| FsConcurrent.RunKeepsConsistent | storage/fs.go:100-162 | every interleaving keeps claims, files and readers consistent, across all accepted names at once |
| FsConcurrent.CallsNeverBlock | storage/fs.go:116-162 | every unfinished Write or Read can go on |
| CompoundOverFiles.ClaimingIsClaim | storage/fs.go:116-128 | the compound store's claim of a name, or its refusal, is the step of the file storage |
| CompoundOverFiles.CreatingIsCreate | storage/fs.go:129-132 | so is its creation of the file |
| CompoundOverFiles.CopyingIsCopy | storage/fs.go:133-141 | so is every piece it copies, which is the next stretch of the ciphertext |
| CompoundOverFiles.ReadingIsRead | storage/fs.go:144-162 | so are looking a name up, opening its file and reading from it |
| CompoundOverFiles.BucketIsBucket | storage/fs.go:100-114 | so is the last step of NewBucket |
| FsStores.NewBucketKeepsLayout | storage/fs.go:100-114 | a new directory keeps remembered names and the tree in step |
| FsStores.WriteKeepsLayout | storage/fs.go:116-142 | a new file keeps them in step and disturbs no other name |
| FsStores.DeleteKeepsLayout | storage/fs.go:164-182 | removing a file keeps them in step |
| FsStores.DeleteBucketKeepsLayout | storage/fs.go:184-197 | removing a directory tree takes the files of that bucket and of no other |
| FsStores.ScanRoot | storage/fs.go:53-76 | a root that is there is refused iff it holds files but no config file, and fails iff it is no directory |
| FsStores.NewFsStorage | storage/fs.go:47-90 | a root that is missing is made; a storage results iff the root is not refused, no file is in its way and no directory is in the way of the config file; it is empty, and no file but the config file changed |
| FsStores.FsStorage.NewBucket | storage/fs.go:100-114 | same reply and same change of contents as in memory; Mkdir cannot fail |
| FsStores.FsStorage.Write | storage/fs.go:116-142 | same as in memory for a reader that succeeds; a failing one leaves what had arrived |
| FsStores.FsStorage.CreateAndFill | storage/fs.go:126-141 | the copy loop leaves in the file exactly what the reader delivered and changes no other file |
| FsStores.FsStorage.Read | storage/fs.go:144-162 | a reader over exactly the stored bytes, or the errors of the in-memory storage |
| FsStores.FsStorage.Delete | storage/fs.go:164-182 | same reply and same change as in memory; Remove cannot fail |
| FsStores.FsStorage.DeleteBucket | storage/fs.go:184-197 | same reply and same change as in memory |
| FsStores.FsStorage.ListBuckets | storage/fs.go:199-207 | as many empty names as buckets, then each bucket once |
| StorageRefinement.Pair.WriteBoth | storage/fs.go:116-142 | both storages report the same, which is success iff the name is free in a bucket that is there and the reader does not fail; they differ afterwards iff an accepted write had a failing reader |
| StorageRefinement.Pair.ReadBoth | storage/fs.go:144-162 | both storages deliver the same bytes or the same error |
| StorageRefinement.Pair.RunBoth | storage/fs.go:100-197 | over every sequence of calls with accepted names and readers that succeed, same replies and same contents |
| StorageRefinement.Pair.WriteThenRead | storage/fs.go:116-162 | both deliver the ciphertext of a successful write, after any further calls that do not delete it |
| Paths.KeyPathsDiffer | storage/fs.go:92-98 | distinct accepted pairs have distinct paths, none of which is a bucket's or the config file's |
| Paths.BelowBucket | storage/fs.go:184-197 | below a bucket's directory lie the files of that bucket, no other bucket and not the root |
| Paths.PathsWrittenOut | storage/fs.go:92-98 | the paths of a bucket, an object and the config file, written out |
| Identifiers.IdLanguage | sanitizer.go:9-25 | the expression accepts exactly: dash-separated parts, the first of letters, others of letters or digits, the last at least two long and ending in a letter |
| Identifiers.IdAlphabet | sanitizer.go:9 | an accepted identifier is not empty and has only lower-case letters, digits and dashes |
| Identifiers.IdWithoutDash | sanitizer.go:9 | written out: without a dash, at least two lower-case letters |
| Identifiers.IdWithOneDash | sanitizer.go:9 | written out: with one dash, letters before it, letters or digits behind it, at least two of them and the last a letter |
| Identifiers.NameLanguage | users/users.go:24-25 | nameExp and usernameExp accept exactly letter runs joined by single separators |
| Identifiers.NameOfTwoWords | users/users.go:24-25 | written out for one word, and two words are accepted iff each is |
| Identifiers.ClassesWrittenOut | sanitizer.go:9 | the character classes by their places in the code table |
| Users.IsValid | users/users.go:63-83 | valid iff both expressions match and both lengths are right, the first failure being reported |
| Users.LiveUsersAreIndexed | users/memory.go:23-42 | after every sequence of creates and deletes both index entries of a live user point to it |
| Users.IndexAgreement | users/memory.go:23-78 | hence no two live users share an API key or a username, although deletes leave stale entries |
| Users.IndexesRemember | users/memory.go:30-40 | the indexes hold exactly the API keys and usernames that were ever registered |
| Users.NamesAreNeverReused | users/memory.go:23-42 | Create succeeds iff the id is not live and neither key bytes nor username was ever registered |
| Users.MemoryStore.NewMemoryStore | users/memory.go:15-21 | the store starts with three empty maps, the registry of no events |
| Users.MemoryStore.Create | users/memory.go:23-42 | on success the user is stored under its id and both indexes lead to that id; otherwise no map changes and the first failing check is reported; always in step with the registry |
| Users.MemoryStore.Delete | users/memory.go:71-78 | the user map loses the entry of that id, the indexes stay |
| Users.MemoryStore.ResolveByApiKey | users/memory.go:44-51 | a live user with these key bytes is found; stale entries lead to another user of that id or to an error; never registered keys have an error of their own |
| Users.MemoryStore.ResolveByUsername | users/memory.go:53-60 | the same for usernames |
| Users.MemoryStore.ResolveByUuid | users/memory.go:62-69 | the live user of that id |
| Users.MemoryStore.Serve | users/memory.go:23-78 | over every sequence of creates and deletes a live user stays, unchanged, until its own delete |
| Users.MemoryStore.CreateAndFind | users/memory.go:23-78 | a user whose creation succeeded is found by id, API key and username until it is deleted, whatever else is created and deleted meanwhile |
| Base64.EncodeInjective | users/memory.go:30-39 | the encoding of section 4 of RFC 4648 tells byte strings of every length apart, padding included |
| Base64.SymbolsInOrder | users/memory.go:30-39 | the 64 symbols in the order of table 1 of RFC 4648 |
| Base64.Vectors | users/memory.go:30-39 | test vectors of section 10 of RFC 4648, with each amount of padding |
| ProtoKeys.ProtoKeyFromAKey | access/redis.go:13-43 | every scalar is carried over; all slices show one and the same member of the set, one slice per member |
| ProtoKeys.ProtoKeyFromAKeyCopying | access/redis.go:33-38 | with a variable of its own per iteration the slices show exactly the set |
| ProtoKeys.AKeyFromProtoKey | access/redis.go:45-74 | every scalar is carried back and the set holds the first 64 bytes of each slice |
| ProtoKeys.RoundTrip | access/redis.go:13-74 | everything but the valid keys survives; the set shrinks to a subset, empty iff it was, and survives iff it had at most one member |
| ProtoKeys.RoundTripCopying | access/redis.go:13-74 | with a variable of its own per iteration the whole key survives; for a key without valid keys the missing set comes back empty |

## Left out

- HTTP, gin, JSON, logging, templates, environment, certificates, `cli/` and `client/`: input, output and user interface.
- The role checks and matcher calls of the handlers around the modelled steps: single tests on one field or one name.
- `RedisStore` operations, `access/sql.go` and `metadata/sql.go`: their meaning lies in clients that are not part of this
  model; nothing here is claimed for them.
- `access/access.pb.go`: generated; a record is modelled as its fields and marshalling as the identity.
- AES, SHA-512, Argon2, randomness, UUID parsing, `UserFromUserJson` and `VerifyPassword`: the block cipher is an arbitrary
  function, keys and digests are arbitrary bytes.
- `ireader.go`: nothing in the repository calls it.
- Compound store calls that overlap with deletes: the agreement of the three stores does not hold there.
- Overlapping `Create` and `Delete` calls of the user store: its three maps are changed one after the other without a
  lock, and the index statements are about calls that follow each other.
- Operating system failures other than those of `FsStores.Disk`.
- `MemoryStorage.ListBuckets`: the same loop as `MetadataStore.ListBuckets`.
- Aliasing of what callers pass by pointer or slice (metadata, encryption key bytes, users, the use counter a record
  shares with its key): stored as values, so a caller who changes them afterwards is not captured. The aliasing inside
  `ProtoKeyFromAKey` is modelled.
- The nil sends that would end the two loops of the access store: nothing sends them.
- The goroutine that blocks forever on a nil channel after a failed `Access`: it never touches the store.
