# Depot: a verified model of the storage gateway

Depot decides where uploads land and on what terms. A client asks for an upload
by place name; Depot checks the place's policy and the caller's quota, derives
the object key from the verified identity, signs a short-lived capability (or
writes the bytes itself), and records a metadata row. Many such requests, and
deletes, wipes and key management, run at once over two stores that no
transaction spans: the rows and the objects on disk.

This project models that logic in Dafny and proves what it promises, or exactly
when the promise is kept.

* **The gateway as a step machine.** `Gateway` has one step for each atomic point
  of the handlers: quota read, key derivation, signing or writing, INSERT,
  verified PUT, rename, row deletion, wipe transaction, object removal, abort,
  clock. Rows are kept by key, objects by the file that a key denotes. `Scripts`
  has what one request amounts to when nobody interleaves with it. On the machine
  stand results about every interleaving, and each has its limits drawn exactly:
  how far concurrent requests overshoot a quota (`QuotaRace`, `QuotaReached`);
  that owners cannot touch each other's rows or objects and that accepted PUTs
  were signed (`Isolation`, `Exactness`); that objects are never larger than what
  was charged (`Charges`, `Overruns`). `Server` gives the handlers in their own
  imperative form and proves that each takes exactly the machine's steps; `Answers`
  says what the upload handlers answer, when, and for how long a grant is good.
* **What a registry can sign.** `Grants` has the uploads that some caller can be
  presigned under a set of places; `Reach` where the readings of the signed
  strings lead. The conditions of the exact results are about these, and not
  about runs.
* **Keys and paths.** `Paths` has Go's path cleaning as a stack machine and as
  the directory walk it must preserve; `ObjectKeys` the driver's key checks;
  `Places` file names, derivation and policy; `Timestamps` the sortable segment.
* **Writing bytes.** `Transfers` has the limited copy and the rename, one writer
  at a time; `Writers` has any number of them interleaved, and shows that they
  refine a machine that writes at once.
* **The rate limiter.** `RateLimits` has the token buckets and their janitor;
  `Admissions` which bucket a request draws on, and what that means for addresses
  and callers over runs of requests.
* **Who is calling.** `Auth` composes the credentials; `ApiKeys` is the life of a
  key over runs.
* **The store.** `Store` has the statements on the uploads table and how its
  aggregates agree, over sums from `Sums`.
* **Encodings.** `Capabilities`, `Units` and `Timestamps`, over one decimal
  print/parse lemma in `Decimal`; `Text` splits and joins.

Objects that the code updates in place are classes (`RateLimits.Memory`,
`Transfers.Disk`, `Store.Table`, `ApiKeys.KeyDesk`, `Server.Server`); each of
their methods states its whole new state as a function of the old one, and the
lemmas are about those functions. Pure code is functions and lemmas.

## Where a promise depends on the configuration

The model follows the code, which accepts more than its descriptions assume. Each
point below is an equivalence, with the runs of the empty gateway that show the
failing side.

* The capability string separates its fields by newlines
  (internal/storage/fs/sign.go:28), presigning signs any content type
  (internal/api/upload.go:110-114), and the handler of PUTs writes at the path of
  an unvalidated key (internal/storage/fs/transfer.go:41). A signed string has a
  second reading if and only if a line of its key but the first, or a line of its
  content type but the last, is a numeral (`Capabilities.UnambiguousExactly`). A
  registry is clear when every place whose keys the driver accepts restricts its
  types to ones without such a line, and has no such line in its prefix
  (`Grants.Clear`). Over all runs, every accepted PUT was signed for exactly its
  key, size and type if and only if the registry is clear
  (`Exactness.SignedPutsExactly`); so that, isolation and the fit of dump objects
  hold together if and only if it is (`Overruns.PromisesExactly`). Isolation
  alone holds if and only if no reading of what the registry signs leads to a
  namespace other than its signer's (`Exactness.IsolatedExactly`). Where some
  place takes every content type, as the example configuration's does, an owner's
  recorded object can be replaced without the owner (`Overruns.OverwriteRun`,
  `Overruns.CatchAllOverwrites`).
* A re-upload under the `account` strategy is described as overwriting
  (internal/place/place.go:27). The row is a plain INSERT: it fails after the
  one-shot path has replaced the bytes (`Overruns.ReuploadRun`), and a capability
  outlives the row it was issued with (`Overruns.StaleCapabilityRun`). On a clear
  registry every object with a row fits it, in all runs, if and only if no
  account place whose keys are accepted admits two sizes, that is, each caps
  uploads at one byte; its types do not matter, and neither does the quota, as
  long as some account may store two bytes (`Overruns.ClearFitsExactly`,
  `Overruns.FitsUnderQuotaExactly`). `Overruns.FitsExactly` has the condition for
  every registry.
* The quota sum is 64-bit and wraps (`Quotas.CheckExactly`). The bound on the race
  holds of all runs if and only if it and one more upload of the largest size are
  within 64 bits (`QuotaReached.RaceBoundExactly`); without a size cap they are
  not.
* A presented token is described as never becoming anonymous
  (internal/auth/chain.go:10). With no token credential enabled at all, the
  authenticator that is wired in does not look at tokens:
  `Auth.NoDowngradeExactly`.
* A size limit of 2^63-1 overflows in `maxSize+1`, and every body is then stored
  as an empty object: `Transfers.AcceptedIsWholeExactly`.
* Buckets of hour windows are forgotten before they refill, so eviction shows:
  `RateLimits.EvictionUnobservableExactly`, `RateLimits.ConfiguredWindows`.
* The limiter key of a caller joins issuer and subject with "|"
  (internal/api/upload.go:61). A caller has a bucket to itself, and is never held
  up by others, if and only if no other "|" of that text splits it into two
  non-empty halves (`Admissions.CallersApartExactly`,
  `Admissions.UndisturbedExactly`); callers of one issuer are always apart.

## What is assumed

* The digest behind the account hash is any function to eight bytes. Isolation
  asks that the truncated hash tells apart the owners of the run; that follows
  from a collision-free digest and issuers without NUL
  (`Isolation.CollisionFreeByDigest`).
* HMAC (section 2 of RFC 2104) is ideal: a tag is the string it was computed for,
  and only tags that were computed can be presented. JWT verification and the API
  key hash are arbitrary functions, fixed for a run.
* DeriveKey reads a calendar time and draws six random bytes. Where
  `Scripts.Plausible` is asked, unique segments do not repeat and a one-shot
  upload is as long as its multipart header says; minted keys have new hashes
  (`ApiKeys.FreshMints`). Random bytes, temp-file numbers and failing system
  calls are inputs.
* The clock is an input that never goes back, in integer nanoseconds. The limiter
  reads it once in each call and counts credit in integer nanoseconds.
* The storage root is not "/", where the driver refuses every key
  (`ObjectKeys.DiskPathExact`); objects are named by their path below it
  (`ObjectKeys.DiskPathIsFile`).
* Strings are sequences of characters; capability tags aside, nothing depends on
  their encoding in bytes.

## Model

| member | source | states |
|---|---|---|
| `QuotaReached.RaceBoundExactly` | internal/quota/quota.go:6-9 | the documented check-then-write race, exactly: with quota limit L, uploads capped at `cap` and at most k of an owner's requests ever between check and INSERT, every run of every configuration keeps recorded plus pending bytes within B = L + (k-1)*min(L, cap), if and only if B + cap is a 64-bit number (B being one) |
| `QuotaReached.BoundReached` | internal/quota/quota.go:6-9 | the bound is reached: for every limit, cap and k, a run from the empty gateway meets all its hypotheses and ends with exactly that many bytes recorded |
| `QuotaRace.QuotaRaceBounded` | internal/api/upload.go:89-146 | the safe direction from any state within the quota and with nothing in flight; with k = 1 recorded bytes never exceed L |
| `QuotaRace.BeginBounded` | internal/quota/enforce.go:46-60 | the one step that adds to what an owner holds, a check that reads usage before others are recorded, stays within that bound whenever its own sum fits in 64 bits |
| `QuotaRace.OthersNeverAdd` | internal/api/upload.go:104-146 | every other step (derive, sign, write, INSERT, failed INSERT, PUT, delete, wipe, abort) keeps or lowers recorded plus pending bytes |
| `QuotaRace.RecordMoves` | internal/api/upload.go:261-287 | an INSERT moves exactly its bytes from pending to recorded; a refused one lets them go |
| `QuotaRace.ConfiguredCapsFit` | internal/place/place.go:98-132 | a positive global size cap puts every request of every run within the bound's hypothesis |
| `Quotas.CheckExactly` | internal/quota/enforce.go:39-60 | the check admits exactly what fits the account's own or the default limit if and only if usage plus upload does not overflow; no limit admits all, an unreadable usage is refused |
| `Exactness.SignedPutsExactly` | internal/storage/fs/transfer.go:18-39 | over all runs, under every quota, every PUT that passes the checks was signed earlier for exactly its key, size and content type and has not expired, if and only if the registry is clear |
| `Exactness.IsolatedExactly` | internal/api/file.go:41-58 | over all runs, under every quota, rows and objects of an owner stay as they are while neither the owner nor a capability signed for the owner acts, and no admin deletes an upload of the owner's or wipes the owner's account, if and only if no reading of a grant to someone reaches another's namespace |
| `Exactness.TypesDecide` | internal/place/place.go:150-165 | a clear registry isolates owners; one with a place that takes every content type does not |
| `Isolation.OwnerIsolation` | internal/api/file.go:41-58 | the safe direction, from every reachable state: a wipe or delete by an admin, too, acts only for the owners it targets; every row's key is in its owner's namespace |
| `Isolation.StepIsolated` | internal/store/sqlite/sqlite.go:97-170 | each step that is not for an owner, admins' deletes and wipes of other accounts included, leaves the owner's rows and objects alone, and those of the anonymous bucket, if readings stay home |
| `Isolation.RunKeepsInv` | internal/api/upload.go:104-146 | over every run, whatever content types are asked for: rows and pending rows lie in their own identity's namespace, every signed capability is one the registry lets its holder be presigned, and every PUT under way carries a signed string |
| `Isolation.AcceptedPutWasSigned` | internal/storage/fs/transfer.go:18-39 | in every run, a PUT that passes the checks presents a reading of a string signed earlier for an upload some place allowed, before that string's expiry, with the content type and a declared length that the reading allows |
| `Isolation.LandedPutWithinGrant` | internal/storage/fs/transfer.go:41-52 | when the body of a PUT lands, it replaces one file only, the one that a reading of a signed string names, and within that reading's size |
| `Isolation.CollisionFreeByDigest` | internal/place/derive.go:50-57 | the account hash tells owners apart if the digest tells its inputs apart and issuers hold no NUL |
| `Isolation.PreimageInjective` | internal/place/derive.go:54-57 | issuer, NUL, subject determines the pair when issuers hold no NUL |
| `Grants.GrantsClearExactly` | internal/api/upload.go:83-114 | everything some caller can be presigned has one reading if and only if every place whose keys are accepted has a prefix and a type list without such numerals |
| `Grants.KeyNumerals` | internal/place/derive.go:36-47 | a derived key has a numeral on a line after its first exactly when a segment of its prefix has one on a line of its own |
| `Grants.PlaceGrants` | internal/api/upload.go:77-114 | such a place signs every type and size that its policy lets through, for every identified caller |
| `Reach.SteeredFile` | internal/storage/fs/fs.go:128-137 | behind a line, any valid key can be continued so that it denotes the file of any other |
| `Reach.ClearTightExactly` | internal/place/derive.go:36-47 | on a clear registry no reading oversizes a dump key, and none oversizes any key exactly when no account place admits two sizes |
| `Overruns.PromisesExactly` | internal/api/upload.go:110-114 | exact signing, isolation and the fit of dump objects hold together, of all runs and whatever content types are asked for, if and only if the registry is clear |
| `Overruns.OverwriteRun` | internal/storage/fs/transfer.go:22-41 | where a place takes every content type: a run from the empty gateway in which an owner's recorded object is replaced by a body of any size, with no step for the owner: none of the owner's, none on a capability signed for the owner, no admin's delete or wipe |
| `Overruns.CatchAllOverwrites` | depot.example.toml:84-92 | this happens with every place that takes all types, between any two accounts that the hash tells apart |
| `Overruns.ExampleIsCatchAll` | depot.example.toml:90-92 | the example configuration has such a place |
| `Overruns.FitsExactly` | internal/api/upload.go:261-287 | over all runs with fresh segments, under every quota, every object that has a row (under a dump key, or under any) is no larger than the row says, if and only if no reading of what the registry signs can oversize a key that it can charge for |
| `Overruns.ClearFitsExactly` | internal/place/place.go:27-29 | on a clear registry dump objects always fit, and all objects do if and only if each account place whose keys are accepted admits one size only |
| `Overruns.FitsUnderQuotaExactly` | internal/quota/enforce.go:39-60 | that condition is the same under each quota by which some account may store two bytes |
| `Overruns.ReuploadRun` | internal/store/sqlite/sqlite.go:85-95 | a run from the empty gateway: a second one-shot upload to an account key replaces the object, and its row keeps the first one's size |
| `Overruns.StaleCapabilityRun` | internal/api/file.go:37-65 | another: an account key is presigned, deleted, presigned again, and written with the first capability |
| `Overruns.AccountPlaceOverruns` | internal/place/place.go:27-29 | both happen with every account place that admits two sizes |
| `Charges.ChargedCoversStored` | internal/api/upload.go:261-287 | the safe direction with its sum: in every reachable state recorded objects fit their rows, and an owner's together take no more than the owner's usage |
| `Charges.StepKnown` | internal/api/upload.go:110-146 | the invariant behind it, kept by every step: rows carry sizes their key was asked for, and every object is what a reading of a signed string, or a one-shot upload, let in |
| `Server.Server.Admit` | internal/api/upload.go:48-64 | per-IP limit, then authentication, then the per-user limit of identified callers, each with the endpoint's rate and bucket, as `Admissions.Enter`, the function the `Admissions` rows are about; the buckets afterwards, on every exit |
| `Admissions.NewAddressPasses` | internal/api/upload.go:48-51 | over every run of requests to both endpoints and janitor passes: the first request of an address is past the per-address limit, whatever others sent |
| `Admissions.FirstRequestsPass` | internal/api/upload.go:48-51 | over every such run: as long as an address has sent an endpoint no more requests than its limit, and always when there is none, all of them are past it |
| `Admissions.AddressBound` | internal/api/upload.go:191-193 | over any stretch of length T of any such run, one address gets at most limit*(1+E) + T/I requests past the limit of an endpoint, E counting how often it is forgotten; limit + T/I when its bucket refills in ten minutes |
| `Admissions.CallerBound` | internal/api/upload.go:59-64 | the same of the requests of one issuer and subject that get through the per-caller limit |
| `Admissions.UndisturbedExactly` | internal/api/upload.go:59-64 | an identified caller's requests up to its limit all get through, over every run and whatever others send, if and only if no other bar splits the text issuer, bar, subject into non-empty halves; the failing side is a run in which another caller uses up the bucket |
| `Admissions.FirstCallerRequestsPass` | internal/api/upload.go:198-202 | the safe direction, at either endpoint, and without any limit |
| `Admissions.CallersApartExactly` | internal/api/upload.go:61 | under the same condition, and only then, no other issuer and subject share the bucket |
| `Admissions.SameIssuerApart` | internal/api/upload.go:61 | two callers of one issuer never share a bucket |
| `Server.Server.CheckUpload` | internal/api/upload.go:77-102 | resolve, validate and quota check, in this order, as `Answers.PlaceFor`, the function under `Answers.RefusalsExactly` |
| `Server.Server.Grant` | internal/api/upload.go:110-146 | presigning and recording take the machine's sign and record steps; granted exactly for a valid key with no row, with a capability of 900 seconds for that key, size and type; the row that is then inserted, field by field |
| `Server.Server.StoreUpload` | internal/api/upload.go:261-287 | writing and recording take the machine's write and record steps; which of stored, too big and internal error is answered, and the row and the object that a stored upload leaves |
| `Server.Server.HandlePresign` | internal/api/upload.go:42-156 | who is throttled or turned away unauthenticated, changing only buckets; past that, the whole handler takes exactly the machine's steps for its request, whichever early exit it leaves by, and answers as `Answers.PresignAnswer`; granted exactly when a row was inserted, which is the caller's, of the requested size and now |
| `Server.Server.HandleUpload` | internal/api/upload.go:178-302 | the same for the one-shot handler: stored exactly when a row was inserted, and then row, object and answer have the size of what was written |
| `Answers.RefusalsExactly` | internal/api/upload.go:77-108 | both handlers refuse exactly the requests that the definitions, the quota and the bytes the owner holds rule out, each with its own reason in the documented order; every other request gets a key, which the driver takes if and only if its place's prefix is relative and does not climb |
| `Answers.AnswersExactly` | internal/api/upload.go:104-156 | the whole answer of both handlers for every request: refused as above, else an internal error for a key outside the root or one with a row, too big or an internal error for what the body does, and granted or stored otherwise |
| `Answers.GrantLandsExactly` | internal/api/upload.go:17 | a presign granted at time t, in plain numbers: whatever happens in between, a PUT with the query it returned, its type, a covered length and a whole body within the size lands at that key exactly while now <= t plus 900 seconds, cut to the whole second; afterwards it is refused as gone |
| `Server.Server.HandlePut` | internal/storage/fs/transfer.go:18-54 | a proxied PUT takes exactly the machine's two steps; it changes the file its key denotes or nothing; which answer each failed check and each body gets |
| `Server.Server.HandleDelete` | internal/api/file.go:15-65 | row first, then object: removed exactly for the row's own account and issuer or an admin, one answer for absent and foreign rows, success even when the object stays behind |
| `Server.Server.WipeUploads` | internal/api/file.go:101-117 | exactly the rows of that account, and of that issuer when one is named, go and are counted, then each of their objects whose deletion succeeds, and nothing else; takes exactly the machine's steps |
| `Server.Server.HandleWipeOwn` | internal/api/file.go:76-99 | refused for anonymous callers; otherwise exactly the rows of the caller's account and issuer go, with their objects, and the caller's usage is zero |
| `Server.Server.HandleWipeAny` | internal/api/admin.go:91-111 | only for admins by login or service key, and never for an empty account; exactly the rows of that account, and of that issuer when one is named, go, with their objects; every other row and object stays |
| `Server.WipeLeavesNoObject` | internal/api/file.go:106-117 | from any reachable state, when no object deletion fails, no wiped key keeps its object |
| `Scripts.AdmittedExactly` | internal/api/upload.go:72-102 | which requests get past resolve, validate and quota, in terms of the definitions a registry was built from: default place, size cap or global cap, types, identity for account keys, quota |
| `Scripts.PutRun` | internal/storage/fs/transfer.go:18-54 | the two machine steps of an undisturbed PUT amount to: admitted, tag computed, key that denotes a file, body within limits, then that one file replaced, else nothing |
| `Store.Table.RecordUpload` | internal/store/sqlite/sqlite.go:85-95 | a plain INSERT: refused when the key has a row, and then nothing changes |
| `Store.Table.DeleteUpload` | internal/store/sqlite/sqlite.go:97-107 | removes the row exactly when it exists and is owned by that account and issuer; otherwise not found, nothing changes |
| `Store.Table.DeleteUploadAny` | internal/store/sqlite/sqlite.go:109-117 | removes the row whoever owns it; not found exactly when there is none |
| `Store.Table.WipeUploads` | internal/store/sqlite/sqlite.go:119-170 | refuses the empty account; otherwise the returned keys are duplicate-free, and are returned and removed exactly when their row has that account and, when one is named, that issuer |
| `Store.Table.ReadUsage` | internal/store/sqlite/sqlite.go:333-343 | the sum of the owner's file sizes, an error when it leaves 64 bits |
| `Store.Table.CountUploads` | internal/store/sqlite/sqlite.go:184-191 | the total of a listing is the number of rows the filter selects |
| `Store.Table.Stats` | internal/store/sqlite/sqlite.go:221-237 | files, bytes and images of exactly the rows the same filter selects, so its file count is the listing's total |
| `Store.Table.ListUploaders` | internal/store/sqlite/sqlite.go:239-280 | one entry for each distinct owner, with that owner's file count and exactly the bytes Usage reports, or an error when one owner's bytes leave 64 bits; the total is the number of owners |
| `Store.UploadersAddUpToStats` | internal/store/sqlite/sqlite.go:224-280 | per-uploader files and bytes add up to unfiltered Stats, for every table |
| `Store.OwnRowsExactly` | internal/api/files.go:45-57 | the self listing selects exactly the caller's rows, for every table, if and only if account and issuer are non-empty, since filters drop empty fields; the self wipe if and only if the issuer is |
| `Store.FiltersIntersect` | internal/store/sqlite/sqlite.go:305-331 | a filter selects what each of its fields selects alone, which is the rows with that very value, and the empty filter everything |
| `Store.WipeConserves` | internal/store/sqlite/sqlite.go:124-170 | rows, bytes or any other weight before a wipe are those of the remaining and the removed rows; other rows are untouched; an issuer-scoped wipe leaves usage 0 |
| `Places.DerivedKeysEqualExactly` | internal/place/derive.go:24-48 | for arbitrary prefixes, two derived keys are equal if and only if strategy, cleaned prefix, owner segment, file name and (dump) unique segment are; a dump key is never an account key |
| `Places.DeriveShape` | internal/place/derive.go:36-47 | a derived key is the cleaned prefix followed by owner, unique segment (dump) and file name, none of them eaten by cleaning |
| `Places.KeyNamesItsOwner` | internal/place/derive.go:21-32 | owner, strategy and unique segment can be read off the key alone, whatever prefixes are configured: owners' namespaces are disjoint |
| `Places.DerivedKeyValidExactly` | internal/storage/fs/fs.go:142-152 | a derived key passes validateKey if and only if its place's prefix is relative and does not climb |
| `Places.DerivedKeyOneLine` | internal/place/derive.go:36-43 | no newline enters a key except through the configured prefix |
| `Places.AnonymousApart` | internal/place/derive.go:13-16 | the anonymous owner segment is "_anonymous" and nobody's account hash |
| `Places.SanitizeFilename` | internal/place/derive.go:72-95 | the loop over characters computes `Sanitize`, the function the next four rows are about |
| `Places.SanitizeSafe` | internal/place/derive.go:72-95 | whatever the client sends: 1 to 128 allowed characters, no trailing dot, a leading one only in a name cut to 128; always an ordinary path segment |
| `Places.SanitizeMaps` | internal/place/derive.go:76-94 | with no separator and no outer dot, letters, digits, dots, dashes and underscores stay, others become underscores, and the last 128 are kept |
| `Places.SanitizeDropsDirectories` | internal/place/derive.go:73-74 | anything up to a slash or backslash is dropped |
| `Places.SanitizeDropsDots` | internal/place/derive.go:86-90 | outer dots do not matter; a name of nothing else is "file" |
| `Places.New` | internal/place/place.go:79-96 | a registry is built exactly when every strategy is known and the default is configured, and holds the built place of each definition; which of the two errors is given otherwise |
| `Places.PipelineTotal` | internal/place/derive.go:24-48 | on any registry that New builds, an accepted request fails in DeriveKey only when a dump key gets no randomness |
| `Paths.CleanKeepsMeaning` | internal/storage/fs/fs.go:128-137 | cleaning preserves meaning: from any directory the cleaned segments lead where the path led |
| `Paths.FoldCleaned` | internal/storage/fs/fs.go:128-137 | what cleaning leaves: climbing segments first, none in a rooted path, then ordinary ones |
| `Paths.CleanIdempotent` | internal/storage/fs/fs.go:128-137 | cleaning is done after one pass and never gives the empty path |
| `Paths.JoinKeepsTail` | internal/place/derive.go:36-47 | joining any prefix with ordinary segments appends exactly those to the cleaned prefix |
| `Paths.RenderInjective` | internal/place/derive.go:36-47 | a cleaned, non-empty path determines its segments and whether it is rooted |
| `ObjectKeys.ValidateKey` | internal/storage/fs/fs.go:140-152 | the loop accepts exactly the relative keys of ordinary segments |
| `ObjectKeys.DiskPathExact` | internal/storage/fs/fs.go:125-138 | containment: for every key string, diskPath fails or gives root, slash, ordinary segments; it fails exactly for root "/" and keys that clean to nothing |
| `ObjectKeys.DiskPathFaithful` | internal/storage/fs/fs.go:125-138 | on valid keys it is exactly root, slash, key |
| `ObjectKeys.DiskPathIsFile` | internal/storage/fs/fs.go:125-138 | below a root other than "/", diskPath of any key is root, slash, and the file that the key denotes in the model, or an error when it denotes none |
| `ObjectKeys.DistinctKeysDistinctFiles` | internal/storage/fs/fs.go:125-152 | distinct valid keys have distinct files |
| `Timestamps.SegmentsSortByTime` | internal/place/derive.go:59-68 | for years 0 to 9999, an earlier millisecond gives a lexicographically smaller unique segment, whatever the random suffixes |
| `Timestamps.EarlierInstant` | internal/place/derive.go:67 | calendar order, field by field, is the order of instants, leap years included |
| `Timestamps.DaysGregorian` | internal/place/derive.go:67 | the days before each year are those of the Gregorian calendar |
| `Timestamps.SegmentExample` | internal/place/derive.go:59-68 | the layout of a unique segment, by example |
| `Transfers.Disk.WriteObject` | internal/storage/fs/transfer.go:66-104 | a write succeeds exactly when no system call fails and the copy is within the limit, then puts the outcome's bytes at the key's path; which error it is otherwise, and then no file changes |
| `Transfers.Disk.CopyBody` | internal/storage/fs/transfer.go:87-91 | the chunked copy, whatever the chunks, writes the body up to one byte past the limit, and fails exactly when the reader does before that |
| `Transfers.Disk.DeleteObject` | internal/storage/fs/fs.go:105-123 | removes that key's file and no other; a missing file is no error, an invalid key and a failing removal are |
| `Transfers.AcceptedIsWholeExactly` | internal/storage/fs/transfer.go:87-98 | every accepted write stores the reader's whole body if and only if the limit's +1 does not overflow |
| `Transfers.AcceptedExactly` | internal/storage/fs/transfer.go:70-104 | for those limits: too long is refused (even when the reader fails further on), then a failing reader, and everything else is stored whole |
| `Transfers.TempIsNoObject` | internal/storage/fs/transfer.go:79-83 | no temp file has an object's name, whatever its number |
| `Transfers.TempBesideObject` | internal/storage/fs/transfer.go:79-83 | a temp file lies in its destination's directory |
| `Transfers.DerivedObjectPath` | internal/storage/fs/fs.go:125-138 | every valid derived key is stored at an object path |
| `Writers.WholeOrAbsent` | internal/storage/fs/transfer.go:66-104 | under every interleaving of writers, deletes, failures and crashes, what stands at a path that no temp file can have is the whole body of one accepted write to it, within that write's limit |
| `Writers.RunRefines` | internal/storage/fs/transfer.go:66-104 | under every interleaving the objects are those of a machine that writes each body at once, when its writer renames, and deletes at once |
| `Writers.EffectsAreOutcomes` | internal/storage/fs/transfer.go:87-104 | and each of those writes is the outcome of the whole body that was sent, as in the gateway's single steps |
| `Writers.OnlyCloseAndRemoveShow` | internal/storage/fs/transfer.go:94-103 | only a rename whose body fits, or a delete of that very path, changes an object |
| `Writers.SoloWriteIsOutcome` | internal/storage/fs/transfer.go:70-104 | an undisturbed writer of the interleaved machine, with a reader that may fail, does what `Transfers.Outcome` says, and leaves no temp file |
| `Capabilities.SignThenVerify` | internal/storage/fs/sign.go:32-64 | signing then verifying gives the capability back, its expiry cut to the second, exactly until that second has passed |
| `Capabilities.VerifiedCarriesTag` | internal/storage/fs/sign.go:45-64 | what verification accepts carries the tag of its own canonical string and has not expired |
| `Capabilities.SameCanonicalExactly` | internal/storage/fs/sign.go:26-30 | two capabilities share a canonical string exactly when they expire in one second and share the text before it |
| `Capabilities.ReadingsExactly` | internal/storage/fs/sign.go:45-64 | all readings of what is signed: one for each line of the text, but the first and the last, that is a numeral |
| `Capabilities.UnambiguousExactly` | internal/storage/fs/sign.go:26-64 | what is signed stands for no other grant, under any key, if and only if no line of its key but the first and no line of its content type but the last is a numeral |
| `Capabilities.CanonicalInjective` | internal/storage/fs/sign.go:26-30 | with newline-free keys the canonical string determines the capability |
| `Capabilities.CanonicalCollision` | internal/storage/fs/sign.go:28 | without that it does not: for every key, size, text and other size, a content type whose signed string also reads as a grant for a longer key |
| `Capabilities.GrantAdmitsExactly` | internal/storage/fs/transfer.go:22-39 | a signed grant is admitted exactly until its second has passed, for its content type (any, if none was named) and for declared lengths it covers |
| `Capabilities.PutRefusedExactly` | internal/storage/fs/transfer.go:22-39 | each refusal with its exact condition and in its order, for every query: bad numbers and foreign tags are forbidden, then expiry, type and declared length decide |
| `Decimal.ParseFormat` | internal/storage/fs/sign.go:33-55 | printing then parsing a 64-bit integer is the identity |
| `Decimal.FormatInjective` | internal/storage/fs/sign.go:26-30 | distinct integers print differently |
| `Decimal.ParseInt64Exactly` | internal/storage/fs/sign.go:46-53 | signs and leading zeros are accepted, and a number is refused exactly when it leaves 64 bits |
| `Decimal.ParseInt64Refuses` | internal/storage/fs/sign.go:46-53 | so is everything without digits, or with anything else behind the sign |
| `Decimal.HexDigits` | internal/place/derive.go:54-57 | two lower-case digits for each byte, the high one first |
| `RateLimits.Memory.Allow` | internal/ratelimit/memory.go:37-54 | one call's answer and the whole table after it, as functions of the table before it |
| `RateLimits.Memory.Sweep` | internal/ratelimit/memory.go:59-76 | a janitor pass removes exactly the buckets idle for longer than ten minutes |
| `RateLimits.EvictionUnobservableExactly` | internal/ratelimit/memory.go:39-76 | over every run of calls and ticks, evicting and never evicting give the same answers if and only if every rate has limit * (window/limit) <= idleTTL + 1 ns |
| `RateLimits.RunUnobservable` | internal/ratelimit/memory.go:39-76 | from any pair of tables that differ only in forgotten full buckets, all later answers are the same |
| `RateLimits.WitnessDiffers` | internal/ratelimit/memory.go:66-72 | for every rate that refills too slowly, a run whose answers differ: burst, idle, burst |
| `RateLimits.ConfiguredWindows` | internal/config/units.go:96-105 | second and minute windows always refill in time, hour windows never (up to 10^12 events) |
| `RateLimits.AdmissionBound` | internal/ratelimit/memory.go:47-53 | over any stretch of length T of any run, a key admits at most limit*(1+E) + T/I events, E counting its evictions; limit + T/I when its bucket refills in time |
| `RateLimits.SpacedNeverDenied` | internal/ratelimit/memory.go:37-54 | calls at least one interval apart are all admitted, whatever other keys and the janitor do |
| `RateLimits.FreshBurst` | internal/ratelimit/memory.go:47-53 | a key not in the table is admitted its full limit at once |
| `RateLimits.FirstCallsAdmitted` | internal/ratelimit/memory.go:37-54 | over every run, the first `limit` calls of a key are admitted however they are spread, and so is any number that its bucket has credit for |
| `RateLimits.UnconfiguredUnlimited` | internal/ratelimit/memory.go:40-42 | an unconfigured rate admits everything and keeps no bucket |
| `Auth.EveryIdentityWellFormed` | cmd/depot/main.go:155-198 | for every configuration: anonymous exactly by method, admin only by OIDC or service key, non-anonymous identities have subject and issuer |
| `Auth.NoDowngradeExactly` | internal/auth/chain.go:53-65 | a presented token never becomes anonymous if and only if some token credential is enabled |
| `Auth.AnonymousExactly` | internal/auth/chain.go:61-64 | who is anonymous, and who is told that a credential is missing |
| `Auth.AdminExactly` | internal/auth/servicekey.go:38-63 | admins are exactly the bearers of the service key and of a good token whose configured claim is a granting string |
| `Auth.ServiceKeyExactly` | internal/auth/servicekey.go:38-63 | the service identity is resolved exactly for the configured secret; Depot refuses to start exactly when it is enabled and empty |
| `Auth.LoginExactly` | internal/auth/oidc.go:78-146 | logins are exactly the verified tokens with a subject, between issue and required expiry within 30 seconds (`iat` and `exp`, sections 4.1.6 and 4.1.4 of RFC 7519), and have the token's subject and issuer |
| `Auth.KeyExactly` | internal/auth/apikey.go:63-87 | API keys authenticate exactly while stored and unexpired, as their owner |
| `ApiKeys.RunsAuthenticateFaithfully` | internal/auth/apikey.go:69-86 | in every reachable state, a key that authenticates yields its minter's identity and is not past the whole second of its expiry |
| `ApiKeys.StoredKeyWasMinted` | internal/api/keys.go:56-125 | in every run, a stored key was minted by an earlier login, which is the owner it has, with that request's id and label and the expiry it asked for, cut to the second |
| `ApiKeys.MintedKeyLivesExactly` | internal/auth/apikey.go:63-87 | the whole life of a key over every run, from its mint's own arguments: its bearer is its minter until that very login revokes it or the second that was asked for is over, and is refused from then on |
| `ApiKeys.LostKeyWasRevoked` | internal/api/keys.go:155-182 | in every run, a key that goes was revoked by a login that owned it; nobody else's step removes it |
| `ApiKeys.KeysChangeOnlyByOwner` | internal/api/keys.go:36-125 | the step behind both: keys appear only by an OIDC caller's mint and disappear only by that owner's revoke; in between a grant does not change |
| `ApiKeys.DeadForever` | internal/store/sqlite/sqlite.go:385-407 | once revoked or expired, no later step of any run authenticates with the key |
| `ApiKeys.RevokeKills` | internal/api/keys.go:155-182 | a revoke kills the key at once exactly when its owner asks (or it had expired) |
| `ApiKeys.KeyDesk.HandleCreateKey` | internal/api/keys.go:56-125 | the mint handler takes the machine's step; who is refused and why; done exactly when the row was inserted, whose fields are spelled out |
| `ApiKeys.KeyDesk.HandleRevokeKey` | internal/api/keys.go:155-182 | the revoke handler takes the machine's step; a key goes exactly when it has that id and the caller's account and issuer; done exactly when one went |
| `ApiKeys.KeyDesk.AuthenticateRequest` | internal/auth/apikey.go:63-87 | authentication resolves against the current table and changes nothing but the last use of the key it accepted, which is now |
| `ApiKeys.KeyDesk.InsertKey` | internal/store/sqlite/sqlite.go:345-360 | refused exactly when the hash or the id is taken, and then nothing changes |
| `Units.SizeRoundTripExactly` | internal/config/units.go:24-70 | parsing a printed size gives it back if and only if the printed count has at most 53 significant bits |
| `Units.SizesUpTo53Bits` | internal/config/units.go:24-70 | so every size up to 2^53 round-trips, and 2^53 + 1 does not |
| `Units.ParseSizeMeans` | internal/config/units.go:24-54 | a count with a suffix, in any mix of cases, or none, is that many times 2^40, 2^30, 2^20, 2^10 or 1 |
| `Units.SpaceAround` | internal/config/units.go:24-28 | space around a size does not matter |
| `Units.SizeAlphabet` | internal/config/units.go:24-54 | nothing but digits, suffix letters and Unicode white space occurs in a size |
| `Units.Float64Nearest` | internal/config/units.go:46-53 | the count is rounded to a nearest float64, ties to even, and is kept exactly when its last place divides it |
| `Units.PrintsLargestUnit` | internal/config/units.go:57-70 | a size is printed in the largest unit that divides it |
| `Units.RateRoundTripExactly` | internal/config/units.go:81-127 | a rate with a second, minute or hour window round-trips if and only if its count is positive |
| `Units.ParseRateMeans` | internal/config/units.go:81-110 | a positive count over each of the eight unit words, in any mix of cases, is that many events in 1, 60 or 3600 seconds |

## Left out

- HTTP framing, JSON, multipart parsing and its coarse body limit, bearer-header parsing, status codes, CORS, TOML, logging, metrics: plumbing with no invariant. Handlers take the parsed request; delete and wipe handlers take the resolved identity.
- How the caller's address is found behind trusted proxies: handlers take the address.
- Seams that are not wired (no store, driver or limiter): every one is present in the model.
- Failing SQL statements other than constraint violations and SUM overflow: in the step machine an `Abort` can end a request at any point, which covers what they leave behind.
- Sort order and paging of listings, content types and key listings. LIKE is an arbitrary predicate (`Store.Collation`).
- Scopes and creation times of API keys, and parsing of expiry dates: they take part in no decision.
- Rotation of the OIDC provider's keys: `verify` is one function for a run. Discovery failures stop Depot before it serves.
- The s3, postgres and redis backends.
- Transfers.Disk.WriteObject: directories are not modelled; whether MkdirAll and CreateTemp succeed is an input, so a pruned directory shows as a failure. The number CreateTemp draws is one not in use.
- Transfers.Disk.DeleteObject: does not model the best-effort pruning of the parent directory, which removes no file.
- Writers.WholeOrAbsent: leaves out destinations whose last segment has the shape of a temp name, which only a PUT to a key that was never derived could name. The deferred removal after a rename is taken to find nothing; it would take CreateTemp drawing the same 64-bit number again in between.
- Isolation.OwnerIsolation: is about owners whose truncated hashes differ.
- Overruns.FitsExactly: is about runs in which unique segments do not repeat and one-shot uploads are as long as their header says.
- QuotaReached.RaceBoundExactly: is about bounds that are themselves 64-bit numbers.
- Capabilities.VerifiedCarriesTag: times are unbounded integers; `time.Unix` wraps for expiries near 2^63 seconds, which are never signed.
- RateLimits.Memory.Allow: does not model the floating-point tokens of golang.org/x/time/rate, nor a second clock read within one call.
- Units.SizeRoundTripExactly: parsing is modelled for whole numbers; fractions, exponents, and products beyond 64 bits are not, and results are values rather than assignments through a receiver.
- Units.RateRoundTripExactly: printing is modelled for the windows a configuration can name.
