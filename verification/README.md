# Verification of the artifact store and the private Docker registry

This project models the content-addressed artifact store of brm-server and the registry write path on top
of it, and proves what the two promise. `dafny verify dfyconfig.toml` checks all of it.

The storage keeps five families of files in step: blobs, metadata, reference lookups, reference records
and trash. Around it lie a reader/writer lock per hash, a layer that stages content while its hash is
computed, and the private registry with its upload sessions, its blobs by digest, its manifests by tag and
its router. The model follows that structure:

| file | what it models |
|---|---|
| `Digests.dfy` | bytes, and SHA-256 (FIPS 180-4) as an injective function, with a proof that such functions exist |
| `Layout.dfy` | the path functions of the storage and of the lock files |
| `Ranges.dfy` | byte ranges in 64-bit arithmetic: what a read delivers and what an update writes |
| `Store.dfy`, `StoreLaws.dfy` | the storage as independent maps of slots; its invariants over every sequence of operations |
| `StoreAnswers.dfy` | what a caller of the storage may rely on: which calls succeed, what they answer, what is read back, what else stays |
| `FileStorage.dfy` | the class `SimpleFileStorage` on a map from paths to contents, each method proved equal to its operation in `Store.dfy` |
| `Locks.dfy`, `LockedRuns.dfy` | shared and exclusive locks; any number of clients of `ConcurrentArtifactStorage`, interleaved file-system step by file-system step |
| `LockedProgress.dfy` | the same clients get on: calls whose lock is free complete, readers share |
| `ConcurrentStorage.dfy` | the class `ConcurrentArtifactStorage` and the stream that gives its lock back |
| `Publishing.dfy` | what the two staging protocols share |
| `HashComputing.dfy`, `HashComputingRuns.dfy` | the class `HashComputingArtifactStorage`, and any number of concurrent creates of unknown hash |
| `ReferenceKeys.dfy`, `Registry.dfy`, `Uploads.dfy` | reference keys, the registry's storage sequences, chunked uploads |
| `RegistryAnswers.dfy` | what a client of the registry may rely on: what is served, refused and recorded |
| `RegistryService.dfy` | the classes `UploadSession` and `DockerRegistryPrivateService`, proved against the two files above |
| `RegistryRuns.dfy`, `TagMap.dfy` | concurrent blob and manifest uploads; the registry as a map from tags to manifests |
| `SessionRuns.dfy` | upload sessions under concurrency, with both levels of mutexes |
| `SessionCalls.dfy` | the same machine one request at a time, and that every request can return |
| `Handlers.dfy` | dispatch, the handlers' parsers, and the locations they print |
| `RouteLaws.dfy` | which texts take which branch, in terms of the texts alone |

How the outside world is represented: a file system is a map from paths to contents with atomic renames, in
which the directories on whose existence an outcome depends (metaref/ab and .trash/metaref/ab/cdef) are
entries of their own, and a directory rename fails when its target exists; a digest is a parameter of which only `Sha256.Ideal` is assumed (hexadecimal output, injective); UUIDs and
temporary file names are parameters that the protocols require to be fresh; clocks are parameters; a
stream is the bytes it delivers and whether it then fails. Concurrency is a machine whose schedule, a list
of events, is universally quantified.

## What turned out not to hold

Where the code does less than its comments say, the code is kept as it is, the exact condition is proved, and
a lemma gives an input:

- Deleting the last reference renames the two-character shard directory of the records, so the records of
  other artifacts in the shard go with it while their lookups stay. `StoreLaws.DeleteSparesOtherRecords`
  says exactly when, `StoreLaws.IndexStep` which operations keep the reference index;
  `StoreLaws.DeleteCanLoseARecord` is the case of "abc" and "abd".
- That rename fails once the hash has a trash directory. An artifact that was deleted, created again with a
  reference and deleted again goes to the trash, but the call returns an error and the shard directory
  stays: `StoreLaws.DeleteFailsExactlyWhenTrashedBefore`, `StoreLaws.SecondDeleteFails`;
  `StoreLaws.RecreatedArtifactIsNotDeletedCleanly` is a case.
- After a retag the old artifact keeps its record, and deleting it takes the lookup that now names the new
  one: `StoreLaws.DeleteTakesLookups`; `StoreLaws.DeleteCanTakeANewerLookup` is a case.
- A manifest whose bytes are also uploaded as a blob can no longer be read by tag, because the moved
  metadata names the staging key: `TagMap.TagsReturnTheLastManifest`; `TagMap.ManifestAlsoPutAsBlobIsLost` is
  a case.
- Content that is there cannot be tagged by a create that names only a reference: the call reads the metadata
  through that reference, so it fails for a new one, and for one in use it answers with, and judges the size by,
  the artifact that the reference named before: `StoreAnswers.CreateOfExistingByReference`;
  `StoreAnswers.ExistingContentCannotBeTagged` is a case.
- The limits on tags, given in characters in the comments, count bytes: `StoreAnswers.TagLimitsCountBytes`;
  `StoreAnswers.ShortTagIsTooLong` is a case.
- A chunk whose stream fails leaves its bytes in the session's file without advancing the offset:
  `Uploads.OffsetIsFileLength`; `Uploads.FailedChunkLeavesAByte` is a case.
- The range that a read reports leaves the file exactly when offset plus length overflows 64 bits:
  `Ranges.ReadRangeIsExact`; `Ranges.OverflowIsReported` is a case. The bytes delivered are the right ones
  always.
- The file of a two-character hash is the shard directory of the longer ones:
  `Layout.BlobPathsNestExactlyAtShards`; `Layout.ShardIsAFile` is a case.
- The location of a finished upload leads to its blob exactly when the repository name, with "/blobs" after
  it, does not itself hold "/blobs/": `Handlers.BlobLocationsLeadToBlobs`; `Handlers.NestedBlobsGoAstray` is a
  case.

## Model

| member | source | states |
|---|---|---|
| Digests.IdealDigestExists | internal/storage/hash_computing_artifact_storage.go:183-193 | What the proofs assume of the digest can be met, so no result holds for want of a digest. |
| Layout.NoPathIsAncestorOfAnother | internal/storage/simple_file_storage.go:46-104 | For hashes of three or more letters, digits and dashes: blob, metadata, lookup, record and trash paths are injective with disjoint ranges, and nothing lies below a file. |
| Layout.PathsSpelledOut | internal/storage/simple_file_storage.go:46-104 | Where each kind of file and directory lies, name by name, without filepath.Join. |
| Layout.PathStringsDiffer | internal/storage/simple_file_storage.go:46-104 | The same for the path strings: different files print differently. |
| Layout.BlobPathsNestExactlyAtShards | internal/storage/simple_file_storage.go:46-59 | Over all names of letters, digits and dashes, one blob's path lies above another's if and only if it is the two-character shard of the other. |
| Layout.ShardIsAFile | internal/storage/simple_file_storage.go:46-59 | A concrete case: the file of "abc" would lie below the file of "ab". |
| Layout.LockPathSpellsTheHash | internal/storage/concurrent_artifact_storage.go:77-84 | Below the lock directory the names of a lock file spell the hash and ".lock", in one name for a hash shorter than two and in two otherwise. |
| Layout.LockPathsArePrefixFree | internal/storage/concurrent_artifact_storage.go:77-84 | One lock file per hash, none above another, for hashes of any length. |
| Layout.LockFilesAreOutsideTheStore | internal/storage/concurrent_artifact_storage.go:77-84 | Lock files never coincide with a file of the storage, nor lie above or below one. |
| Ranges.ReadRangeIsExact | internal/storage/simple_file_storage.go:442-497 | The reported range is in bounds if and only if offset + length does not overflow; asking for it again gives it again; the stream is the slice it names. |
| Ranges.ReadDeliversWhatIsAsked | internal/storage/simple_file_storage.go:463-489 | From the request alone: the bytes from the offset, or the start when it is negative, as many as are asked for and there, all the rest for -1 and none for other negative lengths; the reported range starts where they do and, short of an overflow, is as long as they are. |
| Ranges.OverflowIsReported | internal/storage/simple_file_storage.go:463-476 | A concrete overflow: one byte at the largest offset is reported as asked for, outside every file, and nothing is delivered. |
| Ranges.TiledReadsConcatenate | internal/storage/simple_file_storage.go:442-497 | Reading any tiling of a blob, tile by tile, yields the whole blob. |
| Ranges.UpdateThenRead | internal/storage/simple_file_storage.go:500-526 | A read of the updated range returns what was copied; bytes before and after are unchanged; a gap is zeros. |
| Ranges.WritesCommute | internal/storage/simple_file_storage.go:500-526 | Two writes inside the blob commute if and only if they agree where they overlap. |
| Ranges.WritesInAnyOrder | internal/storage/simple_file_storage.go:500-526 | Writes inside a blob, overlapping or not, produce a target in every order if and only if each agrees with the target and together they cover what differs. |
| Store.CreateNet | internal/storage/simple_file_storage.go:282-439 | The list of file-system steps of a create amounts, case by case, to writing blob, metadata, lookup and record, or to the named part of that. |
| StoreAnswers.TargetAnswers | internal/storage/simple_file_storage.go:283-311 | Which hash a create is about, if and only if, and which of the three refusals otherwise. |
| StoreAnswers.CreatedIsReadBack | internal/storage/simple_file_storage.go:364-439 | A new artifact is read back, by hash and by its reference, with the bytes of the stream, their number and the given or present time; its reference is recorded unless a tag is too long, which is the one error; nothing else changes. |
| StoreAnswers.BrokenCreateAnswers | internal/storage/simple_file_storage.go:283-399 | The error of a refused or broken create, and the one file that a broken stream leaves. |
| StoreAnswers.CreateOfExistingAnswers | internal/storage/simple_file_storage.go:325-363 | A create by hash of what is there answers with its metadata, made from the file if there is none, or with a conflict, attaches only the reference, and never looks at the stream. |
| StoreAnswers.CreateOfExistingByReference | internal/storage/simple_file_storage.go:325-363 | The same by reference alone goes by the metadata of the artifact that the reference named before, and fails if there is none. |
| StoreAnswers.ExistingContentCannotBeTagged | internal/storage/simple_file_storage.go:325-331 | Concrete stores in which that fails, answers for another artifact, and reports a conflict with another's length. |
| StoreAnswers.TagLimitsCountBytes | internal/storage/simple_file_storage.go:159-170 | The limits are on bytes; for tags of ASCII they are the limits on characters of the comments. |
| StoreAnswers.ShortTagIsTooLong | internal/storage/simple_file_storage.go:159-170 | A concrete key of 65 letters that is refused. |
| StoreAnswers.ReadAnswers | internal/storage/simple_file_storage.go:442-497 | A read finds the artifact or says it is absent, and delivers and reports as above. |
| StoreAnswers.UpdateAnswers | internal/storage/simple_file_storage.go:500-526 | An update puts what its stream delivers, up to a positive length, at the offset, byte by byte, succeeds if and only if that length or the end of the stream is reached, and changes nothing but the bytes. |
| StoreAnswers.UpdateReferenceAnswers | internal/storage/simple_file_storage.go:658-676 | Description and tags become the given ones and are read back, name, registry and time stay; it succeeds if and only if the record is readable and no tag too long; nothing else changes. |
| StoreAnswers.MoveAnswers | internal/storage/simple_file_storage.go:709-741 | Bytes and metadata arrive in place of the target's, the source is gone, metadata of the target stays when the source has none, nothing else changes. |
| StoreLaws.IndexStep | internal/storage/simple_file_storage.go:282-439 | Each operation keeps "a lookup implies a live blob, metadata and a record" if and only if a condition on the state before it holds. |
| StoreLaws.IndexHoldsThroughout | internal/storage/simple_file_storage.go:282-439 | Over every sequence of operations the index holds in every state if and only if each operation met its condition; records are filed under their own registry and name always. |
| StoreLaws.FirstWriterWins | internal/storage/simple_file_storage.go:313-363 | After the create that writes an artifact, every sequence of hash-identified creates leaves its bytes, length and creation time, and every later verdict follows from them. |
| StoreLaws.CreateOfExisting | internal/storage/simple_file_storage.go:313-363 | A create of what is there changes at most the lookup and record it names and the directory of the record, and nothing on a conflict. |
| StoreLaws.InterruptedCreatesLeaveNothingDangling | internal/storage/simple_file_storage.go:349-436 | However many creates are cut off after whichever of their steps, no lookup names a missing blob and no metadata is without its blob. |
| StoreLaws.DeleteIsReferenceCounted | internal/storage/simple_file_storage.go:531-604 | After a successful delete the blob is live if and only if a record remains; otherwise it is in the trash byte for byte; other hashes keep blob and metadata. |
| StoreAnswers.DeleteByReferenceDropsOne | internal/storage/simple_file_storage.go:531-604 | After a delete by reference its lookup and record are gone; the artifact is in the trash, with its metadata, if and only if it had no other record; else everything else stays; no other lookup changes. |
| StoreAnswers.DeleteRefuses | internal/storage/simple_file_storage.go:531-558 | A delete that does not find its artifact and reference changes nothing, and which error it gives when. |
| StoreLaws.DeleteByHashDropsAll | internal/storage/simple_file_storage.go:560-604 | A delete by hash removes exactly the readable records of the hash and exactly their lookups, whichever artifact these name by now; the blob goes if and only if every record is readable. |
| StoreLaws.DeleteTakesLookups | internal/storage/simple_file_storage.go:531-604 | A delete removes a lookup that names another artifact if and only if it drops the reference of that key. |
| StoreLaws.DeleteCanTakeANewerLookup | internal/storage/simple_file_storage.go:569-592 | A concrete retag after which deleting the old artifact takes the reference of the new one. |
| StoreLaws.DeleteFailsExactlyWhenTrashedBefore | internal/storage/simple_file_storage.go:255-276 | A delete that finds its artifact and reference fails if and only if it drops the last record, there is a shard directory, and the hash has a trash directory already. |
| StoreLaws.SecondDeleteFails | internal/storage/simple_file_storage.go:231-279 | Once an artifact with records has been trashed, every later delete that drops the last record of the hash fails, whatever was done in between; the blob is in the trash and other artifacts keep their records. |
| StoreLaws.RecreatedArtifactIsNotDeletedCleanly | internal/storage/simple_file_storage.go:231-279 | A concrete sequence of create, delete, create, create of a sibling, and delete that ends so. |
| StoreLaws.DeleteSparesOtherRecords | internal/storage/simple_file_storage.go:231-279 | A delete leaves other artifacts' records alone if and only if it drops no last record, or the hash has a trash directory already, or its shard holds no other record. |
| StoreLaws.SiblingLosesItsRecord | internal/storage/simple_file_storage.go:255-276 | When a shared shard is swept, the sibling's lookup stays without a record and the sibling can no longer be deleted by its reference. |
| StoreLaws.DeleteCanLoseARecord | internal/storage/simple_file_storage.go:255-265 | A concrete store in which that happens. |
| StoreLaws.DeleteKeepsWellFiled | internal/storage/simple_file_storage.go:531-604 | A delete keeps paths safe, every record under its own registry and name, and the directories above records in place, shard sweep included. |
| FileStorage.SweepRepresents | internal/storage/simple_file_storage.go:252-276 | Renaming the shard directory path by path, itself included, is the sweep of slots. |
| FileStorage.SimpleFileStorage.ResolveIdentifier | internal/storage/simple_file_storage.go:109-132 | On files, resolution is that of the slots. |
| FileStorage.SimpleFileStorage.CreateArtifact | internal/storage/simple_file_storage.go:282-439 | For hashes of the layout's shape, the files after a create are those of the model, the outcome too, and so is the exact list of file-system steps. |
| FileStorage.SimpleFileStorage.ReadBlob | internal/storage/simple_file_storage.go:442-497 | The stream and range read from the file are those of the operation that `StoreAnswers.ReadAnswers` describes from the request. |
| FileStorage.SimpleFileStorage.UpdateBlob | internal/storage/simple_file_storage.go:500-526 | The file and outcome after an update are the model's; metadata keeps its length. |
| FileStorage.SimpleFileStorage.DeleteArtifact | internal/storage/simple_file_storage.go:531-604 | The loop over reference hashes, the two removals of lookup and record, and the move to trash leave the files of the operation that `StoreAnswers.DeleteByReferenceDropsOne` and `StoreLaws.DeleteByHashDropsAll` describe. |
| FileStorage.SimpleFileStorage.MoveToTrash | internal/storage/simple_file_storage.go:231-279 | Two renames and a directory rename leave the files of the model, or its error when the target directory exists. |
| FileStorage.SimpleFileStorage.UpdateReference | internal/storage/simple_file_storage.go:658-676 | Only description and tags of the record change, with the model's checks. |
| FileStorage.SimpleFileStorage.GetMeta | internal/storage/simple_file_storage.go:607-627 | Metadata is read, or refused, as in the model. |
| FileStorage.SimpleFileStorage.Move | internal/storage/simple_file_storage.go:709-741 | Blob and metadata are renamed, an existing target is replaced, references stay. |
| Locks.LockFits | internal/storage/concurrent_artifact_storage.go:105-146 | Taking a lock keeps the lock table accurate about who holds what. |
| Locks.WriterIsAlone | internal/storage/concurrent_artifact_storage.go:24-31 | In an accurate table the holder of an exclusive lock is the only holder. |
| LockedRuns.PlanIsAtomic | internal/storage/concurrent_artifact_storage.go:148-302 | The steps that a reference-free call takes on a disk of its own, deletes where no shard directory has to be swept included, amount to one operation of the storage. |
| LockedRuns.PlanIsLocal | internal/storage/simple_file_storage.go:282-604 | A call depends on nothing but the files of its hashes. |
| LockedRuns.RunsAreSerializable | internal/storage/concurrent_artifact_storage.go:105-302 | Under every interleaving of any clients' calls the results are those of a serial order that keeps each client's own; whenever no call is under way, the disk is what that order leaves and every lock is free. |
| LockedRuns.WritersAreAlone | internal/storage/concurrent_artifact_storage.go:24-31 | While a writer is inside its call, nobody else is inside one on its hash. |
| LockedRuns.StreamsAreSnapshots | internal/storage/concurrent_artifact_storage.go:174-195 | What a stream has delivered, in whatever pieces and whatever others do, is a prefix of the requested slice of the blob as it was when the lock was granted, and the whole slice once nothing more can be read. |
| LockedProgress.CallsComplete | internal/storage/concurrent_artifact_storage.go:105-302 | In every reachable state, a waiting call whose lock is free is brought to its end by its own client's steps, with the disk and outcome of one storage operation and every lock as before. |
| LockedProgress.ReadersWaitForWritersOnly | internal/storage/concurrent_artifact_storage.go:100-146 | A lock can be had if and only if everyone inside a call on the hash reads and so does the caller. |
| LockedRuns.NobodyWaitsForAWaiter | internal/storage/concurrent_artifact_storage.go:105-146 | Who cannot get a lock is kept out by a client that is inside a call on the same hash and can go on. |
| ConcurrentStorage.LockedHashIsTheTarget | internal/storage/concurrent_artifact_storage.go:152-164 | The hash that a create locks is the one it is about; only a create that lacks its hash goes unlocked. |
| ConcurrentStorage.ConcurrentArtifactStorage.AcquireLock | internal/storage/concurrent_artifact_storage.go:105-146 | Either the lock is taken, in a way that releasing undoes exactly, or nothing changes and the call times out. |
| ConcurrentStorage.ConcurrentArtifactStorage.CreateArtifact | internal/storage/concurrent_artifact_storage.go:150-172 | Times out without effect if and only if the deadline passes or the lock of the hash it is about cannot be had exclusively; else it does what the storage does; a create that is about no hash is refused without effect; all locks end as they were. By hash, it is a client's call of LockedRuns. |
| ConcurrentStorage.ConcurrentArtifactStorage.ReadBlob | internal/storage/concurrent_artifact_storage.go:177-195 | On success exactly one shared lock is left, with the stream; on every error none. |
| ConcurrentStorage.ConcurrentArtifactStorage.UpdateBlob | internal/storage/concurrent_artifact_storage.go:199-212 | Times out without effect, or does what the storage does; all locks end as they were. |
| ConcurrentStorage.ConcurrentArtifactStorage.DeleteArtifact | internal/storage/concurrent_artifact_storage.go:217-230 | The same for deletes. |
| ConcurrentStorage.ConcurrentArtifactStorage.Move | internal/storage/concurrent_artifact_storage.go:287-302 | The same for moves, locking the destination only. |
| ConcurrentStorage.LockReleasingReadCloser.Read | internal/storage/concurrent_artifact_storage.go:304-311 | A piece is the next part of the section of the file as it is now. |
| ConcurrentStorage.LockReleasingReadCloser.Close | internal/storage/concurrent_artifact_storage.go:313-320 | The first Close gives back this stream's lock and no other; a second one is refused and changes no lock. |
| HashComputing.UnknownHashesSpelledOut | internal/storage/hash_computing_artifact_storage.go:60-65 | A hash is unknown if and only if it has fewer than three bytes or its letters spell "unknown" in any case, the Kelvin sign for K included. |
| HashComputing.UnknownWordsAreHashed | internal/storage/hash_computing_artifact_storage.go:164-207 | For every such word, unless it is empty beside a reference: a create succeeds if and only if the stream ends properly and the metadata names no other hash; it answers with the digest and length of the bytes, publishes them under it, stores nothing under the word, and changes nothing but its own files. |
| HashComputing.CreateUnknownAnswers | internal/storage/hash_computing_artifact_storage.go:90-207 | Known content is answered with its metadata and only the trash changes; new content appears with length and time and only its two files change; each failure has its error and leaves at most a staged file. |
| HashComputing.CreateUnknownPublishes | internal/storage/hash_computing_artifact_storage.go:164-207 | A create of unknown hash succeeds if and only if the stream ends properly and the metadata names no other hash; then the answer, the published bytes and the spent staging key are right. |
| HashComputing.DigestsAreKnown | internal/storage/hash_computing_artifact_storage.go:60-65 | A digest is never taken for an unknown hash. |
| HashComputing.HashComputingArtifactStorage.CreateArtifact | internal/storage/hash_computing_artifact_storage.go:164-207 | The method is the operation that `HashComputing.UnknownWordsAreHashed` describes; a hash that is no such word, of the layout's shape, goes through to the storage. |
| HashComputingRuns.SuccessfulCreatesArePublished | internal/storage/hash_computing_artifact_storage.go:90-207 | Under every interleaving of the steps of any creates, with any announced sizes and metadata, a successful one has returned the digest and length of the bytes it streamed, they stay live under it for ever, and its staging key is not live. |
| HashComputingRuns.UninterruptedCallIsOneCreate | internal/storage/hash_computing_artifact_storage.go:164-207 | Six turns of a call with nobody in between are the sequential create: same storage, same answer. |
| HashComputingRuns.FailedCallsLeaveNothingStaged | internal/storage/hash_computing_artifact_storage.go:74-86 | Under every interleaving a call that failed has left nothing live under its staging key, unless its stream broke. |
| HashComputingRuns.KnownContentForgives | internal/storage/hash_computing_artifact_storage.go:135-147 | A failed rename is forgiven when the content is known by the time the call looks again. |
| Publishing.FreshUuidsMakeFreshKeys | internal/storage/hash_computing_artifact_storage.go:67-71 | New UUIDs make new staging keys, and the keys of hash computing and of the registry never meet. |
| HashComputingRuns.PublishedContentSurvives | internal/storage/hash_computing_artifact_storage.go:90-207 | Whatever fails, published content is never lost or changed. |
| HashComputingRuns.UndisturbedCallsSucceed | internal/storage/hash_computing_artifact_storage.go:164-207 | Five turns bring a create to success, however the others interleave, unless its stream or a rename fails or its metadata names another hash. |
| ReferenceKeys.ReferenceKeysAreInjective | internal/storage/simple_file_storage.go:38-42 | For valid aliases and colon-free names the stored keys are injective in alias, name and tag, and no tag key is a repository key. |
| ReferenceKeys.RepositoryKeyIsATagKey | internal/registry/docker/private/service.go:278-287 | Without that restriction the two kinds of keys meet if and only if the name holds a colon. |
| ReferenceKeys.AliasesMatchThePattern | internal/registry/manager.go:130-149 | Valid aliases are those that the pattern matches, part by part, up to 63 characters. |
| ReferenceKeys.KeyStringInjective | internal/registry/manager.go:130-149 | Valid aliases hold no colon, so alias and name can be told apart in a key. |
| Registry.PutBlobRejects | internal/registry/docker/private/service.go:436-458 | A wrong prefix or digest is refused and leaves everything but the trash as it was, with the staged bytes in the trash; a broken stream leaves only its staging file. |
| Registry.PutBlobAccepts | internal/registry/docker/private/service.go:436-508 | An upload with the right digest succeeds, new content or not, is served with its length, and changes only its two files, one lookup and one record with its directory. |
| RegistryAnswers.StorageKeyAnswers | internal/registry/docker/private/service.go:115-120 | The storage key is the text after the first colon, or all of it. |
| RegistryAnswers.GetBlobFindsWhatIsPublished | internal/registry/docker/private/service.go:222-249 | GetBlob finds content if and only if it is published, and says why not otherwise. |
| RegistryAnswers.ServedBytesHaveTheirDigest | internal/registry/docker/private/service.go:222-249 | Whatever is asked for, bytes served under a hexadecimal key have that digest and the length told. |
| RegistryAnswers.GetBlobAnswers | internal/registry/docker/private/service.go:222-249 | In any storage: the bytes of the file with the length in the metadata, or the error of the one or the other. |
| RegistryAnswers.PublishingNothing | internal/registry/docker/private/service.go:488-508 | Publishing a staged blob that is gone changes nothing and is an error only when the content is unknown. |
| RegistryAnswers.AcceptedBlobIsReferenced | internal/registry/docker/private/service.go:436-483 | An accepted upload records the repository's reference, with alias and time, and the length, and changes nothing else. |
| RegistryAnswers.ManifestIsReferenced | internal/registry/docker/private/service.go:267-325 | In any storage a manifest upload succeeds unless metadata of its bytes cannot be read, metadata of another length included; then the bytes are referenced by tag and by repository, what was there under their digest stays, and nothing else changes. |
| RegistryAnswers.UnreadableManifestIsRefused | internal/registry/docker/private/service.go:267-300 | In the excepted case the upload is refused and nothing changes. |
| Registry.PublishedBlobIsServed | internal/registry/docker/private/service.go:222-249 | Published bytes are what GetBlob returns, with their length. |
| RegistryRuns.ContentIsAddressedByDigest | internal/registry/docker/private/service.go:267-508 | In every state of every interleaving of blob and manifest uploads, with any claimed digests and streams, every live blob outside staging is stored under its own digest, and published content never changes. |
| RegistryRuns.VerdictsAreRight | internal/registry/docker/private/service.go:436-508 | Under every interleaving success means the digest was right and the bytes are published; a digest error means it was wrong, and after it or a failed move nothing is left staged. |
| RegistryRuns.UploadsGetTheirVerdict | internal/registry/docker/private/service.go:267-508 | Under every interleaving five turns bring a request to its end, and its answer is the one its own arguments deserve, unless its own move was made to fail. |
| RegistryRuns.KnownContentForgives | internal/registry/docker/private/service.go:488-508 | A failed move is forgiven when the content is known by the time the upload looks again. |
| RegistryRuns.UninterruptedRequestIsOnePut | internal/registry/docker/private/service.go:267-508 | Three turns of a request with nobody in between are one PutBlob or PutManifest: same storage, same answer. |
| TagMap.TagsReturnTheLastManifest | internal/registry/docker/private/service.go:146-325 | Over every sequence of uploads a tag returns the last manifest put to it, is not found if there was none, and is unreadable if and only if the same bytes were uploaded as a blob. |
| TagMap.BlobsAreServedOnceUploaded | internal/registry/docker/private/service.go:222-508 | Over every sequence of uploads GetBlob returns the bytes of a digest if and only if they were put as a manifest or accepted as a blob. |
| TagMap.ManifestAlsoPutAsBlobIsLost | internal/registry/docker/private/service.go:146-199 | A concrete sequence in which the tag is lost. |
| Uploads.ChunkAnswers | internal/registry/docker/private/service.go:356-385 | A chunk for no session or another repository's is refused and changes nothing; any other lands behind what is there, and the offset told is the new one. |
| Uploads.CompletionAnswers | internal/registry/docker/private/service.go:389-407 | A completion takes its session and no other out of the map, even when it comes for another repository, which leaves the storage alone. |
| Uploads.SessionsLastAnHour | internal/registry/docker/private/service.go:75-90 | A clean-up keeps a session if and only if it is no more than 3600 seconds old. |
| Uploads.OffsetIsFileLength | internal/registry/docker/private/service.go:376-385 | The offset equals the length of the session's file if and only if no failed chunk delivered bytes. |
| Uploads.FailedChunkLeavesAByte | internal/registry/docker/private/service.go:376-385 | A concrete chunk that leaves one byte in the file at offset 0. |
| Uploads.ChunksCollect | internal/registry/docker/private/service.go:354-385 | The file is what the chunks delivered, in order; the offset misses what failed chunks left; other sessions are untouched. |
| Uploads.ChunkedUploadIsPutBlob | internal/registry/docker/private/service.go:387-427 | Start, any chunks and a completion leave exactly the storage and verdict of one PutBlob of the concatenation under the same staging key and clock. |
| Uploads.ChunkedUploadMatchesSingleUpload | internal/registry/docker/private/service.go:328-427 | The same for any other staging key, announced size and clock: same verdict, same published store. |
| Uploads.UploadsDifferOnlyInNames | internal/registry/docker/private/service.go:436-483 | Two uploads of one stream to equal published stores leave equal published stores with the same result. |
| RegistryService.DockerRegistryPrivateService.StartBlobUpload | internal/registry/docker/private/service.go:328-352 | Session map, temporary files and session values stay consistent, with one new empty session. |
| RegistryService.DockerRegistryPrivateService.UploadBlobChunk | internal/registry/docker/private/service.go:354-385 | The same for a chunk, which is appended to this session's file only. |
| RegistryService.DockerRegistryPrivateService.CompleteBlobUpload | internal/registry/docker/private/service.go:387-427 | The storage, the sessions left and the result are those of the completion of Uploads. |
| RegistryService.DockerRegistryPrivateService.CleanupExpiredSessions | internal/registry/docker/private/service.go:75-90 | The loop drops exactly the sessions older than an hour, with their files. |
| RegistryService.DockerRegistryPrivateService.PutBlob | internal/registry/docker/private/service.go:436-483 | The sequence of storage calls leaves the storage and result of Registry. |
| RegistryService.DockerRegistryPrivateService.PublishStagedBlob | internal/registry/docker/private/service.go:488-508 | Move, or on its failure the check and the discard. |
| RegistryService.DockerRegistryPrivateService.PutManifest | internal/registry/docker/private/service.go:267-325 | The create, whose conflict is tolerated, and the loop over two references. |
| RegistryService.DockerRegistryPrivateService.GetManifest | internal/registry/docker/private/service.go:146-199 | The manifest is read through the hash that the metadata names. |
| RegistryService.DockerRegistryPrivateService.GetBlob | internal/registry/docker/private/service.go:222-249 | For keys of the layout's shape: metadata length and bytes under the part of the digest after its first colon. |
| SessionRuns.SessionsAreClaimedOnce | internal/registry/docker/private/service.go:75-108 | Under every interleaving a session leaves the map at most once, its file is removed at most once, and whoever has it in hand is alone and finds the file. |
| SessionRuns.MappedSessionsHoldTheirChunks | internal/registry/docker/private/service.go:354-385 | While a session is mapped its file is its chunks in lock order plus the copy under way, and the offset matches if and only if no failed chunk left bytes. |
| SessionRuns.LiveFilesAreAccountedFor | internal/registry/docker/private/service.go:75-108 | The live temporary files are exactly those of sessions being started, mapped, or claimed and not yet discarded. |
| SessionRuns.NothingIsLeftBehind | internal/registry/docker/private/service.go:75-108 | When every process has returned, exactly the mapped sessions have files. |
| SessionRuns.OneCompletionSucceeds | internal/registry/docker/private/service.go:389-427 | Of all completions of one upload at most one gets to publish it. |
| SessionRuns.LocksAreOrdered | internal/registry/docker/private/service.go:75-108 | A process that waits for a lock holds at most the mutex of the map, and then waits for a session's. |
| SessionRuns.NobodyIsStuck | internal/registry/docker/private/service.go:75-108 | No deadlock: every unfinished process can take a step, or waits for a lock whose holder can, or for a clean-up that waits for such a holder. |
| SessionCalls.StartAlone | internal/registry/docker/private/service.go:328-352 | A start that nobody interrupts is the operation of Uploads on the value of the sessions. |
| SessionCalls.ChunkAlone | internal/registry/docker/private/service.go:356-385 | The same for a chunk, with the same answer, refusals included. |
| SessionCalls.CompleteAlone | internal/registry/docker/private/service.go:389-427 | A completion that nobody interrupts leaves the other sessions, and is refused for no session or another repository's. |
| SessionCalls.SweepAlone | internal/registry/docker/private/service.go:75-90 | A clean-up drops exactly the expired sessions. |
| SessionCalls.EveryoneCanReturn | internal/registry/docker/private/service.go:75-427 | From every state of every interleaving there is a way on in which every request returns. |
| SessionCalls.EveryTurnCounts | internal/registry/docker/private/service.go:75-427 | Every step but a piece of a chunk brings its request nearer to its end. |
| RouteLaws.TextDecidesTheRoute | internal/registry/docker/private/handlers.go:26-114 | The route of a path, if and only if, from the ways to read it as name, separator and rest; and when there is none. |
| RouteLaws.PrintedPathsAreRouted | internal/registry/docker/private/handlers.go:46-109 | A manifest, blob, start or session path that holds its separator once, and no earlier branch's, is routed with its name and its last part. |
| RouteLaws.RequestsAreAnswered | internal/registry/docker/private/handlers.go:33-114 | Which methods are handled on which route, which are refused, and when nothing is found. |
| RouteLaws.ParsersReadTheCut | internal/registry/docker/private/handlers.go:465-562 | What each handler reads from its path, if and only if, in the same terms, and up to a question mark for a session's id. |
| Handlers.RoutesPrintBack | internal/registry/docker/private/handlers.go:26-114 | A routed path is exactly the text of its route, and the name is never empty. |
| Handlers.ParsersAgreeWithDispatch | internal/registry/docker/private/handlers.go:465-562 | Whichever branch is taken, the handler's own parser reads the same parts if and only if the path starts with /v2/ and, for sessions, the id holds no question mark. |
| Handlers.UploadLocationsLeadBack | internal/registry/docker/private/handlers.go:311-349 | The location told for a started upload is dispatched to the session branch and parsed to the same name and id. |
| Handlers.BlobLocationsLeadToBlobs | internal/registry/docker/private/handlers.go:424-463 | The location told for a finished upload leads to the blob if and only if the name, followed by "/blobs", does not hold "/blobs/". |
| Handlers.NestedBlobsGoAstray | internal/registry/docker/private/handlers.go:65-80 | A concrete path: the finished blob of "a/blobs" is looked for in repository "a". |
| Handlers.SplitThenJoin | internal/registry/docker/private/handlers.go:46-62 | Splitting and joining give the string back, and no part holds the separator. |
| Handlers.SplitAppended | internal/registry/docker/private/handlers.go:82-109 | Text that completes no separator only lengthens the last part of a split. |

## Left out

- LockedRuns.RunsAreSerializable: claimed for hash-identified calls without references, for move sources that no other client uses, and for deletes that find no record directory of their shard; the look at the disk at the start of a call (existence and metadata) is one step.
- LockedProgress.CallsComplete: fairness and deadlines are not represented; the same restrictions apply as to LockedRuns.RunsAreSerializable.
- LockedRuns.StreamsAreSnapshots: a stream reads the file under the path; an open descriptor that outlives a rename is not represented.
- RegistryRuns.ContentIsAddressedByDigest: each storage operation is one step; the interleaving inside operations is the subject of LockedRuns and HashComputingRuns.
- HashComputingRuns.SuccessfulCreatesArePublished: the stage and the delete of a staged copy are one step each, on the plain storage; the two renames of a move and the checks are separate steps.
- TagMap.TagsReturnTheLastManifest: one upload after another, starting from an empty registry, with colon-free repository names.
- SessionRuns.OneCompletionSucceeds: success means that the completion got to hand the session to PutBlob; PutBlob itself is the subject of Registry and RegistryRuns.
- SessionRuns.NobodyIsStuck: starvation and the writer preference of Go's RWMutex are not represented.
- FileStorage.SimpleFileStorage.MoveToTrash: of the directories only those on which an outcome depends are represented, the shard directories of records and the trash directories of hashes.
- FileStorage.SimpleFileStorage.CreateArtifact: io.Copy is one write of the whole stream; hashes are three or more letters, digits and dashes, because for others the layout maps two artifacts to one path or a path outside its families; a failed write or encoder is not represented.
- HashComputing.HashComputingArtifactStorage.CreateArtifact: known hashes outside that shape, for the same reason.
- SessionCalls.CompleteAlone: what PutBlob makes of the file is not followed; Uploads has it.
- HashComputing.UnknownHashesSpelledOut: hashes that are not valid UTF-8.
- RegistryService.DockerRegistryPrivateService.GetBlob: digests whose key is outside that shape, for the same reason.
- Layout.BlobPathsNestExactlyAtShards: names with slashes or dots, which filepath.Join splits and cleans.
- Layout.LockPathsArePrefixFree: the same.
- LockedRuns.PlanIsAtomic: deletes that drop references or sweep a shard directory, which touch other hashes and are not isolated by one lock.
- Disk and permission errors, fsync, directory creation and the Windows form of rename.
- The JSON encoding of metadata and records; what cannot be decoded is a file without such a document.
- The 64 digits of a SHA-256: only hexadecimal output of three or more digits and injectivity are used.
- Files that hold white space around a hash: a lookup holds the bare hash.
- Stores with files left by an interrupted create as the start of the class FileStorage: the class invariant asks that every lookup names a hash. The laws on interrupted creates are about the model.
- The methods of ConcurrentArtifactStorage and HashComputingArtifactStorage that only delegate (references, listing, storage info).
- Reference-only identifiers under concurrency, which are resolved before the lock and again inside.
- CheckManifestExists, CheckBlobExists, media types and the parsing of manifests.
- HTTP headers, status codes, queries and Content-Range, whose offset the service ignores.
- The proxy registry, the storage and registry managers apart from the alias rule, configuration, logging and server start.
