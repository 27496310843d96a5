/**
 * What the two staging protocols share: content under its digest, staging keys that are never digests,
 * and what a step of one upload leaves alone for all the others.
 */
module Publishing {
  import opened Digests
  import opened Layout
  import opened Store

  /** Staging keys start with a letter that no digest has. */
  predicate IsStagingKey(key: string) {
    && IsSafe(key)
    && key[0] in {'t', 'u'}
  }

  /** The keys that generateTempHash and PutBlob make from a new UUID. */
  function TempKey(uuid: string): (key: string)
    requires IsName(uuid)
    ensures IsStagingKey(key)
  {
    "temp-" + uuid
  }

  function UploadKey(uuid: string): (key: string)
    requires IsName(uuid)
    ensures IsStagingKey(key)
  {
    "upload-" + uuid
  }

  /** New UUIDs make new keys, and the two protocols never share one. */
  lemma FreshUuidsMakeFreshKeys(u: string, v: string)
    requires IsName(u) && IsName(v)
    ensures TempKey(u) == "temp-" + u && UploadKey(u) == "upload-" + u
    ensures TempKey(u) == TempKey(v) <==> u == v
    ensures UploadKey(u) == UploadKey(v) <==> u == v
    ensures TempKey(u) != UploadKey(v)
  {
    assert TempKey(u)[5..] == u && TempKey(v)[5..] == v;
    assert UploadKey(u)[7..] == u && UploadKey(v)[7..] == v;
    assert TempKey(u)[0] != UploadKey(v)[0];
  }

  lemma StagingKeysAreNotDigests(key: string)
    requires IsStagingKey(key)
    ensures !IsHex(key)
    ensures forall g | IsHex(g) :: !SameShard(g, key)
  {
    forall g | IsHex(g) ensures !SameShard(g, key) {
      assert g[..2][0] == g[0] && key[..2][0] == key[0];
    }
  }

  /** Every artifact under a digest holds the bytes with that digest. */
  ghost predicate ContentAddressed(sha: Sha256, d: Disk) {
    forall h | IsHex(h) && Blob(h) in d :: d[Blob(h)].Data? && sha.content(d[Blob(h)].bytes) == h
  }

  /** Readable metadata under a digest belongs to a live artifact and tells its length. */
  ghost predicate MetaMatches(d: Disk) {
    forall h | IsHex(h) && ReadMeta(d, h).Ok? ::
      Blob(h) in d && ReadMeta(d, h).value.length == |BytesAt(d, h)|
  }

  /** Only digests have records, and no staging key shares a shard directory with one. */
  ghost predicate RecordsUnderDigests(d: Disk) {
    && (forall g, k | Record(g, k) in d :: IsHex(g))
    && (forall key | IsStagingKey(key) :: RecordShard(Prefix(key)) !in d)
  }

  /** Steps that touch no record and no shard directory. */
  lemma RecordsStay(d: Disk, e: Disk)
    requires RecordsUnderDigests(d) && forall s: Slot | s.Record? || s.RecordShard? :: s in d <==> s in e
    ensures RecordsUnderDigests(e)
  {}

  /** A live artifact is either published under a digest or staged. */
  ghost predicate PublishedOrStaged(d: Disk) {
    forall h | Blob(h) in d :: IsHex(h) || IsStagingKey(h)
  }

  ghost predicate Sound(sha: Sha256, d: Disk) {
    ContentAddressed(sha, d) && MetaMatches(d) && RecordsUnderDigests(d) && PublishedOrStaged(d)
  }

  /** Published artifacts stay, byte for byte, and keep readable metadata. */
  ghost predicate Preserves(d: Disk, e: Disk) {
    && (forall h | IsHex(h) && Blob(h) in d :: Blob(h) in e && e[Blob(h)] == d[Blob(h)])
    && (forall h | IsHex(h) && ReadMeta(d, h).Ok? :: ReadMeta(e, h).Ok?)
  }

  lemma PreservesItself(d: Disk)
    ensures Preserves(d, d)
  {}

  lemma PreservesIsTransitive(d: Disk, e: Disk, f: Disk)
    requires Preserves(d, e) && Preserves(e, f)
    ensures Preserves(d, f)
  {}

  /** The artifact and metadata of `key` are as they were. */
  predicate SameAt(d: Disk, e: Disk, key: string) {
    && (Blob(key) in d <==> Blob(key) in e) && (Blob(key) in d ==> d[Blob(key)] == e[Blob(key)])
    && (Meta(key) in d <==> Meta(key) in e) && (Meta(key) in d ==> d[Meta(key)] == e[Meta(key)])
  }

  /** One step of an upload with staging key `own`: others keep their staged data, published data stays. */
  ghost predicate StepOf(d: Disk, e: Disk, own: string) {
    && Preserves(d, e)
    && forall key | IsStagingKey(key) && key != own :: SameAt(d, e, key)
  }

  predicate Staged(d: Disk, key: string, data: Bytes) {
    && Blob(key) in d && d[Blob(key)] == Data(data)
    && ReadMeta(d, key).Ok? && ReadMeta(d, key).value.length == |data|
  }

  predicate Gone(d: Disk, key: string) {
    Blob(key) !in d && Meta(key) !in d
  }

  predicate Published(sha: Sha256, d: Disk, data: Bytes) {
    && Blob(sha.content(data)) in d && d[Blob(sha.content(data))] == Data(data)
    && ReadMeta(d, sha.content(data)).Ok?
  }

  lemma NothingIsAStep(d: Disk, own: string)
    ensures StepOf(d, d, own)
  {}

  lemma StepsCompose(d: Disk, e: Disk, f: Disk, own: string)
    requires StepOf(d, e, own) && StepOf(e, f, own)
    ensures StepOf(d, f, own)
  {
    forall key | IsStagingKey(key) && key != own ensures SameAt(d, f, key) {
      assert SameAt(d, e, key) && SameAt(e, f, key);
    }
  }

  lemma KnownIsPublished(sha: Sha256, d: Disk, e: Disk, own: string, data: Bytes)
    requires sha.Ideal() && Sound(sha, d) && Sound(sha, e) && StepOf(d, e, own)
    requires ReadMeta(d, sha.content(data)).Ok?
    ensures Published(sha, e, data)
  {
    assert IsHex(sha.content(data));
  }

  lemma LengthIsKnown(sha: Sha256, d: Disk, data: Bytes)
    requires sha.Ideal() && Sound(sha, d) && Published(sha, d, data)
    ensures ReadMeta(d, sha.content(data)).value.length == |data|
  {
    assert IsHex(sha.content(data));
  }

  lemma StagingKeyIsNotEmpty(key: string)
    requires IsStagingKey(key)
    ensures key != ""
  {}

  predicate IsStagedSlot(key: string, s: Slot) {
    s in {Blob(key), Meta(key), TrashBlob(key), TrashMeta(key)}
  }

  /** Whatever happens to the artifact and metadata of a staging key, live or trash, is a step of its upload. */
  lemma StagingIsLocal(sha: Sha256, d: Disk, e: Disk, key: string)
    requires Sound(sha, d) && IsStagingKey(key)
    requires forall s: Slot | !IsStagedSlot(key, s) :: (s in d <==> s in e) && (s in d ==> d[s] == e[s])
    ensures Sound(sha, e) && StepOf(d, e, key)
  {
    hide RecordsUnderDigests;
    RecordsStay(d, e);
    StagingKeysAreNotDigests(key);
  }

  /** Staging a stream under a fresh key, to the end or until it fails. */
  lemma StageStep(sha: Sha256, d: Disk, key: string, r: Reader, size: int, meta: Option<ArtifactMeta>, now: int)
    requires sha.Ideal() && Sound(sha, d) && IsStagingKey(key) && Gone(d, key)
    requires meta.Some? ==> meta.value.hash == ""
    ensures var e := Create(sha, d, Identifier(key, None), r, size, meta, now);
            var res := CreatePlan(sha, d, Identifier(key, None), r, size, meta, now).result;
            && Sound(sha, e) && StepOf(d, e, key)
            && (res.Ok? <==> r.Reader? && !r.fails)
            && (res.Ok? ==> Staged(e, key, r.data))
  {
    hide Sound, StepOf, IsStagingKey;
    StagingKeyIsNotEmpty(key);
    CreateNet(sha, d, Identifier(key, None), r, size, meta, now);
    StagingIsLocal(sha, d, Create(sha, d, Identifier(key, None), r, size, meta, now), key);
  }

  /** Metadata for a staged artifact may name no hash, or the staging key itself. */
  predicate NamesNoOther(meta: Option<ArtifactMeta>, key: string) {
    meta.None? || meta.value.hash in {"", key}
  }

  /** The same for any metadata: another hash in it is refused before anything is written. */
  lemma StageAnyStep(sha: Sha256, d: Disk, key: string, r: Reader, size: int, meta: Option<ArtifactMeta>, now: int)
    requires sha.Ideal() && Sound(sha, d) && IsStagingKey(key) && Gone(d, key)
    ensures var e := Create(sha, d, Identifier(key, None), r, size, meta, now);
            var res := CreatePlan(sha, d, Identifier(key, None), r, size, meta, now).result;
            && Sound(sha, e) && StepOf(d, e, key)
            && (res.Ok? <==> r.Reader? && !r.fails && NamesNoOther(meta, key))
            && (res.Ok? ==> Staged(e, key, r.data))
  {
    hide Sound, StepOf;
    if NamesNoOther(meta, key) {
      var unnamed := if meta.Some? then Some(meta.value.(hash := "")) else None;
      assert CreatePlan(sha, d, Identifier(key, None), r, size, meta, now) ==
             CreatePlan(sha, d, Identifier(key, None), r, size, unnamed, now);
      StageStep(sha, d, key, r, size, unnamed, now);
    } else {
      StagingKeyIsNotEmpty(key);
      StagingIsLocal(sha, d, d, key);
    }
  }

  /** Deleting a staged artifact: it has no records, so it goes straight to the trash. */
  lemma DiscardStep(sha: Sha256, d: Disk, key: string)
    requires Sound(sha, d) && IsStagingKey(key) && Blob(key) in d
    ensures var (e, res) := Delete(sha, d, Identifier(key, None));
            && res == Ok(()) && Sound(sha, e) && StepOf(d, e, key) && Gone(e, key)
            && TrashBlob(key) in e && e[TrashBlob(key)] == d[Blob(key)]
            && e == Renamed(Renamed(d, Blob(key), TrashBlob(key)), Meta(key), TrashMeta(key))
  {
    hide StepOf, MetaMatches, ContentAddressed, PublishedOrStaged;
    StagingKeysAreNotDigests(key);
    StagingKeyIsNotEmpty(key);
    assert DropAllReferences(d, key) == d;
    var moved := Renamed(Renamed(d, Blob(key), TrashBlob(key)), Meta(key), TrashMeta(key));
    StagingIsLocal(sha, d, moved, key);
  }

  /** The first half of Move: the blob arrives under its digest; overwriting an equal one changes nothing. */
  lemma BlobRenameStep(sha: Sha256, d: Disk, key: string, data: Bytes)
    requires sha.Ideal() && Sound(sha, d) && IsStagingKey(key) && Blob(key) in d && d[Blob(key)] == Data(data)
    ensures var h := sha.content(data);
            var e := Renamed(d, Blob(key), Blob(h));
            && Sound(sha, e) && StepOf(d, e, key)
            && Blob(key) !in e && Blob(h) in e && e[Blob(h)] == Data(data)
            && (Meta(key) in d <==> Meta(key) in e) && (Meta(key) in d ==> e[Meta(key)] == d[Meta(key)])
  {
    hide RecordsUnderDigests, Sha256.Ideal, IsHex;
    var h := sha.content(data);
    RecordsStay(d, Renamed(d, Blob(key), Blob(h)));
    StagingKeysAreNotDigests(key);
    BytesOfDigest(sha, d, data);
  }

  lemma BytesOfDigest(sha: Sha256, d: Disk, data: Bytes)
    requires sha.Ideal() && Sound(sha, d)
    ensures IsHex(sha.content(data)) && (Blob(sha.content(data)) in d ==> d[Blob(sha.content(data))] == Data(data))
  {
    assert IsHex(sha.content(data));
  }

  /** The second half of Move: the staged metadata follows. */
  lemma MetaRenameStep(sha: Sha256, d: Disk, key: string, data: Bytes)
    requires sha.Ideal() && Sound(sha, d) && IsStagingKey(key)
    requires ReadMeta(d, key).Ok? && ReadMeta(d, key).value.length == |data|
    requires Blob(sha.content(data)) in d && Blob(key) !in d
    ensures var h := sha.content(data);
            var e := Renamed(d, Meta(key), Meta(h));
            && Sound(sha, e) && StepOf(d, e, key) && Gone(e, key) && Published(sha, e, data)
            && ReadMeta(e, h) == ReadMeta(d, key)
  {
    var h := sha.content(data);
    RecordsStay(d, Renamed(d, Meta(key), Meta(h)));
    hide RecordsUnderDigests;
    StagingKeysAreNotDigests(key);
    assert d[Blob(h)].bytes == data;
  }
}
