/** The write path of the private Docker registry on the storage: blobs by digest, manifests by tag. */
module Registry {
  import opened Digests
  import opened Layout
  import opened Ranges
  import opened Store
  import opened Publishing
  import opened ReferenceKeys

  const PREFIX := "sha256:"

  function DigestOf(sha: Sha256, data: Bytes): string {
    PREFIX + sha.content(data)
  }

  /** The part of a digest after its first colon. */
  function StorageKey(digest: string): string {
    if NoColon(digest) then digest else digest[ColonIndex(digest, 0) + 1..]
  }

  lemma StorageKeyOfDigest(digest: string)
    requires PREFIX <= digest
    ensures StorageKey(digest) == digest[7..]
  {
    assert digest[6] == PREFIX[6] == ':';
    assert forall i | 0 <= i < 6 :: digest[i] == PREFIX[i] != ':';
    var i := ColonIndex(digest, 0);
    assert i == 6;
  }

  function RefFor(alias: string, name: string, now: int): Reference {
    Reference(name, alias, now, "", map[])
  }

  /** CreateArtifact without data on an artifact that is there: it only adds the reference. */
  function AddReference(sha: Sha256, d: Disk, key: string, ref: Reference, length: int, now: int): (Disk, Result<ArtifactMeta>) {
    var id, meta := Identifier(key, Some(ref)), Some(ArtifactMeta(key, length, now));
    (Create(sha, d, id, Nil, -1, meta, now), CreatePlan(sha, d, id, Nil, -1, meta, now).result)
  }

  // PutBlob

  function PublishStaged(sha: Sha256, d: Disk, temp: string, key: string): (Disk, Result<()>) {
    var (e, moved) := Move(d, temp, key);
    if moved.Ok? then (e, moved)
    else
      var known := GetMeta(sha, e, Identifier(key, None));
      (Delete(sha, e, Identifier(temp, None)).0, if known.Ok? then Ok(()) else moved)
  }

  function PutBlob(sha: Sha256, d: Disk, alias: string, name: string, digest: string, r: Reader, size: int,
                   temp: string, now: int): (Disk, Result<()>) {
    if !(PREFIX <= digest) then (d, Err(UnsupportedDigest))
    else
      var key := StorageKey(digest);
      var staged := Create(sha, d, Identifier(temp, None), r, size, None, now);
      match CreatePlan(sha, d, Identifier(temp, None), r, size, None, now).result
      case Err(e) => (staged, Err(e))
      case Ok(_) =>
        if DigestOf(sha, if r.Reader? then r.data else []) != digest then
          (Delete(sha, staged, Identifier(temp, None)).0, Err(DigestMismatch))
        else
          match PublishStaged(sha, staged, temp, key)
          case (published, Err(e)) => (published, Err(e))
          case (published, Ok(_)) =>
            match AddReference(sha, published, key, RefFor(alias, name, now), 0, now)
            case (e, Ok(_)) => (e, Ok(()))
            case (e, Err(error)) => (e, Err(error))
  }

  function GetBlob(sha: Sha256, d: Disk, digest: string): Result<(Bytes, int)> {
    var id := Identifier(StorageKey(digest), None);
    match GetMeta(sha, d, id)
    case Err(e) => Err(e)
    case Ok(m) =>
      match ReadBlob(sha, d, id, ByteRange(0, -1))
      case Err(e) => Err(e)
      case Ok((b, _)) => Ok((b, m.length))
  }

  /** Adding a reference to a published artifact: the disk changes in one lookup and one record. */
  lemma AddReferenceStep(sha: Sha256, d: Disk, data: Bytes, ref: Reference, length: int, now: int)
    requires sha.Ideal() && Sound(sha, d) && TagsOk(ref)
    requires Blob(sha.content(data)) in d
    ensures var key := sha.content(data);
            var (e, res) := AddReference(sha, d, key, ref, length, now);
            var k := KeyOf(sha, ref);
            && Sound(sha, e) && StepOf(d, e, "")
            && (ReadMeta(d, key).Ok? ==> res == ReadMeta(d, key))
            && (res.Ok? ==> e == WithRecord(d[Lookup(k) := Text(key)], key, k, ref))
            && (res.Err? ==> e == d)
  {
    hide Sound, StepOf, TagsOk;
    var key := sha.content(data);
    assert IsHex(key);
    RecordIsSound(sha, d, key, KeyOf(sha, ref), ref);
    CreateNet(sha, d, Identifier(key, Some(ref)), Nil, -1, Some(ArtifactMeta(key, length, now)), now);
  }

  lemma RecordIsSound(sha: Sha256, d: Disk, key: string, k: string, ref: Reference)
    requires Sound(sha, d) && IsHex(key)
    ensures StepOf(d, d, "")
    ensures var e := WithRecord(d[Lookup(k) := Text(key)], key, k, ref); Sound(sha, e) && StepOf(d, e, "")
  {
    hide RecordsUnderDigests, IsStagingKey, IsHex;
    RecordIsUnderDigest(d, key, k, ref);
    var e := WithRecord(d[Lookup(k) := Text(key)], key, k, ref);
    assert forall s: Slot | s.Blob? || s.Meta? :: (s in d <==> s in e) && (s in d ==> d[s] == e[s]);
    hide WithRecord;
  }

  lemma RecordIsUnderDigest(d: Disk, key: string, k: string, ref: Reference)
    requires RecordsUnderDigests(d) && IsHex(key)
    ensures RecordsUnderDigests(WithRecord(d[Lookup(k) := Text(key)], key, k, ref))
  {
    forall staging | IsStagingKey(staging) ensures Prefix(staging) != Prefix(key) {
      StagingKeysAreNotDigests(staging);
    }
  }

  /** What a published blob answers to GetBlob. */
  lemma PublishedBlobIsServed(sha: Sha256, d: Disk, data: Bytes)
    requires sha.Ideal() && Sound(sha, d) && Published(sha, d, data) && |data| <= MAX_INT64
    ensures GetBlob(sha, d, DigestOf(sha, data)) == Ok((data, |data|))
  {
    var digest := DigestOf(sha, data);
    StorageKeyOfDigest(digest);
    assert digest[7..] == sha.content(data);
    assert IsHex(sha.content(data));
    ReadToEnd(data, 0);
  }

  /** The upload is accepted: the stream ends properly and has the digest that the client claims. */
  predicate Accepted(sha: Sha256, digest: string, r: Reader) {
    r.Reader? && !r.fails && digest == DigestOf(sha, r.data)
  }

  /**
   * A rejected upload leaves everything but the trash as it was; only a stream that fails leaves the
   * bytes it delivered under the staging key.
   */
  lemma PutBlobRejects(sha: Sha256, d: Disk, alias: string, name: string, digest: string, r: Reader, size: int,
                       temp: string, now: int)
    requires sha.Ideal() && Sound(sha, d) && IsStagingKey(temp) && Gone(d, temp)
    requires !Accepted(sha, digest, r)
    ensures var (e, res) := PutBlob(sha, d, alias, name, digest, r, size, temp, now);
            && res.Err?
            && Sound(sha, e) && Preserves(d, e)
            && (!(PREFIX <= digest) ==> e == d && res == Err(UnsupportedDigest))
            && (PREFIX <= digest && r.Reader? && !r.fails ==>
                  && res == Err(DigestMismatch)
                  && e - {TrashBlob(temp), TrashMeta(temp)} == d - {TrashBlob(temp), TrashMeta(temp)}
                  && TrashBlob(temp) in e && e[TrashBlob(temp)] == Data(r.data))
            && (PREFIX <= digest && (r.Nil? || r.fails) ==>
                  && res == Err(if r.Nil? then NilReader else ReadFailed)
                  && e - {Blob(temp)} == d
                  && Blob(temp) in e && e[Blob(temp)] == Data(if r.Nil? then [] else r.data))
  {
    hide Sound, Preserves, IsStagingKey, Delete, Create, CreatePlan;
    if !(PREFIX <= digest) {
      assert Preserves(d, d) by { PreservesItself(d); }
    } else if r.Nil? || r.fails {
      BrokenStream(sha, d, r, size, temp, now);
    } else {
      StagedAndDiscarded(sha, d, r, size, temp, now);
    }
  }

  lemma BrokenStream(sha: Sha256, d: Disk, r: Reader, size: int, temp: string, now: int)
    requires sha.Ideal() && Sound(sha, d) && IsStagingKey(temp) && Gone(d, temp) && (r.Nil? || r.fails)
    ensures var e := Create(sha, d, Identifier(temp, None), r, size, None, now);
            var res := CreatePlan(sha, d, Identifier(temp, None), r, size, None, now).result;
            && res == Err(if r.Nil? then NilReader else ReadFailed)
            && Sound(sha, e) && Preserves(d, e) && e - {Blob(temp)} == d
            && Blob(temp) in e && e[Blob(temp)] == Data(if r.Nil? then [] else r.data)
  {
    hide Sound, Preserves;
    StageStep(sha, d, temp, r, size, None, now);
    CreateNet(sha, d, Identifier(temp, None), r, size, None, now);
  }

  lemma StagedAndDiscarded(sha: Sha256, d: Disk, r: Reader, size: int, temp: string, now: int)
    requires sha.Ideal() && Sound(sha, d) && IsStagingKey(temp) && Gone(d, temp) && r.Reader? && !r.fails
    ensures var staged := Create(sha, d, Identifier(temp, None), r, size, None, now);
            var e := Delete(sha, staged, Identifier(temp, None)).0;
            && CreatePlan(sha, d, Identifier(temp, None), r, size, None, now).result.Ok?
            && Sound(sha, e) && Preserves(d, e)
            && e - {TrashBlob(temp), TrashMeta(temp)} == d - {TrashBlob(temp), TrashMeta(temp)}
            && TrashBlob(temp) in e && e[TrashBlob(temp)] == Data(r.data)
  {
    hide Sound, Preserves, IsStagingKey, Delete;
    var staged := Create(sha, d, Identifier(temp, None), r, size, None, now);
    StagingKeyIsNotEmpty(temp);
    StageStep(sha, d, temp, r, size, None, now);
    CreateNet(sha, d, Identifier(temp, None), r, size, None, now);
    DiscardStep(sha, staged, temp);
    PreservesIsTransitive(d, staged, Delete(sha, staged, Identifier(temp, None)).0);
  }

  /** An accepted upload up to its reference: staged, moved, and served under its digest. */
  lemma StagedAndMoved(sha: Sha256, d: Disk, r: Reader, size: int, temp: string, now: int)
    requires sha.Ideal() && Sound(sha, d) && IsStagingKey(temp) && Gone(d, temp)
    requires r.Reader? && !r.fails
    ensures var key := sha.content(r.data);
            var staged := Create(sha, d, Identifier(temp, None), r, size, None, now);
            var (e, res) := PublishStaged(sha, staged, temp, key);
            && CreatePlan(sha, d, Identifier(temp, None), r, size, None, now).result.Ok?
            && res.Ok? && Sound(sha, e) && Preserves(d, e) && Gone(e, temp) && Published(sha, e, r.data)
            && e == d[Blob(key) := Data(r.data)][Meta(key) := MetaDoc(ArtifactMeta(temp, |r.data|, now))]
  {
    hide Sound, Published;
    var key := sha.content(r.data);
    StagingKeysAreNotDigests(temp);
    assert IsHex(key);
    var staged := Create(sha, d, Identifier(temp, None), r, size, None, now);
    StageStep(sha, d, temp, r, size, None, now);
    CreateNet(sha, d, Identifier(temp, None), r, size, None, now);
    BlobRenameStep(sha, staged, temp, r.data);
    MetaRenameStep(sha, Renamed(staged, Blob(temp), Blob(key)), temp, r.data);
  }

  /** The disk after an accepted upload. */
  function Uploaded(d: Disk, key: string, data: Bytes, temp: string, now: int, k: string, ref: Reference): Disk {
    WithRecord(d[Blob(key) := Data(data)][Meta(key) := MetaDoc(ArtifactMeta(temp, |data|, now))][Lookup(k) := Text(key)],
               key, k, ref)
  }

  /**
   * An accepted upload, whether or not its content was there: the bytes are served under their digest
   * with their length, the staging key is gone, and apart from the blob's own two files only the lookup
   * and the record of the repository change, with the directory of the record. The metadata now names the staging key.
   */
  lemma PutBlobAccepts(sha: Sha256, d: Disk, alias: string, name: string, r: Reader, size: int, temp: string, now: int)
    requires sha.Ideal() && Sound(sha, d) && IsStagingKey(temp) && Gone(d, temp)
    requires r.Reader? && !r.fails
    ensures var digest := DigestOf(sha, r.data);
            var key := sha.content(r.data);
            var ref := RefFor(alias, name, now);
            var (e, res) := PutBlob(sha, d, alias, name, digest, r, size, temp, now);
            && res == Ok(())
            && Sound(sha, e) && Preserves(d, e) && Gone(e, temp) && Published(sha, e, r.data)
            && (|r.data| <= MAX_INT64 ==> GetBlob(sha, e, digest) == Ok((r.data, |r.data|)))
            && e == Uploaded(d, key, r.data, temp, now, KeyOf(sha, ref), ref)
  {
    hide Sound, PublishStaged, AddReference, GetBlob;
    var digest, key, ref := DigestOf(sha, r.data), sha.content(r.data), RefFor(alias, name, now);
    StorageKeyOfDigest(digest);
    assert digest[7..] == key;
    StagedAndMoved(sha, d, r, size, temp, now);
    var staged := Create(sha, d, Identifier(temp, None), r, size, None, now);
    var published := PublishStaged(sha, staged, temp, key).0;
    AddReferenceStep(sha, published, r.data, ref, 0, now);
    var e := AddReference(sha, published, key, ref, 0, now).0;
    PreservesIsTransitive(d, published, e);
    if |r.data| <= MAX_INT64 {
      PublishedBlobIsServed(sha, e, r.data);
    }
  }

  // Manifests

  function StoreManifest(sha: Sha256, d: Disk, data: Bytes, now: int): (Disk, Result<ArtifactMeta>) {
    var key := sha.content(data);
    var meta := Some(ArtifactMeta(key, |data|, now));
    (Create(sha, d, Identifier(key, None), Reader(data, false), |data|, meta, now),
     CreatePlan(sha, d, Identifier(key, None), Reader(data, false), |data|, meta, now).result)
  }

  /** The manifest by hash, a length conflict being no error, then its tag and its repository reference. */
  function PutManifest(sha: Sha256, d: Disk, alias: string, name: string, tag: string, data: Bytes, now: int): (Disk, Result<()>) {
    var key := sha.content(data);
    var (stored, res) := StoreManifest(sha, d, data, now);
    if res.Err? && !res.error.HashConflict? then (stored, Err(res.error))
    else
      match AddReference(sha, stored, key, RefFor(alias, TagName(name, tag), now), |data|, now)
      case (e, Err(error)) => (e, Err(error))
      case (tagged, Ok(_)) =>
        match AddReference(sha, tagged, key, RefFor(alias, name, now), |data|, now)
        case (e, Err(error)) => (e, Err(error))
        case (e, Ok(_)) => (e, Ok(()))
  }

  /** By tag to the metadata, and by the hash in the metadata to the bytes. */
  function GetManifest(sha: Sha256, d: Disk, alias: string, name: string, tag: string): Result<Bytes> {
    match GetMeta(sha, d, Identifier("", Some(RefFor(alias, TagName(name, tag), 0))))
    case Err(e) => Err(e)
    case Ok(m) =>
      match ReadBlob(sha, d, Identifier(m.hash, None), ByteRange(0, -1))
      case Err(e) => Err(e)
      case Ok((b, _)) => Ok(b)
  }

  lemma ManifestIsSound(sha: Sha256, d: Disk, data: Bytes, now: int)
    requires sha.Ideal() && Sound(sha, d)
    ensures StepOf(d, d, "") && (Blob(sha.content(data)) in d ==> d[Blob(sha.content(data))] == Data(data))
    ensures ReadMeta(d, sha.content(data)).Ok? ==> ReadMeta(d, sha.content(data)).value.length == |data|
    ensures var key := sha.content(data);
            var e := d[Blob(key) := Data(data)][Meta(key) := MetaDoc(ArtifactMeta(key, |data|, now))];
            Blob(key) !in d ==> Sound(sha, e) && StepOf(d, e, "")
  {
    hide RecordsUnderDigests;
    var key := sha.content(data);
    assert IsHex(key);
    RecordsStay(d, d[Blob(key) := Data(data)][Meta(key) := MetaDoc(ArtifactMeta(key, |data|, now))]);
  }

  lemma StoreManifestStep(sha: Sha256, d: Disk, data: Bytes, now: int)
    requires sha.Ideal() && Sound(sha, d)
    ensures var key := sha.content(data);
            var (e, res) := StoreManifest(sha, d, data, now);
            && Sound(sha, e) && StepOf(d, e, "")
            && Blob(key) in e && e[Blob(key)] == Data(data)
            && e == (if Blob(key) in d then d
                     else d[Blob(key) := Data(data)][Meta(key) := MetaDoc(ArtifactMeta(key, |data|, now))])
            && (res.Err? ==> res.error.Malformed?)
            && (Blob(key) !in d || ReadMeta(d, key) != Err(Malformed) ==> res.Ok?)
  {
    hide RecordsUnderDigests, Sound, StepOf;
    var key := sha.content(data);
    assert IsHex(key);
    CreateNet(sha, d, Identifier(key, None), Reader(data, false), |data|, Some(ArtifactMeta(key, |data|, now)), now);
    ManifestIsSound(sha, d, data, now);
  }
}
