/**
 * HashComputingArtifactStorage: artifacts of unknown hash are staged under a fresh key while they are
 * hashed, then moved to their digest. First one caller on its own, then any number of callers at once.
 */
module HashComputing {
  import opened Digests
  import opened Layout
  import opened Store
  import opened StoreAnswers
  import opened FileStorage
  import opened Publishing

  /** strings.EqualFold against a letter; the Kelvin sign folds to K. */
  predicate FoldsTo(c: char, upper: char)
    requires 'A' <= upper <= 'Z'
  {
    c == upper || c as int == upper as int + 32 || (upper == 'K' && c == '\U{212A}')
  }

  predicate IsUnknownHash(hash: string) {
    Utf8Length(hash) < 3 || (|hash| == 7 && forall i | 0 <= i < 7 :: FoldsTo(hash[i], "UNKNOWN"[i]))
  }

  /** A digest is never taken for an unknown hash. */
  lemma DigestsAreKnown(hash: string)
    requires IsHex(hash)
    ensures !IsUnknownHash(hash)
  {
    assert !FoldsTo(hash[0], "UNKNOWN"[0]);
  }

  /** The word "unknown", letter by letter, in any mixture of cases. */
  predicate SpellsUnknown(hash: string) {
    && |hash| == 7
    && hash[0] in {'u', 'U'} && hash[1] in {'n', 'N'} && hash[2] in {'k', 'K', '\U{212A}'} && hash[3] in {'n', 'N'}
    && hash[4] in {'o', 'O'} && hash[5] in {'w', 'W'} && hash[6] in {'n', 'N'}
  }

  /** No more than two bytes: nothing, one character below U+0800, or two of ASCII. */
  predicate IsTiny(hash: string) {
    hash == "" || (|hash| == 1 && hash[0] as int < 0x800) || (|hash| == 2 && hash[0] as int < 0x80 && hash[1] as int < 0x80)
  }

  /** Which hashes count as unknown, spelled out. */
  lemma UnknownHashesSpelledOut(hash: string)
    ensures IsUnknownHash(hash) <==> IsTiny(hash) || SpellsUnknown(hash)
  {
    var upper := "UNKNOWN";
    assert upper[0] == 'U' && upper[1] == 'N' && upper[2] == 'K' && upper[3] == 'N' && upper[4] == 'O' && upper[5] == 'W'
           && upper[6] == 'N';
    if |hash| in {1, 2} {
      assert Utf8Length(hash[1..]) == if |hash| == 1 then 0 else Utf8Length([hash[1]]);
    }
  }

  // One caller

  function CleanupTempHash(sha: Sha256, d: Disk, temp: string): Disk {
    if ReadMeta(d, temp).Ok? then Delete(sha, d, Identifier(temp, None)).0 else d
  }

  function HandleExistingHash(sha: Sha256, d: Disk, computed: string, temp: string): (Disk, Result<ArtifactMeta>) {
    var e := CleanupTempHash(sha, d, temp);
    match ReadMeta(e, computed)
    case Err(error) => (e, Err(error))
    case Ok(m) => (e, Ok(m.(hash := computed)))
  }

  function MoveToFinalHash(sha: Sha256, d: Disk, temp: string, computed: string): (Disk, Result<ArtifactMeta>) {
    var (e, moved) := Move(d, temp, computed);
    if moved.Err? then
      if ReadMeta(e, computed).Ok? then HandleExistingHash(sha, e, computed, temp)
      else (CleanupTempHash(sha, e, temp), Err(moved.error))
    else
      match ReadMeta(e, computed)
      case Err(error) => (e, Err(error))
      case Ok(m) => (e, Ok(m.(hash := computed)))
  }

  /** CreateArtifact for an unknown hash; the reference and the claimed hash of the identifier are ignored. */
  function CreateUnknown(sha: Sha256, d: Disk, temp: string, r: Reader, size: int, meta: Option<ArtifactMeta>,
                         now: int): (Disk, Result<ArtifactMeta>) {
    var staged := Create(sha, d, Identifier(temp, None), r, size, meta, now);
    match CreatePlan(sha, d, Identifier(temp, None), r, size, meta, now).result
    case Err(error) => (staged, Err(error))
    case Ok(_) =>
      var computed := sha.content(if r.Reader? then r.data else []);
      if ReadMeta(staged, computed).Ok? then HandleExistingHash(sha, staged, computed, temp)
      else MoveToFinalHash(sha, staged, temp, computed)
  }

  /**
   * A create of unknown hash succeeds exactly when the stream ends properly and the metadata names no
   * hash. It then answers with the digest and length of the streamed bytes, which are live under that
   * digest, the staging key is gone, and nothing published before has changed.
   */
  lemma CreateUnknownPublishes(sha: Sha256, d: Disk, temp: string, r: Reader, size: int, meta: Option<ArtifactMeta>,
                               now: int)
    requires sha.Ideal() && Sound(sha, d) && IsStagingKey(temp) && Gone(d, temp)
    ensures var (e, res) := CreateUnknown(sha, d, temp, r, size, meta, now);
            && (res.Ok? <==> r.Reader? && !r.fails && NamesNoOther(meta, temp))
            && (res.Ok? ==> Sound(sha, e) && Preserves(d, e) && Gone(e, temp) && Published(sha, e, r.data))
            && (res.Ok? ==> res.value.hash == sha.content(r.data) && res.value.length == |r.data|)
  {
    hide Sound, Preserves, StepOf, Published, Create, CreatePlan, Delete;
    StageOutcome(sha, d, temp, r, size, meta, now);
    if r.Reader? && !r.fails && NamesNoOther(meta, temp) {
      var staged := Create(sha, d, Identifier(temp, None), r, size, meta, now);
      var h := sha.content(r.data);
      if ReadMeta(staged, h).Ok? {
        DiscardStep(sha, staged, temp);
        ExistingIsPublished(sha, staged, CleanupTempHash(sha, staged, temp), temp, r.data);
        PreservesHere(d, staged, CleanupTempHash(sha, staged, temp), temp);
      } else {
        BlobRenameStep(sha, staged, temp, r.data);
        var half := Renamed(staged, Blob(temp), Blob(h));
        MetaRenameStep(sha, half, temp, r.data);
        PreservesHere(d, staged, half, temp);
        PreservesHere(d, half, Renamed(half, Meta(temp), Meta(h)), temp);
        assert ReadMeta(Renamed(half, Meta(temp), Meta(h)), h).Ok? by { PublishedIsReadable(sha, Renamed(half, Meta(temp), Meta(h)), r.data); }
      }
    }
  }

  lemma PublishedIsReadable(sha: Sha256, d: Disk, data: Bytes)
    requires Published(sha, d, data)
    ensures ReadMeta(d, sha.content(data)).Ok?
  {}

  lemma PreservesHere(d: Disk, e: Disk, f: Disk, own: string)
    requires Preserves(d, e) && StepOf(e, f, own)
    ensures Preserves(d, f)
  {
    PreservesIsTransitive(d, e, f);
  }

  /** Staging with metadata that names the staging key is staging with metadata that names no hash. */
  lemma StageOutcome(sha: Sha256, d: Disk, temp: string, r: Reader, size: int, meta: Option<ArtifactMeta>, now: int)
    requires sha.Ideal() && Sound(sha, d) && IsStagingKey(temp) && Gone(d, temp)
    ensures var e := Create(sha, d, Identifier(temp, None), r, size, meta, now);
            var res := CreatePlan(sha, d, Identifier(temp, None), r, size, meta, now).result;
            && (res.Ok? <==> r.Reader? && !r.fails && NamesNoOther(meta, temp))
            && (res.Ok? ==> Sound(sha, e) && Preserves(d, e) && Staged(e, temp, r.data))
  {
    StageAnyStep(sha, d, temp, r, size, meta, now);
  }

  /** Where metadata of the digest is readable, the artifact is there, and discarding the copy keeps both. */
  lemma ExistingIsPublished(sha: Sha256, d: Disk, e: Disk, temp: string, data: Bytes)
    requires sha.Ideal() && Sound(sha, d) && Sound(sha, e) && StepOf(d, e, temp)
    requires ReadMeta(d, sha.content(data)).Ok?
    ensures Published(sha, e, data)
    ensures ReadMeta(e, sha.content(data)).value.length == |data|
  {}

  /** CreateArtifact: `temp` is the staging key in case one is needed. */
  function HashCreate(sha: Sha256, d: Disk, id: Identifier, r: Reader, size: int, meta: Option<ArtifactMeta>, now: int,
                      temp: string): (Disk, Result<ArtifactMeta>) {
    if (id.reference.Some? && id.hash == "") || !IsUnknownHash(id.hash) then
      (Create(sha, d, id, r, size, meta, now), CreatePlan(sha, d, id, r, size, meta, now).result)
    else CreateUnknown(sha, d, temp, r, size, meta, now)
  }

  /** Staging under a fresh key, in one change of the disk. */
  lemma StagedNet(sha: Sha256, d: Disk, temp: string, r: Reader, size: int, meta: Option<ArtifactMeta>, now: int)
    requires IsStagingKey(temp) && Gone(d, temp)
    ensures var e := Create(sha, d, Identifier(temp, None), r, size, meta, now);
            var res := CreatePlan(sha, d, Identifier(temp, None), r, size, meta, now).result;
            if !NamesNoOther(meta, temp) then res == Err(HashMismatch) && e == d
            else if r.Nil? || r.fails then
              res == Err(if r.Nil? then NilReader else ReadFailed) && ChangesOnly(d, e, {Blob(temp)})
            else
              res.Ok? && e == d[Blob(temp) := Data(r.data)][Meta(temp) := MetaDoc(CreatedMeta(temp, |r.data|, meta, now))]
  {
    CreateNet(sha, d, Identifier(temp, None), r, size, meta, now);
  }

  /**
   * What a create of unknown hash answers and touches. Known content: the metadata that is there, and only
   * the trash changes. New content: its digest, length and time of creation, and only its two files appear.
   * A failure leaves at most a staged file.
   */
  lemma CreateUnknownAnswers(sha: Sha256, d: Disk, temp: string, r: Reader, size: int, meta: Option<ArtifactMeta>, now: int)
    requires sha.Ideal() && Sound(sha, d) && IsStagingKey(temp) && Gone(d, temp)
    ensures var (e, res) := CreateUnknown(sha, d, temp, r, size, meta, now);
            && (!NamesNoOther(meta, temp) ==> res == Err(HashMismatch) && e == d)
            && (NamesNoOther(meta, temp) && (r.Nil? || r.fails) ==>
                  res == Err(if r.Nil? then NilReader else ReadFailed) && ChangesOnly(d, e, {Blob(temp)}))
            && (NamesNoOther(meta, temp) && r.Reader? && !r.fails ==>
                  var h := sha.content(r.data);
                  var known := ReadMeta(d, h);
                  && (known.Ok? ==>
                        res == Ok(known.value.(hash := h)) && ChangesOnly(d, e, {TrashBlob(temp), TrashMeta(temp)}))
                  && (known.Err? ==>
                        && res == Ok(ArtifactMeta(h, |r.data|, if meta.Some? && meta.value.created != 0 then meta.value.created else now))
                        && ChangesOnly(d, e, {Blob(h), Meta(h)})))
  {
    hide Create, CreatePlan, Delete, Sound, StepOf, IsStagingKey;
    StagedNet(sha, d, temp, r, size, meta, now);
    if NamesNoOther(meta, temp) && r.Reader? && !r.fails {
      StageAnyStep(sha, d, temp, r, size, meta, now);
      var staged := Create(sha, d, Identifier(temp, None), r, size, meta, now);
      var h := sha.content(r.data);
      StagingKeysAreNotDigests(temp);
      assert IsHex(h);
      assert ReadMeta(staged, h) == ReadMeta(d, h);
      if ReadMeta(d, h).Ok? {
        DiscardStep(sha, staged, temp);
      }
    }
  }

  /**
   * Main result for one caller: whatever way a hash says that it is unknown, unless it is missing beside a
   * reference, a create that succeeds answers with the digest and length of the bytes it was given; they are
   * published under that digest; and nothing is stored under the word itself or anywhere else.
   */
  lemma UnknownWordsAreHashed(sha: Sha256, d: Disk, id: Identifier, r: Reader, size: int, meta: Option<ArtifactMeta>,
                              now: int, uuid: string)
    requires sha.Ideal() && Sound(sha, d) && IsName(uuid) && Gone(d, "temp-" + uuid)
    requires IsTiny(id.hash) || SpellsUnknown(id.hash)
    requires id.hash != "" || id.reference.None?
    ensures var temp := "temp-" + uuid;
            var (e, res) := HashCreate(sha, d, id, r, size, meta, now, TempKey(uuid));
            && (res.Ok? <==> r.Reader? && !r.fails && (meta.None? || meta.value.hash in {"", temp}))
            && SameAt(d, e, id.hash)
            && (res.Ok? ==>
                  var h := sha.content(r.data);
                  && res.value.hash == h && res.value.length == |r.data|
                  && Published(sha, e, r.data) && Sound(sha, e) && Preserves(d, e)
                  && ChangesOnly(d, e, {Blob(h), Meta(h), TrashBlob(temp), TrashMeta(temp)}))
            && (res.Err? ==> ChangesOnly(d, e, {Blob(temp)}))
  {
    hide Sound, Preserves, Published, CreateUnknown, TempKey, IsHex;
    TempKeyIsSpelled(uuid);
    UnknownHashesSpelledOut(id.hash);
    CreateUnknownPublishes(sha, d, TempKey(uuid), r, size, meta, now);
    CreateUnknownAnswers(sha, d, TempKey(uuid), r, size, meta, now);
    WordsAreNoKeys(id.hash, uuid);
    assert r.Reader? ==> IsHex(sha.content(r.data));
    var e := HashCreate(sha, d, id, r, size, meta, now, TempKey(uuid)).0;
    assert SameSlot(d, e, Blob(id.hash)) && SameSlot(d, e, Meta(id.hash));
  }

  lemma TempKeyIsSpelled(uuid: string)
    requires IsName(uuid)
    ensures TempKey(uuid) == "temp-" + uuid && IsStagingKey(TempKey(uuid))
  {}

  lemma WordsAreNoKeys(hash: string, uuid: string)
    requires IsTiny(hash) || SpellsUnknown(hash)
    ensures hash != "temp-" + uuid && !IsHex(hash)
  {
    assert ("temp-" + uuid)[0] == 't';
  }

  class HashComputingArtifactStorage {
    const storage: SimpleFileStorage

    constructor (storage: SimpleFileStorage)
      ensures this.storage == storage
    {
      this.storage := storage;
    }

    method CleanupTemp(temp: string)
      requires storage.Valid() && IsSafe(temp)
      modifies storage
      ensures storage.Valid()
      ensures storage.disk == CleanupTempHash(storage.sha, old(storage.disk), temp)
    {
      var found := storage.GetMeta(Identifier(temp, None));
      if found.Err? {
        return;
      }
      var _ := storage.DeleteArtifact(Identifier(temp, None));
    }

    method HandleExisting(computed: string, temp: string) returns (res: Result<ArtifactMeta>)
      requires storage.Valid() && IsSafe(temp) && IsSafe(computed)
      modifies storage
      ensures storage.Valid()
      ensures (storage.disk, res) == HandleExistingHash(storage.sha, old(storage.disk), computed, temp)
    {
      CleanupTemp(temp);
      var existing := storage.GetMeta(Identifier(computed, None));
      if existing.Err? {
        return existing;
      }
      return Ok(existing.value.(hash := computed));
    }

    method MoveToFinal(temp: string, computed: string) returns (res: Result<ArtifactMeta>)
      requires storage.Valid() && IsSafe(temp) && IsSafe(computed)
      modifies storage
      ensures storage.Valid()
      ensures (storage.disk, res) == MoveToFinalHash(storage.sha, old(storage.disk), temp, computed)
    {
      var moved := storage.Move(temp, computed);
      if moved.Err? {
        var existing := storage.GetMeta(Identifier(computed, None));
        if existing.Ok? {
          res := HandleExisting(computed, temp);
          return;
        }
        CleanupTemp(temp);
        return Err(moved.error);
      }
      var final := storage.GetMeta(Identifier(computed, None));
      if final.Err? {
        return final;
      }
      return Ok(final.value.(hash := computed));
    }

    method CreateArtifact(id: Identifier, r: Reader, size: int, meta: Option<ArtifactMeta>, now: int, uuid: string)
      returns (res: Result<ArtifactMeta>)
      requires storage.Valid() && IsName(uuid)
      requires IsUnknownHash(id.hash) || IsSafe(id.hash)
      requires meta.Some? ==> SafeOrEmpty(meta.value.hash)
      modifies storage
      ensures storage.Valid()
      ensures (storage.disk, res) == HashCreate(storage.sha, old(storage.disk), id, r, size, meta, now, TempKey(uuid))
      ensures (id.reference.Some? && id.hash == "") || !(IsTiny(id.hash) || SpellsUnknown(id.hash)) ==>
                && storage.disk == Create(storage.sha, old(storage.disk), id, r, size, meta, now)
                && res == CreatePlan(storage.sha, old(storage.disk), id, r, size, meta, now).result
    {
      hide Create, CreatePlan, IsUnknownHash, IsTiny, SpellsUnknown;
      UnknownHashesSpelledOut(id.hash);
      if (id.reference.Some? && id.hash == "") || !IsUnknownHash(id.hash) {
        res := storage.CreateArtifact(id, r, size, meta, now);
        return;
      }
      var temp := TempKey(uuid);
      var staged := storage.CreateArtifact(Identifier(temp, None), r, size, meta, now);
      if staged.Err? {
        return staged;
      }
      var computed := storage.sha.content(if r.Reader? then r.data else []);
      assert IsHex(computed);
      var existing := storage.GetMeta(Identifier(computed, None));
      if existing.Ok? {
        res := HandleExisting(computed, temp);
        return;
      }
      res := MoveToFinal(temp, computed);
    }
  }
}
