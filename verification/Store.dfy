/**
 * The storage as independent maps: what every operation of SimpleFileStorage does to the slots of the
 * layout. The class in FileStorage.dfy performs these operations on files and is proved against them.
 */
module Store {
  import opened Digests
  import opened Layout
  import opened Ranges

  datatype Option<+T> = None | Some(value: T)

  datatype Result<+T> = Ok(value: T) | Err(error: Error)

  datatype Error =
    | InvalidIdentifier
    | ReferenceNotFound
    | MissingMetaHash
    | HashMismatch
    | HashConflict(existing: int, provided: int)
    | MetaAbsent
    | Malformed
    | BlobAbsent
    | NilReader
    | ReadFailed
    | TagTooLong
    | TrashOccupied
    | InvalidOffset
    | ShortWrite
    | LockTimeout
    | UnsupportedDigest
    | DigestMismatch
    | SessionNotFound
    | NameMismatch
    | SessionClosed

  datatype Reference = Reference(name: string, registry: string, timestamp: int, description: string,
                                 tags: map<string, string>)

  datatype Identifier = Identifier(hash: string, reference: Option<Reference>)

  datatype ArtifactMeta = ArtifactMeta(hash: string, length: int, created: int)

  /** An io.Reader: nil, or a stream that yields `data` and then ends, or fails. */
  datatype Reader = Nil | Reader(data: Bytes, fails: bool)

  /** The content of a file; `Empty` is a file created but not yet written. `Directory` is no file at all. */
  datatype Content =
    | Empty
    | Data(bytes: Bytes)
    | Text(hash: string)
    | MetaDoc(meta: ArtifactMeta)
    | RefDoc(reference: Reference)
    | Directory

  type Disk = map<Slot, Content>

  // Steps

  /**
   * One file-system call; writing a `Directory` is os.MkdirAll, and `SweepShard` is the directory rename at
   * the end of moveToTrash.
   */
  datatype Step =
    | Write(slot: Slot, content: Content)
    | Rename(from: Slot, to: Slot)
    | Remove(slot: Slot)
    | SweepShard(hash: string)

  function Apply(d: Disk, step: Step): Disk {
    match step
    case Write(s, c) => d[s := c]
    case Rename(s, t) => Renamed(d, s, t)
    case Remove(s) => d - {s}
    case SweepShard(hash) => Sweep(d, hash)
  }

  /** os.Rename: replaces the target; nothing happens when the source is missing. */
  function Renamed(d: Disk, s: Slot, t: Slot): Disk {
    if s in d && s != t then (d - {s})[t := d[s]] else d
  }

  predicate SameSlot(d: Disk, e: Disk, s: Slot) {
    (s in d <==> s in e) && (s in d ==> d[s] == e[s])
  }

  function Run(d: Disk, steps: seq<Step>): Disk
    decreases |steps|
  {
    if steps == [] then d else Run(Apply(d, steps[0]), steps[1..])
  }

  lemma {:induction false} RunConcat(d: Disk, a: seq<Step>, b: seq<Step>)
    ensures Run(d, a + b) == Run(Run(d, a), b)
    decreases |a|
  {
    if a == [] {
      assert a + b == b;
    } else {
      assert (a + b)[0] == a[0] && (a + b)[1..] == a[1..] + b;
      RunConcat(Apply(d, a[0]), a[1..], b);
    }
  }

  lemma RunTwo(d: Disk, a: Step, b: Step)
    ensures Run(d, [a, b]) == Apply(Apply(d, a), b)
  {
    assert [a, b][1..] == [b] && [b][1..] == [];
    assert Run(Apply(d, a), [b]) == Run(Apply(Apply(d, a), b), []);
  }

  lemma RunThree(d: Disk, a: Step, b: Step, c: Step)
    ensures Run(d, [a, b, c]) == Apply(Apply(Apply(d, a), b), c)
  {
    assert [a, b, c][1..] == [b, c];
    RunTwo(Apply(d, a), b, c);
  }

  // References

  function RefHash(sha: Sha256, name: string, registry: string): string {
    sha.text(registry + "::" + name)
  }

  function KeyOf(sha: Sha256, ref: Reference): string {
    RefHash(sha, ref.name, ref.registry)
  }

  /** len of a Go string: the number of bytes of its UTF-8 encoding. */
  function Utf8Length(s: string): (n: nat)
    ensures |s| <= n <= 4 * |s|
    ensures n == |s| <==> forall i | 0 <= i < |s| :: s[i] as int < 0x80
  {
    if s == "" then 0
    else
      (if s[0] as int < 0x80 then 1 else if s[0] as int < 0x800 then 2 else if s[0] as int < 0x1_0000 then 3 else 4)
      + Utf8Length(s[1..])
  }

  predicate TagsOk(ref: Reference) {
    forall key | key in ref.tags :: Utf8Length(key) <= 128 && Utf8Length(ref.tags[key]) <= 1024
  }

  /** The ref hashes of the records in the metaref directory of `hash`. */
  function RefsOf(d: Disk, hash: string): set<string> {
    set s | s in d && s.Record? && s.hash == hash :: s.refHash
  }

  function Resolve(sha: Sha256, d: Disk, id: Identifier): Result<string> {
    if id.hash != "" then Ok(id.hash)
    else if id.reference.Some? then
      var s := Lookup(KeyOf(sha, id.reference.value));
      if s in d && d[s].Text? then Ok(d[s].hash) else Err(ReferenceNotFound)
    else Err(InvalidIdentifier)
  }

  function ReadMeta(d: Disk, hash: string): Result<ArtifactMeta> {
    if Meta(hash) !in d then Err(MetaAbsent)
    else if d[Meta(hash)].MetaDoc? then Ok(d[Meta(hash)].meta)
    else Err(Malformed)
  }

  function GetMeta(sha: Sha256, d: Disk, id: Identifier): (r: Result<ArtifactMeta>)
    ensures r.Err? ==> r.error in {ReferenceNotFound, InvalidIdentifier, MetaAbsent, Malformed}
  {
    match Resolve(sha, d, id)
    case Ok(hash) => ReadMeta(d, hash)
    case Err(e) => Err(e)
  }

  function GetReference(sha: Sha256, d: Disk, hash: string, name: string, registry: string): Result<Reference> {
    var s := Record(hash, RefHash(sha, name, registry));
    if s !in d then Err(ReferenceNotFound)
    else if d[s].RefDoc? then Ok(d[s].reference)
    else Err(Malformed)
  }

  // CreateArtifact

  /** The steps an operation performs, in order, and its outcome. */
  datatype Plan = Plan(steps: seq<Step>, result: Result<ArtifactMeta>)

  function Target(id: Identifier, meta: Option<ArtifactMeta>): Result<string> {
    if id.hash != "" then
      if meta.Some? && meta.value.hash != "" && id.hash != meta.value.hash then Err(HashMismatch) else Ok(id.hash)
    else if id.reference.Some? then
      if meta.None? || meta.value.hash == "" then Err(MissingMetaHash) else Ok(meta.value.hash)
    else Err(InvalidIdentifier)
  }

  function RecordSteps(hash: string, k: string, ref: Reference): seq<Step> {
    [Write(RecordShard(Prefix(hash)), Directory), Write(Record(hash, k), Empty), Write(Record(hash, k), RefDoc(ref))]
  }

  /** Lookup first, then tag validation, then the record and the directories above it. */
  function AttachSteps(sha: Sha256, hash: string, reference: Option<Reference>): seq<Step> {
    match reference
    case None => []
    case Some(ref) =>
      var k := KeyOf(sha, ref);
      [Write(Lookup(k), Text("")), Write(Lookup(k), Text(hash))] +
      if TagsOk(ref) then RecordSteps(hash, k, ref) else []
  }

  predicate Attachable(reference: Option<Reference>) {
    reference.Some? ==> TagsOk(reference.value)
  }

  function CreatedMeta(hash: string, size: int, meta: Option<ArtifactMeta>, now: int): ArtifactMeta {
    ArtifactMeta(hash, size, if meta.Some? && meta.value.created != 0 then meta.value.created else now)
  }

  function DataSteps(hash: string, data: Bytes): seq<Step> {
    [Write(Blob(hash), Data([])), Write(Blob(hash), Data(data))]
  }

  function MetaSteps(m: ArtifactMeta): seq<Step> {
    [Write(Meta(m.hash), Empty), Write(Meta(m.hash), MetaDoc(m))]
  }

  function CreatePlan(sha: Sha256, d: Disk, id: Identifier, r: Reader, size: int, meta: Option<ArtifactMeta>,
                      now: int): Plan {
    match Target(id, meta)
    case Err(e) => Plan([], Err(e))
    case Ok(hash) =>
      var attach := AttachSteps(sha, hash, id.reference);
      if Blob(hash) in d then
        match ExistingMeta(sha, d, id, hash, now)
        case Err(e) => Plan([], Err(e))
        case Ok(m) =>
          if size != -1 && size != m.length then Plan([], Err(HashConflict(m.length, size)))
          else Plan(attach, if Attachable(id.reference) then Ok(m) else Err(TagTooLong))
      else if r.Nil? then Plan([Write(Blob(hash), Data([]))], Err(NilReader))
      else if r.fails then Plan(DataSteps(hash, r.data), Err(ReadFailed))
      else
        var m := CreatedMeta(hash, |r.data|, meta, now);
        Plan(DataSteps(hash, r.data) + MetaSteps(m) + attach,
             if Attachable(id.reference) then Ok(m) else Err(TagTooLong))
  }

  /** The metadata of an artifact that is there: as stored, or made from the file when it has none. */
  function ExistingMeta(sha: Sha256, d: Disk, id: Identifier, hash: string, now: int): Result<ArtifactMeta>
    requires Blob(hash) in d
  {
    match GetMeta(sha, d, id)
    case Err(MetaAbsent) => Ok(ArtifactMeta(hash, |BytesAt(d, hash)|, now))
    case other => other
  }

  function BytesAt(d: Disk, hash: string): Bytes
    requires Blob(hash) in d
  {
    if d[Blob(hash)].Data? then d[Blob(hash)].bytes else []
  }

  function Create(sha: Sha256, d: Disk, id: Identifier, r: Reader, size: int, meta: Option<ArtifactMeta>,
                  now: int): Disk {
    Run(d, CreatePlan(sha, d, id, r, size, meta, now).steps)
  }

  /** The record of `ref` under `hash`, in the shard directory that it needs. */
  function WithRecord(d: Disk, hash: string, k: string, ref: Reference): Disk {
    d[RecordShard(Prefix(hash)) := Directory][Record(hash, k) := RefDoc(ref)]
  }

  /** The net effect of attaching a reference: lookup and record, or the lookup alone when a tag is too long. */
  function Attach(sha: Sha256, d: Disk, hash: string, reference: Option<Reference>): Disk {
    match reference
    case None => d
    case Some(ref) =>
      var k := KeyOf(sha, ref);
      if TagsOk(ref) then WithRecord(d[Lookup(k) := Text(hash)], hash, k, ref) else d[Lookup(k) := Text(hash)]
  }

  lemma RunAttach(sha: Sha256, d: Disk, hash: string, reference: Option<Reference>)
    ensures Run(d, AttachSteps(sha, hash, reference)) == Attach(sha, d, hash, reference)
  {
    if reference.Some? {
      var ref := reference.value;
      var k := KeyOf(sha, ref);
      var lookup := [Write(Lookup(k), Text("")), Write(Lookup(k), Text(hash))];
      var record := RecordSteps(hash, k, ref);
      RunTwo(d, lookup[0], lookup[1]);
      var d1 := Run(d, lookup);
      assert d1 == d[Lookup(k) := Text(hash)];
      if TagsOk(ref) {
        RunConcat(d, lookup, record);
        RunThree(d1, record[0], record[1], record[2]);
        assert Run(d1, record) == WithRecord(d1, hash, k, ref);
      } else {
        assert AttachSteps(sha, hash, reference) == lookup;
      }
    }
  }

  lemma RunData(d: Disk, hash: string, data: Bytes, m: ArtifactMeta)
    requires m.hash == hash
    ensures Run(d, DataSteps(hash, data)) == d[Blob(hash) := Data(data)]
    ensures Run(d, DataSteps(hash, data) + MetaSteps(m)) == d[Blob(hash) := Data(data)][Meta(hash) := MetaDoc(m)]
  {
    RunTwo(d, DataSteps(hash, data)[0], DataSteps(hash, data)[1]);
    var d1 := Run(d, DataSteps(hash, data));
    assert d1 == d[Blob(hash) := Data(data)];
    RunConcat(d, DataSteps(hash, data), MetaSteps(m));
    RunTwo(d1, MetaSteps(m)[0], MetaSteps(m)[1]);
  }

  /** CreateArtifact as one change of the disk, case by case. */
  lemma CreateNet(sha: Sha256, d: Disk, id: Identifier, r: Reader, size: int, meta: Option<ArtifactMeta>, now: int)
    ensures var after, res := Create(sha, d, id, r, size, meta, now), CreatePlan(sha, d, id, r, size, meta, now).result;
            match Target(id, meta)
            case Err(e) => after == d && res == Err(e)
            case Ok(hash) =>
              if Blob(hash) in d then
                if res.Ok? || res == Err(TagTooLong) then after == Attach(sha, d, hash, id.reference) else after == d
              else if r.Nil? then after == d[Blob(hash) := Data([])]
              else if r.fails then after == d[Blob(hash) := Data(r.data)]
              else after == Attach(sha, d[Blob(hash) := Data(r.data)]
                                         [Meta(hash) := MetaDoc(CreatedMeta(hash, |r.data|, meta, now))], hash, id.reference)
  {
    match Target(id, meta)
    case Err(_) =>
    case Ok(hash) =>
      RunAttach(sha, d, hash, id.reference);
      if Blob(hash) !in d {
        if r.Nil? {
          var step := Write(Blob(hash), Data([]));
          assert [step][1..] == [];
          assert Run(d, [step]) == Run(Apply(d, step), []);
        } else {
          var m := CreatedMeta(hash, |r.data|, meta, now);
          RunData(d, hash, r.data, m);
          RunConcat(d, DataSteps(hash, r.data) + MetaSteps(m), AttachSteps(sha, hash, id.reference));
          RunAttach(sha, Run(d, DataSteps(hash, r.data) + MetaSteps(m)), hash, id.reference);
        }
      }
  }

  // ReadBlob and UpdateBlob

  function ReadBlob(sha: Sha256, d: Disk, id: Identifier, req: ByteRange): Result<(Bytes, ByteRange)> {
    match Resolve(sha, d, id)
    case Err(e) => Err(e)
    case Ok(hash) =>
      if Blob(hash) !in d then Err(BlobAbsent)
      else var b := BytesAt(d, hash); Ok((Delivered(b, req), ActualRange(|b|, req)))
  }

  /** The file after UpdateBlob; the metadata keeps the old length. */
  function UpdateBlob(sha: Sha256, d: Disk, id: Identifier, req: ByteRange, r: Reader): (Disk, Result<()>)
    requires r.Reader?
  {
    match Resolve(sha, d, id)
    case Err(e) => (d, Err(e))
    case Ok(hash) =>
      if Blob(hash) !in d then (d, Err(BlobAbsent))
      else if req.offset < 0 then (d, Err(InvalidOffset))
      else
        (d[Blob(hash) := Data(WriteAt(BytesAt(d, hash), req.offset, Copied(req.length, r.data)))],
         UpdateOutcome(req.length, r))
  }

  function UpdateOutcome(length: int, r: Reader): Result<()>
    requires r.Reader?
  {
    if 0 < length <= |r.data| then Ok(())
    else if r.fails then Err(ReadFailed)
    else if length > 0 then Err(ShortWrite)
    else Ok(())
  }

  // DeleteArtifact

  predicate SameShard(g: string, h: string) {
    |g| >= 2 && |h| >= 2 && g[..2] == h[..2]
  }

  /** What lies in the shard directory of `hash`: the directory and all its records, whoever they belong to. */
  predicate InShard(s: Slot, hash: string) {
    (s.Record? && SameShard(s.hash, hash)) || s == RecordShard(Prefix(hash))
  }

  function ShardSlots(d: Disk, hash: string): set<Slot> {
    set s | s in d && InShard(s, hash)
  }

  function Swept(hash: string, s: Slot): Slot
    requires InShard(s, hash)
  {
    if s.Record? then TrashRecord(hash, s.hash[2..], s.refHash) else TrashDir(hash)
  }

  function Unswept(hash: string, t: Slot): Slot {
    if t.TrashRecord? then Record(Prefix(hash) + t.rest, t.refHash) else RecordShard(Prefix(hash))
  }

  lemma UnsweptSwept(hash: string, s: Slot)
    requires InShard(s, hash)
    ensures Unswept(hash, Swept(hash, s)) == s
  {
    assert s.Record? ==> hash[..2] + s.hash[2..] == s.hash;
  }

  /** Renaming the shard directory of `hash` to the trash directory of `hash`. */
  function Sweep(d: Disk, hash: string): Disk {
    var doomed := ShardSlots(d, hash);
    var swept := set s | s in doomed :: Swept(hash, s);
    (d - doomed) + map t | t in swept ::
      (assert Unswept(hash, t) in doomed by {
         var s :| s in doomed && t == Swept(hash, s);
         UnsweptSwept(hash, s);
       }
       d[Unswept(hash, t)])
  }

  /**
   * Blob, metadata, then the shard directory, if there is one. os.Rename refuses to replace a directory that
   * exists, empty or not.
   */
  function MoveToTrash(d: Disk, hash: string): (Disk, Result<()>) {
    var moved := Renamed(Renamed(d, Blob(hash), TrashBlob(hash)), Meta(hash), TrashMeta(hash));
    if RecordShard(Prefix(hash)) !in moved then (moved, Ok(()))
    else if TrashDir(hash) in moved then (moved, Err(TrashOccupied))
    else (Sweep(moved, hash), Ok(()))
  }

  function DropReference(sha: Sha256, d: Disk, hash: string, ref: Reference): Disk {
    d - {Lookup(KeyOf(sha, ref)), Record(hash, KeyOf(sha, ref))}
  }

  predicate IsReadable(d: Disk, hash: string, k: string) {
    Record(hash, k) in d && d[Record(hash, k)].RefDoc?
  }

  /** Every readable record of `hash` goes, and with it the lookup of the same reference. */
  function DropAllReferences(d: Disk, hash: string): Disk {
    map s | s in d && !(s.Record? && s.hash == hash && d[s].RefDoc?)
            && !(s.Lookup? && IsReadable(d, hash, s.refHash)) :: d[s]
  }

  function Delete(sha: Sha256, d: Disk, id: Identifier): (Disk, Result<()>) {
    match Resolve(sha, d, id)
    case Err(e) => (d, Err(e))
    case Ok(hash) =>
      if Blob(hash) !in d then (d, Err(BlobAbsent))
      else if id.reference.Some? && GetReference(sha, d, hash, id.reference.value.name, id.reference.value.registry).Err? then
        (d, Err(ReferenceNotFound))
      else
        var rest := if id.reference.Some? then DropReference(sha, d, hash, id.reference.value)
                    else DropAllReferences(d, hash);
        if RefsOf(rest, hash) == {} then MoveToTrash(rest, hash) else (rest, Ok(()))
  }

  // UpdateReference and Move

  function UpdateReference(sha: Sha256, d: Disk, hash: string, ref: Reference): (Disk, Result<Reference>) {
    match GetReference(sha, d, hash, ref.name, ref.registry)
    case Err(e) => (d, Err(e))
    case Ok(current) =>
      var updated := current.(description := ref.description, tags := ref.tags);
      if TagsOk(updated) then (WithRecord(d, hash, KeyOf(sha, updated), updated), Ok(updated))
      else (d, Err(TagTooLong))
  }

  function Move(d: Disk, src: string, dst: string): (Disk, Result<()>) {
    if Blob(src) !in d then (d, Err(BlobAbsent))
    else (Renamed(Renamed(d, Blob(src), Blob(dst)), Meta(src), Meta(dst)), Ok(()))
  }

  predicate SafeOrEmpty(hash: string) {
    hash == "" || IsSafe(hash)
  }

  predicate SafeId(id: Identifier) {
    SafeOrEmpty(id.hash)
  }

  // Well-formed disks

  predicate HasParent(d: Disk, s: Slot) {
    && (s.Record? ==> RecordShard(Prefix(s.hash)) in d)
    && (s.TrashRecord? ==> TrashDir(s.dead) in d)
  }

  ghost predicate HasParents(d: Disk) {
    forall s | s in d :: HasParent(d, s)
  }

  /**
   * Lookups and metadata name safe hashes, every record is filed under its own registry and name, and the
   * directories above live and trashed records exist.
   */
  ghost predicate WellFiled(sha: Sha256, d: Disk) {
    && (forall s | s in d :: IsSafeSlot(s))
    && HasParents(d)
    && (forall k | Lookup(k) in d :: d[Lookup(k)].Text? && IsSafe(d[Lookup(k)].hash))
    && (forall h | Meta(h) in d && d[Meta(h)].MetaDoc? :: IsSafe(d[Meta(h)].meta.hash))
    && (forall h, k | Record(h, k) in d && d[Record(h, k)].RefDoc? :: KeyOf(sha, d[Record(h, k)].reference) == k)
  }
}
