/**
 * SimpleFileStorage on files: every operation works on paths, one file-system call after the other, and
 * is proved to do to the slots of the layout exactly what Store.dfy says.
 */
module FileStorage {
  import opened Digests
  import opened Layout
  import opened Ranges
  import opened Store
  import opened StoreLaws

  type Files = map<Path, Content>

  /**
   * The files are those of the disk, each at the path of its slot, and there are no others; the directories
   * above live and trashed records are there.
   */
  ghost predicate Represents(base: Path, files: Files, d: Disk) {
    && HasParents(d)
    && (forall s | s in d :: IsSafeSlot(s) && PathOf(base, s) in files && files[PathOf(base, s)] == d[s])
    && (forall p | p in files :: exists s :: s in d && PathOf(base, s) == p)
  }

  lemma FileIsThere(base: Path, files: Files, d: Disk, s: Slot)
    requires Represents(base, files, d) && IsSafeSlot(s)
    ensures PathOf(base, s) in files <==> s in d
    ensures s in d ==> files[PathOf(base, s)] == d[s]
  {
    hide PathOf;
    if PathOf(base, s) in files {
      var t :| t in d && PathOf(base, t) == PathOf(base, s);
      NoPathIsAncestorOfAnother(base, s, t);
    }
  }

  lemma PathsDiffer(base: Path, d: Disk, s: Slot)
    requires IsSafeSlot(s) && forall t | t in d :: IsSafeSlot(t)
    ensures forall t | t in d :: PathOf(base, t) == PathOf(base, s) ==> t == s
  {
    hide PathOf;
    forall t | t in d && PathOf(base, t) == PathOf(base, s) ensures t == s {
      NoPathIsAncestorOfAnother(base, s, t);
    }
  }

  lemma WriteRepresents(base: Path, files: Files, d: Disk, s: Slot, c: Content)
    requires Represents(base, files, d) && IsSafeSlot(s) && HasParent(d, s)
    ensures Represents(base, files[PathOf(base, s) := c], d[s := c])
  {
    hide PathOf;
    PathsDiffer(base, d, s);
    assert forall t | t in d[s := c] :: HasParent(d, t) && HasParent(d[s := c], t);
    var after := files[PathOf(base, s) := c];
    forall p | p in after ensures exists t :: t in d[s := c] && PathOf(base, t) == p {
      if p == PathOf(base, s) {
        assert s in d[s := c];
      } else {
        var t :| t in d && PathOf(base, t) == p;
        assert t in d[s := c];
      }
    }
  }

  lemma RemoveRepresents(base: Path, files: Files, d: Disk, s: Slot)
    requires Represents(base, files, d) && IsSafeSlot(s) && IsFile(s)
    ensures Represents(base, files - {PathOf(base, s)}, d - {s})
  {
    hide PathOf;
    PathsDiffer(base, d, s);
    assert forall t | t in d - {s} :: HasParent(d, t) && HasParent(d - {s}, t);
    forall p | p in files - {PathOf(base, s)} ensures exists t :: t in d - {s} && PathOf(base, t) == p {
      var t :| t in d && PathOf(base, t) == p;
      assert t in d - {s};
    }
  }

  // Renaming a directory

  function DirFiles(files: Files, dir: Path): set<Path> {
    set p | p in files && dir <= p
  }

  function Rebased(p: Path, src: Path, dst: Path): Path
    requires src <= p
  {
    dst + p[|src|..]
  }

  lemma RebasedBack(p: Path, src: Path, dst: Path)
    requires src <= p
    ensures dst <= Rebased(p, src, dst) && Rebased(Rebased(p, src, dst), dst, src) == p
  {}

  function RenamedDir(files: Files, src: Path, dst: Path): Files {
    var inside := DirFiles(files, src);
    var moved := set p | p in inside :: Rebased(p, src, dst);
    (files - inside) + map q | q in moved ::
      (assert dst <= q && Rebased(q, dst, src) in inside by {
         var p :| p in inside && q == Rebased(p, src, dst);
         RebasedBack(p, src, dst);
       }
       files[Rebased(q, dst, src)])
  }

  lemma ShardHoldsItsRecords(base: Path, s: Slot, hash: string)
    requires IsSafeSlot(s) && IsSafe(hash)
    ensures ShardDir(base, hash) == PathOf(base, RecordShard(Prefix(hash)))
    ensures TrashRecordDir(base, hash) == PathOf(base, TrashDir(hash))
    ensures ShardDir(base, hash) <= PathOf(base, s) <==> InShard(s, hash)
    ensures InShard(s, hash) ==>
              PathOf(base, Swept(hash, s)) == Rebased(PathOf(base, s), ShardDir(base, hash), TrashRecordDir(base, hash))
  {
    PathIsRelative(base, s);
    DirsArePlain(base, hash);
    PathIsRelative(base, RecordShard(Prefix(hash)));
    PathIsRelative(base, TrashDir(hash));
    var dir, p, n := ShardDir(base, hash), PathOf(base, s), |base|;
    assert p[n..] == Relative(s);
    assert p[n] == Relative(s)[0] && p[n + 1] == Relative(s)[1];
    assert dir[n] == "metaref" && dir[n + 1] == hash[..2];
    assert dir <= p ==> dir[n] == p[n] && dir[n + 1] == p[n + 1];
    if InShard(s, hash) {
      assert dir == p[..n + 2];
      PathIsRelative(base, Swept(hash, s));
      assert s.Record? ==> p[n + 2..] == [s.hash[2..], s.refHash];
    }
  }

  /** The trash directory is not there, and so nothing lies in it. */
  predicate IsUntrashed(d: Disk, hash: string) {
    TrashDir(hash) !in d && forall t | t in d :: !(t.TrashRecord? && t.dead == hash)
  }

  lemma MissingDirIsEmpty(d: Disk, hash: string)
    requires HasParents(d) && TrashDir(hash) !in d
    ensures IsUntrashed(d, hash)
  {
    forall t | t in d ensures !(t.TrashRecord? && t.dead == hash) {
      assert HasParent(d, t);
    }
  }

  /** The directory rename of moveToTrash is the sweep of the whole shard. */
  lemma SweepRepresents(base: Path, files: Files, d: Disk, hash: string)
    requires Represents(base, files, d) && IsSafe(hash)
    requires RecordShard(Prefix(hash)) in d && TrashDir(hash) !in d
    ensures Represents(base, RenamedDir(files, ShardDir(base, hash), TrashRecordDir(base, hash)), Sweep(d, hash))
  {
    hide PathOf, ShardDir, TrashRecordDir, IsSafe, IsSafeSlot, HasParents;
    MissingDirIsEmpty(d, hash);
    SweepIsSafe(d, hash);
    var after, d' := RenamedDir(files, ShardDir(base, hash), TrashRecordDir(base, hash)), Sweep(d, hash);
    forall s | s in d' ensures IsSafeSlot(s) && PathOf(base, s) in after && after[PathOf(base, s)] == d'[s] {
      if s in d {
        SweptElsewhere(base, files, d, hash, s);
      } else {
        var o :| o in ShardSlots(d, hash) && s == Swept(hash, o);
        SweptFile(base, files, d, hash, o);
      }
    }
    forall p | p in after ensures exists s :: s in d' && PathOf(base, s) == p {
      SweptSource(base, files, d, hash, p);
    }
  }

  lemma SweptSource(base: Path, files: Files, d: Disk, hash: string, p: Path)
    requires Represents(base, files, d) && IsSafe(hash)
    requires p in RenamedDir(files, ShardDir(base, hash), TrashRecordDir(base, hash))
    ensures exists s :: s in Sweep(d, hash) && PathOf(base, s) == p
  {
    hide PathOf, ShardDir, TrashRecordDir, IsSafe, IsSafeSlot, HasParents;
    var src, dst := ShardDir(base, hash), TrashRecordDir(base, hash);
    if p in files && !(src <= p) {
      var s :| s in d && PathOf(base, s) == p;
      ShardHoldsItsRecords(base, s, hash);
      assert s in Sweep(d, hash);
    } else {
      var q :| q in DirFiles(files, src) && p == Rebased(q, src, dst);
      var s :| s in d && PathOf(base, s) == q;
      ShardHoldsItsRecords(base, s, hash);
      assert Swept(hash, s) in Sweep(d, hash);
    }
  }

  lemma SweptElsewhere(base: Path, files: Files, d: Disk, hash: string, s: Slot)
    requires Represents(base, files, d) && IsSafe(hash) && IsUntrashed(d, hash)
    requires s in d && s in Sweep(d, hash)
    ensures var after := RenamedDir(files, ShardDir(base, hash), TrashRecordDir(base, hash));
            IsSafeSlot(s) && PathOf(base, s) in after && after[PathOf(base, s)] == Sweep(d, hash)[s]
  {
    hide PathOf, HasParents;
    var src, dst := ShardDir(base, hash), TrashRecordDir(base, hash);
    ShardHoldsItsRecords(base, s, hash);
    forall q | q in DirFiles(files, src) ensures Rebased(q, src, dst) != PathOf(base, s) {
      var o :| o in d && PathOf(base, o) == q;
      ShardHoldsItsRecords(base, o, hash);
      assert Swept(hash, o) != s;
      NoPathIsAncestorOfAnother(base, Swept(hash, o), s);
    }
  }

  lemma SweptFile(base: Path, files: Files, d: Disk, hash: string, o: Slot)
    requires Represents(base, files, d) && IsSafe(hash)
    requires o in ShardSlots(d, hash)
    ensures var after := RenamedDir(files, ShardDir(base, hash), TrashRecordDir(base, hash));
            var s := Swept(hash, o);
            IsSafeSlot(s) && PathOf(base, s) in after && after[PathOf(base, s)] == Sweep(d, hash)[s]
  {
    hide PathOf, HasParents;
    var src, dst := ShardDir(base, hash), TrashRecordDir(base, hash);
    ShardHoldsItsRecords(base, o, hash);
    UnsweptSwept(hash, o);
    RebasedBack(PathOf(base, o), src, dst);
    assert PathOf(base, o) in DirFiles(files, src);
  }

  // Listing a metaref directory

  function NamesIn(files: Files, dir: Path): set<string> {
    set p | p in files && |p| == |dir| + 1 && dir <= p :: p[|dir|]
  }

  lemma NamesAreRefs(base: Path, files: Files, d: Disk, hash: string)
    requires Represents(base, files, d) && IsSafe(hash)
    ensures NamesIn(files, RecordDir(base, hash)) == RefsOf(d, hash)
  {
    var dir := RecordDir(base, hash);
    DirsArePlain(base, hash);
    forall k | k in RefsOf(d, hash) ensures k in NamesIn(files, dir) {
      var p := PathOf(base, Record(hash, k));
      PathIsRelative(base, Record(hash, k));
      assert p[..|dir|] == dir && p[|dir|] == k;
    }
    forall k | k in NamesIn(files, dir) ensures k in RefsOf(d, hash) {
      var p :| p in files && |p| == |dir| + 1 && dir <= p && p[|dir|] == k;
      var s :| s in d && PathOf(base, s) == p;
      RecordsOnlyInRecordDirs(base, s, hash);
    }
  }

  lemma RecordsOnlyInRecordDirs(base: Path, s: Slot, hash: string)
    requires IsSafeSlot(s) && IsSafe(hash)
    requires RecordDir(base, hash) <= PathOf(base, s)
    ensures |PathOf(base, s)| == |RecordDir(base, hash)| + 1
    ensures s.Record? && s.hash == hash && PathOf(base, s)[|RecordDir(base, hash)|] == s.refHash
  {
    DirsArePlain(base, hash);
    PathIsRelative(base, s);
    var dir, p, n := RecordDir(base, hash), PathOf(base, s), |base|;
    assert p[n..] == Relative(s);
    assert dir[n] == p[n] && dir[n + 1] == p[n + 1] && dir[n + 2] == p[n + 2];
    assert p[n] == Relative(s)[0] && p[n + 1] == Relative(s)[1] && p[n + 2] == Relative(s)[2];
    assert s.Record?;
    SplitIsInjective(s.hash, hash);
    assert p[n + 3] == Relative(s)[3];
  }

  class SimpleFileStorage {
    const base: Path
    const sha: Sha256
    var files: Files
    ghost var disk: Disk
    ghost var trace: seq<Step>

    ghost predicate Valid()
      reads this
    {
      sha.Ideal() && Represents(base, files, disk) && WellFiled(sha, disk)
    }

    constructor (base: Path, sha: Sha256)
      requires sha.Ideal()
      ensures Valid() && disk == map[] && trace == [] && this.base == base && this.sha == sha
    {
      this.base := base;
      this.sha := sha;
      files, disk, trace := map[], map[], [];
    }

    // File-system calls. The slot is the ghost name of the path.

    /** os.Create and os.WriteFile need the directory above the file; os.MkdirAll writes a `Directory`. */
    method WriteFile(path: Path, content: Content, ghost slot: Slot)
      requires Represents(base, files, disk) && IsSafeSlot(slot) && path == PathOf(base, slot) && HasParent(disk, slot)
      modifies this
      ensures Represents(base, files, disk)
      ensures disk == old(disk)[slot := content] && trace == old(trace) + [Write(slot, content)]
    {
      WriteRepresents(base, files, disk, slot, content);
      files := files[path := content];
      disk := disk[slot := content];
      trace := trace + [Write(slot, content)];
    }

    method RemoveFile(path: Path, ghost slot: Slot)
      requires Represents(base, files, disk) && IsSafeSlot(slot) && IsFile(slot) && path == PathOf(base, slot)
      modifies this
      ensures Represents(base, files, disk)
      ensures disk == old(disk) - {slot} && trace == old(trace) + [Remove(slot)]
    {
      RemoveRepresents(base, files, disk, slot);
      files := files - {path};
      disk := disk - {slot};
      trace := trace + [Remove(slot)];
    }

    method RenameFile(src: Path, dst: Path, ghost from: Slot, ghost to: Slot) returns (ok: bool)
      requires Represents(base, files, disk) && IsSafeSlot(from) && IsSafeSlot(to) && IsFile(from) && IsFile(to)
      requires HasParent(disk, to)
      requires src == PathOf(base, from) && dst == PathOf(base, to)
      modifies this
      ensures Represents(base, files, disk)
      ensures ok == (from in old(disk))
      ensures !ok ==> disk == old(disk)
      ensures disk == Renamed(old(disk), from, to) && trace == old(trace) + [Rename(from, to)]
    {
      FileIsThere(base, files, disk, from);
      NoPathIsAncestorOfAnother(base, from, to);
      ok := src in files;
      if ok && src != dst {
        var content := files[src];
        RemoveRepresents(base, files, disk, from);
        WriteRepresents(base, files - {src}, disk - {from}, to, content);
        files := (files - {src})[dst := content];
        disk := (disk - {from})[to := content];
      }
      trace := trace + [Rename(from, to)];
    }

    // References

    function RefKey(ref: Reference): (k: string)
      requires sha.Ideal()
      ensures k == KeyOf(sha, ref) && IsSafe(k)
    {
      assert IsHex(sha.text(ref.registry + "::" + ref.name));
      sha.text(ref.registry + "::" + ref.name)
    }

    method ResolveIdentifier(id: Identifier) returns (res: Result<string>)
      requires Valid()
      ensures res == Resolve(sha, disk, id)
      ensures res.Ok? && SafeId(id) ==> IsSafe(res.value)
    {
      if id.hash != "" {
        return Ok(id.hash);
      }
      if id.reference.None? {
        return Err(InvalidIdentifier);
      }
      var k := RefKey(id.reference.value);
      var path := PathOf(base, Lookup(k));
      FileIsThere(base, files, disk, Lookup(k));
      if path in files && files[path].Text? {
        return Ok(files[path].hash);
      }
      return Err(ReferenceNotFound);
    }

    method CreateOrUpdateRef(ref: Reference, hash: string)
      requires sha.Ideal() && Represents(base, files, disk) && IsSafe(hash)
      modifies this
      ensures Represents(base, files, disk)
      ensures disk == old(disk)[Lookup(KeyOf(sha, ref)) := Text(hash)]
      ensures trace == old(trace) +
                       [Write(Lookup(KeyOf(sha, ref)), Text("")), Write(Lookup(KeyOf(sha, ref)), Text(hash))]
    {
      hide Represents, PathOf;
      var k := RefKey(ref);
      WriteFile(PathOf(base, Lookup(k)), Text(""), Lookup(k));
      WriteFile(PathOf(base, Lookup(k)), Text(hash), Lookup(k));
    }

    /** os.MkdirAll of the record directory; what matters of it later is the shard directory. */
    method MakeRecordDir(hash: string)
      requires Represents(base, files, disk) && IsSafe(hash)
      modifies this
      ensures Represents(base, files, disk)
      ensures disk == old(disk)[RecordShard(Prefix(hash)) := Directory]
      ensures trace == old(trace) + [Write(RecordShard(Prefix(hash)), Directory)]
    {
      hide Represents, PathOf, ShardDir, TrashRecordDir;
      ShardHoldsItsRecords(base, RecordShard(Prefix(hash)), hash);
      WriteFile(ShardDir(base, hash), Directory, RecordShard(Prefix(hash)));
    }

    method CreateOrUpdateMetaRefFile(hash: string, ref: Reference) returns (ok: bool)
      requires sha.Ideal() && Represents(base, files, disk) && IsSafe(hash)
      modifies this
      ensures Represents(base, files, disk)
      ensures ok == TagsOk(ref)
      ensures disk == if ok then WithRecord(old(disk), hash, KeyOf(sha, ref), ref) else old(disk)
      ensures trace == old(trace) + if ok then RecordSteps(hash, KeyOf(sha, ref), ref) else []
    {
      hide Represents, PathOf, WithRecord, RecordSteps;
      if exists key | key in ref.tags :: Utf8Length(key) > 128 || Utf8Length(ref.tags[key]) > 1024 {
        return false;
      }
      var k := RefKey(ref);
      WriteRecord(hash, k, ref);
      return true;
    }

    method WriteRecord(hash: string, k: string, ref: Reference)
      requires Represents(base, files, disk) && IsSafe(hash) && IsSafe(k)
      modifies this
      ensures Represents(base, files, disk)
      ensures disk == WithRecord(old(disk), hash, k, ref) && trace == old(trace) + RecordSteps(hash, k, ref)
    {
      hide Represents, PathOf, Prefix, IsSafe;
      MakeRecordDir(hash);
      WriteFile(PathOf(base, Record(hash, k)), Empty, Record(hash, k));
      WriteFile(PathOf(base, Record(hash, k)), RefDoc(ref), Record(hash, k));
    }

    method DeleteRef(ref: Reference)
      requires sha.Ideal() && Represents(base, files, disk)
      modifies this
      ensures Represents(base, files, disk) && disk == old(disk) - {Lookup(KeyOf(sha, ref))}
    {
      hide Represents, PathOf;
      var k := RefKey(ref);
      RemoveFile(PathOf(base, Lookup(k)), Lookup(k));
    }

    method DeleteMetaRefFile(hash: string, ref: Reference)
      requires sha.Ideal() && Represents(base, files, disk) && IsSafe(hash)
      modifies this
      ensures Represents(base, files, disk) && disk == old(disk) - {Record(hash, KeyOf(sha, ref))}
    {
      hide Represents, PathOf;
      var k := RefKey(ref);
      RemoveFile(PathOf(base, Record(hash, k)), Record(hash, k));
    }

    method ListReferenceHashes(hash: string) returns (refHashes: set<string>)
      requires Represents(base, files, disk) && IsSafe(hash)
      ensures refHashes == RefsOf(disk, hash)
    {
      NamesAreRefs(base, files, disk, hash);
      refHashes := NamesIn(files, RecordDir(base, hash));
    }

    method GetReference(hash: string, name: string, registry: string) returns (res: Result<Reference>)
      requires sha.Ideal() && Represents(base, files, disk) && IsSafe(hash)
      ensures res == Store.GetReference(sha, disk, hash, name, registry)
    {
      var k := RefKey(Reference(name, registry, 0, "", map[]));
      var path := PathOf(base, Record(hash, k));
      FileIsThere(base, files, disk, Record(hash, k));
      if path !in files {
        return Err(ReferenceNotFound);
      }
      if files[path].RefDoc? {
        return Ok(files[path].reference);
      }
      return Err(Malformed);
    }

    /** Description and tags change; name, registry and timestamp stay. */
    method UpdateReference(hash: string, ref: Reference) returns (res: Result<Reference>)
      requires Valid() && IsSafe(hash)
      modifies this
      ensures Valid()
      ensures (disk, res) == Store.UpdateReference(sha, old(disk), hash, ref)
    {
      hide Represents, PathOf;
      var existing := GetReference(hash, ref.name, ref.registry);
      if existing.Err? {
        return existing;
      }
      var updated := existing.value.(description := ref.description, tags := ref.tags);
      assert KeyOf(sha, updated) == KeyOf(sha, existing.value);
      var ok := CreateOrUpdateMetaRefFile(hash, updated);
      if !ok {
        return Err(TagTooLong);
      }
      return Ok(updated);
    }

    // Artifacts

    method GetMeta(id: Identifier) returns (res: Result<ArtifactMeta>)
      requires Valid() && SafeId(id)
      ensures res == Store.GetMeta(sha, disk, id)
    {
      var hash := ResolveIdentifier(id);
      if hash.Err? {
        return Err(hash.error);
      }
      var path := PathOf(base, Meta(hash.value));
      FileIsThere(base, files, disk, Meta(hash.value));
      if path !in files {
        return Err(MetaAbsent);
      }
      if files[path].MetaDoc? {
        return Ok(files[path].meta);
      }
      return Err(Malformed);
    }

    method AttachReference(hash: string, reference: Option<Reference>) returns (ok: bool)
      requires sha.Ideal() && Represents(base, files, disk) && IsSafe(hash)
      modifies this
      ensures Represents(base, files, disk)
      ensures ok == Attachable(reference)
      ensures disk == Attach(sha, old(disk), hash, reference)
      ensures trace == old(trace) + AttachSteps(sha, hash, reference)
    {
      hide Represents, PathOf;
      if reference.None? {
        return true;
      }
      CreateOrUpdateRef(reference.value, hash);
      ok := CreateOrUpdateMetaRefFile(hash, reference.value);
    }

    method WriteMeta(m: ArtifactMeta)
      requires Represents(base, files, disk) && IsSafe(m.hash)
      modifies this
      ensures Represents(base, files, disk)
      ensures disk == old(disk)[Meta(m.hash) := MetaDoc(m)] && trace == old(trace) + MetaSteps(m)
    {
      hide Represents, PathOf;
      var metaPath := PathOf(base, Meta(m.hash));
      WriteFile(metaPath, Empty, Meta(m.hash));
      WriteFile(metaPath, MetaDoc(m), Meta(m.hash));
    }

    /** The branch of CreateArtifact for an artifact that is not there yet. */
    method StoreNew(hash: string, reference: Option<Reference>, r: Reader, meta: Option<ArtifactMeta>, now: int)
      returns (res: Result<ArtifactMeta>)
      requires sha.Ideal() && Represents(base, files, disk) && IsSafe(hash)
      modifies this
      ensures Represents(base, files, disk)
      ensures r.Nil? ==> res == Err(NilReader) && disk == old(disk)[Blob(hash) := Data([])]
                         && trace == old(trace) + [Write(Blob(hash), Data([]))]
      ensures r.Reader? && r.fails ==> res == Err(ReadFailed) && disk == old(disk)[Blob(hash) := Data(r.data)]
                                       && trace == old(trace) + DataSteps(hash, r.data)
      ensures r.Reader? && !r.fails ==>
                var m := CreatedMeta(hash, |r.data|, meta, now);
                && res == (if Attachable(reference) then Ok(m) else Err(TagTooLong))
                && disk == Attach(sha, old(disk)[Blob(hash) := Data(r.data)][Meta(hash) := MetaDoc(m)], hash, reference)
                && trace == old(trace) + (DataSteps(hash, r.data) + MetaSteps(m) + AttachSteps(sha, hash, reference))
    {
      hide Represents, PathOf, Attach, AttachSteps, Attachable;
      var blobPath := PathOf(base, Blob(hash));
      WriteFile(blobPath, Data([]), Blob(hash));
      if r.Nil? {
        return Err(NilReader);
      }
      WriteFile(blobPath, Data(r.data), Blob(hash));
      assert disk == old(disk)[Blob(hash) := Data(r.data)];
      if r.fails {
        return Err(ReadFailed);
      }
      var created := if meta.Some? && meta.value.created != 0 then meta.value.created else now;
      var finalMeta := ArtifactMeta(hash, |r.data|, created);
      WriteMeta(finalMeta);
      var ok := AttachReference(hash, reference);
      return if ok then Ok(finalMeta) else Err(TagTooLong);
    }

    method CreateArtifact(id: Identifier, r: Reader, size: int, meta: Option<ArtifactMeta>, now: int)
      returns (res: Result<ArtifactMeta>)
      requires Valid() && SafeId(id) && (meta.Some? ==> SafeOrEmpty(meta.value.hash))
      modifies this
      ensures res == CreatePlan(sha, old(disk), id, r, size, meta, now).result
      ensures disk == Create(sha, old(disk), id, r, size, meta, now)
      ensures trace == old(trace) + CreatePlan(sha, old(disk), id, r, size, meta, now).steps
      ensures Valid()
    {
      hide Represents, PathOf, WellFiled, Run, Attach, AttachSteps, Store.GetMeta, Attachable, IsName, Sha256.Ideal;
      CreateNet(sha, disk, id, r, size, meta, now);
      CreateKeepsWellFiled(sha, disk, id, r, size, meta, now);
      var hash: string;
      if id.hash != "" {
        hash := id.hash;
      } else if id.reference.Some? {
        if meta.None? || meta.value.hash == "" {
          return Err(MissingMetaHash);
        }
        hash := meta.value.hash;
      } else {
        return Err(InvalidIdentifier);
      }
      if id.hash != "" && meta.Some? && meta.value.hash != "" && id.hash != meta.value.hash {
        return Err(HashMismatch);
      }

      var blobPath := PathOf(base, Blob(hash));
      FileIsThere(base, files, disk, Blob(hash));
      if blobPath !in files {
        res := StoreNew(hash, id.reference, r, meta, now);
        return;
      }
      var existing := GetMeta(id);
      if existing.Err? && existing.error != MetaAbsent {
        return existing;
      }
      var content := files[blobPath];
      var existingMeta := if existing.Ok? then existing.value
                          else ArtifactMeta(hash, if content.Data? then |content.bytes| else 0, now);
      if size != -1 && size != existingMeta.length {
        return Err(HashConflict(existingMeta.length, size));
      }
      var ok := AttachReference(hash, id.reference);
      return if ok then Ok(existingMeta) else Err(TagTooLong);
    }

    /** The stream that ReadBlob opens, as the bytes it yields, and the range it reports. */
    method ReadBlob(id: Identifier, req: ByteRange) returns (res: Result<(Bytes, ByteRange)>)
      requires Valid() && SafeId(id)
      ensures res == Store.ReadBlob(sha, disk, id, req)
    {
      hide PathOf, WellFiled, Delivered, ActualRange;
      var hash := ResolveIdentifier(id);
      if hash.Err? {
        return Err(hash.error);
      }
      var path := PathOf(base, Blob(hash.value));
      FileIsThere(base, files, disk, Blob(hash.value));
      if path !in files {
        return Err(BlobAbsent);
      }
      var b := if files[path].Data? then files[path].bytes else [];
      return Ok((Delivered(b, req), ActualRange(|b|, req)));
    }

    method UpdateBlob(id: Identifier, req: ByteRange, r: Reader) returns (res: Result<()>)
      requires Valid() && SafeId(id) && r.Reader?
      modifies this
      ensures Valid()
      ensures (disk, res) == Store.UpdateBlob(sha, old(disk), id, req, r)
    {
      hide PathOf, WriteAt;
      var hash := ResolveIdentifier(id);
      if hash.Err? {
        return Err(hash.error);
      }
      var path := PathOf(base, Blob(hash.value));
      FileIsThere(base, files, disk, Blob(hash.value));
      if path !in files {
        return Err(BlobAbsent);
      }
      if req.offset < 0 {
        return Err(InvalidOffset);
      }
      var b := if files[path].Data? then files[path].bytes else [];
      WriteFile(path, Data(WriteAt(b, req.offset, Copied(req.length, r.data))), Blob(hash.value));
      return UpdateOutcome(req.length, r);
    }

    /** Blob, then metadata; nothing happens when there is no blob to move. */
    method Move(src: string, dst: string) returns (res: Result<()>)
      requires Valid() && IsSafe(src) && IsSafe(dst)
      modifies this
      ensures (disk, res) == Store.Move(old(disk), src, dst)
      ensures res.Ok? ==> trace == old(trace) + [Rename(Blob(src), Blob(dst)), Rename(Meta(src), Meta(dst))]
      ensures Valid()
    {
      hide Represents, PathOf, WellFiled, Renamed;
      MoveKeepsWellFiled(sha, disk, src, dst);
      var moved := RenameFile(PathOf(base, Blob(src)), PathOf(base, Blob(dst)), Blob(src), Blob(dst));
      if !moved {
        return Err(BlobAbsent);
      }
      var _ := RenameFile(PathOf(base, Meta(src)), PathOf(base, Meta(dst)), Meta(src), Meta(dst));
      return Ok(());
    }

    method MoveToTrash(hash: string) returns (res: Result<()>)
      requires Represents(base, files, disk) && IsSafe(hash)
      modifies this
      ensures Represents(base, files, disk)
      ensures (disk, res) == Store.MoveToTrash(old(disk), hash)
    {
      hide Represents, PathOf, Sweep;
      var _ := RenameFile(PathOf(base, Blob(hash)), PathOf(base, TrashBlob(hash)), Blob(hash), TrashBlob(hash));
      var _ := RenameFile(PathOf(base, Meta(hash)), PathOf(base, TrashMeta(hash)), Meta(hash), TrashMeta(hash));
      var src, dst := ShardDir(base, hash), TrashRecordDir(base, hash);
      ShardHoldsItsRecords(base, RecordShard(Prefix(hash)), hash);
      FileIsThere(base, files, disk, RecordShard(Prefix(hash)));
      FileIsThere(base, files, disk, TrashDir(hash));
      if src !in files {
        return Ok(());
      }
      if dst in files {
        return Err(TrashOccupied);
      }
      SweepRepresents(base, files, disk, hash);
      files := RenamedDir(files, src, dst);
      disk := Sweep(disk, hash);
      trace := trace + [SweepShard(hash)];
      return Ok(());
    }

    method DeleteArtifact(id: Identifier) returns (res: Result<()>)
      requires Valid() && SafeId(id)
      modifies this
      ensures (disk, res) == Delete(sha, old(disk), id)
      ensures Valid()
    {
      hide Represents, PathOf, WellFiled, Store.MoveToTrash, DropAllReferences, DropReference, Store.GetReference;
      DeleteKeepsWellFiled(sha, disk, id);
      var resolved := ResolveIdentifier(id);
      if resolved.Err? {
        return Err(resolved.error);
      }
      var hash := resolved.value;
      FileIsThere(base, files, disk, Blob(hash));
      if PathOf(base, Blob(hash)) !in files {
        return Err(BlobAbsent);
      }
      if id.reference.Some? {
        var ref := id.reference.value;
        var found := GetReference(hash, ref.name, ref.registry);
        if found.Err? {
          return Err(ReferenceNotFound);
        }
        DropOneReference(hash, ref);
      } else {
        DropEveryReference(hash);
      }
      var remaining := ListReferenceHashes(hash);
      if remaining == {} {
        res := MoveToTrash(hash);
        return;
      }
      return Ok(());
    }

    method DropOneReference(hash: string, ref: Reference)
      requires sha.Ideal() && Represents(base, files, disk) && IsSafe(hash)
      modifies this
      ensures Represents(base, files, disk)
      ensures disk == DropReference(sha, old(disk), hash, ref)
    {
      hide Represents, PathOf;
      DeleteRef(ref);
      DeleteMetaRefFile(hash, ref);
    }

    /** The hash-only loop: each record is read for its name and registry, then deleted with its lookup. */
    method DropEveryReference(hash: string)
      requires Valid() && IsSafe(hash)
      modifies this
      ensures Represents(base, files, disk)
      ensures disk == DropAllReferences(old(disk), hash)
    {
      hide Represents, PathOf, DroppedSoFar, DropAllReferences, WellFiled;
      var todo := ListReferenceHashes(hash);
      ghost var all := todo;
      ghost var before := disk;
      ghost var done: set<string> := {};
      DroppedAtEnds(before, hash);
      while todo != {}
        invariant Represents(base, files, disk)
        invariant done == all - todo && todo <= all
        invariant disk == DroppedSoFar(before, hash, done)
        decreases |todo|
      {
        var k :| k in todo;
        todo := todo - {k};
        RefsAreSafe(sha, before, hash, k);
        DropRecord(hash, k, before, done);
        done := done + {k};
      }
      assert done == all;
    }

    /** One turn of the loop. */
    method DropRecord(hash: string, k: string, ghost before: Disk, ghost done: set<string>)
      requires sha.Ideal() && Represents(base, files, disk) && IsSafe(hash) && IsSafe(k) && k !in done
      requires disk == DroppedSoFar(before, hash, done)
      requires IsReadable(before, hash, k) ==> KeyOf(sha, before[Record(hash, k)].reference) == k
      modifies this
      ensures Represents(base, files, disk) && disk == DroppedSoFar(before, hash, done + {k})
    {
      hide Represents, PathOf;
      FileIsThere(base, files, disk, Record(hash, k));
      var path := PathOf(base, Record(hash, k));
      DropNext(before, hash, done, k);
      if path in files && files[path].RefDoc? {
        var ref := files[path].reference;
        DeleteRef(ref);
        DeleteMetaRefFile(hash, ref);
      }
    }
  }

  lemma RefsAreSafe(sha: Sha256, d: Disk, hash: string, k: string)
    requires WellFiled(sha, d) && k in RefsOf(d, hash)
    ensures IsSafe(k) && (IsReadable(d, hash, k) ==> KeyOf(sha, d[Record(hash, k)].reference) == k)
  {
    assert IsSafeSlot(Record(hash, k));
  }

  lemma DroppedAtEnds(d: Disk, hash: string)
    ensures DroppedSoFar(d, hash, {}) == d && DroppedSoFar(d, hash, RefsOf(d, hash)) == DropAllReferences(d, hash)
  {}

  /** The disk after the loop of DeleteArtifact has handled the records in `done`. */
  function DroppedSoFar(d: Disk, hash: string, done: set<string>): Disk {
    map s | s in d && !(s.Record? && s.hash == hash && s.refHash in done && d[s].RefDoc?)
            && !(s.Lookup? && s.refHash in done && IsReadable(d, hash, s.refHash)) :: d[s]
  }

  lemma DropNext(d: Disk, hash: string, done: set<string>, k: string)
    requires k !in done
    ensures DroppedSoFar(d, hash, done + {k}) ==
            if IsReadable(d, hash, k) then DroppedSoFar(d, hash, done) - {Lookup(k)} - {Record(hash, k)}
            else DroppedSoFar(d, hash, done)
  {}
}
