/** Laws of the storage: the reference index, first writer wins, interrupted creates, deletion. */
module StoreLaws {
  import opened Digests
  import opened Layout
  import opened Ranges
  import opened Store

  // Well-formed disks stay well formed

  lemma AttachKeepsWellFiled(sha: Sha256, d: Disk, hash: string, reference: Option<Reference>)
    requires sha.Ideal() && WellFiled(sha, d) && IsSafe(hash)
    ensures WellFiled(sha, Attach(sha, d, hash, reference))
  {
    if reference.Some? {
      var ref := reference.value;
      assert IsHex(sha.text(ref.registry + "::" + ref.name));
      assert IsSafe(KeyOf(sha, ref));
      LookupIsWellFiled(sha, d, KeyOf(sha, ref), hash);
      RecordIsWellFiled(sha, d[Lookup(KeyOf(sha, ref)) := Text(hash)], hash, ref);
    }
  }

  lemma LookupIsWellFiled(sha: Sha256, d: Disk, k: string, hash: string)
    requires WellFiled(sha, d) && IsSafe(k) && IsSafe(hash)
    ensures WellFiled(sha, d[Lookup(k) := Text(hash)])
  {
    hide IsSafe;
    assert forall s | s in d[Lookup(k) := Text(hash)] :: HasParent(d, s);
  }

  lemma RecordIsWellFiled(sha: Sha256, d: Disk, hash: string, ref: Reference)
    requires WellFiled(sha, d) && IsSafe(KeyOf(sha, ref)) && IsSafe(hash)
    ensures WellFiled(sha, WithRecord(d, hash, KeyOf(sha, ref), ref))
  {
    assert IsSafeSlot(RecordShard(Prefix(hash)));
    hide IsSafe, KeyOf, Prefix;
    forall s | s in WithRecord(d, hash, KeyOf(sha, ref), ref) ensures HasParent(WithRecord(d, hash, KeyOf(sha, ref), ref), s) {
      assert s in d ==> HasParent(d, s);
    }
  }

  lemma CreateKeepsWellFiled(sha: Sha256, d: Disk, id: Identifier, r: Reader, size: int, meta: Option<ArtifactMeta>,
                             now: int)
    requires sha.Ideal() && WellFiled(sha, d) && SafeId(id) && (meta.Some? ==> SafeOrEmpty(meta.value.hash))
    ensures WellFiled(sha, Create(sha, d, id, r, size, meta, now))
  {
    hide WellFiled, Run, CreatePlan, Attach, IsSafe, Sha256.Ideal;
    CreateNet(sha, d, id, r, size, meta, now);
    if Target(id, meta).Ok? {
      var hash := Target(id, meta).value;
      AttachKeepsWellFiled(sha, d, hash, id.reference);
      DataIsWellFiled(sha, d, hash, if r.Reader? then r.data else [], meta, now);
      if r.Reader? {
        AttachKeepsWellFiled(sha, d[Blob(hash) := Data(r.data)][Meta(hash) := MetaDoc(CreatedMeta(hash, |r.data|, meta, now))],
          hash, id.reference);
      }
    }
  }

  lemma DataIsWellFiled(sha: Sha256, d: Disk, hash: string, data: Bytes, meta: Option<ArtifactMeta>, now: int)
    requires WellFiled(sha, d) && IsSafe(hash)
    ensures WellFiled(sha, d[Blob(hash) := Data(data)])
    ensures WellFiled(sha, d[Blob(hash) := Data(data)][Meta(hash) := MetaDoc(CreatedMeta(hash, |data|, meta, now))])
  {
    hide IsSafe;
    var written := d[Blob(hash) := Data(data)];
    assert forall s | s in written :: HasParent(d, s) && HasParent(written, s);
    var noted := written[Meta(hash) := MetaDoc(CreatedMeta(hash, |data|, meta, now))];
    assert forall s | s in noted :: HasParent(written, s) && HasParent(noted, s);
  }

  lemma DeleteKeepsWellFiled(sha: Sha256, d: Disk, id: Identifier)
    requires sha.Ideal() && WellFiled(sha, d) && SafeId(id)
    ensures WellFiled(sha, Delete(sha, d, id).0)
  {
    var hash := Resolve(sha, d, id);
    if hash.Ok? {
      var rest := if id.reference.Some? then DropReference(sha, d, hash.value, id.reference.value)
                  else DropAllReferences(d, hash.value);
      assert WellFiled(sha, rest);
      MoveToTrashKeepsWellFiled(sha, rest, hash.value);
    }
  }

  lemma MoveKeepsWellFiled(sha: Sha256, d: Disk, src: string, dst: string)
    requires WellFiled(sha, d) && IsSafe(src) && IsSafe(dst)
    ensures WellFiled(sha, Move(d, src, dst).0)
  {}

  lemma MoveToTrashKeepsWellFiled(sha: Sha256, d: Disk, hash: string)
    requires WellFiled(sha, d) && IsSafe(hash)
    ensures WellFiled(sha, MoveToTrash(d, hash).0)
  {
    hide Sweep;
    var half := Renamed(d, Blob(hash), TrashBlob(hash));
    TrashingIsWellFiled(sha, d, Blob(hash), TrashBlob(hash));
    TrashingIsWellFiled(sha, half, Meta(hash), TrashMeta(hash));
    var moved := Renamed(half, Meta(hash), TrashMeta(hash));
    if RecordShard(Prefix(hash)) in moved {
      SweepKeepsWellFiled(sha, moved, hash);
    }
  }

  lemma TrashingIsWellFiled(sha: Sha256, d: Disk, s: Slot, t: Slot)
    requires WellFiled(sha, d) && (s.Blob? || s.Meta?) && (t.TrashBlob? || t.TrashMeta?) && IsSafeSlot(t)
    ensures WellFiled(sha, Renamed(d, s, t))
  {
    var e := Renamed(d, s, t);
    forall r | r in e ensures HasParent(e, r) {
      assert r in d ==> HasParent(d, r);
    }
  }

  lemma SweepKeepsWellFiled(sha: Sha256, d: Disk, hash: string)
    requires WellFiled(sha, d) && IsSafe(hash) && RecordShard(Prefix(hash)) in d
    ensures WellFiled(sha, Sweep(d, hash))
  {
    hide Sweep, HasParent;
    SweepIsSafe(d, hash);
    SweepEffect(d, hash);
    var e := Sweep(d, hash);
    forall s: Slot | (s.Lookup? || s.Meta? || s.Record?) && s in e ensures s in d && e[s] == d[s] {
      assert InShard(s, hash) || SameSlot(d, e, s);
    }
  }

  predicate IsTrashRecord(s: Slot) {
    s.TrashRecord? || s.TrashDir?
  }

  /** What a sweep moves arrives in the trash, and the rest stays as it is. */
  lemma SweepEffect(d: Disk, hash: string)
    ensures forall s | !IsTrashRecord(s) && !InShard(s, hash) :: SameSlot(d, Sweep(d, hash), s)
    ensures forall s | !IsTrashRecord(s) && InShard(s, hash) :: s !in Sweep(d, hash)
    ensures RecordShard(Prefix(hash)) in d ==> TrashDir(hash) in Sweep(d, hash)
    ensures forall h | TrashDir(h) in d :: TrashDir(h) in Sweep(d, hash)
  {
    if RecordShard(Prefix(hash)) in d {
      assert RecordShard(Prefix(hash)) in ShardSlots(d, hash);
      assert Swept(hash, RecordShard(Prefix(hash))) == TrashDir(hash);
    }
  }

  lemma SweepIsSafe(d: Disk, hash: string)
    requires (forall s | s in d :: IsSafeSlot(s)) && HasParents(d) && IsSafe(hash) && RecordShard(Prefix(hash)) in d
    ensures (forall s | s in Sweep(d, hash) :: IsSafeSlot(s)) && HasParents(Sweep(d, hash))
    ensures forall s: Slot | !InShard(s, hash) && s != TrashDir(hash) && !(s.TrashRecord? && s.dead == hash) ::
              (s in Sweep(d, hash) <==> s in d) && (s in d ==> Sweep(d, hash)[s] == d[s])
  {
    var doomed := ShardSlots(d, hash);
    assert RecordShard(Prefix(hash)) in doomed && Swept(hash, RecordShard(Prefix(hash))) == TrashDir(hash);
    assert TrashDir(hash) in Sweep(d, hash);
    forall s | s in Sweep(d, hash) ensures IsSafeSlot(s) && HasParent(Sweep(d, hash), s) {
      if s in d && s !in doomed {
        assert HasParent(d, s);
      } else {
        var o :| o in doomed && s == Swept(hash, o);
        assert IsSafeSlot(o);
      }
    }
  }

  lemma UpdatesKeepWellFiled(sha: Sha256, d: Disk, hash: string, ref: Reference, id: Identifier, range: ByteRange,
                             r: Reader)
    requires sha.Ideal() && WellFiled(sha, d) && IsSafe(hash) && SafeId(id) && r.Reader?
    ensures WellFiled(sha, UpdateReference(sha, d, hash, ref).0)
    ensures WellFiled(sha, UpdateBlob(sha, d, id, range, r).0)
  {}

  // The reference index

  /** The artifact that a lookup file names. */
  predicate Names(d: Disk, k: string, hash: string) {
    Lookup(k) in d && d[Lookup(k)] == Text(hash)
  }

  predicate Backed(d: Disk, hash: string, k: string) {
    Blob(hash) in d && Meta(hash) in d && IsReadable(d, hash, k)
  }

  /** Every lookup names a live artifact with metadata that holds a record of the same reference. */
  ghost predicate IndexOk(d: Disk) {
    forall k, hash | Names(d, k, hash) :: Backed(d, hash, k)
  }

  datatype Op =
    | OpCreate(id: Identifier, r: Reader, size: int, meta: Option<ArtifactMeta>, now: int)
    | OpUpdateReference(hash: string, reference: Reference)
    | OpUpdateBlob(id: Identifier, range: ByteRange, data: Bytes)
    | OpDelete(id: Identifier)
    | OpMove(src: string, dst: string)

  predicate IsCall(op: Op) {
    match op
    case OpCreate(id, _, _, meta, _) => SafeOrEmpty(id.hash) && (meta.Some? ==> SafeOrEmpty(meta.value.hash))
    case OpUpdateReference(hash, _) => IsSafe(hash)
    case OpUpdateBlob(id, _, _) => SafeOrEmpty(id.hash)
    case OpDelete(id) => SafeOrEmpty(id.hash)
    case OpMove(src, dst) => IsSafe(src) && IsSafe(dst)
  }

  function Exec(sha: Sha256, d: Disk, op: Op): Disk {
    match op
    case OpCreate(id, r, size, meta, now) => Create(sha, d, id, r, size, meta, now)
    case OpUpdateReference(hash, ref) => UpdateReference(sha, d, hash, ref).0
    case OpUpdateBlob(id, range, data) => UpdateBlob(sha, d, id, range, Reader(data, false)).0
    case OpDelete(id) => Delete(sha, d, id).0
    case OpMove(src, dst) => Move(d, src, dst).0
  }

  /** The create reaches the point where it attaches its reference. */
  predicate Attaches(sha: Sha256, d: Disk, op: Op)
    requires op.OpCreate?
  {
    var plan := CreatePlan(sha, d, op.id, op.r, op.size, op.meta, op.now);
    op.id.reference.Some? && (plan.result.Ok? || plan.result == Err(TagTooLong))
  }

  /** The disk a delete leaves before it looks at the remaining references. */
  function Dropped(sha: Sha256, d: Disk, hash: string, id: Identifier): Disk {
    if id.reference.Some? then DropReference(sha, d, hash, id.reference.value) else DropAllReferences(d, hash)
  }

  predicate Deletable(sha: Sha256, d: Disk, id: Identifier) {
    && Resolve(sha, d, id).Ok?
    && Blob(Resolve(sha, d, id).value) in d
    && (id.reference.Some? ==>
          GetReference(sha, d, Resolve(sha, d, id).value, id.reference.value.name, id.reference.value.registry).Ok?)
  }

  /** The delete drops the last reference, so that the artifact and its shard directory go to the trash. */
  predicate Trashes(sha: Sha256, d: Disk, id: Identifier) {
    && Deletable(sha, d, id)
    && var hash := Resolve(sha, d, id).value; RefsOf(Dropped(sha, d, hash, id), hash) == {}
  }

  /** When an operation keeps the index: a condition on the state before the call. */
  ghost predicate KeepsIndex(sha: Sha256, d: Disk, op: Op) {
    match op
    case OpCreate(id, _, _, meta, _) =>
      Attaches(sha, d, op) ==>
        var hash := Target(id, meta).value;
        && (TagsOk(id.reference.value) || IsReadable(d, hash, KeyOf(sha, id.reference.value)))
        && (Blob(hash) in d ==> Meta(hash) in d)
    case OpDelete(id) =>
      Trashes(sha, d, id) ==>
        var hash := Resolve(sha, d, id).value;
        var rest := Dropped(sha, d, hash, id);
        TrashDir(hash) in d || forall k, g | Names(rest, k, g) :: !SameShard(g, hash)
    case OpMove(src, dst) =>
      Blob(src) in d && src != dst ==> forall k | Lookup(k) in d :: !Names(d, k, src)
    case _ => true
  }

  lemma AttachKeepsIndex(sha: Sha256, d: Disk, hash: string, ref: Reference)
    requires sha.Ideal() && IndexOk(d) && IsSafe(hash)
    ensures IndexOk(Attach(sha, d, hash, Some(ref)))
            <==> Blob(hash) in d && Meta(hash) in d && (TagsOk(ref) || IsReadable(d, hash, KeyOf(sha, ref)))
  {
    var after, k := Attach(sha, d, hash, Some(ref)), KeyOf(sha, ref);
    assert Names(after, k, hash);
    forall j, h | Names(after, j, h) && j != k ensures Backed(after, h, j) {
      assert Names(d, j, h);
      assert Backed(d, h, j);
    }
  }

  lemma CreateIndex(sha: Sha256, d: Disk, op: Op)
    requires sha.Ideal() && WellFiled(sha, d) && IndexOk(d) && op.OpCreate? && IsCall(op)
    ensures IndexOk(Exec(sha, d, op)) <==> KeepsIndex(sha, d, op)
  {
    hide Run, CreatePlan, Attach, WellFiled;
    var OpCreate(id, r, size, meta, now) := op;
    CreateNet(sha, d, id, r, size, meta, now);
    AttachOutcome(sha, d, op);
    if Target(id, meta).Ok? {
      var hash := Target(id, meta).value;
      assert IsSafe(hash);
      var data := if r.Reader? then r.data else [];
      var written := d[Blob(hash) := Data(data)];
      var noted := written[Meta(hash) := MetaDoc(CreatedMeta(hash, |data|, meta, now))];
      WriteDataKeepsIndex(d, hash, data, CreatedMeta(hash, |data|, meta, now));
      if Attaches(sha, d, op) {
        var ref := id.reference.value;
        AttachKeepsIndex(sha, d, hash, ref);
        AttachKeepsIndex(sha, noted, hash, ref);
        assert IsReadable(noted, hash, KeyOf(sha, ref)) <==> IsReadable(d, hash, KeyOf(sha, ref));
      }
    }
  }

  /** Outside the attaching branch a create leaves the disk as CreateNet describes, without a reference. */
  lemma AttachOutcome(sha: Sha256, d: Disk, op: Op)
    requires op.OpCreate?
    ensures var OpCreate(id, r, size, meta, now) := op;
            var res := CreatePlan(sha, d, id, r, size, meta, now).result;
            && (id.reference.None? ==> forall h, e :: Attach(sha, e, h, id.reference) == e)
            && (Target(id, meta).Err? ==> res.Err? && res != Err(TagTooLong))
            && (Target(id, meta).Ok? && Blob(Target(id, meta).value) !in d ==>
                  if r.Nil? || r.fails then res.Err? && res != Err(TagTooLong)
                  else res.Ok? || res == Err(TagTooLong))
  {}

  lemma WriteDataKeepsIndex(d: Disk, hash: string, data: Bytes, m: ArtifactMeta)
    requires IndexOk(d)
    ensures IndexOk(d[Blob(hash) := Data(data)])
    ensures IndexOk(d[Blob(hash) := Data(data)][Meta(hash) := MetaDoc(m)])
  {
    var written := d[Blob(hash) := Data(data)];
    var noted := written[Meta(hash) := MetaDoc(m)];
    forall k, h | Names(written, k, h) || Names(noted, k, h) ensures Backed(written, h, k) && Backed(noted, h, k) {
      assert Names(d, k, h);
      assert Backed(d, h, k);
    }
  }

  lemma UpdateIndex(sha: Sha256, d: Disk, op: Op)
    requires sha.Ideal() && WellFiled(sha, d) && IndexOk(d)
    requires op.OpUpdateReference? || op.OpUpdateBlob?
    ensures IndexOk(Exec(sha, d, op))
  {
    var after := Exec(sha, d, op);
    forall k, h | Names(after, k, h) ensures Backed(after, h, k) {
      assert Names(d, k, h);
      assert Backed(d, h, k);
    }
  }

  lemma MoveIndex(sha: Sha256, d: Disk, op: Op)
    requires IndexOk(d) && op.OpMove?
    ensures IndexOk(Exec(sha, d, op)) <==> KeepsIndex(sha, d, op)
  {
    var OpMove(src, dst) := op;
    var after := Exec(sha, d, op);
    assert forall k, h :: Names(after, k, h) <==> Names(d, k, h);
    if KeepsIndex(sha, d, op) {
      forall k, h | Names(after, k, h) ensures Backed(after, h, k) {
        assert Backed(d, h, k);
      }
    } else {
      var k :| Lookup(k) in d && Names(d, k, src);
      assert !Backed(after, src, k);
    }
  }

  /** Dropping references keeps the index, and no lookup still names an artifact without records. */
  lemma DroppedIndex(sha: Sha256, d: Disk, id: Identifier)
    requires sha.Ideal() && IndexOk(d) && Deletable(sha, d, id)
    ensures var hash := Resolve(sha, d, id).value;
            var rest := Dropped(sha, d, hash, id);
            && IndexOk(rest)
            && Blob(hash) in rest
            && (RefsOf(rest, hash) == {} ==> forall k :: !Names(rest, k, hash))
            && (TrashDir(hash) in rest <==> TrashDir(hash) in d)
            && (HasParents(d) ==> HasParents(rest))
  {
    var hash := Resolve(sha, d, id).value;
    var rest := Dropped(sha, d, hash, id);
    forall k, h | Names(rest, k, h) ensures Backed(rest, h, k) {
      assert Names(d, k, h);
      assert Backed(d, h, k);
    }
    forall k | Names(rest, k, hash) ensures k in RefsOf(rest, hash) {
      assert Record(hash, k) in rest;
    }
    assert HasParents(d) ==> HasParents(rest) by {
      forall s | s in rest && HasParents(d) ensures HasParent(rest, s) {
        assert HasParent(d, s);
      }
    }
  }

  lemma TrashIndex(d: Disk, hash: string)
    requires IndexOk(d) && HasParents(d) && Blob(hash) in d && RefsOf(d, hash) == {} && forall k :: !Names(d, k, hash)
    ensures IndexOk(MoveToTrash(d, hash).0)
            <==> TrashDir(hash) in d || forall k, g | Names(d, k, g) :: !SameShard(g, hash)
  {
    hide Sweep;
    var moved := Renamed(Renamed(d, Blob(hash), TrashBlob(hash)), Meta(hash), TrashMeta(hash));
    SweepEffect(moved, hash);
    var after := MoveToTrash(d, hash).0;
    assert forall k :: SameSlot(moved, after, Lookup(k));
    assert forall k, g :: Names(moved, k, g) <==> Names(d, k, g);
    assert forall k, g :: Names(after, k, g) <==> Names(d, k, g);
    forall k, g | Names(d, k, g)
      ensures Backed(moved, g, k)
      ensures Backed(after, g, k) <==> TrashDir(hash) in d || !SameShard(g, hash)
    {
      assert Backed(d, g, k);
      assert Record(g, k) in moved && HasParent(d, Record(g, k));
      assert SameShard(g, hash) <==> InShard(Record(g, k), hash);
      assert SameShard(g, hash) || SameSlot(moved, after, Record(g, k));
      assert SameSlot(moved, after, Blob(g)) && SameSlot(moved, after, Meta(g));
    }
  }

  lemma DeleteIndex(sha: Sha256, d: Disk, op: Op)
    requires sha.Ideal() && IndexOk(d) && HasParents(d) && op.OpDelete?
    ensures IndexOk(Exec(sha, d, op)) <==> KeepsIndex(sha, d, op)
  {
    hide IndexOk, MoveToTrash, HasParents, RefsOf, DropReference, DropAllReferences, Names;
    if Deletable(sha, d, op.id) {
      var hash := Resolve(sha, d, op.id).value;
      DroppedIndex(sha, d, op.id);
      if Trashes(sha, d, op.id) {
        TrashIndex(Dropped(sha, d, hash, op.id), hash);
      }
    }
  }

  /** Each operation keeps the index exactly when its condition holds of the state it starts from. */
  lemma IndexStep(sha: Sha256, d: Disk, op: Op)
    requires sha.Ideal() && WellFiled(sha, d) && IndexOk(d) && IsCall(op)
    ensures IndexOk(Exec(sha, d, op)) <==> KeepsIndex(sha, d, op)
  {
    match op
    case OpCreate(_, _, _, _, _) => CreateIndex(sha, d, op);
    case OpUpdateReference(_, _) => UpdateIndex(sha, d, op);
    case OpUpdateBlob(_, _, _) => UpdateIndex(sha, d, op);
    case OpDelete(_) => DeleteIndex(sha, d, op);
    case OpMove(_, _) => MoveIndex(sha, d, op);
  }

  /** The disk after a sequence of operations. */
  function ExecAll(sha: Sha256, d: Disk, ops: seq<Op>): Disk
    decreases |ops|
  {
    if ops == [] then d else Exec(sha, ExecAll(sha, d, ops[..|ops| - 1]), ops[|ops| - 1])
  }

  lemma WellFiledStep(sha: Sha256, d: Disk, op: Op)
    requires sha.Ideal() && WellFiled(sha, d) && IsCall(op)
    ensures WellFiled(sha, Exec(sha, d, op))
  {
    hide WellFiled;
    match op
    case OpCreate(id, r, size, meta, now) => CreateKeepsWellFiled(sha, d, id, r, size, meta, now);
    case OpUpdateReference(hash, ref) => UpdatesKeepWellFiled(sha, d, hash, ref, Identifier(hash, None), ByteRange(0, 0), Reader([], false));
    case OpUpdateBlob(id, range, data) => UpdatesKeepWellFiled(sha, d, "abc", Reference("", "", 0, "", map[]), id, range, Reader(data, false));
    case OpDelete(id) => DeleteKeepsWellFiled(sha, d, id);
    case OpMove(src, dst) => MoveKeepsWellFiled(sha, d, src, dst);
  }

  lemma {:induction false} WellFiledRun(sha: Sha256, d: Disk, ops: seq<Op>)
    requires sha.Ideal() && WellFiled(sha, d) && forall i | 0 <= i < |ops| :: IsCall(ops[i])
    ensures WellFiled(sha, ExecAll(sha, d, ops))
    decreases |ops|
  {
    if ops != [] {
      WellFiledRun(sha, d, ops[..|ops| - 1]);
      WellFiledStep(sha, ExecAll(sha, d, ops[..|ops| - 1]), ops[|ops| - 1]);
    }
  }

  lemma ExecOneMore(sha: Sha256, d: Disk, ops: seq<Op>, n: nat)
    requires n < |ops|
    ensures ExecAll(sha, d, ops[..n + 1]) == Exec(sha, ExecAll(sha, d, ops[..n]), ops[n])
  {
    assert ops[..n + 1][..n] == ops[..n];
  }

  /** The state before operation `n` of a run. */
  function Before(sha: Sha256, d: Disk, ops: seq<Op>, n: nat): Disk
    requires n <= |ops|
  {
    ExecAll(sha, d, ops[..n])
  }

  /**
   * Main result on the index: in every state of a run each lookup is backed by a live artifact, its
   * metadata and a record, exactly when every operation of the run met its condition. Records are filed
   * under their own registry and name in every state, whatever the operations.
   */
  lemma IndexHoldsThroughout(sha: Sha256, d: Disk, ops: seq<Op>)
    requires sha.Ideal() && WellFiled(sha, d) && IndexOk(d)
    requires forall i | 0 <= i < |ops| :: IsCall(ops[i])
    ensures forall n | 0 <= n <= |ops| :: WellFiled(sha, Before(sha, d, ops, n))
    ensures (forall n | 0 <= n <= |ops| :: IndexOk(Before(sha, d, ops, n)))
            <==> forall n | 0 <= n < |ops| :: KeepsIndex(sha, Before(sha, d, ops, n), ops[n])
  {
    hide IndexOk, KeepsIndex, WellFiled, Exec;
    forall n | 0 <= n <= |ops| ensures WellFiled(sha, Before(sha, d, ops, n)) {
      WellFiledRun(sha, d, ops[..n]);
    }
    forall n | 0 <= n < |ops| && IndexOk(Before(sha, d, ops, n))
      ensures IndexOk(Before(sha, d, ops, n + 1)) <==> KeepsIndex(sha, Before(sha, d, ops, n), ops[n])
    {
      ExecOneMore(sha, d, ops, n);
      IndexStep(sha, Before(sha, d, ops, n), ops[n]);
    }
    if forall n | 0 <= n < |ops| :: KeepsIndex(sha, Before(sha, d, ops, n), ops[n]) {
      var n := 0;
      assert ops[..0] == [];
      while n < |ops|
        invariant n <= |ops| && forall m | 0 <= m <= n :: IndexOk(Before(sha, d, ops, m))
      {
        n := n + 1;
      }
    }
    if forall n | 0 <= n <= |ops| :: IndexOk(Before(sha, d, ops, n)) {
      forall n | 0 <= n < |ops| ensures KeepsIndex(sha, Before(sha, d, ops, n), ops[n]) {
        assert IndexOk(Before(sha, d, ops, n + 1));
      }
    }
  }

  // First writer wins

  predicate IsHashCreate(op: Op) {
    op.OpCreate? && op.id.hash != ""
  }

  lemma CreateSparesTheLiving(sha: Sha256, d: Disk, op: Op, s: Slot)
    requires IsHashCreate(op)
    requires s in d && (s.Blob? || (s.Meta? && Blob(s.hash) in d))
    ensures s in Exec(sha, d, op) && Exec(sha, d, op)[s] == d[s]
  {
    CreateNet(sha, d, op.id, op.r, op.size, op.meta, op.now);
  }

  /** A create of an artifact that is there changes at most the lookup and the record it names. */
  lemma CreateOfExisting(sha: Sha256, d: Disk, op: Op)
    requires IsHashCreate(op) && Blob(op.id.hash) in d
    ensures var after := Exec(sha, d, op);
            var plan := CreatePlan(sha, d, op.id, op.r, op.size, op.meta, op.now);
            && (plan.result.Err? && plan.result != Err(TagTooLong) ==> after == d)
            && (op.id.reference.None? ==> after == d)
            && (op.id.reference.Some? ==>
                  var k := KeyOf(sha, op.id.reference.value);
                  var touched := {Lookup(k), Record(op.id.hash, k), RecordShard(Prefix(op.id.hash))};
                  && after - touched == d - touched
                  && (plan.result.Ok? ==> Names(after, k, op.id.hash))
                  && (plan.result.Ok? ==> Record(op.id.hash, k) in after)
                  && (plan.result.Ok? ==> after[Record(op.id.hash, k)] == RefDoc(op.id.reference.value)))
  {
    CreateNet(sha, d, op.id, op.r, op.size, op.meta, op.now);
  }

  /** The verdict on a later create: the first writer's metadata, or a conflict with its length. */
  predicate VerdictOfLater(sha: Sha256, d: Disk, op: Op, first: ArtifactMeta)
    requires IsHashCreate(op)
  {
    var res := CreatePlan(sha, d, op.id, op.r, op.size, op.meta, op.now).result;
    if op.meta.Some? && op.meta.value.hash != "" && op.meta.value.hash != op.id.hash then res == Err(HashMismatch)
    else if op.size != -1 && op.size != first.length then res == Err(HashConflict(first.length, op.size))
    else if !Attachable(op.id.reference) then res == Err(TagTooLong)
    else res == Ok(first)
  }

  lemma {:induction false} LivingArtifactIsFixed(sha: Sha256, d: Disk, ops: seq<Op>, hash: string)
    requires forall i | 0 <= i < |ops| :: IsHashCreate(ops[i])
    requires Blob(hash) in d && Meta(hash) in d
    ensures var after := ExecAll(sha, d, ops);
            Blob(hash) in after && Meta(hash) in after && after[Blob(hash)] == d[Blob(hash)] && after[Meta(hash)] == d[Meta(hash)]
    decreases |ops|
  {
    if ops != [] {
      var before, last := ExecAll(sha, d, ops[..|ops| - 1]), ops[|ops| - 1];
      LivingArtifactIsFixed(sha, d, ops[..|ops| - 1], hash);
      CreateSparesTheLiving(sha, before, last, Blob(hash));
      CreateSparesTheLiving(sha, before, last, Meta(hash));
    }
  }

  /**
   * First writer wins: after a create that writes an artifact, every run of hash-identified creates
   * leaves its bytes, length and creation time as the first one set them, and each later create of the
   * same hash is answered from that metadata.
   */
  lemma FirstWriterWins(sha: Sha256, d: Disk, first: Op, later: seq<Op>, n: nat)
    requires IsHashCreate(first) && first.r.Reader? && !first.r.fails
    requires Blob(first.id.hash) !in d
    requires first.meta.Some? ==> first.meta.value.hash in {"", first.id.hash}
    requires n <= |later| && forall i | 0 <= i < |later| :: IsHashCreate(later[i])
    ensures var hash := first.id.hash;
            var m := CreatedMeta(hash, |first.r.data|, first.meta, first.now);
            var now := Before(sha, Exec(sha, d, first), later, n);
            && Blob(hash) in now && now[Blob(hash)] == Data(first.r.data)
            && Meta(hash) in now && now[Meta(hash)] == MetaDoc(m)
            && (n < |later| && IsHashCreate(later[n]) && later[n].id.hash == hash ==> VerdictOfLater(sha, now, later[n], m))
  {
    CreateNet(sha, d, first.id, first.r, first.size, first.meta, first.now);
    LivingArtifactIsFixed(sha, Exec(sha, d, first), later[..n], first.id.hash);
  }

  // Interrupted creates

  /** No lookup names a missing artifact (a lookup cut off while empty names none), no metadata is orphaned. */
  ghost predicate NoDangling(d: Disk) {
    && (forall k, hash | Names(d, k, hash) && hash != "" :: Blob(hash) in d)
    && (forall hash | Meta(hash) in d :: Blob(hash) in d)
  }

  /** A create cut off after `cut` of its file-system calls. */
  datatype CutCreate = CutCreate(op: Op, cut: nat)

  function ExecCut(sha: Sha256, d: Disk, c: CutCreate): Disk
    requires IsHashCreate(c.op)
  {
    var steps := CreatePlan(sha, d, c.op.id, c.op.r, c.op.size, c.op.meta, c.op.now).steps;
    Run(d, if c.cut < |steps| then steps[..c.cut] else steps)
  }

  /** The first step of the list, if there is one, puts the blob in place. */
  predicate StartsWithBlob(steps: seq<Step>, hash: string) {
    steps == [] || (steps[0].Write? && steps[0].slot == Blob(hash))
  }

  predicate BelongsTo(step: Step, hash: string) {
    && step.Write?
    && match step.slot
       case RecordShard(_) => true
       case Blob(h) => h == hash
       case Meta(h) => h == hash
       case Lookup(_) => step.content == Text("") || step.content == Text(hash)
       case Record(h, _) => h == hash
       case _ => false
  }

  lemma {:induction false} StepsLeaveNothingDangling(d: Disk, steps: seq<Step>, hash: string)
    requires NoDangling(d) && forall i | 0 <= i < |steps| :: BelongsTo(steps[i], hash)
    requires Blob(hash) in d || StartsWithBlob(steps, hash)
    ensures NoDangling(Run(d, steps))
    decreases |steps|
  {
    if steps != [] {
      var next := Apply(d, steps[0]);
      forall k, h | Names(next, k, h) && h != "" && h != hash ensures Blob(h) in next {
        assert Names(d, k, h);
      }
      StepsLeaveNothingDangling(next, steps[1..], hash);
    }
  }

  lemma PlanBelongs(sha: Sha256, d: Disk, op: Op)
    requires IsHashCreate(op)
    ensures var steps := CreatePlan(sha, d, op.id, op.r, op.size, op.meta, op.now).steps;
            && (forall i | 0 <= i < |steps| :: BelongsTo(steps[i], op.id.hash))
            && (Blob(op.id.hash) in d || StartsWithBlob(steps, op.id.hash))
  {
    var attach := AttachSteps(sha, op.id.hash, op.id.reference);
    assert forall i | 0 <= i < |attach| :: BelongsTo(attach[i], op.id.hash);
  }

  function ExecCuts(sha: Sha256, d: Disk, cuts: seq<CutCreate>): Disk
    requires forall i | 0 <= i < |cuts| :: IsHashCreate(cuts[i].op)
    decreases |cuts|
  {
    if cuts == [] then d else ExecCuts(sha, ExecCut(sha, d, cuts[0]), cuts[1..])
  }

  /** However creates are cut off, the store they leave has no dangling lookup and no orphaned metadata. */
  lemma {:induction false} InterruptedCreatesLeaveNothingDangling(sha: Sha256, d: Disk, cuts: seq<CutCreate>)
    requires NoDangling(d) && forall i | 0 <= i < |cuts| :: IsHashCreate(cuts[i].op)
    ensures NoDangling(ExecCuts(sha, d, cuts))
    decreases |cuts|
  {
    if cuts != [] {
      PlanBelongs(sha, d, cuts[0].op);
      var CutCreate(op, cut) := cuts[0];
      var steps := CreatePlan(sha, d, op.id, op.r, op.size, op.meta, op.now).steps;
      StepsLeaveNothingDangling(d, if cut < |steps| then steps[..cut] else steps, op.id.hash);
      InterruptedCreatesLeaveNothingDangling(sha, ExecCut(sha, d, cuts[0]), cuts[1..]);
    }
  }

  // Deletion

  /** What trashing an artifact without records does to the blobs and metadata, even if the sweep fails. */
  lemma TrashEffect(d: Disk, hash: string)
    requires Blob(hash) in d && RefsOf(d, hash) == {}
    ensures var after := MoveToTrash(d, hash).0;
            && Blob(hash) !in after && TrashBlob(hash) in after && after[TrashBlob(hash)] == d[Blob(hash)]
            && RefsOf(after, hash) == {}
            && (RecordShard(Prefix(hash)) in d ==> TrashDir(hash) in after)
            && (forall s: Slot | (s.Blob? || s.Meta?) && s.hash != hash ::
                  (s in after <==> s in d) && (s in d ==> after[s] == d[s]))
  {
    hide Sweep;
    var moved := Renamed(Renamed(d, Blob(hash), TrashBlob(hash)), Meta(hash), TrashMeta(hash));
    SweepEffect(moved, hash);
    var after := MoveToTrash(d, hash).0;
    forall s: Slot | s.Blob? || s.Meta? || s.TrashBlob? ensures SameSlot(moved, after, s) {}
    forall s: Slot | s in after && s.Record? ensures s in d {
      assert InShard(s, hash) || SameSlot(moved, after, s);
    }
    assert RefsOf(after, hash) <= RefsOf(d, hash);
  }

  lemma TrashMovesMeta(d: Disk, hash: string)
    ensures var e := MoveToTrash(d, hash).0;
            && Meta(hash) !in e && (Meta(hash) in d ==> TrashMeta(hash) in e && e[TrashMeta(hash)] == d[Meta(hash)])
            && forall k :: SameSlot(d, e, Lookup(k))
  {
    hide Sweep;
    var moved := Renamed(Renamed(d, Blob(hash), TrashBlob(hash)), Meta(hash), TrashMeta(hash));
    SweepEffect(moved, hash);
    assert SameSlot(moved, Sweep(moved, hash), Meta(hash)) && SameSlot(moved, Sweep(moved, hash), TrashMeta(hash));
    forall k ensures SameSlot(d, MoveToTrash(d, hash).0, Lookup(k)) {
      assert SameSlot(moved, Sweep(moved, hash), Lookup(k));
    }
  }

  /**
   * After a successful delete the blob is live exactly when a record of it remains; a removed blob lies
   * in the trash byte for byte, and its metadata beside it; and no other hash loses or changes either.
   */
  lemma DeleteIsReferenceCounted(sha: Sha256, d: Disk, id: Identifier)
    requires Delete(sha, d, id).1.Ok?
    ensures var hash, after := Resolve(sha, d, id).value, Delete(sha, d, id).0;
            && Blob(hash) in d
            && (Blob(hash) in after <==> RefsOf(after, hash) != {})
            && (Blob(hash) in after ==> after[Blob(hash)] == d[Blob(hash)])
            && (Blob(hash) !in after ==> TrashBlob(hash) in after && after[TrashBlob(hash)] == d[Blob(hash)])
            && (if Blob(hash) in after then SameSlot(d, after, Meta(hash))
                else Meta(hash) !in after && (Meta(hash) in d ==> TrashMeta(hash) in after && after[TrashMeta(hash)] == d[Meta(hash)]))
            && (forall s: Slot | (s.Blob? || s.Meta?) && s.hash != hash ::
                  (s in after <==> s in d) && (s in d ==> after[s] == d[s]))
  {
    hide MoveToTrash, RefsOf;
    var hash := Resolve(sha, d, id).value;
    var rest := Dropped(sha, d, hash, id);
    if RefsOf(rest, hash) == {} {
      TrashEffect(rest, hash);
      TrashMovesMeta(rest, hash);
    }
  }

  /**
   * Deleting by hash alone removes exactly the readable records of the artifact, and exactly the lookups of
   * their references, whichever artifact these name by now; the blob goes if and only if every record is
   * readable. All of this holds even when the move to the trash fails at the end.
   */
  lemma DeleteByHashDropsAll(sha: Sha256, d: Disk, hash: string)
    requires hash != "" && Blob(hash) in d
    ensures var after := Delete(sha, d, Identifier(hash, None)).0;
            && (Blob(hash) !in after <==> forall k | Record(hash, k) in d :: IsReadable(d, hash, k))
            && (forall k :: Record(hash, k) in after <==> Record(hash, k) in d && !IsReadable(d, hash, k))
            && (forall k :: Lookup(k) in after <==> Lookup(k) in d && !IsReadable(d, hash, k))
  {
    var rest := DropAllReferences(d, hash);
    forall k ensures Record(hash, k) in rest <==> k in RefsOf(rest, hash) {
      assert Record(hash, k) in rest ==> k in RefsOf(rest, hash);
    }
    if RefsOf(rest, hash) == {} {
      TrashEffect(rest, hash);
      TrashSparesLookups(rest, hash);
      forall k ensures Record(hash, k) !in MoveToTrash(rest, hash).0 {
        assert Record(hash, k) in MoveToTrash(rest, hash).0 ==> k in RefsOf(MoveToTrash(rest, hash).0, hash);
      }
    }
  }

  lemma TrashSparesLookups(d: Disk, hash: string)
    ensures forall k :: Lookup(k) in MoveToTrash(d, hash).0 <==> Lookup(k) in d
  {}

  /** The references that a delete drops, by their keys. */
  predicate Drops(sha: Sha256, d: Disk, id: Identifier, k: string)
    requires Deletable(sha, d, id)
  {
    if id.reference.Some? then k == KeyOf(sha, id.reference.value)
    else IsReadable(d, Resolve(sha, d, id).value, k)
  }

  /**
   * A delete removes a lookup that names another artifact exactly when it drops the reference of that key,
   * which the other artifact has taken over by a retag.
   */
  lemma DeleteTakesLookups(sha: Sha256, d: Disk, id: Identifier, k: string, g: string)
    requires Deletable(sha, d, id) && Names(d, k, g) && g != Resolve(sha, d, id).value
    ensures Lookup(k) !in Delete(sha, d, id).0 <==> Drops(sha, d, id, k)
  {
    hide MoveToTrash, RefsOf;
    var hash := Resolve(sha, d, id).value;
    TrashSparesLookups(Dropped(sha, d, hash, id), hash);
  }

  /** The shard holds a record of another artifact, so that trashing `hash` takes it along. */
  ghost predicate ShardIsShared(d: Disk, hash: string) {
    exists g, k :: g != hash && SameShard(g, hash) && Record(g, k) in d
  }

  /**
   * A delete leaves the records of other artifacts alone exactly when it does not sweep a shared shard: when
   * it drops no last record, or the shard has no other, or an earlier delete has left a trash directory.
   */
  lemma DeleteSparesOtherRecords(sha: Sha256, d: Disk, id: Identifier)
    requires Deletable(sha, d, id) && HasParents(d)
    ensures var hash := Resolve(sha, d, id).value;
            (forall g, k | g != hash && Record(g, k) in d :: Record(g, k) in Delete(sha, d, id).0)
            <==> !Trashes(sha, d, id) || TrashDir(hash) in d || !ShardIsShared(d, hash)
  {
    hide Sweep;
    var hash := Resolve(sha, d, id).value;
    var rest := Dropped(sha, d, hash, id);
    assert forall g, k | g != hash :: Record(g, k) in rest <==> Record(g, k) in d;
    if Trashes(sha, d, id) {
      var moved := Renamed(Renamed(rest, Blob(hash), TrashBlob(hash)), Meta(hash), TrashMeta(hash));
      SweepEffect(moved, hash);
      forall g, k | g != hash && Record(g, k) in d
        ensures Record(g, k) in Delete(sha, d, id).0 <==> TrashDir(hash) in d || !SameShard(g, hash)
      {
        assert Record(g, k) in moved && HasParent(d, Record(g, k));
        assert SameShard(g, hash) <==> InShard(Record(g, k), hash);
        assert SameShard(g, hash) || SameSlot(moved, Sweep(moved, hash), Record(g, k));
      }
    }
  }

  /**
   * Trashing an artifact takes the record of a sibling in its shard but leaves the sibling's lookup, so
   * that the sibling can no longer be deleted by its reference.
   */
  lemma SiblingLosesItsRecord(sha: Sha256, d: Disk, hash: string, sibling: string, ref: Reference)
    requires hash != "" && sibling != hash && SameShard(sibling, hash)
    requires Blob(hash) in d && forall j | Record(hash, j) in d :: IsReadable(d, hash, j)
    requires var k := KeyOf(sha, ref); Names(d, k, sibling) && Record(sibling, k) in d && Record(hash, k) !in d
    requires Blob(sibling) in d && RecordShard(Prefix(hash)) in d && TrashDir(hash) !in d
    ensures var (after, res) := Delete(sha, d, Identifier(hash, None));
            var k := KeyOf(sha, ref);
            && res == Ok(()) && Names(after, k, sibling) && Record(sibling, k) !in after
            && Delete(sha, after, Identifier("", Some(ref))).1 == Err(ReferenceNotFound)
  {
    hide Sweep;
    var k := KeyOf(sha, ref);
    var rest := DropAllReferences(d, hash);
    assert RefsOf(rest, hash) == {};
    var moved := Renamed(Renamed(rest, Blob(hash), TrashBlob(hash)), Meta(hash), TrashMeta(hash));
    SweepEffect(moved, hash);
    var after := Sweep(moved, hash);
    assert Delete(sha, d, Identifier(hash, None)) == (after, Ok(()));
    assert SameSlot(moved, after, Lookup(k)) && SameSlot(moved, after, Blob(sibling));
    assert InShard(Record(sibling, k), hash);
    UnrecordedIsNotDeleted(sha, after, sibling, ref);
  }

  lemma UnrecordedIsNotDeleted(sha: Sha256, d: Disk, hash: string, ref: Reference)
    requires Names(d, KeyOf(sha, ref), hash) && Blob(hash) in d && Record(hash, KeyOf(sha, ref)) !in d
    ensures Delete(sha, d, Identifier("", Some(ref))).1 == Err(ReferenceNotFound)
  {}

  function TwoSiblings(sha: Sha256, x: Reference, y: Reference): Disk {
    map[Blob("abc") := Data([1]), Meta("abc") := MetaDoc(ArtifactMeta("abc", 1, 1)),
        Blob("abd") := Data([2]), Meta("abd") := MetaDoc(ArtifactMeta("abd", 1, 1)),
        Lookup(KeyOf(sha, x)) := Text("abc"), Record("abc", KeyOf(sha, x)) := RefDoc(x),
        Lookup(KeyOf(sha, y)) := Text("abd"), Record("abd", KeyOf(sha, y)) := RefDoc(y),
        RecordShard("ab") := Directory]
  }

  /**
   * A concrete loss: "abc" and "abd" share a shard, each with one reference. Deleting "abc" leaves the
   * lookup of "abd" without its record, and "abd" can no longer be deleted by that reference.
   */
  lemma DeleteCanLoseARecord(sha: Sha256, x: Reference, y: Reference)
    requires KeyOf(sha, x) != KeyOf(sha, y)
    ensures var d := TwoSiblings(sha, x, y);
            var (after, res) := Delete(sha, d, Identifier("abc", None));
            && IndexOk(d) && res == Ok(())
            && Names(after, KeyOf(sha, y), "abd")
            && Record("abd", KeyOf(sha, y)) !in after
            && Delete(sha, after, Identifier("", Some(y))).1 == Err(ReferenceNotFound)
  {
    hide Delete;
    var d := TwoSiblings(sha, x, y);
    assert "abc"[2] != "abd"[2];
    assert "abc"[..2] == "abd"[..2] == "ab";
    SiblingLosesItsRecord(sha, d, "abc", "abd", y);
  }

  /** "abc" was tagged x, then "xyz": the lookup names "xyz", but "abc" keeps its record. */
  function Retagged(sha: Sha256, x: Reference): Disk {
    map[Blob("abc") := Data([1]), Meta("abc") := MetaDoc(ArtifactMeta("abc", 1, 1)),
        Blob("xyz") := Data([2]), Meta("xyz") := MetaDoc(ArtifactMeta("xyz", 1, 1)),
        Lookup(KeyOf(sha, x)) := Text("xyz"),
        Record("abc", KeyOf(sha, x)) := RefDoc(x), RecordShard("ab") := Directory,
        Record("xyz", KeyOf(sha, x)) := RefDoc(x), RecordShard("xy") := Directory]
  }

  /** A concrete loss after a retag: deleting the old artifact takes the reference of the new one. */
  lemma DeleteCanTakeANewerLookup(sha: Sha256, x: Reference)
    ensures var d := Retagged(sha, x);
            var after := Delete(sha, d, Identifier("abc", None)).0;
            && IndexOk(d)
            && Resolve(sha, d, Identifier("", Some(x))) == Ok("xyz")
            && Resolve(sha, after, Identifier("", Some(x))) == Err(ReferenceNotFound)
            && Blob("xyz") in after
  {
    hide Delete;
    var d, k := Retagged(sha, x), KeyOf(sha, x);
    assert "abc"[0] != "xyz"[0];
    assert IsReadable(d, "abc", k);
    DeleteTakesLookups(sha, d, Identifier("abc", None), k, "xyz");
    DeleteSparesOtherBlobs(sha, d, Identifier("abc", None), "xyz");
  }

  lemma DeleteSparesOtherBlobs(sha: Sha256, d: Disk, id: Identifier, g: string)
    requires Deletable(sha, d, id) && g != Resolve(sha, d, id).value && Blob(g) in d
    ensures Blob(g) in Delete(sha, d, id).0
  {
    hide MoveToTrash, RefsOf;
    var hash := Resolve(sha, d, id).value;
    var rest := Dropped(sha, d, hash, id);
    if RefsOf(rest, hash) == {} {
      TrashEffect(rest, hash);
    }
  }

  // Deleting again

  /**
   * The outcome of a delete: it fails exactly when it drops the last reference, there is a shard directory
   * to move, and the trash directory of the hash is there already. The references are gone all the same.
   */
  lemma DeleteFailsExactlyWhenTrashedBefore(sha: Sha256, d: Disk, id: Identifier)
    requires Deletable(sha, d, id)
    ensures var hash := Resolve(sha, d, id).value;
            Delete(sha, d, id).1 ==
            if Trashes(sha, d, id) && RecordShard(Prefix(hash)) in d && TrashDir(hash) in d then Err(TrashOccupied)
            else Ok(())
  {}

  /** Trash directories are never removed. */
  lemma TrashDirStays(sha: Sha256, d: Disk, op: Op, hash: string)
    requires TrashDir(hash) in d
    ensures TrashDir(hash) in Exec(sha, d, op)
  {
    hide Create, CreatePlan, Sweep;
    match op
    case OpCreate(id, r, size, meta, now) => CreateNet(sha, d, id, r, size, meta, now);
    case OpDelete(id) =>
      if Deletable(sha, d, id) {
        var h := Resolve(sha, d, id).value;
        SweepEffect(Renamed(Renamed(Dropped(sha, d, h, id), Blob(h), TrashBlob(h)), Meta(h), TrashMeta(h)), h);
      }
    case _ =>
  }

  lemma {:induction false} TrashDirStaysThroughout(sha: Sha256, d: Disk, ops: seq<Op>, hash: string)
    requires TrashDir(hash) in d
    ensures TrashDir(hash) in ExecAll(sha, d, ops)
    decreases |ops|
  {
    if ops != [] {
      TrashDirStaysThroughout(sha, d, ops[..|ops| - 1], hash);
      TrashDirStays(sha, ExecAll(sha, d, ops[..|ops| - 1]), ops[|ops| - 1], hash);
    }
  }

  /**
   * Once an artifact with a record has been trashed, every later delete that drops the last record of the
   * same hash fails, whatever was done in between. The blob still goes to the trash; the shard directory
   * stays, and with it every record of another artifact.
   */
  lemma SecondDeleteFails(sha: Sha256, d: Disk, first: Identifier, ops: seq<Op>, again: Identifier, k: string)
    requires sha.Ideal() && WellFiled(sha, d) && SafeId(first) && forall i | 0 <= i < |ops| :: IsCall(ops[i])
    requires Trashes(sha, d, first) && RecordShard(Prefix(Resolve(sha, d, first).value)) in d
    requires var hash, now := Resolve(sha, d, first).value, ExecAll(sha, Delete(sha, d, first).0, ops);
             Trashes(sha, now, again) && Resolve(sha, now, again) == Ok(hash) && Record(hash, k) in now
    ensures var hash, now := Resolve(sha, d, first).value, ExecAll(sha, Delete(sha, d, first).0, ops);
            var (after, res) := Delete(sha, now, again);
            && res == Err(TrashOccupied)
            && Blob(hash) !in after && TrashBlob(hash) in after && after[TrashBlob(hash)] == now[Blob(hash)]
            && forall g, j | g != hash && Record(g, j) in now :: Record(g, j) in after
  {
    var hash := Resolve(sha, d, first).value;
    hide Delete, Trashes, WellFiled, ExecAll, Resolve, IsCall;
    FirstDeleteLeavesATrashDir(sha, d, first);
    DeleteKeepsWellFiled(sha, d, first);
    WellFiledRun(sha, Delete(sha, d, first).0, ops);
    TrashDirStaysThroughout(sha, Delete(sha, d, first).0, ops, hash);
    LaterDeleteFails(sha, ExecAll(sha, Delete(sha, d, first).0, ops), again, hash, k);
  }

  lemma LaterDeleteFails(sha: Sha256, d: Disk, id: Identifier, hash: string, k: string)
    requires WellFiled(sha, d) && TrashDir(hash) in d && Record(hash, k) in d
    requires Trashes(sha, d, id) && Resolve(sha, d, id) == Ok(hash)
    ensures var (after, res) := Delete(sha, d, id);
            && res == Err(TrashOccupied)
            && Blob(hash) !in after && TrashBlob(hash) in after && after[TrashBlob(hash)] == d[Blob(hash)]
            && forall g, j | g != hash && Record(g, j) in d :: Record(g, j) in after
  {
    hide Delete, Trashes, WellFiled;
    WellFiledHasParents(sha, d, Record(hash, k));
    TrashesTrash(sha, d, id);
    DeleteFailsExactlyWhenTrashedBefore(sha, d, id);
    DeleteSparesOtherRecords(sha, d, id);
  }

  lemma FirstDeleteLeavesATrashDir(sha: Sha256, d: Disk, id: Identifier)
    requires Trashes(sha, d, id) && RecordShard(Prefix(Resolve(sha, d, id).value)) in d
    ensures TrashDir(Resolve(sha, d, id).value) in Delete(sha, d, id).0
  {
    hide MoveToTrash, RefsOf;
    var hash := Resolve(sha, d, id).value;
    DroppedKeepsDirs(sha, d, hash, id);
    TrashEffect(Dropped(sha, d, hash, id), hash);
  }

  lemma WellFiledHasParents(sha: Sha256, d: Disk, s: Slot)
    requires WellFiled(sha, d) && s in d
    ensures HasParents(d) && HasParent(d, s)
  {}

  lemma DroppedKeepsDirs(sha: Sha256, d: Disk, hash: string, id: Identifier)
    requires Blob(hash) in d
    ensures var rest := Dropped(sha, d, hash, id);
            (RecordShard(Prefix(hash)) in rest <==> RecordShard(Prefix(hash)) in d)
            && Blob(hash) in rest && rest[Blob(hash)] == d[Blob(hash)]
  {}

  lemma TrashesTrash(sha: Sha256, d: Disk, id: Identifier)
    requires Trashes(sha, d, id)
    ensures var hash, after := Resolve(sha, d, id).value, Delete(sha, d, id).0;
            Deletable(sha, d, id) && Blob(hash) !in after && TrashBlob(hash) in after && after[TrashBlob(hash)] == d[Blob(hash)]
  {
    hide MoveToTrash, RefsOf;
    var hash := Resolve(sha, d, id).value;
    DroppedKeepsDirs(sha, d, hash, id);
    TrashEffect(Dropped(sha, d, hash, id), hash);
  }

  function CreateOf(hash: string, ref: Reference): Op {
    OpCreate(Identifier(hash, Some(ref)), Reader([1], false), -1, None, 1)
  }

  /** What creating a new artifact with a reference leaves. */
  function WithArtifact(sha: Sha256, d: Disk, hash: string, ref: Reference): Disk {
    Attach(sha, d[Blob(hash) := Data([1])][Meta(hash) := MetaDoc(ArtifactMeta(hash, 1, 1))], hash, Some(ref))
  }

  lemma CreateOfNew(sha: Sha256, d: Disk, hash: string, ref: Reference)
    requires hash != "" && Blob(hash) !in d
    ensures Exec(sha, d, CreateOf(hash, ref)) == WithArtifact(sha, d, hash, ref)
  {
    CreateNet(sha, d, Identifier(hash, Some(ref)), Reader([1], false), -1, None, 1);
  }

  /**
   * A concrete case: "abc" is created with a reference, deleted, and created again, and its sibling "abd"
   * is created. Deleting "abc" once more fails, and the sibling keeps its record.
   */
  lemma RecreatedArtifactIsNotDeletedCleanly(sha: Sha256, x: Reference, y: Reference)
    requires sha.Ideal() && KeyOf(sha, x) != KeyOf(sha, y) && TagsOk(x) && TagsOk(y)
    ensures var abc := Identifier("abc", None);
            var once := Exec(sha, map[], CreateOf("abc", x));
            var again := ExecAll(sha, Delete(sha, once, abc).0, [CreateOf("abc", x), CreateOf("abd", y)]);
            && Delete(sha, once, abc).1 == Ok(())
            && Delete(sha, again, abc).1 == Err(TrashOccupied)
            && Record("abd", KeyOf(sha, y)) in Delete(sha, again, abc).0
  {
    hide Delete, Exec, Trashes, WellFiled, WithArtifact, ExecAll, Resolve;
    var abc := Identifier("abc", None);
    CreateOfNew(sha, map[], "abc", x);
    var once := WithArtifact(sha, map[], "abc", x);
    NewArtifact(sha, map[], "abc", x, "abd");
    ExecIsCreate(sha, map[], "abc", x);
    CreateKeepsWellFiled(sha, map[], Identifier("abc", Some(x)), Reader([1], false), -1, None, 1);
    DeleteFailsExactlyWhenTrashedBefore(sha, once, abc);
    TrashesTrash(sha, once, abc);
    var gone := Delete(sha, once, abc).0;
    DeleteMakesNoBlob(sha, once, abc, "abd");
    DeleteByHashDropsAll(sha, once, "abc");
    CreateOfNew(sha, gone, "abc", x);
    var half := WithArtifact(sha, gone, "abc", x);
    NewArtifact(sha, gone, "abc", x, "abd");
    CreateOfNew(sha, half, "abd", y);
    ExecTwo(sha, gone, CreateOf("abc", x), CreateOf("abd", y));
    NewSibling(sha, half, "abc", x, "abd", y);
    SecondDeleteFails(sha, once, abc, [CreateOf("abc", x), CreateOf("abd", y)], abc, KeyOf(sha, x));
  }

  lemma ExecIsCreate(sha: Sha256, d: Disk, hash: string, ref: Reference)
    ensures Exec(sha, d, CreateOf(hash, ref)) == Create(sha, d, Identifier(hash, Some(ref)), Reader([1], false), -1, None, 1)
    ensures sha.Ideal() ==> WellFiled(sha, map[])
  {}

  lemma ExecTwo(sha: Sha256, d: Disk, a: Op, b: Op)
    ensures ExecAll(sha, d, [a, b]) == Exec(sha, Exec(sha, d, a), b)
  {
    hide Exec;
    assert [a, b][..1] == [a] && [a][..0] == [];
    assert ExecAll(sha, d, [a]) == Exec(sha, ExecAll(sha, d, []), a);
  }

  /** A new artifact has its one record, so that deleting it by hash trashes it. */
  lemma NewArtifact(sha: Sha256, d: Disk, hash: string, ref: Reference, other: string)
    requires hash != "" && hash != other && TagsOk(ref) && forall k :: Record(hash, k) !in d
    ensures var e, id := WithArtifact(sha, d, hash, ref), Identifier(hash, None);
            && Resolve(sha, e, id) == Ok(hash) && Trashes(sha, e, id) && RecordShard(Prefix(hash)) in e && Blob(hash) in e
            && (forall k :: Record(hash, k) in e <==> k == KeyOf(sha, ref))
            && IsReadable(e, hash, KeyOf(sha, ref))
            && (TrashDir(hash) in e <==> TrashDir(hash) in d) && (Blob(other) in e <==> Blob(other) in d)
  {
    var e := WithArtifact(sha, d, hash, ref);
    forall k ensures k !in RefsOf(DropAllReferences(e, hash), hash) {
      assert k in RefsOf(DropAllReferences(e, hash), hash) ==> Record(hash, k) in e;
    }
  }

  /** Another artifact beside it changes nothing of that. */
  lemma NewSibling(sha: Sha256, d: Disk, hash: string, x: Reference, other: string, y: Reference)
    requires hash != "" && hash != other && TagsOk(y) && Blob(hash) in d
    requires (forall k :: Record(hash, k) in d <==> k == KeyOf(sha, x)) && IsReadable(d, hash, KeyOf(sha, x))
    ensures var e, id := WithArtifact(sha, d, other, y), Identifier(hash, None);
            && Resolve(sha, e, id) == Ok(hash) && Trashes(sha, e, id)
            && Record(hash, KeyOf(sha, x)) in e && Record(other, KeyOf(sha, y)) in e
  {
    var e := WithArtifact(sha, d, other, y);
    forall k ensures k !in RefsOf(DropAllReferences(e, hash), hash) {
      assert k in RefsOf(DropAllReferences(e, hash), hash) ==> Record(hash, k) in e;
    }
  }

  lemma DeleteMakesNoBlob(sha: Sha256, d: Disk, id: Identifier, g: string)
    requires Trashes(sha, d, id) && g != Resolve(sha, d, id).value && Blob(g) !in d
    ensures Blob(g) !in Delete(sha, d, id).0
  {
    hide MoveToTrash, RefsOf;
    var hash := Resolve(sha, d, id).value;
    DroppedKeepsDirs(sha, d, hash, id);
    TrashEffect(Dropped(sha, d, hash, id), hash);
  }
}
