/**
 * What a caller of the storage may rely on, operation by operation: which calls succeed, what they answer,
 * what can be read afterwards, and that nothing else has changed.
 */
module StoreAnswers {
  import opened Digests
  import opened Layout
  import opened Ranges
  import opened Store
  import opened StoreLaws

  /** Everything outside `touched` is as it was. */
  ghost predicate ChangesOnly(d: Disk, e: Disk, touched: set<Slot>) {
    forall s | s !in touched :: SameSlot(d, e, s)
  }

  // CreateArtifact

  /** Metadata that names no hash, or this one. */
  predicate MayName(meta: Option<ArtifactMeta>, hash: string) {
    meta.None? || meta.value.hash in {"", hash}
  }

  /** The hash that a create is about: the identifier's, or the metadata's when there is only a reference. */
  lemma TargetAnswers(id: Identifier, meta: Option<ArtifactMeta>)
    ensures forall hash :: Target(id, meta) == Ok(hash) <==>
              && hash != ""
              && ((id.hash == hash && MayName(meta, hash))
                  || (id.hash == "" && id.reference.Some? && meta.Some? && meta.value.hash == hash))
    ensures Target(id, meta) == Err(InvalidIdentifier) <==> id == Identifier("", None)
    ensures Target(id, meta) == Err(MissingMetaHash) <==> id.hash == "" && id.reference.Some? && MayName(meta, "")
    ensures Target(id, meta) == Err(HashMismatch) <==> id.hash != "" && !MayName(meta, id.hash)
  {}

  predicate TooLong(ref: Reference) {
    exists key | key in ref.tags :: Utf8Length(key) > 128 || Utf8Length(ref.tags[key]) > 1024
  }

  predicate IsAscii(s: string) {
    forall i | 0 <= i < |s| :: s[i] as int < 0x80
  }

  predicate HasAsciiTags(ref: Reference) {
    forall key | key in ref.tags :: IsAscii(key) && IsAscii(ref.tags[key])
  }

  /** The limits on tags count bytes; for tags of ASCII alone that is the same as characters. */
  lemma TagLimitsCountBytes(ref: Reference)
    ensures TooLong(ref) <== exists key | key in ref.tags :: |key| > 128 || |ref.tags[key]| > 1024
    ensures HasAsciiTags(ref) ==> (TooLong(ref) <==> exists key | key in ref.tags :: |key| > 128 || |ref.tags[key]| > 1024)
  {
    if HasAsciiTags(ref) {
      forall key | key in ref.tags ensures Utf8Length(key) == |key| && Utf8Length(ref.tags[key]) == |ref.tags[key]| {
        assert IsAscii(key) && IsAscii(ref.tags[key]);
      }
    }
  }

  lemma {:induction false} TwoBytesEach(s: string)
    requires forall i | 0 <= i < |s| :: 0x80 <= s[i] as int < 0x800
    ensures Utf8Length(s) == 2 * |s|
  {
    if s != "" {
      TwoBytesEach(s[1..]);
    }
  }

  /** A concrete case: a tag key of 65 letters is too long when each takes two bytes. */
  lemma ShortTagIsTooLong(name: string, registry: string, now: int)
    ensures var key := seq(65, _ => '\U{E9}');
            |key| <= 128 && TooLong(Reference(name, registry, now, "", map[key := ""]))
  {
    var key := seq(65, _ => '\U{E9}');
    TwoBytesEach(key);
    var ref := Reference(name, registry, now, "", map[key := ""]);
    assert key in ref.tags && Utf8Length(key) == 130;
  }

  /** The slots that attaching a reference to an artifact may change. */
  function AttachedSlots(sha: Sha256, hash: string, reference: Option<Reference>): set<Slot> {
    if reference.None? then {}
    else
      var k := sha.text(reference.value.registry + "::" + reference.value.name);
      {Lookup(k), Record(hash, k), RecordShard(Prefix(hash))}
  }

  /** Whom a create lets one read its artifact by: the hash, or the reference alone. */
  predicate Reaches(i: Identifier, hash: string, reference: Option<Reference>) {
    i.hash == hash || (i.hash == "" && i.reference.Some? && i.reference == reference)
  }

  lemma AttachAnswers(sha: Sha256, d: Disk, hash: string, reference: Option<Reference>)
    requires hash != ""
    ensures var e := Attach(sha, d, hash, reference);
            && ChangesOnly(d, e, AttachedSlots(sha, hash, reference))
            && (forall i | Reaches(i, hash, reference) :: Resolve(sha, e, i) == Ok(hash))
            && (reference.Some? && !TooLong(reference.value) ==>
                  GetReference(sha, e, hash, reference.value.name, reference.value.registry) == Ok(reference.value))
            && (reference.Some? && TooLong(reference.value) ==>
                  forall k :: SameSlot(d, e, Record(hash, k)))
  {
    assert Attachable(reference) <==> reference.None? || !TooLong(reference.value);
  }

  /**
   * Creating an artifact that is not there: it is then read back, by hash and by its reference, with the bytes
   * of the stream, their number and the time of creation; the reference is recorded unless a tag is too long,
   * which is the one error; and nothing else changes.
   */
  lemma CreatedIsReadBack(sha: Sha256, d: Disk, id: Identifier, r: Reader, size: int, meta: Option<ArtifactMeta>,
                          now: int, hash: string)
    requires Target(id, meta) == Ok(hash) && Blob(hash) !in d && r.Reader? && !r.fails && |r.data| <= MAX_INT64
    ensures var e, res := Create(sha, d, id, r, size, meta, now), CreatePlan(sha, d, id, r, size, meta, now).result;
            var m := ArtifactMeta(hash, |r.data|, if meta.Some? && meta.value.created != 0 then meta.value.created else now);
            && res == (if id.reference.Some? && TooLong(id.reference.value) then Err(TagTooLong) else Ok(m))
            && (forall i | Reaches(i, hash, id.reference) ::
                  && GetMeta(sha, e, i) == Ok(m)
                  && ReadBlob(sha, e, i, ByteRange(0, -1)) == Ok((r.data, ByteRange(0, |r.data|))))
            && (res.Ok? && id.reference.Some? ==>
                  GetReference(sha, e, hash, id.reference.value.name, id.reference.value.registry) == Ok(id.reference.value))
            && ChangesOnly(d, e, {Blob(hash), Meta(hash)} + AttachedSlots(sha, hash, id.reference))
  {
    hide Run, Attach, AttachedSlots;
    var written := d[Blob(hash) := Data(r.data)][Meta(hash) := MetaDoc(CreatedMeta(hash, |r.data|, meta, now))];
    CreateNet(sha, d, id, r, size, meta, now);
    AttachAnswers(sha, written, hash, id.reference);
    AttachedElsewhere(sha, hash, id.reference);
    assert SameSlot(written, Attach(sha, written, hash, id.reference), Blob(hash));
    assert SameSlot(written, Attach(sha, written, hash, id.reference), Meta(hash));
    ReadToEnd(r.data, 0);
    assert r.data[0..] == r.data;
  }

  lemma AttachedElsewhere(sha: Sha256, hash: string, reference: Option<Reference>)
    ensures forall h :: Blob(h) !in AttachedSlots(sha, hash, reference) && Meta(h) !in AttachedSlots(sha, hash, reference)
  {}

  /** A create that fails before it has an artifact, and what it leaves of one. */
  lemma BrokenCreateAnswers(sha: Sha256, d: Disk, id: Identifier, r: Reader, size: int, meta: Option<ArtifactMeta>,
                            now: int)
    requires Target(id, meta).Err? || (Blob(Target(id, meta).value) !in d && (r.Nil? || r.fails))
    ensures var e, res := Create(sha, d, id, r, size, meta, now), CreatePlan(sha, d, id, r, size, meta, now).result;
            && res == Err(if Target(id, meta).Err? then Target(id, meta).error else if r.Nil? then NilReader else ReadFailed)
            && (Target(id, meta).Err? ==> e == d)
            && (Target(id, meta).Ok? ==>
                  e == d[Blob(Target(id, meta).value) := Data(if r.Nil? then [] else r.data)])
  {
    hide Run;
    CreateNet(sha, d, id, r, size, meta, now);
  }

  /** The metadata that a create of an artifact `hash` that is there answers with, when it is `g` it looks at. */
  function KnownMeta(d: Disk, hash: string, g: string, now: int): Result<ArtifactMeta>
    requires Blob(hash) in d
  {
    if Meta(g) !in d then Ok(ArtifactMeta(hash, |BytesAt(d, hash)|, now))
    else if d[Meta(g)].MetaDoc? then Ok(d[Meta(g)].meta)
    else Err(Malformed)
  }

  /** The verdict on a create of what is there, from the metadata it goes by. */
  function LaterVerdict(known: Result<ArtifactMeta>, size: int, reference: Option<Reference>): Result<ArtifactMeta> {
    if known.Err? then known
    else if size != -1 && size != known.value.length then Err(HashConflict(known.value.length, size))
    else if reference.Some? && TooLong(reference.value) then Err(TagTooLong)
    else known
  }

  /**
   * Creating by hash an artifact that is there: the stream is not looked at; the answer is the metadata that
   * is there, or a conflict with its length, and only the reference is attached.
   */
  lemma CreateOfExistingAnswers(sha: Sha256, d: Disk, id: Identifier, r: Reader, size: int, meta: Option<ArtifactMeta>,
                                now: int)
    requires id.hash != "" && MayName(meta, id.hash) && Blob(id.hash) in d
    ensures var e, res := Create(sha, d, id, r, size, meta, now), CreatePlan(sha, d, id, r, size, meta, now).result;
            && res == LaterVerdict(KnownMeta(d, id.hash, id.hash, now), size, id.reference)
            && (res.Ok? && id.reference.Some? ==>
                  && Resolve(sha, e, Identifier("", id.reference)) == Ok(id.hash)
                  && GetReference(sha, e, id.hash, id.reference.value.name, id.reference.value.registry) == Ok(id.reference.value))
            && ChangesOnly(d, e, if res.Ok? || res == Err(TagTooLong) then AttachedSlots(sha, id.hash, id.reference) else {})
  {
    hide Run, Attach, AttachedSlots;
    CreateNet(sha, d, id, r, size, meta, now);
    AttachAnswers(sha, d, id.hash, id.reference);
    assert Attachable(id.reference) <==> id.reference.None? || !TooLong(id.reference.value);
  }

  /**
   * Creating by reference alone an artifact that is there: the call goes by the metadata of the artifact that
   * the reference named before, whichever it is, and so fails exactly when the reference is new or that
   * metadata does not suit.
   */
  lemma CreateOfExistingByReference(sha: Sha256, d: Disk, ref: Reference, r: Reader, size: int, meta: ArtifactMeta, now: int)
    requires meta.hash != "" && Blob(meta.hash) in d
    ensures var id, hash := Identifier("", Some(ref)), meta.hash;
            var k := sha.text(ref.registry + "::" + ref.name);
            var e, res := Create(sha, d, id, r, size, Some(meta), now), CreatePlan(sha, d, id, r, size, Some(meta), now).result;
            && ((forall g :: !Names(d, k, g)) ==> res == Err(ReferenceNotFound) && e == d)
            && (forall g | Names(d, k, g) :: res == LaterVerdict(KnownMeta(d, hash, g, now), size, Some(ref)))
            && (res.Ok? ==> Names(e, k, hash) && GetReference(sha, e, hash, ref.name, ref.registry) == Ok(ref))
            && ChangesOnly(d, e, if res.Ok? || res == Err(TagTooLong) then AttachedSlots(sha, hash, Some(ref)) else {})
  {
    hide Run, Attach, AttachedSlots;
    var id, k := Identifier("", Some(ref)), sha.text(ref.registry + "::" + ref.name);
    CreateNet(sha, d, id, r, size, Some(meta), now);
    AttachAnswers(sha, d, meta.hash, Some(ref));
    assert Attachable(Some(ref)) <==> !TooLong(ref);
    assert Resolve(sha, d, id).Ok? ==> Names(d, k, Resolve(sha, d, id).value);
    var e := Create(sha, d, id, r, size, Some(meta), now);
    if CreatePlan(sha, d, id, r, size, Some(meta), now).result.Ok? {
      assert Resolve(sha, e, id) == Ok(meta.hash);
    }
  }

  /**
   * A concrete case: tagging content that is there, by reference alone, fails for a new reference; and for one
   * that names "xyz" it answers with the metadata of "xyz".
   */
  lemma ExistingContentCannotBeTagged(sha: Sha256, x: Reference)
    requires !TooLong(x)
    ensures var known := ArtifactMeta("xyz", 2, 1);
            var d := map[Blob("abc") := Data([1]), Meta("abc") := MetaDoc(ArtifactMeta("abc", 1, 1))];
            var tagged := d[Lookup(KeyOf(sha, x)) := Text("xyz")][Meta("xyz") := MetaDoc(known)];
            var id, meta := Identifier("", Some(x)), Some(ArtifactMeta("abc", 1, 1));
            && CreatePlan(sha, d, id, Nil, -1, meta, 2).result == Err(ReferenceNotFound)
            && CreatePlan(sha, tagged, id, Nil, -1, meta, 2).result == Ok(known)
            && CreatePlan(sha, tagged, id, Nil, 1, meta, 2).result == Err(HashConflict(2, 1))
  {
    hide CreatePlan;
    var known := ArtifactMeta("xyz", 2, 1);
    var d := map[Blob("abc") := Data([1]), Meta("abc") := MetaDoc(ArtifactMeta("abc", 1, 1))];
    var tagged := d[Lookup(KeyOf(sha, x)) := Text("xyz")][Meta("xyz") := MetaDoc(known)];
    CreateOfExistingByReference(sha, d, x, Nil, -1, ArtifactMeta("abc", 1, 1), 2);
    CreateOfExistingByReference(sha, tagged, x, Nil, -1, ArtifactMeta("abc", 1, 1), 2);
    CreateOfExistingByReference(sha, tagged, x, Nil, 1, ArtifactMeta("abc", 1, 1), 2);
    assert Names(tagged, KeyOf(sha, x), "xyz");
  }

  // ReadBlob and UpdateBlob

  /**
   * What a read answers, from the request alone: from the offset, or the start when it is negative, as many
   * bytes as are asked for and there, or all the rest; and the offset and length of what it delivers.
   */
  lemma ReadAnswers(sha: Sha256, d: Disk, id: Identifier, req: ByteRange, hash: string)
    requires IsRequest(req) && Resolve(sha, d, id) == Ok(hash)
    requires Blob(hash) in d ==> |BytesAt(d, hash)| <= MAX_INT64
    ensures Blob(hash) !in d ==> ReadBlob(sha, d, id, req) == Err(BlobAbsent)
    ensures Blob(hash) in d ==>
              var b, from := BytesAt(d, hash), Max(req.offset, 0);
              var wanted := if req.length == -1 then |b| else Max(req.length, 0);
              && ReadBlob(sha, d, id, req).Ok?
              && var (bytes, actual) := ReadBlob(sha, d, id, req).value;
              && bytes == Slice(b, from, wanted)
              && actual.offset == from
              && (!Overflows(req) ==> actual.length == |bytes|)
  {
    if Blob(hash) in d {
      ReadDeliversWhatIsAsked(BytesAt(d, hash), req);
    }
  }

  /**
   * An update writes what its stream delivers, up to a positive length, at the offset, and pads a gap with
   * zeros; it fails when the stream ends or breaks before that length. Nothing but the bytes changes.
   */
  lemma UpdateAnswers(sha: Sha256, d: Disk, id: Identifier, req: ByteRange, r: Reader, hash: string)
    requires Resolve(sha, d, id) == Ok(hash) && r.Reader?
    ensures var (e, res) := UpdateBlob(sha, d, id, req, r);
            && (Blob(hash) !in d ==> res == Err(BlobAbsent) && e == d)
            && (Blob(hash) in d && req.offset < 0 ==> res == Err(InvalidOffset) && e == d)
            && (Blob(hash) in d && req.offset >= 0 ==>
                  var b, n := BytesAt(d, hash), if req.length > 0 then Min(req.length, |r.data|) else |r.data|;
                  && (res.Ok? <==> if req.length > 0 then n == req.length else !r.fails)
                  && (res.Err? ==> res.error == if r.fails then ReadFailed else ShortWrite)
                  && ChangesOnly(d, e, {Blob(hash)}) && Blob(hash) in e && e[Blob(hash)].Data?
                  && var after := e[Blob(hash)].bytes;
                  && |after| == (if n > 0 && req.offset + n > |b| then req.offset + n else |b|)
                  && forall i | 0 <= i < |after| ::
                       after[i] == if req.offset <= i < req.offset + n then r.data[i - req.offset] else if i < |b| then b[i] else 0)
  {
    hide WriteAt;
    if Blob(hash) in d && req.offset >= 0 {
      WriteAtPointwise(BytesAt(d, hash), req.offset, Copied(req.length, r.data));
    }
  }

  // DeleteArtifact

  /** A delete that does not find its artifact and reference changes nothing and says why. */
  lemma DeleteRefuses(sha: Sha256, d: Disk, id: Identifier)
    requires !Deletable(sha, d, id)
    ensures var (e, res) := Delete(sha, d, id);
            && e == d && res.Err?
            && (id == Identifier("", None) <==> res.error == InvalidIdentifier)
            && (res.error == BlobAbsent <==> exists hash :: Resolve(sha, d, id) == Ok(hash) && Blob(hash) !in d)
            && res.error in {InvalidIdentifier, BlobAbsent, ReferenceNotFound}
  {}

  /**
   * Deleting by reference: the reference is gone, lookup and record, whatever it was the last of. The
   * artifact goes, byte for byte and with its metadata, to the trash exactly when it had no other record;
   * else everything else stays. No other lookup changes either way.
   */
  lemma DeleteByReferenceDropsOne(sha: Sha256, d: Disk, id: Identifier, ref: Reference, hash: string)
    requires id.reference == Some(ref) && Resolve(sha, d, id) == Ok(hash) && Blob(hash) in d
    requires GetReference(sha, d, hash, ref.name, ref.registry).Ok?
    ensures var e, k := Delete(sha, d, id).0, sha.text(ref.registry + "::" + ref.name);
            && Lookup(k) !in e && Record(hash, k) !in e
            && (Blob(hash) !in e <==> forall j | Record(hash, j) in d :: j == k)
            && (Blob(hash) in e ==> Delete(sha, d, id).1 == Ok(()) && ChangesOnly(d, e, {Lookup(k), Record(hash, k)}))
            && (Blob(hash) !in e ==>
                  && TrashBlob(hash) in e && e[TrashBlob(hash)] == d[Blob(hash)]
                  && Meta(hash) !in e && (Meta(hash) in d ==> TrashMeta(hash) in e && e[TrashMeta(hash)] == d[Meta(hash)]))
            && (forall j | j != k :: SameSlot(d, e, Lookup(j)))
  {
    hide MoveToTrash, RefsOf;
    var k := KeyOf(sha, ref);
    var rest := d - {Lookup(k), Record(hash, k)};
    RefsAre(rest, hash);
    if RefsOf(rest, hash) == {} {
      TrashEffect(rest, hash);
      TrashMovesMeta(rest, hash);
      forall j ensures Record(hash, j) !in MoveToTrash(rest, hash).0 {
        RefsAre(MoveToTrash(rest, hash).0, hash);
      }
      forall j | j != k ensures SameSlot(d, MoveToTrash(rest, hash).0, Lookup(j)) {
        assert SameSlot(rest, MoveToTrash(rest, hash).0, Lookup(j));
      }
    } else {
      var j :| j in RefsOf(rest, hash);
      assert Record(hash, j) in d && j != k;
    }
  }

  lemma RefsAre(d: Disk, hash: string)
    ensures forall k :: k in RefsOf(d, hash) <==> Record(hash, k) in d
  {
    forall k ensures k in RefsOf(d, hash) <==> Record(hash, k) in d {
      assert Record(hash, k) in d ==> Record(hash, k).refHash in RefsOf(d, hash);
    }
  }

  // UpdateReference and Move

  /**
   * Updating a reference: description and tags become the given ones, name, registry and time stay; it
   * succeeds exactly when the record is readable and no tag is too long, and touches nothing but the record
   * and the directory it is in.
   */
  lemma UpdateReferenceAnswers(sha: Sha256, d: Disk, hash: string, ref: Reference)
    ensures var (e, res) := UpdateReference(sha, d, hash, ref);
            var found, k := GetReference(sha, d, hash, ref.name, ref.registry), sha.text(ref.registry + "::" + ref.name);
            && (found.Ok? <==> IsReadable(d, hash, k))
            && (found.Err? ==> e == d && res == Err(if Record(hash, k) in d then Malformed else ReferenceNotFound))
            && (found.Ok? && TooLong(ref) ==> res == Err(TagTooLong) && e == d)
            && (found.Ok? && !TooLong(ref) ==>
                  && res.Ok? && res.value.description == ref.description && res.value.tags == ref.tags
                  && res.value.name == found.value.name && res.value.registry == found.value.registry
                  && res.value.timestamp == found.value.timestamp)
            && (found.Ok? && !TooLong(ref) && KeyOf(sha, found.value) == k ==>
                  && GetReference(sha, e, hash, ref.name, ref.registry) == res
                  && ChangesOnly(d, e, {Record(hash, k), RecordShard(Prefix(hash))}))
  {
    var found := GetReference(sha, d, hash, ref.name, ref.registry);
    if found.Ok? {
      var updated := found.value.(description := ref.description, tags := ref.tags);
      assert TagsOk(updated) <==> !TooLong(ref);
    }
  }

  /**
   * Moving an artifact: bytes and metadata arrive in place of what was there, the source is gone, and nothing
   * else changes. Without metadata of its own it takes over what metadata the target had.
   */
  lemma MoveAnswers(d: Disk, src: string, dst: string)
    ensures var (e, res) := Move(d, src, dst);
            && (Blob(src) !in d ==> res == Err(BlobAbsent) && e == d)
            && (src == dst && Blob(src) in d ==> res == Ok(()) && e == d)
            && (src != dst && Blob(src) in d ==>
                  && res == Ok(())
                  && Blob(src) !in e && Meta(src) !in e
                  && Blob(dst) in e && e[Blob(dst)] == d[Blob(src)]
                  && (Meta(src) in d ==> Meta(dst) in e && e[Meta(dst)] == d[Meta(src)])
                  && (Meta(src) !in d ==> SameSlot(d, e, Meta(dst)))
                  && ChangesOnly(d, e, {Blob(src), Meta(src), Blob(dst), Meta(dst)}))
  {}
}
