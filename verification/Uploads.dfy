/** Chunked uploads as values: sessions that collect bytes, and their completion through PutBlob. */
module Uploads {
  import opened Digests
  import opened Layout
  import opened Store
  import opened Publishing
  import opened Registry

  datatype Session = Session(name: string, bytes: Bytes, offset: int, created: int)

  type Sessions = map<string, Session>

  const HOUR := 3600

  function StartUpload(s: Sessions, name: string, uuid: string, now: int): Sessions {
    s[uuid := Session(name, [], 0, now)]
  }

  /**
   * A chunk is appended to the session's file. When its stream fails, the bytes that arrived stay in the
   * file but the offset is not advanced.
   */
  function UploadChunk(s: Sessions, name: string, uuid: string, r: Reader): (Sessions, Result<int>)
    requires r.Reader?
  {
    if uuid !in s then (s, Err(SessionNotFound))
    else if s[uuid].name != name then (s, Err(NameMismatch))
    else
      var grown := s[uuid].(bytes := s[uuid].bytes + r.data);
      if r.fails then (s[uuid := grown], Err(ReadFailed))
      else
        var offset := grown.offset + |r.data|;
        (s[uuid := grown.(offset := offset)], Ok(offset))
  }

  /** The session's file followed by the final chunk, if there is one. */
  function WholeStream(bytes: Bytes, final: Reader): Reader {
    if final.Nil? then Reader(bytes, false) else Reader(bytes + final.data, final.fails)
  }

  function Complete(sha: Sha256, d: Disk, s: Sessions, alias: string, name: string, uuid: string, digest: string,
                    final: Reader, temp: string, now: int): (Disk, Sessions, Result<()>) {
    if uuid !in s then (d, s, Err(SessionNotFound))
    else if s[uuid].name != name then (d, s - {uuid}, Err(NameMismatch))
    else
      var (e, res) := PutBlob(sha, d, alias, name, digest, WholeStream(s[uuid].bytes, final), -1, temp, now);
      (e, s - {uuid}, res)
  }

  function Expire(s: Sessions, now: int): Sessions {
    map u | u in s && !(now - s[u].created > HOUR) :: s[u]
  }

  // What a client is told

  /** The session with these bytes more; only a stream that ended properly advances the offset. */
  predicate Grown(before: Session, after: Session, data: Bytes, failed: bool) {
    && after.name == before.name && after.created == before.created
    && after.bytes == before.bytes + data
    && after.offset == (if failed then before.offset else before.offset + |data|)
  }

  /**
   * A chunk for a session that does not exist, or is another repository's, is refused and changes nothing.
   * Any other lands behind what its session holds; the offset told is the new one, and other sessions stay.
   */
  lemma ChunkAnswers(s: Sessions, name: string, uuid: string, r: Reader)
    requires r.Reader?
    ensures var (t, res) := UploadChunk(s, name, uuid, r);
            && (uuid !in s ==> t == s && res == Err(SessionNotFound))
            && (uuid in s && s[uuid].name != name ==> t == s && res == Err(NameMismatch))
            && (uuid in s && s[uuid].name == name ==>
                  && t.Keys == s.Keys && Grown(s[uuid], t[uuid], r.data, r.fails)
                  && (forall u | u in s && u != uuid :: t[u] == s[u])
                  && res == if r.fails then Err(ReadFailed) else Ok(t[uuid].offset))
  {}

  /**
   * A completion takes its session, and no other, out of the map: even when it comes for another repository,
   * which loses the upload and leaves the storage alone.
   */
  lemma CompletionAnswers(sha: Sha256, d: Disk, s: Sessions, alias: string, name: string, uuid: string, digest: string,
                          final: Reader, temp: string, now: int)
    ensures var (e, left, res) := Complete(sha, d, s, alias, name, uuid, digest, final, temp, now);
            && uuid !in left && (forall u | u != uuid :: u in left <==> u in s) && (forall u | u in left :: left[u] == s[u])
            && (uuid !in s ==> e == d && res == Err(SessionNotFound))
            && (uuid in s && s[uuid].name != name ==> e == d && res == Err(NameMismatch))
  {
    hide PutBlob;
  }

  /** A clean-up keeps exactly the sessions that are no more than an hour old, as they are. */
  lemma SessionsLastAnHour(s: Sessions, now: int)
    ensures forall u :: u in Expire(s, now) <==> u in s && now <= s[u].created + 3600
    ensures forall u | u in Expire(s, now) :: Expire(s, now)[u] == s[u]
  {}

  // Chunks and the whole

  function UploadChunks(s: Sessions, name: string, uuid: string, chunks: seq<Reader>): Sessions
    requires forall i | 0 <= i < |chunks| :: chunks[i].Reader?
    decreases |chunks|
  {
    if chunks == [] then s else UploadChunks(UploadChunk(s, name, uuid, chunks[0]).0, name, uuid, chunks[1..])
  }

  /** Everything the chunk streams delivered, failed ones included. */
  function Delivery(chunks: seq<Reader>): Bytes
    requires forall i | 0 <= i < |chunks| :: chunks[i].Reader?
    decreases |chunks|
  {
    if chunks == [] then [] else chunks[0].data + Delivery(chunks[1..])
  }

  /** The bytes that failed chunks left behind. */
  function Leftover(chunks: seq<Reader>): nat
    requires forall i | 0 <= i < |chunks| :: chunks[i].Reader?
    decreases |chunks|
  {
    if chunks == [] then 0 else (if chunks[0].fails then |chunks[0].data| else 0) + Leftover(chunks[1..])
  }

  /** The file collects what the chunks deliver, in order; the offset misses what failed chunks left. */
  lemma {:induction false} ChunksCollect(s: Sessions, name: string, uuid: string, chunks: seq<Reader>)
    requires forall i | 0 <= i < |chunks| :: chunks[i].Reader?
    requires uuid in s && s[uuid].name == name
    ensures var t := UploadChunks(s, name, uuid, chunks);
            && uuid in t && t[uuid].name == name && t[uuid].created == s[uuid].created
            && t[uuid].bytes == s[uuid].bytes + Delivery(chunks)
            && t[uuid].offset == s[uuid].offset + |Delivery(chunks)| - Leftover(chunks)
            && t - {uuid} == s - {uuid}
    decreases |chunks|
  {
    if chunks != [] {
      ChunksCollect(UploadChunk(s, name, uuid, chunks[0]).0, name, uuid, chunks[1..]);
    }
  }

  /** The offset equals the length of the file exactly as long as no failed chunk has delivered bytes. */
  lemma OffsetIsFileLength(s: Sessions, name: string, uuid: string, now: int, chunks: seq<Reader>)
    requires forall i | 0 <= i < |chunks| :: chunks[i].Reader?
    ensures var t := UploadChunks(StartUpload(s, name, uuid, now), name, uuid, chunks);
            uuid in t
            && (t[uuid].offset == |t[uuid].bytes|
                <==> forall i | 0 <= i < |chunks| && chunks[i].fails :: chunks[i].data == [])
  {
    ChunksCollect(StartUpload(s, name, uuid, now), name, uuid, chunks);
    LeftoverIsZero(chunks);
  }

  /** A concrete case: one chunk that fails after a byte leaves a file of length 1 at offset 0. */
  lemma FailedChunkLeavesAByte(s: Sessions, name: string, uuid: string, now: int)
    ensures var t := UploadChunks(StartUpload(s, name, uuid, now), name, uuid, [Reader([7], true)]);
            uuid in t && t[uuid].bytes == [7] && t[uuid].offset == 0
  {
    var chunks := [Reader([7], true)];
    assert chunks[1..] == [];
    ChunksCollect(StartUpload(s, name, uuid, now), name, uuid, chunks);
  }

  lemma {:induction false} LeftoverIsZero(chunks: seq<Reader>)
    requires forall i | 0 <= i < |chunks| :: chunks[i].Reader?
    ensures Leftover(chunks) == 0 <==> forall i | 0 <= i < |chunks| && chunks[i].fails :: chunks[i].data == []
    decreases |chunks|
  {
    if chunks != [] {
      LeftoverIsZero(chunks[1..]);
      var rest := chunks[1..];
      if forall i | 0 <= i < |rest| && rest[i].fails :: rest[i].data == [] {
        forall i | 1 <= i < |chunks| && chunks[i].fails ensures chunks[i].data == [] {
          assert chunks[i] == rest[i - 1];
        }
      }
      if forall i | 0 <= i < |chunks| && chunks[i].fails :: chunks[i].data == [] {
        forall i | 0 <= i < |rest| && rest[i].fails ensures rest[i].data == [] {
          assert rest[i] == chunks[i + 1];
        }
      }
    }
  }

  /**
   * A completed session leaves the storage and the verdict of one PutBlob of everything that the chunks
   * and the final chunk delivered, and leaves the other sessions alone.
   */
  lemma ChunkedUploadIsPutBlob(sha: Sha256, d: Disk, s: Sessions, alias: string, name: string, uuid: string,
                               digest: string, chunks: seq<Reader>, final: Reader, temp: string, started: int, now: int)
    requires forall i | 0 <= i < |chunks| :: chunks[i].Reader?
    requires uuid !in s
    ensures var collected := UploadChunks(StartUpload(s, name, uuid, started), name, uuid, chunks);
            var whole := Reader(Delivery(chunks) + (if final.Nil? then [] else final.data), final.Reader? && final.fails);
            var (e, left, res) := Complete(sha, d, collected, alias, name, uuid, digest, final, temp, now);
            && (e, res) == PutBlob(sha, d, alias, name, digest, whole, -1, temp, now)
            && left == s
  {
    hide PutBlob;
    ChunksCollect(StartUpload(s, name, uuid, started), name, uuid, chunks);
    var collected := UploadChunks(StartUpload(s, name, uuid, started), name, uuid, chunks);
    assert [] + Delivery(chunks) == Delivery(chunks) == Delivery(chunks) + [];
    assert collected - {uuid} == StartUpload(s, name, uuid, started) - {uuid} == s;
  }

  // Equal up to staging keys and timestamps

  predicate SameReference(x: Reference, y: Reference) {
    x.(timestamp := 0) == y.(timestamp := 0)
  }

  /** The published store, without staging keys, trash, timestamps and the hash field of metadata. */
  ghost predicate SamePublished(d: Disk, e: Disk) {
    SameArtifacts(d, e) && SameReferences(d, e)
  }

  ghost predicate SameArtifacts(d: Disk, e: Disk) {
    && (forall h | IsHex(h) :: (Blob(h) in d <==> Blob(h) in e) && (Blob(h) in d ==> d[Blob(h)] == e[Blob(h)]))
    && (forall h | IsHex(h) :: (ReadMeta(d, h).Ok? <==> ReadMeta(e, h).Ok?)
                               && (ReadMeta(d, h).Ok? ==> ReadMeta(d, h).value.length == ReadMeta(e, h).value.length))
  }

  ghost predicate SameReferences(d: Disk, e: Disk) {
    && (forall k :: (Lookup(k) in d <==> Lookup(k) in e) && (Lookup(k) in d ==> d[Lookup(k)] == e[Lookup(k)]))
    && (forall h, k :: IsReadable(d, h, k) <==> IsReadable(e, h, k))
    && (forall h, k | IsReadable(d, h, k) && IsReadable(e, h, k) ::
          SameReference(d[Record(h, k)].reference, e[Record(h, k)].reference))
  }

  /** Two uploads of the same stream differ in nothing but staging keys, sizes announced and clocks. */
  lemma UploadsDifferOnlyInNames(sha: Sha256, d: Disk, e: Disk, alias: string, name: string, digest: string, r: Reader,
                                 size1: int, temp1: string, now1: int, size2: int, temp2: string, now2: int)
    requires sha.Ideal() && Sound(sha, d) && Sound(sha, e) && SamePublished(d, e)
    requires IsStagingKey(temp1) && Gone(d, temp1) && IsStagingKey(temp2) && Gone(e, temp2)
    ensures var (d', res1) := PutBlob(sha, d, alias, name, digest, r, size1, temp1, now1);
            var (e', res2) := PutBlob(sha, e, alias, name, digest, r, size2, temp2, now2);
            && SamePublished(d', e')
            && res1 == res2
            && (res1.Ok? <==> Accepted(sha, digest, r))
  {
    hide PutBlob, Sound, SamePublished, IsStagingKey, Preserves, Published, GetBlob;
    if Accepted(sha, digest, r) {
      PutBlobAccepts(sha, d, alias, name, r, size1, temp1, now1);
      PutBlobAccepts(sha, e, alias, name, r, size2, temp2, now2);
      SameAfterUpload(sha, d, e, alias, name, r.data, temp1, now1, temp2, now2);
    } else {
      PutBlobRejects(sha, d, alias, name, digest, r, size1, temp1, now1);
      PutBlobRejects(sha, e, alias, name, digest, r, size2, temp2, now2);
      var d' := PutBlob(sha, d, alias, name, digest, r, size1, temp1, now1).0;
      var e' := PutBlob(sha, e, alias, name, digest, r, size2, temp2, now2).0;
      SameOutsideStaging(d, d', temp1);
      SameOutsideStaging(e, e', temp2);
      SamePublishedIsEquivalence(d, d', e);
      SamePublishedIsEquivalence(e, e', d');
    }
  }

  lemma SameAfterUpload(sha: Sha256, d: Disk, e: Disk, alias: string, name: string, data: Bytes,
                        temp1: string, now1: int, temp2: string, now2: int)
    requires SamePublished(d, e)
    ensures var key := sha.content(data);
            var ref1, ref2 := RefFor(alias, name, now1), RefFor(alias, name, now2);
            SamePublished(
              Uploaded(d, key, data, temp1, now1, KeyOf(sha, ref1), ref1),
              Uploaded(e, key, data, temp2, now2, KeyOf(sha, ref2), ref2))
  {
    var key := sha.content(data);
    var ref1, ref2 := RefFor(alias, name, now1), RefFor(alias, name, now2);
    var k := KeyOf(sha, ref1);
    assert KeyOf(sha, ref2) == k;
    hide KeyOf;
    WriteSame(d, e, key, data, temp1, now1, temp2, now2, k, ref1, ref2);
  }

  lemma WriteSame(d: Disk, e: Disk, key: string, data: Bytes, temp1: string, now1: int, temp2: string, now2: int,
                  k: string, ref1: Reference, ref2: Reference)
    requires SamePublished(d, e) && SameReference(ref1, ref2)
    ensures SamePublished(
              Uploaded(d, key, data, temp1, now1, k, ref1),
              Uploaded(e, key, data, temp2, now2, k, ref2))
  {
    var d' := Uploaded(d, key, data, temp1, now1, k, ref1);
    var e' := Uploaded(e, key, data, temp2, now2, k, ref2);
    SameArtifactsAfter(d, d', e, e', key);
    SameReferencesAfter(d, d', e, e', key, k);
  }

  lemma SameArtifactsAfter(d: Disk, d': Disk, e: Disk, e': Disk, key: string)
    requires SameArtifacts(d, e)
    requires forall h | h != key :: SameSlot(d, d', Blob(h)) && SameSlot(d, d', Meta(h))
    requires forall h | h != key :: SameSlot(e, e', Blob(h)) && SameSlot(e, e', Meta(h))
    requires Blob(key) in d' && Blob(key) in e' && d'[Blob(key)] == e'[Blob(key)]
    requires ReadMeta(d', key).Ok? && ReadMeta(e', key).Ok?
    requires ReadMeta(d', key).value.length == ReadMeta(e', key).value.length
    ensures SameArtifacts(d', e')
  {
    forall h | IsHex(h) && h != key
      ensures SameSlot(d', e', Blob(h)) && ReadMeta(d', h) == ReadMeta(d, h) && ReadMeta(e', h) == ReadMeta(e, h)
    {
      assert SameSlot(d, d', Blob(h)) && SameSlot(e, e', Blob(h)) && SameSlot(d, e, Blob(h));
    }
  }

  lemma SameReferencesAfter(d: Disk, d': Disk, e: Disk, e': Disk, key: string, k: string)
    requires SameReferences(d, e)
    requires forall s: Slot | (s.Lookup? || s.Record?) && s != Lookup(k) && s != Record(key, k) ::
               SameSlot(d, d', s) && SameSlot(e, e', s)
    requires Lookup(k) in d' && Lookup(k) in e' && d'[Lookup(k)] == e'[Lookup(k)]
    requires IsReadable(d', key, k) && IsReadable(e', key, k)
    requires SameReference(d'[Record(key, k)].reference, e'[Record(key, k)].reference)
    ensures SameReferences(d', e')
  {
    hide SameReference;
    forall j | j != k ensures SameSlot(d', e', Lookup(j)) {
      assert SameSlot(d, d', Lookup(j)) && SameSlot(e, e', Lookup(j)) && SameSlot(d, e, Lookup(j));
    }
    forall h, j | Record(h, j) != Record(key, k)
      ensures SameSlot(d, d', Record(h, j)) && SameSlot(e, e', Record(h, j))
      ensures (IsReadable(d', h, j) <==> IsReadable(d, h, j)) && (IsReadable(e', h, j) <==> IsReadable(e, h, j))
    {}
  }

  /** A disk that differs from another only in the trash or at one staging key is the same published store. */
  lemma SameOutsideStaging(d: Disk, e: Disk, temp: string)
    requires IsStagingKey(temp)
    requires e == d || e - {TrashBlob(temp), TrashMeta(temp)} == d - {TrashBlob(temp), TrashMeta(temp)}
             || (e - {Blob(temp)} == d && Blob(temp) in e)
    ensures SamePublished(d, e)
  {
    StagingKeysAreNotDigests(temp);
    forall s: Slot | (s.Blob? && s.hash != temp) || s.Meta? || s.Lookup? || s.Record?
      ensures (s in d <==> s in e) && (s in d ==> d[s] == e[s])
    {
      assert s in e <==> s in e - {TrashBlob(temp), TrashMeta(temp)};
      assert s in d <==> s in d - {TrashBlob(temp), TrashMeta(temp)};
      assert s in e <==> s in e - {Blob(temp)};
    }
  }

  lemma SamePublishedIsEquivalence(d: Disk, e: Disk, f: Disk)
    requires SamePublished(d, e) && SamePublished(d, f)
    ensures SamePublished(e, f) && SamePublished(f, e)
  {}

  /**
   * Main result on chunks: however content is cut into chunks and a final chunk, the session ends with
   * the verdict of a single upload of the whole and with the same published store, whatever staging keys,
   * announced sizes and clocks the two use.
   */
  lemma ChunkedUploadMatchesSingleUpload(sha: Sha256, d: Disk, s: Sessions, alias: string, name: string, uuid: string,
                                         digest: string, chunks: seq<Reader>, final: Reader, temp1: string, started: int,
                                         now1: int, size: int, temp2: string, now2: int)
    requires sha.Ideal() && Sound(sha, d)
    requires forall i | 0 <= i < |chunks| :: chunks[i].Reader?
    requires uuid !in s
    requires IsStagingKey(temp1) && Gone(d, temp1) && IsStagingKey(temp2) && Gone(d, temp2)
    ensures var collected := UploadChunks(StartUpload(s, name, uuid, started), name, uuid, chunks);
            var (e, left, res) := Complete(sha, d, collected, alias, name, uuid, digest, final, temp1, now1);
            var whole := Reader(Delivery(chunks) + (if final.Nil? then [] else final.data), final.Reader? && final.fails);
            var (e', res') := PutBlob(sha, d, alias, name, digest, whole, size, temp2, now2);
            SamePublished(e, e') && res == res' && left == s
  {
    hide PutBlob, Sound, IsStagingKey, Accepted;
    ChunkedUploadIsPutBlob(sha, d, s, alias, name, uuid, digest, chunks, final, temp1, started, now1);
    SameAsItself(d);
    hide SamePublished;
    var whole := Reader(Delivery(chunks) + (if final.Nil? then [] else final.data), final.Reader? && final.fails);
    UploadsDifferOnlyInNames(sha, d, d, alias, name, digest, whole, -1, temp1, now1, size, temp2, now2);
  }

  lemma SameAsItself(d: Disk)
    ensures SamePublished(d, d)
  {}
}
