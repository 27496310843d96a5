/** What a client of the registry may rely on: what is served, what is refused, and what an upload records. */
module RegistryAnswers {
  import opened Digests
  import opened Layout
  import opened Ranges
  import opened Store
  import opened StoreLaws
  import opened StoreAnswers
  import opened Publishing
  import opened ReferenceKeys
  import opened Registry

  /** The storage key of a digest is what follows its first colon, or all of it when it has none. */
  lemma StorageKeyAnswers(digest: string, algorithm: string, rest: string)
    requires NoColon(algorithm)
    ensures digest == algorithm + ":" + rest ==> StorageKey(digest) == rest
    ensures NoColon(digest) ==> StorageKey(digest) == digest
  {
    if digest == algorithm + ":" + rest {
      assert digest[|algorithm|] == ':';
      var i := ColonIndex(digest, 0);
      assert i == |algorithm| by {
        assert forall j | 0 <= j < |algorithm| :: digest[j] == algorithm[j];
        assert forall j | 0 <= j < i :: digest[..i][j] == digest[j];
      }
      assert digest[|algorithm| + 1..] == rest;
    }
  }

  /**
   * GetBlob finds content exactly when it is published; it then answers with it and its length, and otherwise
   * with the reason, which is its absence unless its metadata cannot be read.
   */
  lemma GetBlobFindsWhatIsPublished(sha: Sha256, d: Disk, data: Bytes)
    requires sha.Ideal() && Sound(sha, d) && |data| <= MAX_INT64
    ensures GetBlob(sha, d, DigestOf(sha, data)) ==
            if Published(sha, d, data) then Ok((data, |data|))
            else if Meta(sha.content(data)) in d then Err(Malformed) else Err(MetaAbsent)
  {
    var digest, h := DigestOf(sha, data), sha.content(data);
    StorageKeyOfDigest(digest);
    assert digest[7..] == h;
    assert IsHex(h);
    BytesOfDigest(sha, d, data);
    assert ReadMeta(d, h).Ok? <==> Published(sha, d, data);
    if Published(sha, d, data) {
      PublishedBlobIsServed(sha, d, data);
    }
  }

  /** Whatever digest is asked for, bytes that are served under a hexadecimal key have that digest and the length told. */
  lemma ServedBytesHaveTheirDigest(sha: Sha256, d: Disk, digest: string)
    requires Sound(sha, d) && IsHex(StorageKey(digest)) && GetBlob(sha, d, digest).Ok?
    requires Blob(StorageKey(digest)) in d ==> |BytesAt(d, StorageKey(digest))| <= MAX_INT64
    ensures var (bytes, length) := GetBlob(sha, d, digest).value;
            sha.content(bytes) == StorageKey(digest) && length == |bytes|
  {
    var h := StorageKey(digest);
    ReadToEnd(BytesAt(d, h), 0);
    assert BytesAt(d, h)[0..] == BytesAt(d, h);
  }

  /** In any storage GetBlob answers with the bytes of the file and the length that the metadata tells. */
  lemma GetBlobAnswers(sha: Sha256, d: Disk, digest: string)
    requires StorageKey(digest) != ""
    requires Blob(StorageKey(digest)) in d ==> |BytesAt(d, StorageKey(digest))| <= MAX_INT64
    ensures var key := StorageKey(digest);
            GetBlob(sha, d, digest) ==
            if ReadMeta(d, key).Err? then Err(ReadMeta(d, key).error)
            else if Blob(key) !in d then Err(BlobAbsent)
            else Ok((BytesAt(d, key), ReadMeta(d, key).value.length))
  {
    var key := StorageKey(digest);
    if Blob(key) in d {
      ReadToEnd(BytesAt(d, key), 0);
      assert BytesAt(d, key)[0..] == BytesAt(d, key);
    }
  }

  /** Publishing a staged blob that is gone: nothing happens, and it is no error when the content is known. */
  lemma PublishingNothing(sha: Sha256, d: Disk, temp: string, key: string)
    requires temp != "" && key != "" && Blob(temp) !in d
    ensures PublishStaged(sha, d, temp, key) == (d, if ReadMeta(d, key).Ok? then Ok(()) else Err(BlobAbsent))
  {}

  /** The artifact is found and listed under the reference. */
  predicate IsReferenced(sha: Sha256, d: Disk, hash: string, ref: Reference) {
    && Resolve(sha, d, Identifier("", Some(ref))) == Ok(hash)
    && GetReference(sha, d, hash, ref.name, ref.registry) == Ok(ref)
  }

  lemma AttachedIsReferenced(sha: Sha256, d: Disk, hash: string, ref: Reference)
    requires hash != "" && ref.tags == map[]
    ensures var e := Attach(sha, d, hash, Some(ref));
            && IsReferenced(sha, e, hash, ref)
            && ChangesOnly(d, e, AttachedSlots(sha, hash, Some(ref)))
            && e == WithRecord(d[Lookup(KeyOf(sha, ref)) := Text(hash)], hash, KeyOf(sha, ref), ref)
  {
    AttachAnswers(sha, d, hash, Some(ref));
  }

  /**
   * What an accepted upload records: the repository's reference to the content, with the alias, the time and
   * nothing else, and the length; and what it may change.
   */
  lemma AcceptedBlobIsReferenced(sha: Sha256, d: Disk, alias: string, name: string, r: Reader, size: int, temp: string,
                                 now: int)
    requires sha.Ideal() && Sound(sha, d) && IsStagingKey(temp) && Gone(d, temp)
    requires r.Reader? && !r.fails
    ensures var h, ref := sha.content(r.data), Reference(name, alias, now, "", map[]);
            var e := PutBlob(sha, d, alias, name, "sha256:" + h, r, size, temp, now).0;
            && IsReferenced(sha, e, h, ref)
            && ReadMeta(e, h) == Ok(ArtifactMeta(temp, |r.data|, now))
            && ChangesOnly(d, e, {Blob(h), Meta(h)} + AttachedSlots(sha, h, Some(ref)))
  {
    hide Sound, PutBlob, GetBlob, Published, Preserves, AttachedSlots, IsStagingKey;
    var h, ref := sha.content(r.data), Reference(name, alias, now, "", map[]);
    assert IsHex(h);
    PutBlobAccepts(sha, d, alias, name, r, size, temp, now);
    var written := d[Blob(h) := Data(r.data)][Meta(h) := MetaDoc(ArtifactMeta(temp, |r.data|, now))];
    AttachedIsReferenced(sha, written, h, ref);
    AttachedElsewhere(sha, h, Some(ref));
    var e := PutBlob(sha, d, alias, name, "sha256:" + h, r, size, temp, now).0;
    assert SameSlot(written, e, Meta(h));
    forall s | s !in {Blob(h), Meta(h)} + AttachedSlots(sha, h, Some(ref)) ensures SameSlot(d, e, s) {
      assert SameSlot(written, e, s);
    }
  }

  /** The storage after a manifest upload: the manifest if it was new, then its tag, then its repository. */
  lemma ManifestNet(sha: Sha256, d: Disk, alias: string, name: string, tag: string, data: Bytes, now: int)
    requires sha.Ideal() && (Blob(sha.content(data)) in d ==> ReadMeta(d, sha.content(data)) != Err(Malformed))
    ensures var h := sha.content(data);
            var stored := if Blob(h) in d then d
                          else d[Blob(h) := Data(data)][Meta(h) := MetaDoc(ArtifactMeta(h, |data|, now))];
            var tagged := Attach(sha, stored, h, Some(Reference(name + ":" + tag, alias, now, "", map[])));
            PutManifest(sha, d, alias, name, tag, data, now) ==
            (Attach(sha, tagged, h, Some(Reference(name, alias, now, "", map[]))), Ok(()))
  {
    hide Create, CreatePlan, Attach, StoreManifest;
    var h := sha.content(data);
    assert IsHex(h);
    StoredManifest(sha, d, data, now);
    var stored := StoreManifest(sha, d, data, now).0;
    var tagRef, repoRef := Reference(name + ":" + tag, alias, now, "", map[]), Reference(name, alias, now, "", map[]);
    AddedIsAttached(sha, stored, h, tagRef, |data|, now);
    AttachedElsewhere(sha, h, Some(tagRef));
    AttachedIsReferenced(sha, stored, h, tagRef);
    var tagged := Attach(sha, stored, h, Some(tagRef));
    hide AttachedSlots;
    assert SameSlot(stored, tagged, Blob(h)) && SameSlot(stored, tagged, Meta(h));
    AddedIsAttached(sha, tagged, h, repoRef, |data|, now);
  }

  /** Storing the manifest itself: what is there stays, and metadata of another length is no more than a conflict. */
  lemma StoredManifest(sha: Sha256, d: Disk, data: Bytes, now: int)
    requires sha.Ideal() && (Blob(sha.content(data)) in d ==> ReadMeta(d, sha.content(data)) != Err(Malformed))
    ensures var (e, res) := StoreManifest(sha, d, data, now);
            var h := sha.content(data);
            && (res.Ok? || res.error.HashConflict?)
            && e == (if Blob(h) in d then d
                     else d[Blob(h) := Data(data)][Meta(h) := MetaDoc(ArtifactMeta(h, |data|, now))])
  {
    var h := sha.content(data);
    assert IsHex(h);
    CreateNet(sha, d, Identifier(h, None), Reader(data, false), |data|, Some(ArtifactMeta(h, |data|, now)), now);
  }

  /** Metadata that cannot be read is the one reason to refuse a manifest, and then nothing changes. */
  lemma UnreadableManifestIsRefused(sha: Sha256, d: Disk, alias: string, name: string, tag: string, data: Bytes, now: int)
    requires sha.Ideal() && Blob(sha.content(data)) in d && ReadMeta(d, sha.content(data)) == Err(Malformed)
    ensures PutManifest(sha, d, alias, name, tag, data, now) == (d, Err(Malformed))
  {
    var h := sha.content(data);
    assert IsHex(h);
    CreateNet(sha, d, Identifier(h, None), Reader(data, false), |data|, Some(ArtifactMeta(h, |data|, now)), now);
  }

  /** Adding a reference to an artifact whose metadata can be read, or is not there, is attaching it. */
  lemma AddedIsAttached(sha: Sha256, d: Disk, h: string, ref: Reference, length: int, now: int)
    requires h != "" && Blob(h) in d && ReadMeta(d, h) != Err(Malformed) && ref.tags == map[]
    ensures var (e, res) := AddReference(sha, d, h, ref, length, now);
            e == Attach(sha, d, h, Some(ref)) && res.Ok?
  {
    CreateNet(sha, d, Identifier(h, Some(ref)), Nil, -1, Some(ArtifactMeta(h, length, now)), now);
  }

  /**
   * A manifest upload succeeds unless the metadata of its bytes is there and cannot be read, metadata of
   * another length included. The bytes are then under their digest, referenced by tag and by repository, and
   * nothing else changes; what was there under that digest stays, metadata and all.
   */
  lemma ManifestIsReferenced(sha: Sha256, d: Disk, alias: string, name: string, tag: string, data: Bytes, now: int)
    requires sha.Ideal() && (Blob(sha.content(data)) in d ==> ReadMeta(d, sha.content(data)) != Err(Malformed))
    ensures var (e, res) := PutManifest(sha, d, alias, name, tag, data, now);
            var h := sha.content(data);
            var tagRef, repoRef := Reference(name + ":" + tag, alias, now, "", map[]), Reference(name, alias, now, "", map[]);
            && res == Ok(())
            && (if Blob(h) in d then SameSlot(d, e, Blob(h)) && SameSlot(d, e, Meta(h))
                else Blob(h) in e && e[Blob(h)] == Data(data) && ReadMeta(e, h) == Ok(ArtifactMeta(h, |data|, now)))
            && IsReferenced(sha, e, h, tagRef) && IsReferenced(sha, e, h, repoRef)
            && ChangesOnly(d, e, {Blob(h), Meta(h)} + AttachedSlots(sha, h, Some(tagRef)) + AttachedSlots(sha, h, Some(repoRef)))
  {
    hide PutManifest, Attach;
    var h := sha.content(data);
    assert IsHex(h);
    var tagRef, repoRef := Reference(name + ":" + tag, alias, now, "", map[]), Reference(name, alias, now, "", map[]);
    ManifestNet(sha, d, alias, name, tag, data, now);
    var stored := if Blob(h) in d then d
                  else d[Blob(h) := Data(data)][Meta(h) := MetaDoc(ArtifactMeta(h, |data|, now))];
    AttachedIsReferenced(sha, stored, h, tagRef);
    var tagged := Attach(sha, stored, h, Some(tagRef));
    AttachedIsReferenced(sha, tagged, h, repoRef);
    var e := Attach(sha, tagged, h, Some(repoRef));
    KeysDiffer(sha, alias, name, tag, now);
    TwiceAttached(d, stored, tagged, e, sha, h, tagRef, repoRef);
    assert SameSlot(tagged, e, Lookup(KeyOf(sha, tagRef))) && SameSlot(tagged, e, Record(h, KeyOf(sha, tagRef)));
  }

  lemma KeysDiffer(sha: Sha256, alias: string, name: string, tag: string, now: int)
    requires sha.Ideal()
    ensures KeyOf(sha, Reference(name + ":" + tag, alias, now, "", map[])) != KeyOf(sha, Reference(name, alias, now, "", map[]))
  {
    assert |alias + "::" + (name + ":" + tag)| > |alias + "::" + name|;
  }

  lemma TwiceAttached(d: Disk, stored: Disk, tagged: Disk, e: Disk, sha: Sha256, h: string, a: Reference, b: Reference)
    requires ChangesOnly(d, stored, {Blob(h), Meta(h)})
    requires ChangesOnly(stored, tagged, AttachedSlots(sha, h, Some(a))) && ChangesOnly(tagged, e, AttachedSlots(sha, h, Some(b)))
    ensures ChangesOnly(d, e, {Blob(h), Meta(h)} + AttachedSlots(sha, h, Some(a)) + AttachedSlots(sha, h, Some(b)))
    ensures SameSlot(stored, e, Blob(h)) && SameSlot(stored, e, Meta(h))
  {
    AttachedElsewhere(sha, h, Some(a));
    AttachedElsewhere(sha, h, Some(b));
    hide AttachedSlots;
    assert SameSlot(stored, tagged, Blob(h)) && SameSlot(tagged, e, Blob(h));
    assert SameSlot(stored, tagged, Meta(h)) && SameSlot(tagged, e, Meta(h));
    forall s | s !in {Blob(h), Meta(h)} + AttachedSlots(sha, h, Some(a)) + AttachedSlots(sha, h, Some(b))
      ensures SameSlot(d, e, s)
    {
      assert SameSlot(d, stored, s) && SameSlot(stored, tagged, s) && SameSlot(tagged, e, s);
    }
  }
}
