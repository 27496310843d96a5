/**
 * The registry as a map from (repository, tag) to manifest bytes: what GetManifest answers after any run
 * of manifest and blob uploads.
 */
module TagMap {
  import opened Digests
  import opened Layout
  import opened Ranges
  import opened Store
  import opened Publishing
  import opened Registry
  import opened ReferenceKeys
  import opened RegistryAnswers

  datatype Upload =
    | ManifestPut(name: string, tag: string, data: Bytes, now: int)
    | BlobPut(name: string, digest: string, r: Reader, size: int, temp: string, now: int)

  function Exec(sha: Sha256, d: Disk, alias: string, u: Upload): Disk {
    match u
    case ManifestPut(name, tag, data, now) => PutManifest(sha, d, alias, name, tag, data, now).0
    case BlobPut(name, digest, r, size, temp, now) => PutBlob(sha, d, alias, name, digest, r, size, temp, now).0
  }

  /** The registry after a run that starts empty. */
  function After(sha: Sha256, alias: string, run: seq<Upload>): Disk
    decreases |run|
  {
    if run == [] then map[] else Exec(sha, After(sha, alias, run[..|run| - 1]), alias, run[|run| - 1])
  }

  /** Colon-free repository names, manifests of a size that fits a file, and a fresh staging key per blob. */
  predicate IsRun(run: seq<Upload>) {
    && (forall i | 0 <= i < |run| :: NoColon(run[i].name))
    && (forall i | 0 <= i < |run| :: match run[i]
          case ManifestPut(_, _, data, _) => |data| <= MAX_INT64
          case BlobPut(_, _, _, _, temp, _) => IsStagingKey(temp))
    && (forall i, j | 0 <= i < j < |run| && run[i].BlobPut? && run[j].BlobPut? :: run[i].temp != run[j].temp)
  }

  /** The bytes of the last manifest put under the name and tag. */
  function LastManifest(run: seq<Upload>, name: string, tag: string): Option<Bytes>
    decreases |run|
  {
    if run == [] then None
    else
      var u := run[|run| - 1];
      if u.ManifestPut? && u.name == name && u.tag == tag then Some(u.data)
      else LastManifest(run[..|run| - 1], name, tag)
  }

  predicate IsBlobOf(sha: Sha256, u: Upload, data: Bytes) {
    u.BlobPut? && Accepted(sha, u.digest, u.r) && u.r.data == data
  }

  /** The bytes were also uploaded, successfully, as a blob. */
  predicate PutAsBlob(sha: Sha256, run: seq<Upload>, data: Bytes)
    decreases |run|
  {
    run != [] && (IsBlobOf(sha, run[|run| - 1], data) || PutAsBlob(sha, run[..|run| - 1], data))
  }

  predicate UsedKey(run: seq<Upload>, key: string) {
    exists i | 0 <= i < |run| :: run[i].BlobPut? && run[i].temp == key
  }

  function TagKey(sha: Sha256, alias: string, name: string, tag: string): string {
    KeyOf(sha, RefFor(alias, TagName(name, tag), 0))
  }

  /** The tag's lookup names the last manifest, or is missing when there was none. */
  predicate TagIsCurrent(sha: Sha256, d: Disk, alias: string, run: seq<Upload>, name: string, tag: string) {
    var s := Lookup(TagKey(sha, alias, name, tag));
    match LastManifest(run, name, tag)
    case None => s !in d
    case Some(data) =>
      && |data| <= MAX_INT64
      && s in d && d[s] == Text(sha.content(data))
      && Blob(sha.content(data)) in d && d[Blob(sha.content(data))] == Data(data)
      && ReadMeta(d, sha.content(data)).Ok?
  }

  /** Metadata names its own digest until the bytes arrive as a blob; then it names a spent staging key. */
  predicate MetaNames(sha: Sha256, d: Disk, run: seq<Upload>, data: Bytes) {
    var h := sha.content(data);
    && (PutAsBlob(sha, run, data) ==> Blob(h) in d)
    && (ReadMeta(d, h).Ok? ==>
          var named := ReadMeta(d, h).value.hash;
          if PutAsBlob(sha, run, data) then IsStagingKey(named) && Blob(named) !in d && UsedKey(run, named)
          else named == h)
  }

  ghost predicate Inv(sha: Sha256, d: Disk, alias: string, run: seq<Upload>) {
    && Sound(sha, d)
    && (forall h | IsHex(h) && Blob(h) in d :: ReadMeta(d, h).Ok?)
    && (forall key | IsStagingKey(key) && !Gone(d, key) :: UsedKey(run, key))
    && (forall name, tag | NoColon(name) :: TagIsCurrent(sha, d, alias, run, name, tag))
    && (forall data: Bytes :: MetaNames(sha, d, run, data))
  }

  lemma InitInv(sha: Sha256, alias: string)
    ensures Inv(sha, map[], alias, [])
  {}

  lemma UsedLater(run: seq<Upload>, key: string)
    requires run != []
    ensures UsedKey(run, key) <==>
            UsedKey(run[..|run| - 1], key) || (run[|run| - 1].BlobPut? && run[|run| - 1].temp == key)
  {
    if UsedKey(run[..|run| - 1], key) {
      var i :| 0 <= i < |run[..|run| - 1]| && run[..|run| - 1][i].BlobPut? && run[..|run| - 1][i].temp == key;
      assert run[i].BlobPut?;
    }
    if UsedKey(run, key) {
      var i :| 0 <= i < |run| && run[i].BlobPut? && run[i].temp == key;
      assert i < |run| - 1 ==> run[..|run| - 1][i] == run[i];
    }
  }

  lemma PrefixIsRun(run: seq<Upload>)
    requires IsRun(run) && run != []
    ensures IsRun(run[..|run| - 1])
    ensures var last := run[|run| - 1]; last.BlobPut? ==> !UsedKey(run[..|run| - 1], last.temp)
  {
    var init := run[..|run| - 1];
    assert forall i | 0 <= i < |init| :: init[i] == run[i];
  }

  /** Keys of the run never clash: a tag key is another tag's only if it is the same, and never a repository's. */
  lemma KeysAreApart(sha: Sha256, alias: string, m: string, t: string, n: string, u: string, now: int)
    requires sha.Ideal() && IsValidAlias(alias) && NoColon(m) && NoColon(n)
    ensures TagKey(sha, alias, m, t) == KeyOf(sha, RefFor(alias, TagName(n, u), now)) <==> m == n && t == u
    ensures TagKey(sha, alias, m, t) != KeyOf(sha, RefFor(alias, n, now))
  {
    ReferenceKeysAreInjective(alias, m, t, alias, n, u);
    assert KeyOf(sha, RefFor(alias, TagName(n, u), now)) == sha.text(KeyString(alias, TagName(n, u)));
    assert KeyOf(sha, RefFor(alias, n, now)) == sha.text(KeyString(alias, n));
    assert TagKey(sha, alias, m, t) == sha.text(KeyString(alias, TagName(m, t)));
  }

  // A manifest upload

  /** The disk after a manifest upload: the manifest if it was new, and its two references. */
  function WithManifest(sha: Sha256, d: Disk, alias: string, name: string, tag: string, data: Bytes, now: int): Disk {
    var key := sha.content(data);
    var tagRef, repoRef := RefFor(alias, TagName(name, tag), now), RefFor(alias, name, now);
    var stored := if Blob(key) in d then d
                  else d[Blob(key) := Data(data)][Meta(key) := MetaDoc(ArtifactMeta(key, |data|, now))];
    var tagged := WithRecord(stored[Lookup(KeyOf(sha, tagRef)) := Text(key)], key, KeyOf(sha, tagRef), tagRef);
    WithRecord(tagged[Lookup(KeyOf(sha, repoRef)) := Text(key)], key, KeyOf(sha, repoRef), repoRef)
  }

  lemma PutManifestNet(sha: Sha256, d: Disk, alias: string, name: string, tag: string, data: Bytes, now: int)
    requires sha.Ideal() && Sound(sha, d) && forall h | IsHex(h) && Blob(h) in d :: ReadMeta(d, h).Ok?
    ensures PutManifest(sha, d, alias, name, tag, data, now) == (WithManifest(sha, d, alias, name, tag, data, now), Ok(()))
    ensures Sound(sha, WithManifest(sha, d, alias, name, tag, data, now))
  {
    hide Sound, StoreManifest, AddReference, StepOf;
    var key := sha.content(data);
    assert IsHex(key);
    StoreManifestStep(sha, d, data, now);
    var stored := StoreManifest(sha, d, data, now).0;
    var tagRef, repoRef := RefFor(alias, TagName(name, tag), now), RefFor(alias, name, now);
    AddReferenceStep(sha, stored, data, tagRef, |data|, now);
    var tagged := AddReference(sha, stored, key, tagRef, |data|, now).0;
    AddReferenceStep(sha, tagged, data, repoRef, |data|, now);
  }

  /** What WithManifest leaves alone. */
  lemma ManifestChanges(sha: Sha256, d: Disk, alias: string, name: string, tag: string, data: Bytes, now: int)
    requires sha.Ideal() && Sound(sha, d)
    ensures var e := WithManifest(sha, d, alias, name, tag, data, now);
            var key := sha.content(data);
            && (forall h | h != key :: SameAt(d, e, h))
            && (Blob(key) in d ==> SameAt(d, e, key) && d[Blob(key)] == Data(data))
            && Blob(key) in e && e[Blob(key)] == Data(data)
            && (Blob(key) !in d ==> ReadMeta(e, key) == Ok(ArtifactMeta(key, |data|, now)))
            && (forall k | k != KeyOf(sha, RefFor(alias, TagName(name, tag), now)) && k != KeyOf(sha, RefFor(alias, name, now)) ::
                  (Lookup(k) in e <==> Lookup(k) in d) && (Lookup(k) in d ==> e[Lookup(k)] == d[Lookup(k)]))
  {
    assert IsHex(sha.content(data));
  }

  lemma ManifestTags(sha: Sha256, d: Disk, alias: string, run: seq<Upload>, name: string, tag: string)
    requires sha.Ideal() && IsValidAlias(alias) && IsRun(run) && run != [] && run[|run| - 1].ManifestPut? && Sound(sha, d)
    requires forall h | IsHex(h) && Blob(h) in d :: ReadMeta(d, h).Ok?
    requires NoColon(name) && TagIsCurrent(sha, d, alias, run[..|run| - 1], name, tag)
    ensures var u := run[|run| - 1];
            TagIsCurrent(sha, WithManifest(sha, d, alias, u.name, u.tag, u.data, u.now), alias, run, name, tag)
  {
    hide Sound, TagKey, KeyOf;
    var init, u := run[..|run| - 1], run[|run| - 1];
    KeysAreApart(sha, alias, name, tag, u.name, u.tag, u.now);
    ManifestChanges(sha, d, alias, u.name, u.tag, u.data, u.now);
    assert IsHex(sha.content(u.data));
    if name == u.name && tag == u.tag {
      KeysAreApart(sha, alias, u.name, u.tag, u.name, u.tag, u.now);
    } else if LastManifest(init, name, tag).Some? {
      var data := LastManifest(init, name, tag).value;
      assert SameAt(d, WithManifest(sha, d, alias, u.name, u.tag, u.data, u.now), sha.content(data));
    }
  }

  lemma ManifestMetas(sha: Sha256, d: Disk, alias: string, run: seq<Upload>, data: Bytes)
    requires sha.Ideal() && run != [] && run[|run| - 1].ManifestPut? && Sound(sha, d)
    requires MetaNames(sha, d, run[..|run| - 1], data)
    ensures var u := run[|run| - 1];
            MetaNames(sha, WithManifest(sha, d, alias, u.name, u.tag, u.data, u.now), run, data)
  {
    hide Sound;
    var init, u := run[..|run| - 1], run[|run| - 1];
    var e, h := WithManifest(sha, d, alias, u.name, u.tag, u.data, u.now), sha.content(data);
    ManifestChanges(sha, d, alias, u.name, u.tag, u.data, u.now);
    hide WithManifest;
    assert IsHex(h) && IsHex(sha.content(u.data));
    if ReadMeta(e, h).Ok? && PutAsBlob(sha, run, data) {
      assert SameAt(d, e, h);
      var named := ReadMeta(e, h).value.hash;
      StagingKeysAreNotDigests(named);
      UsedLater(run, named);
      assert SameAt(d, e, named);
    }
  }

  lemma ManifestStep(sha: Sha256, d: Disk, alias: string, run: seq<Upload>)
    requires sha.Ideal() && IsValidAlias(alias) && IsRun(run) && run != [] && run[|run| - 1].ManifestPut?
    requires Inv(sha, d, alias, run[..|run| - 1])
    ensures Inv(sha, Exec(sha, d, alias, run[|run| - 1]), alias, run)
  {
    hide Sound, PutManifest, TagIsCurrent, MetaNames;
    var u := run[|run| - 1];
    var e := WithManifest(sha, d, alias, u.name, u.tag, u.data, u.now);
    PutManifestNet(sha, d, alias, u.name, u.tag, u.data, u.now);
    ManifestChanges(sha, d, alias, u.name, u.tag, u.data, u.now);
    hide WithManifest;
    assert IsHex(sha.content(u.data));
    forall h | IsHex(h) && Blob(h) in e ensures ReadMeta(e, h).Ok? {
      assert h != sha.content(u.data) ==> SameAt(d, e, h);
    }
    forall k | IsStagingKey(k) && !Gone(e, k) ensures UsedKey(run, k) {
      StagingKeysAreNotDigests(k);
      assert SameAt(d, e, k);
      UsedLater(run, k);
    }
    forall name, tag | NoColon(name) ensures TagIsCurrent(sha, e, alias, run, name, tag) {
      ManifestTags(sha, d, alias, run, name, tag);
    }
    forall data: Bytes ensures MetaNames(sha, e, run, data) {
      ManifestMetas(sha, d, alias, run, data);
    }
  }

  // A blob upload

  /** The disk after an accepted blob upload. */
  function WithBlob(sha: Sha256, d: Disk, alias: string, name: string, data: Bytes, temp: string, now: int): Disk {
    var key, ref := sha.content(data), RefFor(alias, name, now);
    Uploaded(d, key, data, temp, now, KeyOf(sha, ref), ref)
  }

  /** What WithBlob leaves alone. */
  lemma BlobChanges(sha: Sha256, d: Disk, alias: string, name: string, data: Bytes, temp: string, now: int)
    requires sha.Ideal() && Sound(sha, d)
    ensures var e := WithBlob(sha, d, alias, name, data, temp, now);
            var key := sha.content(data);
            && (forall h | h != key :: SameAt(d, e, h))
            && Blob(key) in e && e[Blob(key)] == Data(data)
            && ReadMeta(e, key) == Ok(ArtifactMeta(temp, |data|, now))
            && (forall k | k != KeyOf(sha, RefFor(alias, name, now)) ::
                  (Lookup(k) in e <==> Lookup(k) in d) && (Lookup(k) in d ==> e[Lookup(k)] == d[Lookup(k)]))
  {}

  /** What a rejected upload leaves alone: everything but the trash and its own staging key. */
  ghost predicate Quiet(d: Disk, e: Disk, temp: string) {
    && (forall h | h != temp :: SameAt(d, e, h))
    && (forall k :: (Lookup(k) in e <==> Lookup(k) in d) && (Lookup(k) in d ==> e[Lookup(k)] == d[Lookup(k)]))
  }

  lemma RejectedIsQuiet(sha: Sha256, d: Disk, alias: string, u: Upload)
    requires sha.Ideal() && Sound(sha, d) && u.BlobPut? && IsStagingKey(u.temp) && Gone(d, u.temp)
    requires !Accepted(sha, u.digest, u.r)
    ensures var e := Exec(sha, d, alias, u); Sound(sha, e) && Quiet(d, e, u.temp)
  {
    hide Sound, PutBlob;
    PutBlobRejects(sha, d, alias, u.name, u.digest, u.r, u.size, u.temp, u.now);
    var e := Exec(sha, d, alias, u);
    forall s: Slot | s.Lookup? || ((s.Blob? || s.Meta?) && s.hash != u.temp)
      ensures (s in e <==> s in d) && (s in d ==> e[s] == d[s])
    {
      assert s in e <==> s in e - {TrashBlob(u.temp), TrashMeta(u.temp)};
      assert s in e <==> s in e - {Blob(u.temp)};
      assert s in d <==> s in d - {TrashBlob(u.temp), TrashMeta(u.temp)};
    }
  }

  lemma BlobTags(sha: Sha256, d: Disk, alias: string, run: seq<Upload>, name: string, tag: string)
    requires sha.Ideal() && IsValidAlias(alias) && IsRun(run) && run != [] && run[|run| - 1].BlobPut? && Sound(sha, d)
    requires NoColon(name) && TagIsCurrent(sha, d, alias, run[..|run| - 1], name, tag)
    ensures var u := run[|run| - 1];
            u.r.Reader? ==>
              TagIsCurrent(sha, WithBlob(sha, d, alias, u.name, u.r.data, u.temp, u.now), alias, run, name, tag)
  {
    hide Sound, TagKey, KeyOf;
    var u := run[|run| - 1];
    if u.r.Reader? {
      KeysAreApart(sha, alias, name, tag, u.name, "", u.now);
      BlobChanges(sha, d, alias, u.name, u.r.data, u.temp, u.now);
      hide WithBlob;
      if LastManifest(run, name, tag).Some? {
        var h := sha.content(LastManifest(run, name, tag).value);
        assert h != sha.content(u.r.data) ==> SameAt(d, WithBlob(sha, d, alias, u.name, u.r.data, u.temp, u.now), h);
      }
    }
  }

  lemma BlobMetas(sha: Sha256, d: Disk, alias: string, run: seq<Upload>, data: Bytes)
    requires sha.Ideal() && IsRun(run) && run != [] && run[|run| - 1].BlobPut? && Sound(sha, d)
    requires MetaNames(sha, d, run[..|run| - 1], data) && Gone(d, run[|run| - 1].temp)
    ensures var u := run[|run| - 1];
            Accepted(sha, u.digest, u.r) ==>
              MetaNames(sha, WithBlob(sha, d, alias, u.name, u.r.data, u.temp, u.now), run, data)
  {
    hide Sound;
    var u := run[|run| - 1];
    if Accepted(sha, u.digest, u.r) {
      var e, h, key := WithBlob(sha, d, alias, u.name, u.r.data, u.temp, u.now), sha.content(data), sha.content(u.r.data);
      BlobChanges(sha, d, alias, u.name, u.r.data, u.temp, u.now);
      hide WithBlob;
      assert IsHex(h) && IsHex(key);
      StagingKeysAreNotDigests(u.temp);
      UsedLater(run, u.temp);
      assert SameAt(d, e, u.temp);
      if h != key {
        assert SameAt(d, e, h);
        assert PutAsBlob(sha, run, data) <==> PutAsBlob(sha, run[..|run| - 1], data);
        if ReadMeta(e, h).Ok? && PutAsBlob(sha, run, data) {
          var named := ReadMeta(e, h).value.hash;
          StagingKeysAreNotDigests(named);
          UsedLater(run, named);
          assert SameAt(d, e, named);
        }
      }
    }
  }

  lemma AcceptedStep(sha: Sha256, d: Disk, alias: string, run: seq<Upload>)
    requires sha.Ideal() && IsValidAlias(alias) && IsRun(run) && run != [] && run[|run| - 1].BlobPut?
    requires Inv(sha, d, alias, run[..|run| - 1]) && Accepted(sha, run[|run| - 1].digest, run[|run| - 1].r)
    ensures Inv(sha, Exec(sha, d, alias, run[|run| - 1]), alias, run)
  {
    hide Sound, PutBlob, TagIsCurrent, MetaNames, GetBlob, Preserves, Published;
    var u := run[|run| - 1];
    PrefixIsRun(run);
    PutBlobAccepts(sha, d, alias, u.name, u.r, u.size, u.temp, u.now);
    var e := WithBlob(sha, d, alias, u.name, u.r.data, u.temp, u.now);
    assert Exec(sha, d, alias, u) == e;
    BlobChanges(sha, d, alias, u.name, u.r.data, u.temp, u.now);
    hide WithBlob;
    assert IsHex(sha.content(u.r.data));
    forall h | IsHex(h) && Blob(h) in e ensures ReadMeta(e, h).Ok? {
      assert h != sha.content(u.r.data) ==> SameAt(d, e, h);
    }
    forall k | IsStagingKey(k) && !Gone(e, k) ensures UsedKey(run, k) {
      StagingKeysAreNotDigests(k);
      assert SameAt(d, e, k);
      UsedLater(run, k);
    }
    forall name, tag | NoColon(name) ensures TagIsCurrent(sha, e, alias, run, name, tag) {
      BlobTags(sha, d, alias, run, name, tag);
    }
    forall data: Bytes ensures MetaNames(sha, e, run, data) {
      BlobMetas(sha, d, alias, run, data);
    }
  }

  lemma QuietTags(sha: Sha256, d: Disk, e: Disk, alias: string, run: seq<Upload>, name: string, tag: string)
    requires sha.Ideal() && run != [] && run[|run| - 1].BlobPut? && IsStagingKey(run[|run| - 1].temp)
    requires Quiet(d, e, run[|run| - 1].temp) && TagIsCurrent(sha, d, alias, run[..|run| - 1], name, tag)
    ensures TagIsCurrent(sha, e, alias, run, name, tag)
  {
    hide TagKey;
    StagingKeysAreNotDigests(run[|run| - 1].temp);
    if LastManifest(run, name, tag).Some? {
      var h := sha.content(LastManifest(run, name, tag).value);
      assert IsHex(h);
      assert SameAt(d, e, h);
    }
  }

  lemma QuietMetas(sha: Sha256, d: Disk, e: Disk, run: seq<Upload>, data: Bytes)
    requires sha.Ideal() && IsRun(run) && run != [] && run[|run| - 1].BlobPut?
    requires !Accepted(sha, run[|run| - 1].digest, run[|run| - 1].r)
    requires Quiet(d, e, run[|run| - 1].temp) && MetaNames(sha, d, run[..|run| - 1], data)
    ensures MetaNames(sha, e, run, data)
  {
    var h, temp := sha.content(data), run[|run| - 1].temp;
    PrefixIsRun(run);
    StagingKeysAreNotDigests(temp);
    assert IsHex(h);
    assert SameAt(d, e, h);
    assert PutAsBlob(sha, run, data) <==> PutAsBlob(sha, run[..|run| - 1], data);
    if ReadMeta(e, h).Ok? && PutAsBlob(sha, run, data) {
      var named := ReadMeta(e, h).value.hash;
      UsedLater(run, named);
      assert SameAt(d, e, named);
    }
  }

  lemma RejectedStep(sha: Sha256, d: Disk, alias: string, run: seq<Upload>)
    requires sha.Ideal() && IsValidAlias(alias) && IsRun(run) && run != [] && run[|run| - 1].BlobPut?
    requires Inv(sha, d, alias, run[..|run| - 1]) && !Accepted(sha, run[|run| - 1].digest, run[|run| - 1].r)
    ensures Inv(sha, Exec(sha, d, alias, run[|run| - 1]), alias, run)
  {
    hide Sound, Exec, TagIsCurrent, MetaNames;
    var u := run[|run| - 1];
    var e := Exec(sha, d, alias, u);
    PrefixIsRun(run);
    RejectedIsQuiet(sha, d, alias, u);
    StagingKeysAreNotDigests(u.temp);
    forall h | IsHex(h) && Blob(h) in e ensures ReadMeta(e, h).Ok? {
      assert SameAt(d, e, h);
    }
    forall k | IsStagingKey(k) && !Gone(e, k) ensures UsedKey(run, k) {
      assert k != u.temp ==> SameAt(d, e, k);
      UsedLater(run, k);
    }
    forall name, tag | NoColon(name) ensures TagIsCurrent(sha, e, alias, run, name, tag) {
      QuietTags(sha, d, e, alias, run, name, tag);
    }
    forall data: Bytes ensures MetaNames(sha, e, run, data) {
      QuietMetas(sha, d, e, run, data);
    }
  }

  lemma {:induction false} RunInv(sha: Sha256, alias: string, run: seq<Upload>)
    requires sha.Ideal() && IsValidAlias(alias) && IsRun(run)
    ensures Inv(sha, After(sha, alias, run), alias, run)
    decreases |run|
  {
    hide Inv, IsRun, Exec;
    if run == [] {
      InitInv(sha, alias);
    } else {
      PrefixIsRun(run);
      RunInv(sha, alias, run[..|run| - 1]);
      var d, u := After(sha, alias, run[..|run| - 1]), run[|run| - 1];
      if u.ManifestPut? {
        ManifestStep(sha, d, alias, run);
      } else if Accepted(sha, u.digest, u.r) {
        AcceptedStep(sha, d, alias, run);
      } else {
        RejectedStep(sha, d, alias, run);
      }
    }
  }

  /**
   * Main result on tags: after any run, a tag that was never put is not found; and the last manifest put
   * under it is returned exactly when its bytes were not also uploaded as a blob. If they were, before or
   * after, the tag's metadata names a staging key that no longer exists and the tag cannot be read.
   */
  lemma TagsReturnTheLastManifest(sha: Sha256, alias: string, run: seq<Upload>, name: string, tag: string)
    requires sha.Ideal() && IsValidAlias(alias) && IsRun(run) && NoColon(name)
    ensures GetManifest(sha, After(sha, alias, run), alias, name, tag) ==
            match LastManifest(run, name, tag)
            case None => Err(ReferenceNotFound)
            case Some(data) => if PutAsBlob(sha, run, data) then Err(BlobAbsent) else Ok(data)
  {
    hide Sound;
    var d := After(sha, alias, run);
    RunInv(sha, alias, run);
    assert TagIsCurrent(sha, d, alias, run, name, tag);
    if LastManifest(run, name, tag).Some? {
      var data := LastManifest(run, name, tag).value;
      assert IsHex(sha.content(data));
      assert MetaNames(sha, d, run, data);
      ReadToEnd(data, 0);
      assert data[0..] == data;
    }
  }

  // Blobs

  predicate IsUploadOf(sha: Sha256, u: Upload, data: Bytes) {
    IsBlobOf(sha, u, data) || (u.ManifestPut? && u.data == data)
  }

  /** The bytes were put as a manifest or uploaded, successfully, as a blob. */
  predicate WasUploaded(sha: Sha256, run: seq<Upload>, data: Bytes) {
    exists i | 0 <= i < |run| :: IsUploadOf(sha, run[i], data)
  }

  lemma UploadedLater(sha: Sha256, run: seq<Upload>, data: Bytes)
    requires run != []
    ensures WasUploaded(sha, run, data) <==>
            WasUploaded(sha, run[..|run| - 1], data) || IsUploadOf(sha, run[|run| - 1], data)
  {
    var init := run[..|run| - 1];
    if WasUploaded(sha, init, data) {
      var i :| 0 <= i < |init| && IsUploadOf(sha, init[i], data);
      assert IsUploadOf(sha, run[i], data);
    }
    if WasUploaded(sha, run, data) {
      var i :| 0 <= i < |run| && IsUploadOf(sha, run[i], data);
      assert i < |init| ==> init[i] == run[i];
    }
  }

  lemma UploadMakesLive(sha: Sha256, d: Disk, alias: string, u: Upload, data: Bytes)
    requires sha.Ideal() && Sound(sha, d) && forall h | IsHex(h) && Blob(h) in d :: ReadMeta(d, h).Ok?
    requires u.BlobPut? ==> IsStagingKey(u.temp) && Gone(d, u.temp)
    ensures Blob(sha.content(data)) in Exec(sha, d, alias, u)
            <==> Blob(sha.content(data)) in d || IsUploadOf(sha, u, data)
  {
    hide Sound, PutBlob, PutManifest, GetBlob, Preserves, Published;
    var e, h := Exec(sha, d, alias, u), sha.content(data);
    assert IsHex(h);
    match u
    case ManifestPut(name, tag, bytes, now) =>
      PutManifestNet(sha, d, alias, name, tag, bytes, now);
      ManifestChanges(sha, d, alias, name, tag, bytes, now);
      hide WithManifest;
      assert h != sha.content(bytes) ==> SameAt(d, e, h);
    case BlobPut(name, digest, r, size, temp, now) =>
      StagingKeysAreNotDigests(temp);
      if Accepted(sha, digest, r) {
        PutBlobAccepts(sha, d, alias, name, r, size, temp, now);
        BlobChanges(sha, d, alias, name, r.data, temp, now);
        hide Uploaded;
        assert h != sha.content(r.data) ==> SameAt(d, e, h);
      } else {
        RejectedIsQuiet(sha, d, alias, u);
        assert SameAt(d, e, h);
      }
  }

  lemma {:induction false} LiveIsUploaded(sha: Sha256, alias: string, run: seq<Upload>, data: Bytes)
    requires sha.Ideal() && IsValidAlias(alias) && IsRun(run)
    ensures Blob(sha.content(data)) in After(sha, alias, run) <==> WasUploaded(sha, run, data)
    decreases |run|
  {
    hide Exec, IsRun, Sound;
    if run != [] {
      var init, u := run[..|run| - 1], run[|run| - 1];
      PrefixIsRun(run);
      LiveIsUploaded(sha, alias, init, data);
      RunInv(sha, alias, init);
      NextIsFresh(sha, alias, run);
      UploadMakesLive(sha, After(sha, alias, init), alias, u, data);
      UploadedLater(sha, run, data);
    }
  }

  lemma NextIsFresh(sha: Sha256, alias: string, run: seq<Upload>)
    requires IsRun(run) && run != [] && Inv(sha, After(sha, alias, run[..|run| - 1]), alias, run[..|run| - 1])
    ensures var u := run[|run| - 1];
            u.BlobPut? ==> IsStagingKey(u.temp) && Gone(After(sha, alias, run[..|run| - 1]), u.temp)
  {
    PrefixIsRun(run);
  }

  /**
   * Main result on blobs: after any run, GetBlob answers with the bytes of a digest and their number exactly
   * when they were put as a manifest or accepted as a blob, and else finds nothing.
   */
  lemma BlobsAreServedOnceUploaded(sha: Sha256, alias: string, run: seq<Upload>, data: Bytes)
    requires sha.Ideal() && IsValidAlias(alias) && IsRun(run) && |data| <= MAX_INT64
    ensures var res := GetBlob(sha, After(sha, alias, run), DigestOf(sha, data));
            if WasUploaded(sha, run, data) then res == Ok((data, |data|)) else res.Err? && res.error in {MetaAbsent, Malformed}
  {
    hide After, GetBlob, WasUploaded, IsRun;
    var d := After(sha, alias, run);
    RunInv(sha, alias, run);
    LiveIsUploaded(sha, alias, run, data);
    GetBlobFindsWhatIsPublished(sha, d, data);
    BytesOfDigest(sha, d, data);
    assert IsHex(sha.content(data));
  }

  /** A concrete loss: the same bytes as a manifest and as a blob, and the tag is gone. */
  lemma ManifestAlsoPutAsBlobIsLost(sha: Sha256, alias: string, data: Bytes)
    requires sha.Ideal() && IsValidAlias(alias) && |data| <= MAX_INT64
    ensures var run := [ManifestPut("app", "v1", data, 1),
                        BlobPut("app", DigestOf(sha, data), Reader(data, false), -1, "upload-1", 2)];
            && GetManifest(sha, After(sha, alias, run[..1]), alias, "app", "v1") == Ok(data)
            && GetManifest(sha, After(sha, alias, run), alias, "app", "v1") == Err(BlobAbsent)
  {
    var put := ManifestPut("app", "v1", data, 1);
    var run := [put, BlobPut("app", DigestOf(sha, data), Reader(data, false), -1, "upload-1", 2)];
    assert run[..1] == [put] && [put][..0] == [];
    assert LastManifest(run[..1], "app", "v1") == Some(data);
    assert LastManifest(run, "app", "v1") == Some(data);
    assert !PutAsBlob(sha, run[..1], data) && PutAsBlob(sha, run, data);
    TagsReturnTheLastManifest(sha, alias, run[..1], "app", "v1");
    TagsReturnTheLastManifest(sha, alias, run, "app", "v1");
  }
}
