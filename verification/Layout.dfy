/**
 * Where the storage keeps its files. A path is the sequence of names the kernel walks; `Render` is the
 * string that filepath.Join prints for it.
 */
module Layout {

  type Path = seq<string>

  /**
   * Every file the storage writes, named by what it is for rather than by where it lies, and the two kinds
   * of directories on whose existence an operation depends: metaref/ab and .trash/metaref/ab/cdef.
   */
  datatype Slot =
    | Blob(hash: string)
    | Meta(hash: string)
    | Lookup(refHash: string)
    | Record(hash: string, refHash: string)
    | TrashBlob(hash: string)
    | TrashMeta(hash: string)
    | TrashRecord(dead: string, rest: string, refHash: string)
    | RecordShard(shard: string)
    | TrashDir(dead: string)

  predicate IsFile(s: Slot) {
    !s.RecordShard? && !s.TrashDir?
  }

  predicate IsNameChar(c: char) {
    'a' <= c <= 'z' || 'A' <= c <= 'Z' || '0' <= c <= '9' || c == '-'
  }

  predicate IsName(s: string) {
    s != "" && forall i | 0 <= i < |s| :: IsNameChar(s[i])
  }

  /** The hashes the layout is sound for: three characters or more, over letters, digits and '-'. */
  predicate IsSafe(hash: string) {
    |hash| >= 3 && IsName(hash)
  }

  predicate IsSafeSlot(s: Slot) {
    match s
    case Blob(h) => IsSafe(h)
    case Meta(h) => IsSafe(h)
    case Lookup(k) => IsSafe(k)
    case Record(h, k) => IsSafe(h) && IsSafe(k)
    case TrashBlob(h) => IsSafe(h)
    case TrashMeta(h) => IsSafe(h)
    case TrashRecord(h, rest, k) => IsSafe(h) && IsName(rest) && IsSafe(k)
    case RecordShard(x) => |x| == 2 && IsName(x)
    case TrashDir(h) => IsSafe(h)
  }

  /** filepath.Join ignores empty elements. */
  function Join(base: Path, elements: seq<string>): Path
    decreases |elements|
  {
    if elements == [] then base
    else Join(if elements[0] == "" then base else base + [elements[0]], elements[1..])
  }

  lemma JoinPlain(base: Path, elements: seq<string>)
    requires forall i | 0 <= i < |elements| :: elements[i] != ""
    ensures Join(base, elements) == base + elements
    decreases |elements|
  {
    if elements != [] {
      JoinPlain(base + [elements[0]], elements[1..]);
      assert base + [elements[0]] + elements[1..] == base + elements;
    }
  }

  /** The git-like shard directory and file name of a hash; a hash shorter than two has no shard. */
  function Shard(hash: string): seq<string> {
    if |hash| < 2 then [hash] else [hash[..2], hash[2..]]
  }

  /** The name of the shard directory. */
  function Prefix(hash: string): string {
    Shard(hash)[0]
  }

  function PathOf(base: Path, s: Slot): Path {
    match s
    case Blob(h) => Join(base, ["blob"] + Shard(h))
    case Meta(h) => Join(base, ["meta"] + Shard(h))
    case Lookup(k) => Join(base, ["ref"] + Shard(k))
    case Record(h, k) => Join(base, ["metaref"] + Shard(h) + [k])
    case TrashBlob(h) => Join(base, [".trash", "blob"] + Shard(h))
    case TrashMeta(h) => Join(base, [".trash", "meta"] + Shard(h))
    case TrashRecord(h, rest, k) => Join(base, [".trash", "metaref"] + Shard(h) + [rest, k])
    case RecordShard(x) => Join(base, ["metaref", x])
    case TrashDir(h) => Join(base, [".trash", "metaref"] + Shard(h))
  }

  /** metaref/ab: the directory that moveToTrash renames for a hash starting with "ab". */
  function ShardDir(base: Path, hash: string): Path {
    Join(base, ["metaref"] + Shard(hash)[..|Shard(hash)| - 1])
  }

  function RecordDir(base: Path, hash: string): Path {
    Join(base, ["metaref"] + Shard(hash))
  }

  function TrashRecordDir(base: Path, hash: string): Path {
    Join(base, [".trash", "metaref"] + Shard(hash))
  }

  function LockPath(lockDir: Path, hash: string): Path {
    if |hash| < 2 then Join(lockDir, [hash + ".lock"])
    else Join(lockDir, [hash[..2], hash[2..] + ".lock"])
  }

  /** The path of a safe slot relative to the base directory, without filepath.Join. */
  function Relative(s: Slot): seq<string>
    requires IsSafeSlot(s)
  {
    match s
    case Blob(h) => ["blob", h[..2], h[2..]]
    case Meta(h) => ["meta", h[..2], h[2..]]
    case Lookup(k) => ["ref", k[..2], k[2..]]
    case Record(h, k) => ["metaref", h[..2], h[2..], k]
    case TrashBlob(h) => [".trash", "blob", h[..2], h[2..]]
    case TrashMeta(h) => [".trash", "meta", h[..2], h[2..]]
    case TrashRecord(h, rest, k) => [".trash", "metaref", h[..2], h[2..], rest, k]
    case RecordShard(x) => ["metaref", x]
    case TrashDir(h) => [".trash", "metaref", h[..2], h[2..]]
  }

  lemma PathIsRelative(base: Path, s: Slot)
    requires IsSafeSlot(s)
    ensures PathOf(base, s) == base + Relative(s)
  {
    JoinPlain(base, Relative(s));
    match s
    case Blob(h) => assert ["blob"] + Shard(h) == Relative(s);
    case Meta(h) => assert ["meta"] + Shard(h) == Relative(s);
    case Lookup(k) => assert ["ref"] + Shard(k) == Relative(s);
    case Record(h, k) => assert ["metaref"] + Shard(h) + [k] == Relative(s);
    case TrashBlob(h) => assert [".trash", "blob"] + Shard(h) == Relative(s);
    case TrashMeta(h) => assert [".trash", "meta"] + Shard(h) == Relative(s);
    case TrashRecord(h, rest, k) => assert [".trash", "metaref"] + Shard(h) + [rest, k] == Relative(s);
    case RecordShard(_) =>
    case TrashDir(h) => assert [".trash", "metaref"] + Shard(h) == Relative(s);
  }

  lemma DirsArePlain(base: Path, h: string)
    requires IsSafe(h)
    ensures ShardDir(base, h) == base + ["metaref", h[..2]]
    ensures RecordDir(base, h) == base + ["metaref", h[..2], h[2..]]
    ensures TrashRecordDir(base, h) == base + [".trash", "metaref", h[..2], h[2..]]
  {
    JoinPlain(base, ["metaref", h[..2]]);
    JoinPlain(base, ["metaref", h[..2], h[2..]]);
    JoinPlain(base, [".trash", "metaref", h[..2], h[2..]]);
    assert ["metaref"] + Shard(h)[..|Shard(h)| - 1] == ["metaref", h[..2]];
    assert ["metaref"] + Shard(h) == ["metaref", h[..2], h[2..]];
    assert [".trash", "metaref"] + Shard(h) == [".trash", "metaref", h[..2], h[2..]];
  }

  lemma SplitIsInjective(g: string, h: string)
    requires |g| >= 2 && |h| >= 2 && g[..2] == h[..2] && g[2..] == h[2..]
    ensures g == h
  {
    assert g == g[..2] + g[2..] && h == h[..2] + h[2..];
  }

  lemma RelativeIsPrefixFree(s: Slot, t: Slot)
    requires IsSafeSlot(s) && IsSafeSlot(t) && (IsFile(s) || |Relative(s)| == |Relative(t)|)
    requires Relative(s) <= Relative(t)
    ensures s == t
  {
    var p, q := Relative(s), Relative(t);
    assert forall i | 0 <= i < |p| :: p[i] == q[i];
    assert p[0] == q[0] && p[1] == q[1] && (|p| > 2 ==> p[2] == q[2]);
    match s
    case Blob(h) => assert t.Blob?; SplitIsInjective(h, t.hash);
    case Meta(h) => assert t.Meta?; SplitIsInjective(h, t.hash);
    case Lookup(k) => assert t.Lookup?; SplitIsInjective(k, t.refHash);
    case Record(h, k) => assert t.Record?; assert p[3] == q[3]; SplitIsInjective(h, t.hash);
    case TrashBlob(h) => assert t.TrashBlob?; assert p[3] == q[3]; SplitIsInjective(h, t.hash);
    case TrashMeta(h) => assert t.TrashMeta?; assert p[3] == q[3]; SplitIsInjective(h, t.hash);
    case TrashRecord(h, rest, k) =>
      assert t.TrashRecord?;
      assert p[3] == q[3] && p[4] == q[4] && p[5] == q[5];
      SplitIsInjective(h, t.dead);
    case RecordShard(_) =>
    case TrashDir(h) => assert t.TrashDir?; assert p[2] == q[2] && p[3] == q[3]; SplitIsInjective(h, t.dead);
  }

  /**
   * Main result on the layout: nothing lies at or below the path of a file but the file itself. In
   * particular two slots never share a path, so the families can be read as independent maps.
   */
  lemma NoPathIsAncestorOfAnother(base: Path, s: Slot, t: Slot)
    requires IsSafeSlot(s) && IsSafeSlot(t)
    ensures PathOf(base, s) == PathOf(base, t) <==> s == t
    ensures IsFile(s) ==> (PathOf(base, s) <= PathOf(base, t) <==> s == t)
  {
    PathIsRelative(base, s);
    PathIsRelative(base, t);
    if base + Relative(s) == base + Relative(t) || (IsFile(s) && base + Relative(s) <= base + Relative(t)) {
      var p, q := base + Relative(s), base + Relative(t);
      assert Relative(s) == p[|base|..] && Relative(t) == q[|base|..];
      assert p == q[..|p|];
      assert Relative(s) == Relative(t)[..|Relative(s)|];
      RelativeIsPrefixFree(s, t);
    }
  }

  /** Lock files: away from the store, one per hash, none above another. */
  ghost predicate LockDirApart(base: Path, lockDir: Path) {
    || (!(lockDir <= base) && !(base <= lockDir))
    || (exists name :: lockDir == base + [name] && name !in {"blob", "meta", "ref", "metaref", ".trash"})
  }

  /** The names of a path, one after the other. */
  function Spelled(p: Path): string {
    if p == [] then "" else p[0] + Spelled(p[1..])
  }

  /** What lies below the lock directory spells the hash and ".lock", in one name or, from two characters on, two. */
  lemma LockPathSpellsTheHash(lockDir: Path, h: string)
    ensures var p := LockPath(lockDir, h);
            && lockDir <= p && |p| == |lockDir| + (if |h| < 2 then 1 else 2)
            && |p[|lockDir|]| == (if |h| < 2 then |h| + 5 else 2)
            && Spelled(p[|lockDir|..]) == h + ".lock"
  {
    var names := if |h| < 2 then [h + ".lock"] else [h[..2], h[2..] + ".lock"];
    JoinPlain(lockDir, names);
    var p := LockPath(lockDir, h);
    assert p == lockDir + names && p[|lockDir|..] == names;
    if |h| < 2 {
      assert names[1..] == [];
    } else {
      assert names[1..] == [h[2..] + ".lock"] && names[1..][1..] == [];
      assert Spelled(names[1..]) == h[2..] + ".lock" + "";
      assert h == h[..2] + h[2..];
    }
  }

  /** One lock file per hash, and none above another. */
  lemma LockPathsArePrefixFree(lockDir: Path, g: string, h: string)
    ensures LockPath(lockDir, g) <= LockPath(lockDir, h) <==> g == h
  {
    LockPathSpellsTheHash(lockDir, g);
    LockPathSpellsTheHash(lockDir, h);
    var p, q, n := LockPath(lockDir, g), LockPath(lockDir, h), |lockDir|;
    assert p <= q ==> p[n] == q[n];
    if p <= q {
      assert p == q;
      assert (g + ".lock")[..|g|] == g && (h + ".lock")[..|h|] == h;
    }
  }

  lemma LockFilesAreOutsideTheStore(base: Path, lockDir: Path, h: string, s: Slot)
    requires IsSafe(h) && IsSafeSlot(s) && LockDirApart(base, lockDir)
    ensures !(LockPath(lockDir, h) <= PathOf(base, s)) && !(PathOf(base, s) <= LockPath(lockDir, h))
  {
    hide PathOf, LockPath;
    assert LockPath(lockDir, h) == lockDir + [h[..2], h[2..] + ".lock"] by {
      JoinPlain(lockDir, [h[..2], h[2..] + ".lock"]);
      LockPathPlain(lockDir, h);
    }
    PathIsRelative(base, s);
    var p, r, m := LockPath(lockDir, h), PathOf(base, s), |base|;
    assert lockDir == p[..|lockDir|] && base == r[..m];
    assert r[m] == Relative(s)[0];
    assert p <= r || r <= p ==> lockDir <= base || base <= lockDir;
    assert |lockDir| == m + 1 ==> lockDir[m] == p[m];
  }

  lemma LockPathPlain(lockDir: Path, h: string)
    requires IsSafe(h)
    ensures LockPath(lockDir, h) == Join(lockDir, [h[..2], h[2..] + ".lock"])
  {}

  // Two-character hashes are where the layout stops being sound: their file is the shard directory.

  lemma BlobPathPlain(base: Path, h: string)
    requires h != ""
    ensures PathOf(base, Blob(h)) == base + (if |h| <= 2 then ["blob", h] else ["blob", h[..2], h[2..]])
  {
    if |h| < 2 {
      JoinPlain(base, ["blob", h]);
      assert ["blob"] + Shard(h) == ["blob", h];
    } else if |h| == 2 {
      assert h[..2] == h && h[2..] == "";
      var e := ["blob"] + Shard(h);
      assert e == ["blob", h, ""] && e[1..] == [h, ""] && e[1..][1..] == [""] && e[1..][1..][1..] == [];
      calc {
        Join(base, e);
        Join(base + ["blob"], [h, ""]);
        Join(base + ["blob"] + [h], [""]);
        Join(base + ["blob"] + [h], []);
        base + ["blob"] + [h];
        base + ["blob", h];
      }
    } else {
      JoinPlain(base, ["blob", h[..2], h[2..]]);
      assert ["blob"] + Shard(h) == ["blob", h[..2], h[2..]];
    }
  }

  /** Exactly when one blob path is a proper ancestor of another, over all names of letters, digits and '-'. */
  lemma BlobPathsNestExactlyAtShards(base: Path, g: string, h: string)
    requires IsName(g) && IsName(h)
    ensures PathOf(base, Blob(g)) < PathOf(base, Blob(h)) <==> |g| == 2 && |h| > 2 && h[..2] == g
  {
    BlobPathPlain(base, g);
    BlobPathPlain(base, h);
    var p, q := PathOf(base, Blob(g)), PathOf(base, Blob(h));
    var n := |base|;
    assert p[n] == "blob" && q[n] == "blob";
    if p < q {
      assert p[n + 1] == q[n + 1];
    }
    if |g| == 2 && |h| > 2 && h[..2] == g {
      assert q[..|p|] == p;
    }
  }

  /** A concrete case: the file of "ab" is the directory in which the file of "abc" lies. */
  lemma ShardIsAFile(base: Path)
    ensures PathOf(base, Blob("ab")) == base + ["blob", "ab"]
    ensures PathOf(base, Blob("abc")) == PathOf(base, Blob("ab")) + ["c"]
  {
    BlobPathPlain(base, "ab");
    BlobPathPlain(base, "abc");
    assert "abc"[..2] == "ab" && "abc"[2..] == "c";
  }

  // The printed form

  function Render(p: Path): string {
    if p == [] then "" else "/" + p[0] + Render(p[1..])
  }

  predicate NoSlash(s: string) {
    forall i | 0 <= i < |s| :: s[i] != '/'
  }

  lemma SameFirstName(a: string, x: string, b: string, y: string)
    requires NoSlash(a) && NoSlash(b)
    requires x == "" || x[0] == '/'
    requires y == "" || y[0] == '/'
    requires a + x == b + y
    ensures a == b && x == y
  {
    var s := a + x;
    assert x != "" ==> s[|a|] == '/';
    assert y != "" ==> s[|b|] == '/';
    assert |a| < |s| ==> |b| <= |a|;
    assert |a| == |b|;
    assert a == s[..|a|] && b == s[..|b|];
    assert x == s[|a|..] && y == s[|b|..];
  }

  /** Two paths whose names hold no slash print alike only if they are the same path. */
  lemma {:induction false} RenderIsInjective(p: Path, q: Path)
    requires forall i | 0 <= i < |p| :: NoSlash(p[i])
    requires forall i | 0 <= i < |q| :: NoSlash(q[i])
    requires Render(p) == Render(q)
    ensures p == q
  {
    if p == [] || q == [] {
      assert p != [] ==> |Render(p)| > 0;
      assert q != [] ==> |Render(q)| > 0;
    } else {
      assert Render(p)[1..] == p[0] + Render(p[1..]);
      assert Render(q)[1..] == q[0] + Render(q[1..]);
      SameFirstName(p[0], Render(p[1..]), q[0], Render(q[1..]));
      RenderIsInjective(p[1..], q[1..]);
      assert p == [p[0]] + p[1..] && q == [q[0]] + q[1..];
    }
  }

  /** The same for the storage's files: different slots have different path strings. */
  lemma PathStringsDiffer(base: Path, s: Slot, t: Slot)
    requires forall i | 0 <= i < |base| :: NoSlash(base[i])
    requires IsSafeSlot(s) && IsSafeSlot(t) && s != t
    ensures Render(PathOf(base, s)) != Render(PathOf(base, t))
  {
    NoPathIsAncestorOfAnother(base, s, t);
    SlotNamesHaveNoSlash(base, s);
    SlotNamesHaveNoSlash(base, t);
    if Render(PathOf(base, s)) == Render(PathOf(base, t)) {
      RenderIsInjective(PathOf(base, s), PathOf(base, t));
    }
  }

  lemma SlotNamesHaveNoSlash(base: Path, s: Slot)
    requires forall i | 0 <= i < |base| :: NoSlash(base[i])
    requires IsSafeSlot(s)
    ensures forall i | 0 <= i < |PathOf(base, s)| :: NoSlash(PathOf(base, s)[i])
  {
    PathIsRelative(base, s);
    var r := Relative(s);
    assert NoSlash("blob") && NoSlash("meta") && NoSlash("ref") && NoSlash("metaref") && NoSlash(".trash");
    assert forall i | 0 <= i < |r| :: NoSlash(r[i]);
  }

  /** Where everything lies, name by name, below the base directory. */
  lemma PathsSpelledOut(base: Path, s: Slot)
    requires IsSafeSlot(s)
    ensures PathOf(base, s) ==
            match s
            case Blob(h) => base + ["blob", h[..2], h[2..]]
            case Meta(h) => base + ["meta", h[..2], h[2..]]
            case Lookup(k) => base + ["ref", k[..2], k[2..]]
            case Record(h, k) => base + ["metaref", h[..2], h[2..], k]
            case TrashBlob(h) => base + [".trash", "blob", h[..2], h[2..]]
            case TrashMeta(h) => base + [".trash", "meta", h[..2], h[2..]]
            case TrashRecord(h, rest, k) => base + [".trash", "metaref", h[..2], h[2..], rest, k]
            case RecordShard(x) => base + ["metaref", x]
            case TrashDir(h) => base + [".trash", "metaref", h[..2], h[2..]]
  {
    PathIsRelative(base, s);
  }
}
