/** Which handler a request path goes to, what the handlers read from it, and the locations they print. */
module Handlers {
  import opened Layout
  import opened Store

  // strings.Index, strings.Contains and strings.Split

  predicate OccursAt(s: string, sep: string, i: nat) {
    i + |sep| <= |s| && s[i..i + |sep|] == sep
  }

  /** The first occurrence of `sep` at or after `from`. */
  function IndexFrom(s: string, sep: string, from: nat): (r: Option<nat>)
    ensures r.Some? ==> from <= r.value && OccursAt(s, sep, r.value) && forall j | from <= j < r.value :: !OccursAt(s, sep, j)
    ensures r.None? ==> forall j | from <= j :: !OccursAt(s, sep, j)
    decreases if from <= |s| then |s| - from + 1 else 0
  {
    if from > |s| then None
    else if OccursAt(s, sep, from) then Some(from)
    else IndexFrom(s, sep, from + 1)
  }

  predicate Contains(s: string, sep: string) {
    IndexFrom(s, sep, 0).Some?
  }

  lemma OccursBefore(s: string, u: string, sep: string, i: nat)
    requires i + |sep| <= |s|
    ensures OccursAt(s + u, sep, i) <==> OccursAt(s, sep, i)
  {
    assert (s + u)[i..i + |sep|] == s[i..i + |sep|];
  }

  lemma OccursBehind(a: string, s: string, sep: string, i: nat)
    ensures OccursAt(a + s, sep, |a| + i) <==> OccursAt(s, sep, i)
  {
    if i + |sep| <= |s| {
      assert (a + s)[|a| + i..|a| + i + |sep|] == s[i..i + |sep|];
    }
  }

  lemma FirstAt(s: string, sep: string, i: nat)
    requires OccursAt(s, sep, i) && forall j | 0 <= j < i :: !OccursAt(s, sep, j)
    ensures IndexFrom(s, sep, 0) == Some(i)
  {}

  lemma NoneAt(s: string, sep: string)
    requires forall j: nat :: !OccursAt(s, sep, j)
    ensures IndexFrom(s, sep, 0) == None
  {}

  /** Leftmost occurrences, without overlaps. */
  function Split(s: string, sep: string): (parts: seq<string>)
    requires sep != ""
    ensures parts != []
    decreases |s|
  {
    match IndexFrom(s, sep, 0)
    case None => [s]
    case Some(i) => [s[..i]] + Split(s[i + |sep|..], sep)
  }

  function JoinWith(parts: seq<string>, sep: string): string
    requires parts != []
    decreases |parts|
  {
    if |parts| == 1 then parts[0] else parts[0] + sep + JoinWith(parts[1..], sep)
  }

  /** Joining what was split gives the string back, and no part holds the separator. */
  lemma {:induction false} SplitThenJoin(s: string, sep: string)
    requires sep != ""
    ensures JoinWith(Split(s, sep), sep) == s
    ensures forall k | 0 <= k < |Split(s, sep)| :: !Contains(Split(s, sep)[k], sep)
    decreases |s|
  {
    var r := IndexFrom(s, sep, 0);
    if r.Some? {
      var i := r.value;
      var rest := s[i + |sep|..];
      SplitThenJoin(rest, sep);
      assert s == s[..i] + sep + rest;
      assert s == s[..i] + s[i..];
      forall j: nat ensures !OccursAt(s[..i], sep, j) {
        if j + |sep| <= i {
          OccursBefore(s[..i], s[i..], sep, j);
        }
      }
    }
  }

  /** A split into two is a cut at the first occurrence, with no further occurrence after it. */
  lemma SplitInTwo(s: string, sep: string, a: string, b: string)
    requires sep != ""
    ensures Split(s, sep) == [a, b] <==> s == a + sep + b && IndexFrom(s, sep, 0) == Some(|a|) && !Contains(b, sep)
  {
    var r := IndexFrom(s, sep, 0);
    if r.Some? {
      var i := r.value;
      var rest := s[i + |sep|..];
      assert s == s[..i] + sep + rest;
      assert Split(s, sep) == [s[..i]] + Split(rest, sep);
      if Split(s, sep) == [a, b] {
        assert Split(rest, sep) == Split(s, sep)[1..] == [b];
        SingleSplit(rest, sep);
        assert Split(s, sep)[0] == s[..i] && [a, b][0] == a;
        assert b == [b][0] == rest;
        assert a == s[..i] && s == a + sep + b && !Contains(b, sep);
      } else if i == |a| && s == a + sep + b {
        assert a == s[..i];
        assert b == rest;
        assert Split(rest, sep) != [b];
      }
    }
  }

  lemma SingleSplit(s: string, sep: string)
    requires sep != "" && |Split(s, sep)| == 1
    ensures Split(s, sep) == [s] && !Contains(s, sep)
  {}

  /** `u` adds no occurrence of `sep` when it is appended to `s`. */
  ghost predicate AddsNone(s: string, u: string, sep: string) {
    forall i: nat | i + |sep| > |s| :: !OccursAt(s + u, sep, i)
  }

  /** Appending such a text lengthens the last part and changes nothing else. */
  lemma {:induction false} SplitAppended(s: string, u: string, sep: string)
    requires sep != "" && AddsNone(s, u, sep)
    ensures var parts := Split(s, sep);
            Split(s + u, sep) == parts[..|parts| - 1] + [parts[|parts| - 1] + u]
    decreases |s|
  {
    hide IndexFrom, AddsNone;
    var r := IndexFrom(s, sep, 0);
    IndexAppended(s, u, sep);
    if r.Some? {
      var head, rest := s[..r.value + |sep|], s[r.value + |sep|..];
      assert s + u == head + (rest + u) && s == head + rest;
      StillAddsNone(head, rest, u, sep);
      SplitAppended(rest, u, sep);
      assert (s + u)[..r.value] == s[..r.value] && (s + u)[r.value + |sep|..] == rest + u;
      LastLonger(s[..r.value], Split(rest, sep), u);
    }
  }

  lemma LastLonger(first: string, parts: seq<string>, u: string)
    requires parts != []
    ensures var all := [first] + parts;
            all[..|all| - 1] + [all[|all| - 1] + u] == [first] + (parts[..|parts| - 1] + [parts[|parts| - 1] + u])
  {}

  lemma StillAddsNone(head: string, rest: string, u: string, sep: string)
    requires AddsNone(head + rest, u, sep)
    ensures AddsNone(rest, u, sep)
  {
    assert head + rest + u == head + (rest + u);
    forall i: nat | i + |sep| > |rest| ensures !OccursAt(rest + u, sep, i) {
      OccursBehind(head, rest + u, sep, i);
      assert !OccursAt(head + rest + u, sep, |head| + i);
    }
  }

  lemma IndexAppended(s: string, u: string, sep: string)
    requires sep != "" && AddsNone(s, u, sep)
    ensures IndexFrom(s + u, sep, 0) == IndexFrom(s, sep, 0)
  {
    forall i: nat ensures OccursAt(s + u, sep, i) <==> OccursAt(s, sep, i) {
      if i + |sep| <= |s| {
        OccursBefore(s, u, sep, i);
      }
    }
    var r := IndexFrom(s, sep, 0);
    if r.Some? {
      FirstAt(s + u, sep, r.value);
    } else {
      NoneAt(s + u, sep);
    }
  }

  /** A text without slashes adds no occurrence of a separator that ends in one. */
  lemma NoSlashAddsNone(s: string, u: string, sep: string)
    requires sep != "" && sep[|sep| - 1] == '/' && NoSlash(u)
    ensures AddsNone(s, u, sep)
  {
    forall i: nat | i + |sep| > |s| ensures !OccursAt(s + u, sep, i) {
      if i + |sep| <= |s + u| {
        assert (s + u)[i..i + |sep|][|sep| - 1] == (s + u)[i + |sep| - 1] == u[i + |sep| - 1 - |s|];
      }
    }
  }

  // Routes

  const ROOT := "/v2/"
  const MANIFESTS := "/manifests/"
  const BLOBS := "/blobs/"
  const UPLOADS := "/blobs/uploads/"

  datatype Route =
    | ApiVersion
    | Manifest(name: string, reference: string)
    | BlobOf(name: string, digest: string)
    | StartUpload(name: string)
    | Upload(name: string, uuid: string)
    | NoRoute

  function TrimPrefix(s: string, prefix: string): string {
    if prefix <= s then s[|prefix|..] else s
  }

  predicate IsPair(parts: seq<string>) {
    |parts| == 2 && parts[0] != "" && parts[1] != ""
  }

  predicate IsManifestPath(rest: string) {
    Contains(rest, MANIFESTS) && IsPair(Split(rest, MANIFESTS))
  }

  predicate IsBlobPath(rest: string) {
    Contains(rest, BLOBS) && !Contains(rest, "/blobs/uploads") && IsPair(Split(rest, BLOBS))
  }

  predicate IsUploadPath(rest: string) {
    Contains(rest, UPLOADS) && |Split(rest, UPLOADS)| == 2 && Split(rest, UPLOADS)[0] != ""
  }

  /** The branch of dispatchRequest that a path takes. */
  function RouteOf(path: string): Route {
    if path == ROOT || path == "/v2" then ApiVersion
    else
      var rest := TrimPrefix(path, ROOT);
      if IsManifestPath(rest) then var parts := Split(rest, MANIFESTS); Manifest(parts[0], parts[1])
      else if IsBlobPath(rest) then var parts := Split(rest, BLOBS); BlobOf(parts[0], parts[1])
      else if IsUploadPath(rest) then
        var parts := Split(rest, UPLOADS);
        if parts[1] == "" then StartUpload(parts[0]) else Upload(parts[0], parts[1])
      else NoRoute
  }

  /** The methods that a branch accepts. */
  function MethodsOf(route: Route): set<string> {
    match route
    case ApiVersion => {"GET"}
    case Manifest(_, _) => {"GET", "HEAD", "PUT"}
    case BlobOf(_, _) => {"GET", "HEAD"}
    case StartUpload(_) => {"POST"}
    case Upload(_, _) => {"PATCH", "PUT"}
    case NoRoute => {}
  }

  datatype Answer = Handle(route: Route) | MethodNotAllowed | NotFound

  function Dispatch(verb: string, path: string): Answer {
    var route := RouteOf(path);
    if route.NoRoute? then NotFound
    else if verb in MethodsOf(route) then Handle(route)
    else MethodNotAllowed
  }

  // The handlers' own parsers

  function ParsePair(path: string, sep: string): Option<(string, string)>
    requires sep != ""
  {
    if !(ROOT <= path) then None
    else
      var parts := Split(path[4..], sep);
      if IsPair(parts) then Some((parts[0], parts[1])) else None
  }

  function ParseManifestPath(path: string): Option<(string, string)> {
    ParsePair(path, MANIFESTS)
  }

  function ParseBlobPath(path: string): Option<(string, string)> {
    ParsePair(path, BLOBS)
  }

  function ParseBlobUploadBasePath(path: string): Option<string> {
    if !(ROOT <= path) then None
    else
      var parts := Split(path[4..], UPLOADS);
      if |parts| == 2 && parts[0] != "" then Some(parts[0]) else None
  }

  /** The upload id ends where a query string begins. */
  function BeforeQuery(uuid: string): string {
    match IndexFrom(uuid, "?", 0)
    case None => uuid
    case Some(i) => uuid[..i]
  }

  function ParseBlobUploadPath(path: string): Option<(string, string)> {
    if !(ROOT <= path) then None
    else
      var parts := Split(path[4..], UPLOADS);
      if |parts| == 2 && parts[0] != "" && BeforeQuery(parts[1]) != "" then Some((parts[0], BeforeQuery(parts[1])))
      else None
  }

  predicate NoQuery(s: string) {
    forall i | 0 <= i < |s| :: s[i] != '?'
  }

  lemma BeforeQueryIsAll(uuid: string)
    ensures BeforeQuery(uuid) == uuid <==> NoQuery(uuid)
  {
    var r := IndexFrom(uuid, "?", 0);
    if r.None? {
      forall i | 0 <= i < |uuid| ensures uuid[i] != '?' {
        assert !OccursAt(uuid, "?", i);
        assert uuid[i..i + 1] == [uuid[i]];
      }
    } else {
      assert uuid[r.value..r.value + 1][0] == '?';
    }
  }

  /** The text that a route stands for. */
  function PathOf(route: Route): string {
    match route
    case ApiVersion => ROOT
    case Manifest(name, reference) => ROOT + name + MANIFESTS + reference
    case BlobOf(name, digest) => ROOT + name + BLOBS + digest
    case StartUpload(name) => ROOT + name + UPLOADS
    case Upload(name, uuid) => ROOT + name + UPLOADS + uuid
    case NoRoute => ""
  }

  /** Dispatch loses nothing: a routed path is the text of its route, and the route's parts are not empty. */
  lemma RoutesPrintBack(path: string)
    requires ROOT <= path && !RouteOf(path).NoRoute?
    ensures PathOf(RouteOf(path)) == path
    ensures !RouteOf(path).ApiVersion? ==> RouteOf(path).name != ""
  {
    var rest := path[4..];
    assert path == ROOT + rest;
    if IsManifestPath(rest) {
      TwoPrintBack(rest, MANIFESTS);
    } else if IsBlobPath(rest) {
      TwoPrintBack(rest, BLOBS);
    } else if IsUploadPath(rest) {
      TwoPrintBack(rest, UPLOADS);
    }
  }

  lemma TwoPrintBack(rest: string, sep: string)
    requires sep != "" && |Split(rest, sep)| == 2
    ensures var parts := Split(rest, sep);
            && rest == parts[0] + sep + parts[1]
            && forall root: string :: root + rest == root + parts[0] + sep + parts[1]
  {
    var parts := Split(rest, sep);
    assert parts == [parts[0], parts[1]];
    SplitInTwo(rest, sep, parts[0], parts[1]);
    assert forall root: string :: root + rest == root + parts[0] + sep + parts[1];
  }

  /**
   * Whichever branch dispatch takes, the handler's own parser reads the same parts, exactly when the path
   * starts with /v2/ and, for upload sessions, the upload id holds no '?'.
   */
  lemma ParsersAgreeWithDispatch(path: string)
    ensures RouteOf(path).Manifest? ==>
              (ParseManifestPath(path) == Some((RouteOf(path).name, RouteOf(path).reference)) <==> ROOT <= path)
    ensures RouteOf(path).BlobOf? ==>
              (ParseBlobPath(path) == Some((RouteOf(path).name, RouteOf(path).digest)) <==> ROOT <= path)
    ensures RouteOf(path).StartUpload? ==> (ParseBlobUploadBasePath(path) == Some(RouteOf(path).name) <==> ROOT <= path)
    ensures RouteOf(path).Upload? ==>
              (ParseBlobUploadPath(path) == Some((RouteOf(path).name, RouteOf(path).uuid))
               <==> ROOT <= path && NoQuery(RouteOf(path).uuid))
  {
    if RouteOf(path).Upload? {
      BeforeQueryIsAll(RouteOf(path).uuid);
    }
  }

  // Locations

  function UploadLocation(name: string, uuid: string): string {
    ROOT + name + UPLOADS + uuid
  }

  function BlobLocation(name: string, digest: string): string {
    ROOT + name + BLOBS + digest
  }

  /** A UUID: not empty, and neither a slash nor a question mark in it. */
  predicate IsUploadId(uuid: string) {
    uuid != "" && NoSlash(uuid) && NoQuery(uuid)
  }

  /**
   * The location that a started upload is told leads back to its session: it takes the session branch,
   * with the same name and the new id, and the session handlers read the same from it.
   */
  lemma UploadLocationsLeadBack(path: string, uuid: string)
    requires ROOT <= path && RouteOf(path).StartUpload? && IsUploadId(uuid)
    ensures var name := RouteOf(path).name;
            && RouteOf(UploadLocation(name, uuid)) == Upload(name, uuid)
            && ParseBlobUploadPath(UploadLocation(name, uuid)) == Some((name, uuid))
  {
    hide RouteOf, ParseBlobUploadPath, IsManifestPath, IsBlobPath, Split, Contains;
    var name, rest := RouteOf(path).name, path[4..];
    StartRoute(path);
    SessionRoute(rest, name, uuid);
    SessionIsRouted(rest + uuid, name, uuid);
    assert UploadLocation(name, uuid) == ROOT + (rest + uuid);
  }

  lemma StartRoute(path: string)
    requires ROOT <= path && RouteOf(path).StartUpload?
    ensures var name, rest := RouteOf(path).name, path[4..];
            !IsManifestPath(rest) && Split(rest, UPLOADS) == [name, ""] && rest == name + UPLOADS && name != ""
  {
    var parts := Split(path[4..], UPLOADS);
    assert parts == [parts[0], parts[1]];
    TwoPrintBack(path[4..], UPLOADS);
  }

  lemma SessionIsRouted(rest: string, name: string, uuid: string)
    requires !IsManifestPath(rest) && !IsBlobPath(rest) && Contains(rest, UPLOADS) && Split(rest, UPLOADS) == [name, uuid]
    requires name != "" && IsUploadId(uuid)
    ensures RouteOf(ROOT + rest) == Upload(name, uuid) && ParseBlobUploadPath(ROOT + rest) == Some((name, uuid))
  {
    hide IsManifestPath, IsBlobPath, Split, Contains, BeforeQuery;
    BeforeQueryIsAll(uuid);
    assert (ROOT + rest)[4..] == rest;
    assert rest != "" by {
      EmptyHasNone(UPLOADS);
    }
  }

  lemma EmptyHasNone(sep: string)
    requires sep != ""
    ensures !Contains("", sep)
  {}

  lemma SessionRoute(rest: string, name: string, uuid: string)
    requires !IsManifestPath(rest) && Split(rest, UPLOADS) == [name, ""] && rest == name + UPLOADS && IsUploadId(uuid)
    ensures !IsManifestPath(rest + uuid) && !IsBlobPath(rest + uuid)
    ensures Contains(rest + uuid, UPLOADS) && Split(rest + uuid, UPLOADS) == [name, uuid]
  {
    NoSlashAddsNone(rest, uuid, UPLOADS);
    NoSlashAddsNone(rest, uuid, MANIFESTS);
    SplitAppended(rest, uuid, UPLOADS);
    UploadsAreNoBlobs(rest + uuid, name, uuid);
    EndsInUploads(rest, name);
    StaysOffManifests(rest, uuid);
  }

  lemma EndsInUploads(rest: string, name: string)
    requires rest == name + UPLOADS
    ensures |rest| >= |MANIFESTS| && !OccursAt(rest, MANIFESTS, |rest| - |MANIFESTS|)
  {
    var i := |rest| - |MANIFESTS|;
    assert rest[i..i + |MANIFESTS|][8] == rest[i + 8] == 'd';
  }

  /** A path that is no manifest's stays none when a text that adds no separator follows a non-empty last part. */
  lemma StaysOffManifests(rest: string, u: string)
    requires !IsManifestPath(rest) && AddsNone(rest, u, MANIFESTS)
    requires rest != "" && !(|rest| >= |MANIFESTS| && OccursAt(rest, MANIFESTS, |rest| - |MANIFESTS|))
    ensures !IsManifestPath(rest + u)
  {
    SplitAppended(rest, u, MANIFESTS);
    var parts := Split(rest, MANIFESTS);
    if |parts| == 2 {
      SplitInTwo(rest, MANIFESTS, parts[0], parts[1]);
      assert parts == [parts[0], parts[1]];
      assert OccursAt(rest, MANIFESTS, |parts[0]|);
      assert |rest| - |MANIFESTS| == |parts[0]| + |parts[1]|;
    }
  }

  lemma UploadsAreNoBlobs(rest: string, name: string, uuid: string)
    requires rest == name + UPLOADS + uuid
    ensures !IsBlobPath(rest) && Contains(rest, UPLOADS)
  {
    assert rest[|name|..|name| + |UPLOADS|] == UPLOADS;
    assert OccursAt(rest, UPLOADS, |name|);
    assert UPLOADS[..14] == "/blobs/uploads";
    assert rest[|name|..|name| + 14] == UPLOADS[..14];
    assert OccursAt(rest, "/blobs/uploads", |name|);
  }

  // The location of a finished blob

  lemma ManifestPathAppended(s: string, u: string)
    requires u != "" && AddsNone(s, u, MANIFESTS)
    ensures IsManifestPath(s + u) <==> |Split(s, MANIFESTS)| == 2 && Split(s, MANIFESTS)[0] != ""
  {
    SplitAppended(s, u, MANIFESTS);
    IndexAppended(s, u, MANIFESTS);
  }

  /** "blobs/" and then no slash, or "uploads/" and then none, holds no end of "/manifests/". */
  lemma BlobsAddNoManifests(s: string, tail: string)
    requires NoSlash(tail)
    ensures AddsNone(s, "blobs/" + tail, MANIFESTS) && AddsNone(s, "blobs/uploads/" + tail, MANIFESTS)
  {
    forall i: nat | i + |MANIFESTS| > |s| ensures !OccursAt(s + ("blobs/" + tail), MANIFESTS, i) {
      EndsBadly(s, "blobs/" + tail, i);
    }
    forall i: nat | i + |MANIFESTS| > |s| ensures !OccursAt(s + ("blobs/uploads/" + tail), MANIFESTS, i) {
      EndsBadly(s, "blobs/uploads/" + tail, i);
    }
  }

  lemma EndsBadly(s: string, u: string, i: nat)
    requires i + |MANIFESTS| > |s|
    requires forall k | 0 <= k < |u| && u[k] == '/' :: k >= 2 && u[k - 2] != 't'
    ensures !OccursAt(s + u, MANIFESTS, i)
  {
    var w := s + u;
    if i + 11 <= |w| {
      var found := w[i..i + 11];
      assert found[10] == w[i + 10] == u[i + 10 - |s|];
      assert i + 10 - |s| >= 2 ==> found[8] == w[i + 8] == u[i + 10 - |s| - 2];
      assert MANIFESTS[10] == '/' && MANIFESTS[8] == 't';
    }
  }

  lemma CutAtName(name: string, digest: string)
    requires NoSlash(digest) && !Contains(name + "/blobs", BLOBS)
    ensures var rest := name + BLOBS + digest;
            && (forall j: nat | OccursAt(rest, BLOBS, j) :: j == |name|)
            && Split(rest, BLOBS) == [name, digest]
  {
    var rest := name + BLOBS + digest;
    assert rest == name + "/blobs" + ("/" + digest);
    forall j: nat | j != |name| ensures !OccursAt(rest, BLOBS, j) {
      assert !OccursAt(name + "/blobs", BLOBS, j);
      if j < |name| {
        OccursBefore(name + "/blobs", "/" + digest, BLOBS, j);
      } else if j + 7 <= |rest| {
        assert rest[j..j + 7][6] == rest[j + 6] == digest[j - 1 - |name|] != BLOBS[6];
      }
    }
    assert rest[|name|..|name| + 7] == BLOBS;
    FirstAt(rest, BLOBS, |name|);
    NoSlashAddsNone("", digest, BLOBS);
    assert "" + digest == digest;
    NoneAt(digest, BLOBS);
    SplitInTwo(rest, BLOBS, name, digest);
  }

  lemma IsNoUpload(name: string, digest: string)
    requires NoSlash(digest) && !Contains(name + "/blobs", BLOBS) && "sha256:" <= digest
    ensures !Contains(name + BLOBS + digest, "/blobs/uploads") && Contains(name + BLOBS + digest, BLOBS)
  {
    CutAtName(name, digest);
    var rest := name + BLOBS + digest;
    assert OccursAt(rest, BLOBS, |name|) by { assert rest[|name|..|name| + 7] == BLOBS; }
    assert rest[|name| + 7] == digest[0] == 's';
    forall j: nat ensures !OccursAt(rest, "/blobs/uploads", j) {
      if OccursAt(rest, "/blobs/uploads", j) {
        UploadsHoldBlobs(rest, j);
      }
    }
    NoneAt(rest, "/blobs/uploads");
  }

  lemma UploadsHoldBlobs(rest: string, j: nat)
    requires OccursAt(rest, "/blobs/uploads", j)
    ensures OccursAt(rest, BLOBS, j) && rest[j + 7] == 'u'
  {
    assert rest[j..j + 7] == rest[j..j + 14][..7] == BLOBS;
    assert rest[j..j + 14][7] == rest[j + 7];
  }

  lemma TooManyBlobs(name: string, digest: string)
    requires Contains(name + "/blobs", BLOBS)
    ensures Split(name + BLOBS + digest, BLOBS) != [name, digest]
  {
    var rest := name + BLOBS + digest;
    var j := IndexFrom(name + "/blobs", BLOBS, 0).value;
    assert rest == name + "/blobs" + ("/" + digest);
    OccursBefore(name + "/blobs", "/" + digest, BLOBS, j);
    SplitInTwo(rest, BLOBS, name, digest);
  }

  /** What the routes of an upload tell about its name. */
  lemma UploadNames(path: string)
    requires ROOT <= path
    requires RouteOf(path).StartUpload? || (RouteOf(path).Upload? && IsUploadId(RouteOf(path).uuid))
    ensures var name := RouteOf(path).name;
            name != "" && !(|Split(name + "/", MANIFESTS)| == 2 && Split(name + "/", MANIFESTS)[0] != "")
  {
    hide RouteOf, IsManifestPath, Split;
    UploadParts(path);
    var parts := Split(path[4..], UPLOADS);
    IsNoManifestName(parts[0], parts[1]);
  }

  lemma IsNoManifestName(name: string, uuid: string)
    requires NoSlash(uuid) && !IsManifestPath(name + UPLOADS + uuid)
    ensures !(|Split(name + "/", MANIFESTS)| == 2 && Split(name + "/", MANIFESTS)[0] != "")
  {
    hide IsManifestPath, Split;
    BlobsAddNoManifests(name + "/", uuid);
    assert name + UPLOADS + uuid == name + "/" + ("blobs/uploads/" + uuid);
    ManifestPathAppended(name + "/", "blobs/uploads/" + uuid);
  }

  lemma UploadParts(path: string)
    requires ROOT <= path
    requires RouteOf(path).StartUpload? || (RouteOf(path).Upload? && IsUploadId(RouteOf(path).uuid))
    ensures var rest := path[4..];
            var parts := Split(rest, UPLOADS);
            && !IsManifestPath(rest) && |parts| == 2 && parts[0] == RouteOf(path).name != "" && NoSlash(parts[1])
            && rest == parts[0] + UPLOADS + parts[1]
  {
    TwoPrintBack(path[4..], UPLOADS);
  }

  /**
   * The location that a finished upload is told leads to the blob exactly when its repository name, with
   * "/blobs" after it, does not itself hold "/blobs/".
   */
  lemma BlobLocationsLeadToBlobs(path: string, digest: string)
    requires ROOT <= path
    requires RouteOf(path).StartUpload? || (RouteOf(path).Upload? && IsUploadId(RouteOf(path).uuid))
    requires "sha256:" <= digest && NoSlash(digest)
    ensures var name := RouteOf(path).name;
            && (RouteOf(BlobLocation(name, digest)) == BlobOf(name, digest) <==> !Contains(name + "/blobs", BLOBS))
            && (!Contains(name + "/blobs", BLOBS) ==> ParseBlobPath(BlobLocation(name, digest)) == Some((name, digest)))
  {
    hide RouteOf, IsManifestPath, IsBlobPath, Split, Contains, ParseBlobPath;
    var name := RouteOf(path).name;
    UploadNames(path);
    BlobsAddNoManifests(name + "/", digest);
    ManifestPathAppended(name + "/", "blobs/" + digest);
    assert name + "/" + ("blobs/" + digest) == name + BLOBS + digest;
    if Contains(name + "/blobs", BLOBS) {
      TooManyBlobs(name, digest);
    } else {
      CutAtName(name, digest);
      IsNoUpload(name, digest);
    }
    BlobIsRouted(name, digest);
  }

  lemma BlobIsRouted(name: string, digest: string)
    requires name != "" && digest != "" && !IsManifestPath(name + BLOBS + digest)
    ensures var rest, path := name + BLOBS + digest, BlobLocation(name, digest);
            && (Split(rest, BLOBS) != [name, digest] ==> RouteOf(path) != BlobOf(name, digest))
            && (Split(rest, BLOBS) == [name, digest] && Contains(rest, BLOBS) && !Contains(rest, "/blobs/uploads") ==>
                  RouteOf(path) == BlobOf(name, digest) && ParseBlobPath(path) == Some((name, digest)))
  {
    hide IsManifestPath, Split, Contains;
    var rest, path := name + BLOBS + digest, BlobLocation(name, digest);
    assert path == ROOT + rest && path[4..] == rest;
    if RouteOf(path).BlobOf? {
      var parts := Split(rest, BLOBS);
      assert parts == [parts[0], parts[1]];
    }
  }

  /**
   * A concrete case: an upload started under "/v2/a/blobs/blobs/uploads/" is one of "a/blobs", but the
   * location of the finished blob leads to repository "a".
   */
  lemma NestedBlobsGoAstray(digest: string)
    requires "sha256:" <= digest && NoSlash(digest)
    ensures RouteOf("/v2/a/blobs/blobs/uploads/") == StartUpload("a/blobs")
    ensures RouteOf(BlobLocation("a/blobs", digest)) == BlobOf("a", "blobs/" + digest)
  {
    StartOfNested();
    BlobOfNested(digest);
  }

  lemma CharOf(s: string, sep: string, j: nat, k: nat)
    requires OccursAt(s, sep, j) && k < |sep|
    ensures j + k < |s| && s[j + k] == sep[k]
  {
    assert s[j..j + |sep|][k] == s[j + k];
  }

  /** A text whose separator would need a character that it does not have. */
  lemma NoSuchChar(s: string, sep: string, k: nat)
    requires k < |sep| && forall i | 0 <= i < |s| :: s[i] != sep[k]
    ensures IndexFrom(s, sep, 0) == None
  {
    forall j: nat ensures !OccursAt(s, sep, j) {
      if OccursAt(s, sep, j) {
        CharOf(s, sep, j, k);
      }
    }
    NoneAt(s, sep);
  }

  lemma StartOfNested()
    ensures RouteOf("/v2/a/blobs/blobs/uploads/") == StartUpload("a/blobs")
  {
    hide OccursAt, IndexFrom, Split;
    var rest, path := "a/blobs/blobs/uploads/", "/v2/a/blobs/blobs/uploads/";
    NestedUploads();
    UploadsAreNoBlobs(rest, "a/blobs", "");
    NoSuchChar(rest, MANIFESTS, 1);
    assert path[4..] == rest && path[..4] == ROOT;
  }

  lemma NestedUploads()
    ensures var rest := "a/blobs/blobs/uploads/";
            rest == "a/blobs" + UPLOADS + "" && Split(rest, UPLOADS) == ["a/blobs", ""] && Contains(rest, UPLOADS)
  {
    var rest := "a/blobs/blobs/uploads/";
    assert rest == "a/blobs" + UPLOADS + "";
    assert OccursAt(rest, UPLOADS, 7) by { assert rest[7..22] == UPLOADS; }
    forall j: nat | j < 7 ensures !OccursAt(rest, UPLOADS, j) {
      if OccursAt(rest, UPLOADS, j) {
        CharOf(rest, UPLOADS, j, 7);
      }
    }
    FirstAt(rest, UPLOADS, 7);
    NoneAt("", UPLOADS);
    SplitInTwo(rest, UPLOADS, "a/blobs", "");
  }

  lemma BlobOfNested(digest: string)
    requires "sha256:" <= digest && NoSlash(digest)
    ensures RouteOf(BlobLocation("a/blobs", digest)) == BlobOf("a", "blobs/" + digest)
  {
    hide OccursAt, IndexFrom, Split, IsManifestPath;
    var rest := "a/blobs/blobs/" + digest;
    NestedSplit(digest);
    NestedIsNoUpload(digest);
    NestedIsNoManifest(digest);
    var path := BlobLocation("a/blobs", digest);
    assert path == ROOT + rest && path[4..] == rest;
  }

  lemma NestedSplit(digest: string)
    requires NoSlash(digest)
    ensures var rest := "a/blobs/blobs/" + digest;
            Contains(rest, BLOBS) && Split(rest, BLOBS) == ["a", "blobs/" + digest]
  {
    var rest, tail := "a/blobs/blobs/" + digest, "blobs/" + digest;
    assert rest == "a" + BLOBS + tail;
    assert OccursAt(rest, BLOBS, 1) by { assert rest[1..8] == BLOBS; }
    if OccursAt(rest, BLOBS, 0) {
      CharOf(rest, BLOBS, 0, 0);
    }
    FirstAt(rest, BLOBS, 1);
    forall j: nat ensures !OccursAt(tail, BLOBS, j) {
      if OccursAt(tail, BLOBS, j) {
        CharOf(tail, BLOBS, j, 0);
        CharOf(tail, BLOBS, j, 6);
      }
    }
    NoneAt(tail, BLOBS);
    SplitInTwo(rest, BLOBS, "a", tail);
  }

  lemma NestedIsNoUpload(digest: string)
    requires NoSlash(digest) && "sha256:" <= digest
    ensures !Contains("a/blobs/blobs/" + digest, "/blobs/uploads")
  {
    var rest, sep := "a/blobs/blobs/" + digest, "/blobs/uploads";
    forall j: nat ensures !OccursAt(rest, sep, j) {
      if OccursAt(rest, sep, j) {
        CharOf(rest, sep, j, 0);
        CharOf(rest, sep, j, 6);
        CharOf(rest, sep, j, 7);
      }
    }
    NoneAt(rest, sep);
  }

  lemma NestedIsNoManifest(digest: string)
    requires NoSlash(digest)
    ensures !IsManifestPath("a/blobs/blobs/" + digest)
  {
    var s, u := "a/blobs/", "blobs/" + digest;
    BlobsAddNoManifests(s, digest);
    assert "a/blobs/blobs/" + digest == s + u;
    NoSuchChar(s, MANIFESTS, 1);
    ManifestPathAppended(s, u);
  }
}
