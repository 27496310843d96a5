/** Which texts take which branch of the dispatch, in terms of the texts alone. */
module RouteLaws {
  import opened Store
  import opened Handlers

  // Occurrences, as ways to read a text as before + separator + behind

  predicate IsAround(s: string, before: string, sep: string, behind: string) {
    s == before + sep + behind
  }

  ghost predicate Lacks(s: string, sep: string) {
    forall x, y :: !IsAround(s, x, sep, y)
  }

  /** `s` is a, the separator and b; the separator is nowhere before, and b holds none. */
  ghost predicate IsCut(s: string, sep: string, a: string, b: string) {
    && IsAround(s, a, sep, b)
    && (forall x, y | IsAround(s, x, sep, y) :: |a| <= |x|)
    && Lacks(b, sep)
  }

  /** The separator is in `s` once, behind `a`. */
  ghost predicate HoldsOnce(s: string, sep: string, a: string, b: string) {
    IsAround(s, a, sep, b) && forall x, y | IsAround(s, x, sep, y) :: x == a
  }

  lemma OccurrenceIsAround(s: string, sep: string, i: nat)
    ensures OccursAt(s, sep, i) <==> i + |sep| <= |s| && IsAround(s, s[..i], sep, s[i + |sep|..])
  {
    if i + |sep| <= |s| {
      assert s == s[..i] + s[i..i + |sep|] + s[i + |sep|..];
    }
  }

  lemma AroundOccurs(s: string, x: string, sep: string, y: string)
    requires IsAround(s, x, sep, y)
    ensures OccursAt(s, sep, |x|) && x == s[..|x|]
  {}

  lemma LacksIsNotContains(s: string, sep: string)
    ensures Lacks(s, sep) <==> !Contains(s, sep)
  {
    var r := IndexFrom(s, sep, 0);
    if r.Some? {
      OccurrenceIsAround(s, sep, r.value);
    } else {
      forall x, y ensures !IsAround(s, x, sep, y) {
        if IsAround(s, x, sep, y) {
          AroundOccurs(s, x, sep, y);
        }
      }
    }
  }

  lemma CutIsSplit(s: string, sep: string, a: string, b: string)
    requires sep != ""
    ensures IsCut(s, sep, a, b) <==> Split(s, sep) == [a, b]
    ensures IsCut(s, sep, a, b) ==> Contains(s, sep)
  {
    SplitInTwo(s, sep, a, b);
    LacksIsNotContains(b, sep);
    if IsCut(s, sep, a, b) {
      AroundOccurs(s, a, sep, b);
      forall j: nat | j < |a| ensures !OccursAt(s, sep, j) {
        OccurrenceIsAround(s, sep, j);
      }
      FirstAt(s, sep, |a|);
    }
    if Split(s, sep) == [a, b] {
      forall x, y | IsAround(s, x, sep, y) ensures |a| <= |x| {
        AroundOccurs(s, x, sep, y);
      }
    }
  }

  lemma OnceIsACut(s: string, sep: string, a: string, b: string)
    requires sep != "" && HoldsOnce(s, sep, a, b)
    ensures IsCut(s, sep, a, b)
  {
    forall x, y ensures !IsAround(b, x, sep, y) {
      if IsAround(b, x, sep, y) {
        assert s == (a + sep + x) + sep + y;
        assert IsAround(s, a + sep + x, sep, y);
      }
    }
  }

  // The branches

  ghost predicate NamesManifest(rest: string, name: string, reference: string) {
    IsCut(rest, "/manifests/", name, reference) && name != "" && reference != ""
  }

  ghost predicate NamesBlob(rest: string, name: string, digest: string) {
    IsCut(rest, "/blobs/", name, digest) && name != "" && digest != "" && Lacks(rest, "/blobs/uploads")
  }

  ghost predicate NamesSession(rest: string, name: string, uuid: string) {
    IsCut(rest, "/blobs/uploads/", name, uuid) && name != ""
  }

  ghost predicate IsManifestText(rest: string) {
    exists name, reference :: NamesManifest(rest, name, reference)
  }

  lemma ManifestText(rest: string)
    ensures IsManifestText(rest) <==> IsManifestPath(rest)
    ensures forall a, b :: NamesManifest(rest, a, b) <==> IsManifestPath(rest) && Split(rest, MANIFESTS) == [a, b]
  {
    forall a, b ensures NamesManifest(rest, a, b) <==> IsManifestPath(rest) && Split(rest, MANIFESTS) == [a, b] {
      CutIsSplit(rest, MANIFESTS, a, b);
    }
    if IsManifestPath(rest) {
      var parts := Split(rest, MANIFESTS);
      assert parts == [parts[0], parts[1]];
      assert NamesManifest(rest, parts[0], parts[1]);
    }
  }

  lemma BlobText(rest: string)
    ensures forall a, b :: NamesBlob(rest, a, b) <==> IsBlobPath(rest) && Split(rest, BLOBS) == [a, b]
    ensures IsBlobPath(rest) <==> exists a, b :: NamesBlob(rest, a, b)
  {
    LacksIsNotContains(rest, "/blobs/uploads");
    forall a, b ensures NamesBlob(rest, a, b) <==> IsBlobPath(rest) && Split(rest, BLOBS) == [a, b] {
      CutIsSplit(rest, BLOBS, a, b);
    }
    if IsBlobPath(rest) {
      var parts := Split(rest, BLOBS);
      assert parts == [parts[0], parts[1]];
      assert NamesBlob(rest, parts[0], parts[1]);
    }
  }

  lemma SessionText(rest: string)
    ensures forall a, b :: NamesSession(rest, a, b) <==> IsUploadPath(rest) && Split(rest, UPLOADS) == [a, b]
    ensures IsUploadPath(rest) <==> exists a, b :: NamesSession(rest, a, b)
    ensures IsUploadPath(rest) ==> !IsBlobPath(rest)
  {
    forall a, b ensures NamesSession(rest, a, b) <==> IsUploadPath(rest) && Split(rest, UPLOADS) == [a, b] {
      CutIsSplit(rest, UPLOADS, a, b);
    }
    if IsUploadPath(rest) {
      var parts := Split(rest, UPLOADS);
      assert parts == [parts[0], parts[1]];
      assert NamesSession(rest, parts[0], parts[1]);
      UploadsAreNoBlobs(rest, parts[0], parts[1]);
    }
  }

  lemma RoutedByText(rest: string, path: string)
    requires path !in {"/v2", "/v2/"} && rest == TrimPrefix(path, ROOT)
    ensures var r := RouteOf(path);
            && !r.ApiVersion?
            && (r.Manifest? <==> IsManifestPath(rest)) && (r.Manifest? ==> Split(rest, MANIFESTS) == [r.name, r.reference])
            && (r.BlobOf? <==> !IsManifestPath(rest) && IsBlobPath(rest)) && (r.BlobOf? ==> Split(rest, BLOBS) == [r.name, r.digest])
            && (r.StartUpload? || r.Upload? <==> !IsManifestPath(rest) && !IsBlobPath(rest) && IsUploadPath(rest))
            && (r.StartUpload? ==> Split(rest, UPLOADS) == [r.name, ""])
            && (r.Upload? ==> Split(rest, UPLOADS) == [r.name, r.uuid] && r.uuid != "")
  {
    hide Contains;
  }

  /**
   * Main result on routes: the text of a path decides its branch. With one cut at "/manifests/" into two parts
   * that are not empty it is a manifest's. Else, with such a cut at "/blobs/" and no "/blobs/uploads" in it,
   * a blob's. Else, with one at "/blobs/uploads/" behind a name, an upload's: its start when nothing follows,
   * else its session. Anything else has no route.
   */
  lemma TextDecidesTheRoute(rest: string, path: string)
    requires path == "/v2/" + rest || (path == rest && !("/v2/" <= path) && path != "/v2")
    ensures rest == "" ==> RouteOf(path) == if path == "/v2/" then ApiVersion else NoRoute
    ensures rest != "" ==>
              && !RouteOf(path).ApiVersion?
              && (forall a, b :: RouteOf(path) == Manifest(a, b) <==> NamesManifest(rest, a, b))
              && (forall a, b :: RouteOf(path) == BlobOf(a, b) <==> NamesBlob(rest, a, b) && !IsManifestText(rest))
              && (forall a :: RouteOf(path) == StartUpload(a) <==> NamesSession(rest, a, "") && !IsManifestText(rest))
              && (forall a, b :: RouteOf(path) == Upload(a, b) <==> NamesSession(rest, a, b) && b != "" && !IsManifestText(rest))
              && (RouteOf(path) == NoRoute <==>
                    forall a, b :: !NamesManifest(rest, a, b) && !NamesBlob(rest, a, b) && !NamesSession(rest, a, b))
  {
    hide RouteOf, IsManifestPath, IsBlobPath, IsUploadPath, Split, NamesManifest, NamesBlob, NamesSession;
    assert ("/v2/" + rest)[4..] == rest;
    if rest == "" {
      assert "/v2/" + rest == "/v2/";
      ShortPaths(path);
    } else {
      assert |"/v2/"| == 4 && |ROOT| == 4;
      assert path == "/v2/" + rest ==> |path| > 4;
      ManifestText(rest);
      BlobText(rest);
      SessionText(rest);
      RoutedByText(rest, path);
    }
  }

  lemma ShortPaths(path: string)
    requires path in {"", "/v2/"}
    ensures RouteOf(path) == if path == "/v2/" then ApiVersion else NoRoute
  {
    EmptyHasNone(MANIFESTS);
    EmptyHasNone(BLOBS);
    EmptyHasNone(UPLOADS);
  }

  /** Texts printed for a route are routed back to it when they hold its separator once and no earlier one. */
  lemma PrintedPathsAreRouted(name: string, tail: string)
    requires name != ""
    ensures var rest := name + "/manifests/" + tail;
            tail != "" && HoldsOnce(rest, "/manifests/", name, tail) ==>
              RouteOf("/v2/" + rest) == Manifest(name, tail)
    ensures var rest := name + "/blobs/" + tail;
            tail != "" && HoldsOnce(rest, "/blobs/", name, tail) && Lacks(rest, "/blobs/uploads") && Lacks(rest, "/manifests/") ==>
              RouteOf("/v2/" + rest) == BlobOf(name, tail)
    ensures var rest := name + "/blobs/uploads/" + tail;
            HoldsOnce(rest, "/blobs/uploads/", name, tail) && Lacks(rest, "/manifests/") ==>
              RouteOf("/v2/" + rest) == if tail == "" then StartUpload(name) else Upload(name, tail)
  {
    hide RouteOf, HoldsOnce;
    var m, b, u := name + "/manifests/" + tail, name + "/blobs/" + tail, name + "/blobs/uploads/" + tail;
    TextDecidesTheRoute(m, "/v2/" + m);
    TextDecidesTheRoute(b, "/v2/" + b);
    TextDecidesTheRoute(u, "/v2/" + u);
    if HoldsOnce(m, "/manifests/", name, tail) {
      OnceIsACut(m, "/manifests/", name, tail);
    }
    if HoldsOnce(b, "/blobs/", name, tail) {
      OnceIsACut(b, "/blobs/", name, tail);
    }
    if HoldsOnce(u, "/blobs/uploads/", name, tail) {
      OnceIsACut(u, "/blobs/uploads/", name, tail);
    }
  }

  // Methods

  /** The routes that each method is for. */
  predicate Serves(verb: string, route: Route) {
    if verb == "GET" then route.ApiVersion? || route.Manifest? || route.BlobOf?
    else if verb == "HEAD" then route.Manifest? || route.BlobOf?
    else if verb == "PUT" then route.Manifest? || route.Upload?
    else if verb == "POST" then route.StartUpload?
    else verb == "PATCH" && route.Upload?
  }

  /** A request is handled by the branch of its path, refused there, or not found. */
  lemma RequestsAreAnswered(verb: string, path: string)
    ensures forall route :: Dispatch(verb, path) == Handle(route) <==> RouteOf(path) == route && Serves(verb, route)
    ensures Dispatch(verb, path) == NotFound <==> RouteOf(path) == NoRoute
    ensures Dispatch(verb, path) == MethodNotAllowed <==> RouteOf(path) != NoRoute && !Serves(verb, RouteOf(path))
  {
    hide RouteOf;
  }

  // The handlers' parsers

  /** The id of a session, and the query behind it, if any. */
  predicate IsIdBeforeQuery(tail: string, id: string) {
    NoQuery(id) && (tail == id || id + "?" <= tail)
  }

  lemma QueriesAreCut(tail: string, id: string)
    ensures BeforeQuery(tail) == id <==> IsIdBeforeQuery(tail, id)
  {
    var r := IndexFrom(tail, "?", 0);
    forall i: nat ensures OccursAt(tail, "?", i) <==> i < |tail| && tail[i] == '?' {
      if i < |tail| {
        assert tail[i..i + 1] == [tail[i]];
      }
    }
    if r.Some? {
      assert tail[..r.value] + "?" == tail[..r.value + 1];
      assert forall j: nat | j < r.value :: !OccursAt(tail, "?", j);
    }
    if IsIdBeforeQuery(tail, id) && tail != id {
      assert tail[|id|] == '?' && id == tail[..|id|];
      assert OccursAt(tail, "?", |id|);
      assert forall j: nat | j < |id| :: tail[j] == id[j];
    }
  }

  /** What each handler reads from its path: the two parts of the one cut, and no more of an id than its query. */
  lemma ParsersReadTheCut(path: string, rest: string)
    requires path == "/v2/" + rest
    ensures forall a, b :: ParseManifestPath(path) == Some((a, b)) <==> NamesManifest(rest, a, b)
    ensures forall a, b :: ParseBlobPath(path) == Some((a, b)) <==>
              IsCut(rest, "/blobs/", a, b) && a != "" && b != ""
    ensures forall a :: ParseBlobUploadBasePath(path) == Some(a) <==> exists b :: NamesSession(rest, a, b)
    ensures forall a, id :: ParseBlobUploadPath(path) == Some((a, id)) <==>
              id != "" && exists b :: NamesSession(rest, a, b) && IsIdBeforeQuery(b, id)
  {
    hide Split, BeforeQuery, IsCut, IsIdBeforeQuery;
    assert path[4..] == rest;
    forall a, b
      ensures ParseManifestPath(path) == Some((a, b)) <==> NamesManifest(rest, a, b)
      ensures ParseBlobPath(path) == Some((a, b)) <==> IsCut(rest, "/blobs/", a, b) && a != "" && b != ""
    {
      PairIsCut(path, rest, MANIFESTS, a, b);
      PairIsCut(path, rest, BLOBS, a, b);
    }
    forall a ensures ParseBlobUploadBasePath(path) == Some(a) <==> exists b :: NamesSession(rest, a, b) {
      SessionIsCut(path, rest, a, "");
    }
    forall a, id
      ensures ParseBlobUploadPath(path) == Some((a, id)) <==>
                id != "" && exists b :: NamesSession(rest, a, b) && IsIdBeforeQuery(b, id)
    {
      SessionIsCut(path, rest, a, id);
    }
  }

  lemma PairIsCut(path: string, rest: string, sep: string, a: string, b: string)
    requires path == ROOT + rest && sep != ""
    ensures ParsePair(path, sep) == Some((a, b)) <==> IsCut(rest, sep, a, b) && a != "" && b != ""
  {
    hide Split, IsCut;
    assert path[4..] == rest;
    CutIsSplit(rest, sep, a, b);
    var parts := Split(rest, sep);
    assert |parts| == 2 ==> parts == [parts[0], parts[1]];
  }

  lemma SessionIsCut(path: string, rest: string, a: string, id: string)
    requires path == ROOT + rest
    ensures ParseBlobUploadBasePath(path) == Some(a) <==> exists b :: NamesSession(rest, a, b)
    ensures ParseBlobUploadPath(path) == Some((a, id)) <==>
              id != "" && exists b :: NamesSession(rest, a, b) && IsIdBeforeQuery(b, id)
  {
    hide Split, IsCut, BeforeQuery, IsIdBeforeQuery;
    assert path[4..] == rest;
    var parts := Split(rest, UPLOADS);
    forall b ensures NamesSession(rest, a, b) <==> parts == [a, b] && a != "" {
      CutIsSplit(rest, UPLOADS, a, b);
    }
    if |parts| == 2 {
      assert parts == [parts[0], parts[1]];
      QueriesAreCut(parts[1], id);
      assert NamesSession(rest, a, parts[1]) <==> parts[0] == a && a != "";
    }
  }
}
