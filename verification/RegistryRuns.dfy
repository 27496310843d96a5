/**
 * Any number of concurrent blob and manifest uploads on one registry, interleaved between their storage
 * operations. The bytes of a blob upload are whatever its stream delivers, so that a session file that is
 * still written to during completion is covered as well.
 */
module RegistryRuns {
  import opened Digests
  import opened Layout
  import opened Store
  import opened Publishing
  import opened Registry
  import opened ReferenceKeys

  datatype Request =
    | BlobUpload(name: string, digest: string, r: Reader, size: int, temp: string, now: int)
    | ManifestUpload(name: string, tag: string, data: Bytes, now: int)

  datatype Pc =
    | Begin
    | Rejecting
    | Moving
    | Rechecking
    | Discarding(known: bool)
    | Referencing
    | Tagging
    | Naming
    | Finished(result: Result<()>)

  datatype System = System(disk: Disk, pcs: map<nat, Pc>)

  function DataOf(req: Request): Bytes {
    match req
    case BlobUpload(_, _, r, _, _, _) => if r.Reader? then r.data else []
    case ManifestUpload(_, _, data, _) => data
  }

  function Outcome<T>(res: Result<T>): Result<()> {
    match res
    case Ok(_) => Ok(())
    case Err(e) => Err(e)
  }

  /** One storage operation of a request; `moveFails` lets Move report an error without moving anything. */
  function StepOn(sha: Sha256, d: Disk, alias: string, req: Request, pc: Pc, moveFails: bool): (Disk, Pc) {
    match req
    case BlobUpload(name, digest, r, size, temp, now) => BlobStep(sha, d, alias, req, pc, moveFails)
    case ManifestUpload(name, tag, data, now) => ManifestStep(sha, d, alias, req, pc)
  }

  function BlobStep(sha: Sha256, d: Disk, alias: string, req: Request, pc: Pc, moveFails: bool): (Disk, Pc)
    requires req.BlobUpload?
  {
    var BlobUpload(name, digest, r, size, temp, now) := req;
    var key := StorageKey(digest);
    match pc
    case Begin =>
      if !(PREFIX <= digest) then (d, Finished(Err(UnsupportedDigest)))
      else
        var e := Create(sha, d, Identifier(temp, None), r, size, None, now);
        (match CreatePlan(sha, d, Identifier(temp, None), r, size, None, now).result
         case Err(error) => (e, Finished(Err(error)))
         case Ok(_) => (e, if DigestOf(sha, DataOf(req)) != digest then Rejecting else Moving))
    case Rejecting => (Delete(sha, d, Identifier(temp, None)).0, Finished(Err(DigestMismatch)))
    case Moving =>
      if moveFails || Move(d, temp, key).1.Err? then (d, Rechecking) else (Move(d, temp, key).0, Referencing)
    case Rechecking => (d, Discarding(GetMeta(sha, d, Identifier(key, None)).Ok?))
    case Discarding(known) =>
      (Delete(sha, d, Identifier(temp, None)).0, if known then Referencing else Finished(Err(BlobAbsent)))
    case Referencing =>
      var (e, res) := AddReference(sha, d, key, RefFor(alias, name, now), 0, now);
      (e, Finished(Outcome(res)))
    case _ => (d, pc)
  }

  function ManifestStep(sha: Sha256, d: Disk, alias: string, req: Request, pc: Pc): (Disk, Pc)
    requires req.ManifestUpload?
  {
    var ManifestUpload(name, tag, data, now) := req;
    var key := sha.content(data);
    match pc
    case Begin =>
      var (e, res) := StoreManifest(sha, d, data, now);
      (e, if res.Err? && !res.error.HashConflict? then Finished(Err(res.error)) else Tagging)
    case Tagging =>
      var (e, res) := AddReference(sha, d, key, RefFor(alias, TagName(name, tag), now), |data|, now);
      (e, if res.Ok? then Naming else Finished(Outcome(res)))
    case Naming =>
      var (e, res) := AddReference(sha, d, key, RefFor(alias, name, now), |data|, now);
      (e, Finished(Outcome(res)))
    case _ => (d, pc)
  }

  datatype Event = Event(request: nat, moveFails: bool)

  function Next(sha: Sha256, alias: string, reqs: map<nat, Request>, s: System, e: Event): System {
    if e.request in reqs && e.request in s.pcs then
      var (d, pc) := StepOn(sha, s.disk, alias, reqs[e.request], s.pcs[e.request], e.moveFails);
      System(d, s.pcs[e.request := pc])
    else s
  }

  function After(sha: Sha256, alias: string, reqs: map<nat, Request>, s: System, schedule: seq<Event>): System
    decreases |schedule|
  {
    if schedule == [] then s
    else Next(sha, alias, reqs, After(sha, alias, reqs, s, schedule[..|schedule| - 1]), schedule[|schedule| - 1])
  }

  ghost predicate FreshKeys(reqs: map<nat, Request>) {
    && (forall p | p in reqs && reqs[p].BlobUpload? :: IsStagingKey(reqs[p].temp))
    && (forall p, q | p in reqs && q in reqs && p != q && reqs[p].BlobUpload? && reqs[q].BlobUpload? ::
          reqs[p].temp != reqs[q].temp)
  }

  predicate Stored(sha: Sha256, d: Disk, data: Bytes) {
    Blob(sha.content(data)) in d && d[Blob(sha.content(data))] == Data(data)
  }

  /** What a request relies on at each point of its program, and what its verdict means. */
  predicate Holds(sha: Sha256, d: Disk, req: Request, pc: Pc) {
    var data := DataOf(req);
    match req
    case BlobUpload(_, digest, r, _, temp, _) =>
      (match pc
       case Begin => Gone(d, temp)
       case Rejecting => Staged(d, temp, data) && digest != DigestOf(sha, data)
       case Moving => Staged(d, temp, data) && Accepted(sha, digest, r)
       case Rechecking => Staged(d, temp, data) && Accepted(sha, digest, r)
       case Discarding(known) =>
         Staged(d, temp, data) && Accepted(sha, digest, r) && (known ==> ReadMeta(d, sha.content(data)).Ok?)
       case Referencing => Gone(d, temp) && Accepted(sha, digest, r) && Published(sha, d, data)
       case Finished(Ok(_)) => Gone(d, temp) && Accepted(sha, digest, r) && Published(sha, d, data)
       case Finished(Err(e)) =>
         && (e in {UnsupportedDigest, DigestMismatch} ==> Gone(d, temp) && !Accepted(sha, digest, r))
         && (e == BlobAbsent ==> Gone(d, temp))
       case _ => false)
    case ManifestUpload(_, _, _, _) =>
      (match pc
       case Begin => true
       case Tagging => Stored(sha, d, data)
       case Naming => Stored(sha, d, data)
       case Finished(res) => res.Ok? ==> Stored(sha, d, data)
       case _ => false)
  }

  predicate IsStagingKeyOf(reqs: map<nat, Request>, key: string) {
    exists p | p in reqs :: reqs[p].BlobUpload? && reqs[p].temp == key
  }

  /** A live artifact that is not under a digest is one that a request of this run has staged. */
  ghost predicate OnlyOwnStaging(reqs: map<nat, Request>, d: Disk) {
    forall h | Blob(h) in d :: IsHex(h) || IsStagingKeyOf(reqs, h)
  }

  ghost predicate Inv(sha: Sha256, reqs: map<nat, Request>, s: System) {
    && Sound(sha, s.disk)
    && OnlyOwnStaging(reqs, s.disk)
    && s.pcs.Keys == reqs.Keys
    && forall p | p in reqs :: Holds(sha, s.disk, reqs[p], s.pcs[p])
  }

  /** The staging key that a request may touch; manifests touch none. */
  function OwnKey(req: Request): string {
    if req.BlobUpload? then req.temp else ""
  }

  lemma KeyOfAccepted(sha: Sha256, digest: string, r: Reader)
    requires Accepted(sha, digest, r)
    ensures StorageKey(digest) == sha.content(r.data)
  {
    StorageKeyOfDigest(digest);
    assert digest[7..] == sha.content(r.data);
  }

  lemma StepOfWider(d: Disk, e: Disk, own: string)
    requires StepOf(d, e, "")
    ensures StepOf(d, e, own)
  {}

  lemma MovingStep(sha: Sha256, d: Disk, alias: string, req: Request, moveFails: bool)
    requires sha.Ideal() && Sound(sha, d) && req.BlobUpload? && IsStagingKey(req.temp) && Holds(sha, d, req, Moving)
    ensures var (e, next) := BlobStep(sha, d, alias, req, Moving, moveFails);
            Sound(sha, e) && StepOf(d, e, req.temp) && Holds(sha, e, req, next)
  {
    hide Create, CreatePlan, Delete, AddReference, Sound, Renamed, StepOf, IsStagingKey;
    var data := DataOf(req);
    NothingIsAStep(d, req.temp);
    KeyOfAccepted(sha, req.digest, req.r);
    BlobRenameStep(sha, d, req.temp, data);
    var half := Renamed(d, Blob(req.temp), Blob(sha.content(data)));
    MetaRenameStep(sha, half, req.temp, data);
    StepsCompose(d, half, Renamed(half, Meta(req.temp), Meta(sha.content(data))), req.temp);
  }

  lemma ReferencingStep(sha: Sha256, d: Disk, alias: string, req: Request)
    requires sha.Ideal() && Sound(sha, d) && req.BlobUpload? && IsStagingKey(req.temp) && Holds(sha, d, req, Referencing)
    ensures var (e, next) := BlobStep(sha, d, alias, req, Referencing, false);
            Sound(sha, e) && StepOf(d, e, req.temp) && Holds(sha, e, req, next)
  {
    hide Create, CreatePlan, Delete, AddReference, Sound, Renamed, StepOf, IsStagingKey;
    var BlobUpload(name, digest, r, size, temp, now) := req;
    var data := DataOf(req);
    KeyOfAccepted(sha, digest, r);
    KeyIsNotEmpty(sha, data);
    AddReferenceStep(sha, d, data, RefFor(alias, name, now), 0, now);
    StepOfWider(d, AddReference(sha, d, sha.content(data), RefFor(alias, name, now), 0, now).0, temp);
    AddingIsQuiet(sha, d, sha.content(data), RefFor(alias, name, now), 0, now, temp);
  }

  lemma OwnBlobStep(sha: Sha256, d: Disk, alias: string, req: Request, pc: Pc, moveFails: bool)
    requires sha.Ideal() && Sound(sha, d) && req.BlobUpload? && IsStagingKey(req.temp) && Holds(sha, d, req, pc)
    ensures var (e, next) := BlobStep(sha, d, alias, req, pc, moveFails);
            Sound(sha, e) && StepOf(d, e, req.temp) && Holds(sha, e, req, next)
  {
    hide Create, CreatePlan, Delete, AddReference, Sound, Renamed, StepOf, Move;
    var BlobUpload(name, digest, r, size, temp, now) := req;
    var data := DataOf(req);
    NothingIsAStep(d, temp);
    StagingKeyIsNotEmpty(temp);
    match pc
    case Begin => StageStep(sha, d, temp, r, size, None, now); StageErrors(sha, d, temp, r, size, now);
    case Rejecting => DiscardStep(sha, d, temp);
    case Moving => MovingStep(sha, d, alias, req, moveFails);
    case Rechecking => KeyOfAccepted(sha, digest, r); KeyIsNotEmpty(sha, data);
    case Discarding(known) =>
      DiscardStep(sha, d, temp);
      if known {
        KnownIsPublished(sha, d, Delete(sha, d, Identifier(temp, None)).0, temp, data);
      }
    case Referencing => ReferencingStep(sha, d, alias, req);
    case _ =>
  }

  lemma KeyIsNotEmpty(sha: Sha256, data: Bytes)
    requires sha.Ideal()
    ensures sha.content(data) != ""
  {
    assert IsHex(sha.content(data));
  }

  lemma StageErrors(sha: Sha256, d: Disk, temp: string, r: Reader, size: int, now: int)
    requires temp != "" && Gone(d, temp)
    ensures var res := CreatePlan(sha, d, Identifier(temp, None), r, size, None, now).result;
            res.Err? ==> res.error in {NilReader, ReadFailed}
  {}

  /** Adding a reference touches no blob and no metadata. */
  lemma AddingIsQuiet(sha: Sha256, d: Disk, key: string, ref: Reference, length: int, now: int, temp: string)
    requires key != "" && Blob(key) in d && TagsOk(ref)
    ensures var (e, res) := AddReference(sha, d, key, ref, length, now);
            && SameAt(d, e, temp) && SameAt(d, e, key)
            && (res.Err? ==> !res.error.UnsupportedDigest? && !res.error.DigestMismatch?)
  {
    CreateNet(sha, d, Identifier(key, Some(ref)), Nil, -1, Some(ArtifactMeta(key, length, now)), now);
  }

  lemma OwnManifestStep(sha: Sha256, d: Disk, alias: string, req: Request, pc: Pc)
    requires sha.Ideal() && Sound(sha, d) && req.ManifestUpload? && Holds(sha, d, req, pc)
    ensures var (e, next) := ManifestStep(sha, d, alias, req, pc);
            Sound(sha, e) && StepOf(d, e, "") && Holds(sha, e, req, next)
  {
    hide AddReference, Sound, StoreManifest;
    var ManifestUpload(name, tag, data, now) := req;
    var key := sha.content(data);
    NothingIsAStep(d, "");
    KeyIsNotEmpty(sha, data);
    match pc
    case Begin => StoreManifestStep(sha, d, data, now);
    case Tagging =>
      AddReferenceStep(sha, d, data, RefFor(alias, TagName(name, tag), now), |data|, now);
      AddingIsQuiet(sha, d, key, RefFor(alias, TagName(name, tag), now), |data|, now, "");
    case Naming =>
      AddReferenceStep(sha, d, data, RefFor(alias, name, now), |data|, now);
      AddingIsQuiet(sha, d, key, RefFor(alias, name, now), |data|, now, "");
    case _ =>
  }

  lemma OthersStep(sha: Sha256, d: Disk, e: Disk, own: string, req: Request, pc: Pc)
    requires sha.Ideal() && StepOf(d, e, own) && Holds(sha, d, req, pc)
    requires req.BlobUpload? ==> IsStagingKey(req.temp) && req.temp != own
    ensures Holds(sha, e, req, pc)
  {
    assert IsHex(sha.content(DataOf(req)));
    assert req.BlobUpload? ==> SameAt(d, e, req.temp);
  }

  lemma StagingStaysOwn(sha: Sha256, reqs: map<nat, Request>, d: Disk, e: Disk, p: nat)
    requires OnlyOwnStaging(reqs, d) && Sound(sha, e) && p in reqs && StepOf(d, e, OwnKey(reqs[p]))
    ensures OnlyOwnStaging(reqs, e)
  {
    forall h | Blob(h) in e && !IsHex(h) ensures IsStagingKeyOf(reqs, h) {
      assert IsStagingKey(h);
      if h == OwnKey(reqs[p]) {
        assert reqs[p].BlobUpload?;
      } else {
        assert SameAt(d, e, h);
      }
    }
  }

  lemma InvStep(sha: Sha256, alias: string, reqs: map<nat, Request>, s: System, e: Event)
    requires sha.Ideal() && FreshKeys(reqs) && Inv(sha, reqs, s)
    ensures Inv(sha, reqs, Next(sha, alias, reqs, s, e))
    ensures Preserves(s.disk, Next(sha, alias, reqs, s, e).disk)
  {
    hide Sound, Holds, BlobStep, ManifestStep, Preserves, IsStagingKey;
    NothingIsAStep(s.disk, "");
    if e.request in reqs {
      var req, pc := reqs[e.request], s.pcs[e.request];
      var d := StepOn(sha, s.disk, alias, req, pc, e.moveFails).0;
      if req.BlobUpload? {
        OwnBlobStep(sha, s.disk, alias, req, pc, e.moveFails);
      } else {
        OwnManifestStep(sha, s.disk, alias, req, pc);
      }
      assert StepOf(s.disk, d, OwnKey(req));
      StagingStaysOwn(sha, reqs, s.disk, d, e.request);
      forall p | p in reqs && p != e.request ensures Holds(sha, d, reqs[p], s.pcs[p]) {
        if reqs[p].BlobUpload? {
          StagingKeyIsNotEmpty(reqs[p].temp);
        }
        OthersStep(sha, s.disk, d, OwnKey(req), reqs[p], s.pcs[p]);
      }
    }
  }

  lemma {:induction false} InvRun(sha: Sha256, alias: string, reqs: map<nat, Request>, s: System, schedule: seq<Event>)
    requires sha.Ideal() && FreshKeys(reqs) && Inv(sha, reqs, s)
    ensures Inv(sha, reqs, After(sha, alias, reqs, s, schedule))
    ensures Preserves(s.disk, After(sha, alias, reqs, s, schedule).disk)
    decreases |schedule|
  {
    hide Inv, Preserves;
    if schedule == [] {
      NothingIsAStep(s.disk, "");
      assert Preserves(s.disk, s.disk);
    } else {
      var before := After(sha, alias, reqs, s, schedule[..|schedule| - 1]);
      InvRun(sha, alias, reqs, s, schedule[..|schedule| - 1]);
      InvStep(sha, alias, reqs, before, schedule[|schedule| - 1]);
      PreservesIsTransitive(s.disk, before.disk, After(sha, alias, reqs, s, schedule).disk);
    }
  }

  function Start(d: Disk, reqs: map<nat, Request>): System {
    System(d, map p | p in reqs :: Begin)
  }

  lemma {:induction false} AfterConcat(sha: Sha256, alias: string, reqs: map<nat, Request>, s: System,
                                       a: seq<Event>, b: seq<Event>)
    ensures After(sha, alias, reqs, s, a + b) == After(sha, alias, reqs, After(sha, alias, reqs, s, a), b)
    decreases |b|
  {
    if b == [] {
      assert a + b == a;
    } else {
      assert (a + b)[..|a + b| - 1] == a + b[..|b| - 1];
      AfterConcat(sha, alias, reqs, s, a, b[..|b| - 1]);
    }
  }

  /** Every live blob is stored under the digest of its bytes, unless a request is staging it. */
  ghost predicate BlobsAreWhatTheyClaim(sha: Sha256, reqs: map<nat, Request>, d: Disk) {
    forall h | Blob(h) in d && !IsStagingKeyOf(reqs, h) :: d[Blob(h)].Data? && sha.content(d[Blob(h)].bytes) == h
  }

  /** Main result: in every state of every interleaving content is what its digest says, and stays. */
  lemma ContentIsAddressedByDigest(sha: Sha256, alias: string, reqs: map<nat, Request>, d: Disk,
                                   schedule: seq<Event>, more: seq<Event>)
    requires sha.Ideal() && FreshKeys(reqs) && Sound(sha, d) && OnlyOwnStaging(reqs, d)
    requires forall p | p in reqs && reqs[p].BlobUpload? :: Gone(d, reqs[p].temp)
    ensures var now := After(sha, alias, reqs, Start(d, reqs), schedule).disk;
            var later := After(sha, alias, reqs, Start(d, reqs), schedule + more).disk;
            && BlobsAreWhatTheyClaim(sha, reqs, now)
            && forall h | Blob(h) in now && !IsStagingKeyOf(reqs, h) :: Blob(h) in later && later[Blob(h)] == now[Blob(h)]
  {
    var s := Start(d, reqs);
    InvRun(sha, alias, reqs, s, schedule);
    AfterConcat(sha, alias, reqs, s, schedule, more);
    InvRun(sha, alias, reqs, After(sha, alias, reqs, s, schedule), more);
  }

  /** The verdicts: what a finished blob upload has done, whatever ran beside it. */
  lemma VerdictsAreRight(sha: Sha256, alias: string, reqs: map<nat, Request>, d: Disk, schedule: seq<Event>, p: nat)
    requires sha.Ideal() && FreshKeys(reqs) && Sound(sha, d) && OnlyOwnStaging(reqs, d)
    requires forall q | q in reqs && reqs[q].BlobUpload? :: Gone(d, reqs[q].temp)
    requires p in reqs && var pcs := After(sha, alias, reqs, Start(d, reqs), schedule).pcs; p in pcs && pcs[p].Finished?
    ensures var now := After(sha, alias, reqs, Start(d, reqs), schedule);
            var res, req := now.pcs[p].result, reqs[p];
            && (res.Ok? ==> Stored(sha, now.disk, DataOf(req)))
            && (res.Ok? && req.BlobUpload? ==>
                  Accepted(sha, req.digest, req.r) && Gone(now.disk, req.temp) && Published(sha, now.disk, DataOf(req)))
            && (res.Err? && req.BlobUpload? && res.error in {UnsupportedDigest, DigestMismatch} ==>
                  !Accepted(sha, req.digest, req.r) && Gone(now.disk, req.temp))
            && (req.BlobUpload? && res == Err(BlobAbsent) ==> Gone(now.disk, req.temp))
  {
    InvRun(sha, alias, reqs, Start(d, reqs), schedule);
    var now := After(sha, alias, reqs, Start(d, reqs), schedule);
    assert Holds(sha, now.disk, reqs[p], now.pcs[p]);
  }

  // Progress and complete verdicts

  /** What a request deserves, from the request alone. */
  function Verdict(sha: Sha256, req: Request): Result<()> {
    match req
    case BlobUpload(_, digest, r, _, _, _) =>
      if !("sha256:" <= digest) then Err(UnsupportedDigest)
      else if r.Nil? then Err(NilReader)
      else if r.fails then Err(ReadFailed)
      else if digest != "sha256:" + sha.content(r.data) then Err(DigestMismatch)
      else Ok(())
    case ManifestUpload(_, _, _, _) => Ok(())
  }

  /** A blob whose move failed, although it deserved better. */
  predicate IsLost(sha: Sha256, req: Request, res: Result<()>) {
    req.BlobUpload? && Verdict(sha, req).Ok? && res == Err(BlobAbsent)
  }

  /** A request is on the way to its verdict. */
  predicate IsRight(sha: Sha256, req: Request, pc: Pc) {
    match pc
    case Begin => true
    case Rejecting => req.BlobUpload? && Verdict(sha, req) == Err(DigestMismatch)
    case Tagging => req.ManifestUpload?
    case Naming => req.ManifestUpload?
    case Finished(res) => res == Verdict(sha, req) || IsLost(sha, req, res)
    case _ => req.BlobUpload? && Verdict(sha, req).Ok?
  }

  /** The move has failed and the content was not seen elsewhere since. */
  predicate Strays(pc: Pc) {
    pc.Rechecking? || pc == Discarding(false) || pc == Finished(Err(BlobAbsent))
  }

  function Remaining(pc: Pc): nat {
    match pc
    case Begin => 5
    case Moving => 4
    case Rechecking => 3
    case Discarding(_) => 2
    case Tagging => 2
    case Finished(_) => 0
    case _ => 1
  }

  /** The step leads towards the verdict, and strays only when the move is made to fail. */
  predicate IsForward(sha: Sha256, req: Request, pc: Pc, next: Pc, moveFails: bool) {
    && IsRight(sha, req, next)
    && (if pc.Finished? then next == pc else Remaining(next) < Remaining(pc))
    && (!moveFails && !Strays(pc) ==> !Strays(next))
  }

  /** Whatever metadata there is can be read. */
  ghost predicate NoneMalformed(d: Disk) {
    forall h | Meta(h) in d :: d[Meta(h)].MetaDoc?
  }

  lemma CreateMalformsNothing(sha: Sha256, d: Disk, id: Identifier, r: Reader, size: int, meta: Option<ArtifactMeta>, now: int)
    requires NoneMalformed(d)
    ensures NoneMalformed(Create(sha, d, id, r, size, meta, now))
  {
    hide Run;
    CreateNet(sha, d, id, r, size, meta, now);
  }

  lemma DiscardMalformsNothing(sha: Sha256, d: Disk, temp: string)
    requires NoneMalformed(d) && Sound(sha, d) && IsStagingKey(temp) && Blob(temp) in d
    ensures NoneMalformed(Delete(sha, d, Identifier(temp, None)).0)
  {
    hide Delete, Sound;
    DiscardStep(sha, d, temp);
  }

  lemma AcceptedVerdict(sha: Sha256, req: Request)
    requires req.BlobUpload?
    ensures Verdict(sha, req) == Ok(()) <==> Accepted(sha, req.digest, req.r)
    ensures Verdict(sha, req).Ok? ==> Verdict(sha, req) == Ok(())
  {
    var h := sha.content(DataOf(req));
    assert "sha256:" <= "sha256:" + h;
  }

  lemma BlobGoesForward(sha: Sha256, d: Disk, alias: string, req: Request, pc: Pc, moveFails: bool)
    requires sha.Ideal() && Sound(sha, d) && NoneMalformed(d) && req.BlobUpload? && IsStagingKey(req.temp)
    requires Holds(sha, d, req, pc) && IsRight(sha, req, pc)
    ensures var (e, next) := BlobStep(sha, d, alias, req, pc, moveFails);
            NoneMalformed(e) && IsForward(sha, req, pc, next, moveFails)
  {
    hide Create, CreatePlan, Delete, AddReference, Sound, StepOf, Preserves, NoneMalformed, IsStagingKey, Verdict;
    var BlobUpload(name, digest, r, size, temp, now) := req;
    AcceptedVerdict(sha, req);
    match pc
    case Begin =>
      BeginVerdict(sha, d, req);
      CreateMalformsNothing(sha, d, Identifier(temp, None), r, size, None, now);
    case Rejecting => DiscardMalformsNothing(sha, d, temp);
    case Discarding(_) => DiscardMalformsNothing(sha, d, temp);
    case Moving => MovingMalformsNothing(d, temp, StorageKey(digest));
    case Referencing => ReferencingSucceeds(sha, d, alias, req);
    case _ =>
  }

  lemma MovingMalformsNothing(d: Disk, src: string, dst: string)
    requires NoneMalformed(d)
    ensures NoneMalformed(Move(d, src, dst).0)
    ensures Blob(src) in d ==> Move(d, src, dst).1.Ok?
  {}

  lemma BeginVerdict(sha: Sha256, d: Disk, req: Request)
    requires req.BlobUpload? && IsStagingKey(req.temp) && Gone(d, req.temp)
    ensures var res := CreatePlan(sha, d, Identifier(req.temp, None), req.r, req.size, None, req.now).result;
            "sha256:" <= req.digest ==>
              && (res.Err? ==> Err(res.error) == Verdict(sha, req))
              && (res.Ok? ==> Verdict(sha, req) == if DigestOf(sha, DataOf(req)) == req.digest then Ok(()) else Err(DigestMismatch))
    ensures !("sha256:" <= req.digest) ==> Verdict(sha, req) == Err(UnsupportedDigest)
    ensures Verdict(sha, req) != Err(BlobAbsent)
  {
    StagingKeyIsNotEmpty(req.temp);
  }

  lemma ReferencingSucceeds(sha: Sha256, d: Disk, alias: string, req: Request)
    requires sha.Ideal() && Sound(sha, d) && NoneMalformed(d) && req.BlobUpload? && Holds(sha, d, req, Referencing)
    ensures var (e, res) := AddReference(sha, d, StorageKey(req.digest), RefFor(alias, req.name, req.now), 0, req.now);
            NoneMalformed(e) && res.Ok?
  {
    hide Create, CreatePlan, Sound, NoneMalformed;
    var key, ref := StorageKey(req.digest), RefFor(alias, req.name, req.now);
    KeyOfAccepted(sha, req.digest, req.r);
    AddReferenceStep(sha, d, DataOf(req), ref, 0, req.now);
    CreateMalformsNothing(sha, d, Identifier(key, Some(ref)), Nil, -1, Some(ArtifactMeta(key, 0, req.now)), req.now);
  }

  lemma ManifestGoesForward(sha: Sha256, d: Disk, alias: string, req: Request, pc: Pc, moveFails: bool)
    requires sha.Ideal() && Sound(sha, d) && NoneMalformed(d) && req.ManifestUpload?
    requires Holds(sha, d, req, pc) && IsRight(sha, req, pc)
    ensures var (e, next) := ManifestStep(sha, d, alias, req, pc);
            NoneMalformed(e) && IsForward(sha, req, pc, next, moveFails)
  {
    hide Create, CreatePlan, Sound, Holds;
    var ManifestUpload(name, tag, data, now) := req;
    var key := sha.content(data);
    KeyIsNotEmpty(sha, data);
    StoredIsThere(sha, d, req, pc);
    match pc
    case Begin =>
      StoreManifestStep(sha, d, data, now);
      CreateMalformsNothing(sha, d, Identifier(key, None), Reader(data, false), |data|, Some(ArtifactMeta(key, |data|, now)), now);
    case Tagging => AddingSucceeds(sha, d, key, RefFor(alias, TagName(name, tag), now), |data|, now);
    case Naming => AddingSucceeds(sha, d, key, RefFor(alias, name, now), |data|, now);
    case _ =>
  }

  lemma StoredIsThere(sha: Sha256, d: Disk, req: Request, pc: Pc)
    requires req.ManifestUpload? && Holds(sha, d, req, pc)
    ensures !pc.Begin? && !pc.Finished? ==> Blob(sha.content(DataOf(req))) in d
  {}

  lemma AddingSucceeds(sha: Sha256, d: Disk, key: string, ref: Reference, length: int, now: int)
    requires NoneMalformed(d) && key != "" && Blob(key) in d && TagsOk(ref)
    ensures var (e, res) := AddReference(sha, d, key, ref, length, now); NoneMalformed(e) && res.Ok?
  {
    CreateMalformsNothing(sha, d, Identifier(key, Some(ref)), Nil, -1, Some(ArtifactMeta(key, length, now)), now);
  }

  ghost predicate OnTheWay(sha: Sha256, reqs: map<nat, Request>, s: System) {
    && NoneMalformed(s.disk)
    && s.pcs.Keys == reqs.Keys
    && forall p | p in reqs :: IsRight(sha, reqs[p], s.pcs[p])
  }

  lemma ForwardStep(sha: Sha256, alias: string, reqs: map<nat, Request>, s: System, e: Event)
    requires sha.Ideal() && FreshKeys(reqs) && Inv(sha, reqs, s) && OnTheWay(sha, reqs, s)
    ensures var t := Next(sha, alias, reqs, s, e);
            && OnTheWay(sha, reqs, t)
            && (e.request in reqs ==> IsForward(sha, reqs[e.request], s.pcs[e.request], t.pcs[e.request], e.moveFails))
            && forall p | p in reqs && p != e.request :: t.pcs[p] == s.pcs[p]
  {
    hide Sound, Holds, BlobStep, ManifestStep, NoneMalformed, IsForward, IsRight;
    if e.request in reqs {
      var req, pc := reqs[e.request], s.pcs[e.request];
      assert Holds(sha, s.disk, req, pc) && IsRight(sha, req, pc);
      if req.BlobUpload? {
        BlobGoesForward(sha, s.disk, alias, req, pc, e.moveFails);
      } else {
        ManifestGoesForward(sha, s.disk, alias, req, pc, e.moveFails);
      }
      ForwardIsRight(sha, req, pc, Next(sha, alias, reqs, s, e).pcs[e.request], e.moveFails);
    }
  }

  lemma ForwardIsRight(sha: Sha256, req: Request, pc: Pc, next: Pc, moveFails: bool)
    requires IsForward(sha, req, pc, next, moveFails)
    ensures IsRight(sha, req, next)
  {}

  function Turns(schedule: seq<Event>, p: nat): nat {
    if schedule == [] then 0
    else Turns(schedule[..|schedule| - 1], p) + if schedule[|schedule| - 1].request == p then 1 else 0
  }

  /** None of the request's own moves is made to fail. */
  predicate Undisturbed(schedule: seq<Event>, p: nat) {
    forall i | 0 <= i < |schedule| && schedule[i].request == p :: !schedule[i].moveFails
  }

  lemma {:induction false} RunsGoForward(sha: Sha256, alias: string, reqs: map<nat, Request>, s: System,
                                         schedule: seq<Event>, p: nat)
    requires sha.Ideal() && FreshKeys(reqs) && Inv(sha, reqs, s) && OnTheWay(sha, reqs, s) && p in reqs
    ensures var t := After(sha, alias, reqs, s, schedule);
            && OnTheWay(sha, reqs, t)
            && (t.pcs[p].Finished? || Remaining(t.pcs[p]) + Turns(schedule, p) <= Remaining(s.pcs[p]))
            && (Undisturbed(schedule, p) && !Strays(s.pcs[p]) ==> !Strays(t.pcs[p]))
    decreases |schedule|
  {
    hide Inv, Next, NoneMalformed, IsRight, Strays;
    if schedule != [] {
      var n := |schedule| - 1;
      var before := After(sha, alias, reqs, s, schedule[..n]);
      RunsGoForward(sha, alias, reqs, s, schedule[..n], p);
      InvRun(sha, alias, reqs, s, schedule[..n]);
      ForwardStep(sha, alias, reqs, before, schedule[n]);
      assert schedule[n].request == p ==> (Undisturbed(schedule, p) ==> !schedule[n].moveFails);
    }
  }

  /**
   * Main result on answers: under every interleaving five turns bring a request to its end, and the answer is
   * the one that the request alone deserves, unless its own move was made to fail; then an upload that
   * deserved success may be told that its blob is absent.
   */
  lemma UploadsGetTheirVerdict(sha: Sha256, alias: string, reqs: map<nat, Request>, d: Disk, schedule: seq<Event>, p: nat)
    requires sha.Ideal() && FreshKeys(reqs) && Sound(sha, d) && OnlyOwnStaging(reqs, d) && NoneMalformed(d)
    requires forall q | q in reqs && reqs[q].BlobUpload? :: Gone(d, reqs[q].temp)
    requires p in reqs
    ensures var pcs := After(sha, alias, reqs, Start(d, reqs), schedule).pcs;
            && p in pcs
            && (Turns(schedule, p) >= 5 ==> pcs[p].Finished?)
            && (pcs[p].Finished? ==>
                  || pcs[p].result == Verdict(sha, reqs[p])
                  || (IsLost(sha, reqs[p], pcs[p].result) && !Undisturbed(schedule, p)))
  {
    hide Sound, NoneMalformed;
    RunsGoForward(sha, alias, reqs, Start(d, reqs), schedule, p);
    var now := After(sha, alias, reqs, Start(d, reqs), schedule);
    assert IsRight(sha, reqs[p], now.pcs[p]);
  }

  /** A move that failed is forgiven when the content is known by the time the upload looks again. */
  lemma KnownContentForgives(sha: Sha256, alias: string, reqs: map<nat, Request>, s: System, schedule: seq<Event>, p: nat)
    requires sha.Ideal() && FreshKeys(reqs) && Inv(sha, reqs, s) && OnTheWay(sha, reqs, s)
    requires p in reqs && s.pcs[p].Rechecking? && ReadMeta(s.disk, sha.content(DataOf(reqs[p]))).Ok?
    requires Undisturbed(schedule, p) && Turns(schedule, p) >= 2
    ensures var pcs := After(sha, alias, reqs, s, [Event(p, false)] + schedule).pcs; p in pcs && pcs[p] == Finished(Ok(()))
  {
    hide NoneMalformed, Sound, FreshKeys, Sha256.Ideal;
    var event := Event(p, false);
    assert [event][..0] == [];
    AfterConcat(sha, alias, reqs, s, [event], schedule);
    var t := After(sha, alias, reqs, s, [event]);
    assert t == Next(sha, alias, reqs, s, event);
    InvStep(sha, alias, reqs, s, event);
    ForwardStep(sha, alias, reqs, s, event);
    assert IsRight(sha, reqs[p], s.pcs[p]);
    AcceptedVerdict(sha, reqs[p]);
    KeyOfAccepted(sha, reqs[p].digest, reqs[p].r);
    KeyIsNotEmpty(sha, DataOf(reqs[p]));
    assert t.pcs[p] == Discarding(true);
    RunsGoForward(sha, alias, reqs, t, schedule, p);
    assert IsRight(sha, reqs[p], After(sha, alias, reqs, t, schedule).pcs[p]);
  }

  // One request on its own

  /** A request that takes `n` turns with nobody in between. */
  function Alone(sha: Sha256, d: Disk, alias: string, req: Request, pc: Pc, n: nat): (Disk, Pc)
    decreases n
  {
    if n == 0 then (d, pc)
    else var (e, next) := StepOn(sha, d, alias, req, pc, false); Alone(sha, e, alias, req, next, n - 1)
  }

  lemma Turn(sha: Sha256, d: Disk, alias: string, req: Request, pc: Pc, n: nat)
    ensures Alone(sha, d, alias, req, pc, n + 1) ==
            var (e, next) := StepOn(sha, d, alias, req, pc, false); Alone(sha, e, alias, req, next, n)
  {}

  lemma {:induction false} FinishedStays(sha: Sha256, d: Disk, alias: string, req: Request, pc: Pc, n: nat)
    requires pc.Finished?
    ensures Alone(sha, d, alias, req, pc, n) == (d, pc)
    decreases n
  {
    if n > 0 {
      FinishedStays(sha, d, alias, req, pc, n - 1);
    }
  }

  /** The request as one call. */
  function Put(sha: Sha256, d: Disk, alias: string, req: Request): (Disk, Result<()>) {
    match req
    case BlobUpload(name, digest, r, size, temp, now) => PutBlob(sha, d, alias, name, digest, r, size, temp, now)
    case ManifestUpload(name, tag, data, now) => PutManifest(sha, d, alias, name, tag, data, now)
  }

  /** Three turns of a request with nobody in between are one PutBlob or PutManifest: same disk, same answer. */
  lemma AloneIsPut(sha: Sha256, d: Disk, alias: string, req: Request)
    requires sha.Ideal() && (req.BlobUpload? ==> IsStagingKey(req.temp) && Gone(d, req.temp))
    ensures var (e, res) := Put(sha, d, alias, req);
            Alone(sha, d, alias, req, Begin, 3) == (e, Finished(res))
  {
    hide Create, CreatePlan, Delete, AddReference, StoreManifest, IsStagingKey, Move;
    match req
    case BlobUpload(name, digest, r, size, temp, now) => BlobAlone(sha, d, alias, req);
    case ManifestUpload(name, tag, data, now) =>
      var key := sha.content(data);
      var stored := StoreManifest(sha, d, data, now).0;
      var tagged := AddReference(sha, stored, key, RefFor(alias, TagName(name, tag), now), |data|, now).0;
      var named := AddReference(sha, tagged, key, RefFor(alias, name, now), |data|, now).0;
      var second := StepOn(sha, d, alias, req, Begin, false).1;
      var third := StepOn(sha, stored, alias, req, Tagging, false).1;
      Turn(sha, d, alias, req, Begin, 2);
      if second.Finished? {
        FinishedStays(sha, stored, alias, req, second, 2);
      } else {
        Turn(sha, stored, alias, req, Tagging, 1);
        if third.Finished? {
          FinishedStays(sha, tagged, alias, req, third, 1);
        } else {
          Turn(sha, tagged, alias, req, Naming, 0);
        }
      }
  }

  lemma BlobAlone(sha: Sha256, d: Disk, alias: string, req: Request)
    requires req.BlobUpload? && IsStagingKey(req.temp) && Gone(d, req.temp)
    ensures var (e, res) := Put(sha, d, alias, req);
            Alone(sha, d, alias, req, Begin, 3) == (e, Finished(res))
  {
    hide Create, CreatePlan, Delete, AddReference, IsStagingKey, Move;
    var BlobUpload(name, digest, r, size, temp, now) := req;
    var staged, second := StepOn(sha, d, alias, req, Begin, false).0, StepOn(sha, d, alias, req, Begin, false).1;
    Turn(sha, d, alias, req, Begin, 2);
    if second.Finished? {
      FinishedStays(sha, staged, alias, req, second, 2);
    } else if second.Rejecting? {
      var gone := Delete(sha, staged, Identifier(temp, None)).0;
      Turn(sha, staged, alias, req, Rejecting, 1);
      FinishedStays(sha, gone, alias, req, Finished(Err(DigestMismatch)), 1);
    } else {
      StagedCanMove(sha, d, req);
      var moved := Move(staged, temp, StorageKey(digest)).0;
      Turn(sha, staged, alias, req, Moving, 1);
      Turn(sha, moved, alias, req, Referencing, 0);
    }
  }

  lemma StagedCanMove(sha: Sha256, d: Disk, req: Request)
    requires req.BlobUpload? && IsStagingKey(req.temp) && Gone(d, req.temp)
    ensures var BlobUpload(name, digest, r, size, temp, now) := req;
            CreatePlan(sha, d, Identifier(temp, None), r, size, None, now).result.Ok? ==>
              Move(Create(sha, d, Identifier(temp, None), r, size, None, now), temp, StorageKey(digest)).1 == Ok(())
  {
    StagingKeyIsNotEmpty(req.temp);
    CreateNet(sha, d, Identifier(req.temp, None), req.r, req.size, None, req.now);
  }

  /** A request whose turns are uninterrupted is one call. */
  lemma UninterruptedRequestIsOnePut(sha: Sha256, alias: string, reqs: map<nat, Request>, s: System, p: nat)
    requires sha.Ideal() && p in reqs && p in s.pcs && s.pcs[p].Begin?
    requires reqs[p].BlobUpload? ==> IsStagingKey(reqs[p].temp) && Gone(s.disk, reqs[p].temp)
    ensures var (e, res) := Put(sha, s.disk, alias, reqs[p]);
            var turn := Event(p, false);
            After(sha, alias, reqs, s, [turn] + ([turn] + ([turn] + []))) == System(e, s.pcs[p := Finished(res)])
  {
    hide StepOn, Put, After, Sha256.Ideal, IsStagingKey;
    var turn := Event(p, false);
    AloneIsPut(sha, s.disk, alias, reqs[p]);
    var (d1, pc1) := StepOn(sha, s.disk, alias, reqs[p], Begin, false);
    var (d2, pc2) := StepOn(sha, d1, alias, reqs[p], pc1, false);
    var t1 := System(d1, s.pcs[p := pc1]);
    var t2 := System(d2, s.pcs[p := pc2]);
    Turn(sha, s.disk, alias, reqs[p], Begin, 2);
    Turn(sha, d1, alias, reqs[p], pc1, 1);
    Turn(sha, d2, alias, reqs[p], pc2, 0);
    AfterFirst(sha, alias, reqs, s, turn, [turn] + ([turn] + []));
    AfterFirst(sha, alias, reqs, t1, turn, [turn] + []);
    AfterFirst(sha, alias, reqs, t2, turn, []);
    NoEvents(sha, alias, reqs, Next(sha, alias, reqs, t2, turn));
    assert Next(sha, alias, reqs, s, turn) == t1 && Next(sha, alias, reqs, t1, turn) == t2;
    assert t2.pcs[p := Finished(Put(sha, s.disk, alias, reqs[p]).1)] == s.pcs[p := Finished(Put(sha, s.disk, alias, reqs[p]).1)];
  }

  lemma NoEvents(sha: Sha256, alias: string, reqs: map<nat, Request>, s: System)
    ensures After(sha, alias, reqs, s, []) == s
  {}

  lemma AfterFirst(sha: Sha256, alias: string, reqs: map<nat, Request>, s: System, e: Event, rest: seq<Event>)
    ensures After(sha, alias, reqs, s, [e] + rest) == After(sha, alias, reqs, Next(sha, alias, reqs, s, e), rest)
  {
    hide Next;
    assert [e][..0] == [];
    AfterConcat(sha, alias, reqs, s, [e], rest);
    assert After(sha, alias, reqs, s, [e]) == Next(sha, alias, reqs, s, e);
  }
}
