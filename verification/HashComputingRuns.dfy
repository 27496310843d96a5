/**
 * Any number of concurrent creates of unknown hash on one plain storage, interleaved step by step: the
 * stage, the check, the two renames of Move, the clean-up and the final read of each call.
 */
module HashComputingRuns {
  import opened Digests
  import opened Layout
  import opened Store
  import opened Publishing
  import HashComputing

  /** One call: what it streams, the size and metadata it announces, its staging key and its clock. */
  datatype Call = Call(r: Reader, size: int, meta: Option<ArtifactMeta>, temp: string, now: int)

  datatype Pc =
    | Streaming
    | Checking
    | Renaming
    | RenamingMeta
    | Rechecking
    | Cleaning(failed: bool)
    | Discarding(failed: bool)
    | Finishing
    | Done(result: ArtifactMeta)
    | Failed

  datatype System = System(disk: Disk, pcs: map<nat, Pc>)

  function DataOf(call: Call): Bytes {
    if call.r.Reader? then call.r.data else []
  }

  function KeyFor(sha: Sha256, call: Call): string {
    sha.content(DataOf(call))
  }

  /** The next step of a call that is at `pc`; `renameFails` lets os.Rename of the blob report an error. */
  function StepOn(sha: Sha256, d: Disk, call: Call, pc: Pc, renameFails: bool): (Disk, Pc) {
    var h := KeyFor(sha, call);
    match pc
    case Streaming =>
      var id := Identifier(call.temp, None);
      (Create(sha, d, id, call.r, call.size, call.meta, call.now),
       if CreatePlan(sha, d, id, call.r, call.size, call.meta, call.now).result.Ok? then Checking else Failed)
    case Checking => (d, if ReadMeta(d, h).Ok? then Cleaning(false) else Renaming)
    case Renaming =>
      if renameFails || Blob(call.temp) !in d then (d, Rechecking)
      else (Renamed(d, Blob(call.temp), Blob(h)), RenamingMeta)
    case RenamingMeta => (Renamed(d, Meta(call.temp), Meta(h)), Finishing)
    case Rechecking => (d, Cleaning(!ReadMeta(d, h).Ok?))
    case Cleaning(failed) =>
      (d, if ReadMeta(d, call.temp).Ok? then Discarding(failed) else if failed then Failed else Finishing)
    case Discarding(failed) =>
      (Delete(sha, d, Identifier(call.temp, None)).0, if failed then Failed else Finishing)
    case Finishing => (d, if ReadMeta(d, h).Ok? then Done(ReadMeta(d, h).value.(hash := h)) else Failed)
    case _ => (d, pc)
  }

  datatype Event = Event(client: nat, renameFails: bool)

  function Next(sha: Sha256, calls: map<nat, Call>, s: System, e: Event): System {
    if e.client in calls && e.client in s.pcs then
      var (d, pc) := StepOn(sha, s.disk, calls[e.client], s.pcs[e.client], e.renameFails);
      System(d, s.pcs[e.client := pc])
    else s
  }

  /** The state after a schedule: any clients, in any order, any number of steps. */
  function After(sha: Sha256, calls: map<nat, Call>, s: System, schedule: seq<Event>): System
    decreases |schedule|
  {
    if schedule == [] then s
    else Next(sha, calls, After(sha, calls, s, schedule[..|schedule| - 1]), schedule[|schedule| - 1])
  }

  /** UUIDs are fresh: staging keys are well formed and no two calls share one. */
  ghost predicate FreshKeys(calls: map<nat, Call>) {
    && (forall p | p in calls :: IsStagingKey(calls[p].temp))
    && (forall p, q | p in calls && q in calls && p != q :: calls[p].temp != calls[q].temp)
  }

  /** What a call relies on at each point of its program. */
  predicate Holds(sha: Sha256, d: Disk, call: Call, pc: Pc) {
    var data, h := DataOf(call), KeyFor(sha, call);
    match pc
    case Streaming => Gone(d, call.temp)
    case Checking => Staged(d, call.temp, data)
    case Renaming => Staged(d, call.temp, data)
    case Rechecking => Staged(d, call.temp, data)
    case Cleaning(failed) => Staged(d, call.temp, data) && (failed || ReadMeta(d, h).Ok?)
    case Discarding(failed) => Staged(d, call.temp, data) && (failed || ReadMeta(d, h).Ok?)
    case RenamingMeta =>
      && Blob(call.temp) !in d && ReadMeta(d, call.temp).Ok? && ReadMeta(d, call.temp).value.length == |data|
      && Blob(h) in d
    case Finishing => Gone(d, call.temp) && Published(sha, d, data)
    case Done(m) => Gone(d, call.temp) && Published(sha, d, data) && m.hash == h && m.length == |data|
    case Failed => Gone(d, call.temp) || call.r.Nil? || call.r.fails
  }

  ghost predicate Inv(sha: Sha256, calls: map<nat, Call>, s: System) {
    && Sound(sha, s.disk)
    && s.pcs.Keys == calls.Keys
    && forall p | p in calls :: Holds(sha, s.disk, calls[p], s.pcs[p])
  }

  lemma RefusedStageIsGone(sha: Sha256, d: Disk, call: Call)
    requires Gone(d, call.temp) && IsStagingKey(call.temp) && !NamesNoOther(call.meta, call.temp)
    ensures Gone(Create(sha, d, Identifier(call.temp, None), call.r, call.size, call.meta, call.now), call.temp)
  {
    CreateNet(sha, d, Identifier(call.temp, None), call.r, call.size, call.meta, call.now);
  }

  /** A step of one call keeps what it relies on next, and stays within its own staging key. */
  lemma OwnStep(sha: Sha256, d: Disk, call: Call, pc: Pc, renameFails: bool)
    requires sha.Ideal() && Sound(sha, d) && IsStagingKey(call.temp) && Holds(sha, d, call, pc)
    ensures var (e, next) := StepOn(sha, d, call, pc, renameFails);
            Sound(sha, e) && StepOf(d, e, call.temp) && Holds(sha, e, call, next)
  {
    hide Create, CreatePlan, Delete, Renamed, Sound, StepOf;
    NothingIsAStep(d, call.temp);
    var data, h := DataOf(call), KeyFor(sha, call);
    match pc
    case Streaming =>
      StageAnyStep(sha, d, call.temp, call.r, call.size, call.meta, call.now);
      if !NamesNoOther(call.meta, call.temp) {
        RefusedStageIsGone(sha, d, call);
      }
    case Renaming =>
      if !renameFails {
        BlobRenameStep(sha, d, call.temp, data);
      }
    case RenamingMeta => MetaRenameStep(sha, d, call.temp, data);
    case Discarding(failed) =>
      DiscardStep(sha, d, call.temp);
      if !failed {
        KnownIsPublished(sha, d, Delete(sha, d, Identifier(call.temp, None)).0, call.temp, data);
      }
    case Finishing => LengthIsKnown(sha, d, data);
    case _ =>
  }

  /** A step of another call changes nothing that a call relies on. */
  lemma OthersStep(sha: Sha256, d: Disk, e: Disk, own: string, call: Call, pc: Pc)
    requires sha.Ideal() && Sound(sha, d) && StepOf(d, e, own)
    requires IsStagingKey(call.temp) && call.temp != own && Holds(sha, d, call, pc)
    ensures Holds(sha, e, call, pc)
  {
    assert IsHex(KeyFor(sha, call));
    assert SameAt(d, e, call.temp);
  }

  lemma InvStep(sha: Sha256, calls: map<nat, Call>, s: System, e: Event)
    requires sha.Ideal() && FreshKeys(calls) && Inv(sha, calls, s)
    ensures Inv(sha, calls, Next(sha, calls, s, e))
    ensures Preserves(s.disk, Next(sha, calls, s, e).disk)
  {
    hide Sound, Holds, StepOn, Preserves;
    if e.client in calls {
      var call, pc := calls[e.client], s.pcs[e.client];
      var (d, next) := StepOn(sha, s.disk, call, pc, e.renameFails);
      OwnStep(sha, s.disk, call, pc, e.renameFails);
      forall p | p in calls && p != e.client ensures Holds(sha, d, calls[p], s.pcs[p]) {
        OthersStep(sha, s.disk, d, call.temp, calls[p], s.pcs[p]);
      }
    } else {
      PreservesItself(s.disk);
    }
  }

  lemma {:induction false} InvRun(sha: Sha256, calls: map<nat, Call>, s: System, schedule: seq<Event>)
    requires sha.Ideal() && FreshKeys(calls) && Inv(sha, calls, s)
    ensures Inv(sha, calls, After(sha, calls, s, schedule))
    decreases |schedule|
  {
    hide Inv;
    if schedule != [] {
      InvRun(sha, calls, s, schedule[..|schedule| - 1]);
      InvStep(sha, calls, After(sha, calls, s, schedule[..|schedule| - 1]), schedule[|schedule| - 1]);
    }
  }

  function Start(d: Disk, calls: map<nat, Call>): System {
    System(d, map p | p in calls :: Streaming)
  }

  lemma StartsInv(sha: Sha256, calls: map<nat, Call>, d: Disk)
    requires Sound(sha, d) && forall p | p in calls :: Gone(d, calls[p].temp)
    ensures Inv(sha, calls, Start(d, calls))
  {}

  /** Once a call has returned it stays returned. */
  lemma {:induction false} DoneStays(sha: Sha256, calls: map<nat, Call>, s: System, schedule: seq<Event>, p: nat)
    requires p in s.pcs && s.pcs[p].Done?
    ensures p in After(sha, calls, s, schedule).pcs && After(sha, calls, s, schedule).pcs[p] == s.pcs[p]
    decreases |schedule|
  {
    if schedule != [] {
      DoneStays(sha, calls, s, schedule[..|schedule| - 1], p);
    }
  }

  lemma {:induction false} AfterConcat(sha: Sha256, calls: map<nat, Call>, s: System, a: seq<Event>, b: seq<Event>)
    ensures After(sha, calls, s, a + b) == After(sha, calls, After(sha, calls, s, a), b)
    decreases |b|
  {
    if b == [] {
      assert a + b == a;
    } else {
      assert (a + b)[..|a + b| - 1] == a + b[..|b| - 1];
      AfterConcat(sha, calls, s, a, b[..|b| - 1]);
    }
  }

  /**
   * Main result: under every interleaving, a call that has returned successfully has returned the digest
   * and length of exactly the bytes it streamed; and then and for ever after those bytes are live under
   * that digest with readable metadata, its staging key is not live, and artifacts stay content addressed.
   */
  lemma SuccessfulCreatesArePublished(sha: Sha256, calls: map<nat, Call>, d: Disk, schedule: seq<Event>,
                                      more: seq<Event>, p: nat)
    requires sha.Ideal() && FreshKeys(calls) && Sound(sha, d)
    requires forall q | q in calls :: Gone(d, calls[q].temp)
    requires p in calls && var pcs := After(sha, calls, Start(d, calls), schedule).pcs; p in pcs && pcs[p].Done?
    ensures var m := After(sha, calls, Start(d, calls), schedule).pcs[p].result;
            var later := After(sha, calls, Start(d, calls), schedule + more).disk;
            && m.hash == KeyFor(sha, calls[p]) && m.length == |DataOf(calls[p])|
            && Published(sha, later, DataOf(calls[p]))
            && Gone(later, calls[p].temp)
            && ContentAddressed(sha, later)
  {
    hide Inv, StepOn, FreshKeys, Sound, Published, ContentAddressed, Sha256.Ideal;
    StartsInv(sha, calls, d);
    var s := After(sha, calls, Start(d, calls), schedule);
    InvRun(sha, calls, Start(d, calls), schedule);
    DoneStays(sha, calls, s, more, p);
    AfterConcat(sha, calls, Start(d, calls), schedule, more);
    InvRun(sha, calls, Start(d, calls), schedule + more);
    DoneIsPublished(sha, calls, After(sha, calls, s, more), p);
  }

  lemma DoneIsPublished(sha: Sha256, calls: map<nat, Call>, s: System, p: nat)
    requires Inv(sha, calls, s) && p in calls && p in s.pcs && s.pcs[p].Done?
    ensures s.pcs[p].result.hash == KeyFor(sha, calls[p]) && s.pcs[p].result.length == |DataOf(calls[p])|
    ensures Published(sha, s.disk, DataOf(calls[p])) && Gone(s.disk, calls[p].temp) && ContentAddressed(sha, s.disk)
  {
    assert Holds(sha, s.disk, calls[p], s.pcs[p]);
  }

  /** A call that has failed, for whatever reason but a broken stream, has left nothing staged. */
  lemma FailedCallsLeaveNothingStaged(sha: Sha256, calls: map<nat, Call>, d: Disk, schedule: seq<Event>, p: nat)
    requires sha.Ideal() && FreshKeys(calls) && Sound(sha, d)
    requires forall q | q in calls :: Gone(d, calls[q].temp)
    requires p in calls && calls[p].r.Reader? && !calls[p].r.fails
    ensures var s := After(sha, calls, Start(d, calls), schedule);
            p in s.pcs && (s.pcs[p].Failed? ==> Gone(s.disk, calls[p].temp))
  {
    hide Sound, StepOn, Published, Staged;
    StartsInv(sha, calls, d);
    InvRun(sha, calls, Start(d, calls), schedule);
    var s := After(sha, calls, Start(d, calls), schedule);
    assert Holds(sha, s.disk, calls[p], s.pcs[p]);
  }

  /** Whatever fails, content that was published before or during the run is never lost or changed. */
  lemma {:induction false} PublishedContentSurvives(sha: Sha256, calls: map<nat, Call>, s: System, schedule: seq<Event>)
    requires sha.Ideal() && FreshKeys(calls) && Inv(sha, calls, s)
    ensures Preserves(s.disk, After(sha, calls, s, schedule).disk)
    decreases |schedule|
  {
    hide Inv, Preserves;
    if schedule == [] {
      PreservesItself(s.disk);
    } else {
      var before := After(sha, calls, s, schedule[..|schedule| - 1]);
      PublishedContentSurvives(sha, calls, s, schedule[..|schedule| - 1]);
      InvRun(sha, calls, s, schedule[..|schedule| - 1]);
      InvStep(sha, calls, before, schedule[|schedule| - 1]);
      PreservesIsTransitive(s.disk, before.disk, After(sha, calls, s, schedule).disk);
    }
  }

  /** The call has failed or is about to. */
  predicate Strays(pc: Pc) {
    pc.Failed? || pc.Rechecking? || (pc.Cleaning? && pc.failed) || (pc.Discarding? && pc.failed)
  }

  /** A call only fails when its stream fails, its metadata names another hash, or its own rename is made to fail. */
  predicate Undisturbed(call: Call, schedule: seq<Event>, p: nat) {
    && call.r.Reader? && !call.r.fails && NamesNoOther(call.meta, call.temp)
    && forall i | 0 <= i < |schedule| && schedule[i].client == p :: !schedule[i].renameFails
  }

  lemma {:induction false} UndisturbedCallsDoNotFail(sha: Sha256, calls: map<nat, Call>, s: System,
                                                     schedule: seq<Event>, p: nat)
    requires sha.Ideal() && FreshKeys(calls) && Inv(sha, calls, s)
    requires p in calls && !Strays(s.pcs[p]) && Undisturbed(calls[p], schedule, p)
    ensures var pcs := After(sha, calls, s, schedule).pcs; p in pcs && !Strays(pcs[p])
    decreases |schedule|
  {
    if schedule != [] {
      hide StepOn, Inv, FreshKeys;
      var n := |schedule| - 1;
      var before := After(sha, calls, s, schedule[..n]);
      UndisturbedCallsDoNotFail(sha, calls, s, schedule[..n], p);
      InvRun(sha, calls, s, schedule[..n]);
      assert schedule[n].client == p ==> !schedule[n].renameFails;
      UndisturbedStep(sha, calls, before, p);
    }
  }

  lemma UndisturbedStep(sha: Sha256, calls: map<nat, Call>, s: System, p: nat)
    requires sha.Ideal() && FreshKeys(calls) && Inv(sha, calls, s) && p in calls
    requires !Strays(s.pcs[p])
    requires calls[p].r.Reader? && !calls[p].r.fails && NamesNoOther(calls[p].meta, calls[p].temp)
    ensures var next := StepOn(sha, s.disk, calls[p], s.pcs[p], false).1; !Strays(next)
  {
    hide Sound, Create, CreatePlan, Delete;
    assert Holds(sha, s.disk, calls[p], s.pcs[p]);
    if s.pcs[p].Streaming? {
      StageAnyStep(sha, s.disk, calls[p].temp, calls[p].r, calls[p].size, calls[p].meta, calls[p].now);
    }
  }

  function Remaining(pc: Pc): nat {
    match pc
    case Streaming => 5
    case Checking => 4
    case Renaming => 3
    case RenamingMeta => 2
    case Cleaning(_) => 3
    case Discarding(_) => 2
    case Rechecking => 4
    case Finishing => 1
    case Done(_) => 0
    case Failed => 0
  }

  lemma StepBringsACallForward(sha: Sha256, d: Disk, call: Call, pc: Pc)
    requires !Strays(pc)
    ensures var next := StepOn(sha, d, call, pc, false).1;
            if pc.Done? then next.Done? else Strays(next) || Remaining(next) < Remaining(pc)
  {}

  function Turns(schedule: seq<Event>, p: nat): nat {
    if schedule == [] then 0
    else Turns(schedule[..|schedule| - 1], p) + if schedule[|schedule| - 1].client == p then 1 else 0
  }

  lemma {:induction false} TurnsBringACallForward(sha: Sha256, calls: map<nat, Call>, s: System, schedule: seq<Event>,
                                                  p: nat)
    requires sha.Ideal() && FreshKeys(calls) && Inv(sha, calls, s)
    requires p in calls && !Strays(s.pcs[p]) && Undisturbed(calls[p], schedule, p)
    ensures var pcs := After(sha, calls, s, schedule).pcs;
            p in pcs && (pcs[p].Done? || Remaining(pcs[p]) + Turns(schedule, p) <= Remaining(s.pcs[p]))
    decreases |schedule|
  {
    hide StepOn, Inv, FreshKeys, Sha256.Ideal;
    UndisturbedCallsDoNotFail(sha, calls, s, schedule, p);
    if schedule != [] {
      var n := |schedule| - 1;
      TurnsBringACallForward(sha, calls, s, schedule[..n], p);
      UndisturbedCallsDoNotFail(sha, calls, s, schedule[..n], p);
      var before := After(sha, calls, s, schedule[..n]);
      assert schedule[n].client == p ==> !schedule[n].renameFails;
      StepBringsACallForward(sha, before.disk, calls[p], before.pcs[p]);
    }
  }

  /** However the others interleave, five turns bring an undisturbed call to success. */
  lemma UndisturbedCallsSucceed(sha: Sha256, calls: map<nat, Call>, d: Disk, schedule: seq<Event>, p: nat)
    requires sha.Ideal() && FreshKeys(calls) && Sound(sha, d)
    requires forall q | q in calls :: Gone(d, calls[q].temp)
    requires p in calls && Undisturbed(calls[p], schedule, p) && Turns(schedule, p) >= 5
    ensures var pcs := After(sha, calls, Start(d, calls), schedule).pcs; p in pcs && pcs[p].Done?
  {
    hide Inv, StepOn, FreshKeys, Sound, Sha256.Ideal;
    StartsInv(sha, calls, d);
    TurnsBringACallForward(sha, calls, Start(d, calls), schedule, p);
    UndisturbedCallsDoNotFail(sha, calls, Start(d, calls), schedule, p);
  }

  /**
   * A rename that failed is forgiven when the content is known by the time the call looks again: four turns
   * then bring it to success.
   */
  lemma KnownContentForgives(sha: Sha256, calls: map<nat, Call>, s: System, schedule: seq<Event>, p: nat)
    requires sha.Ideal() && FreshKeys(calls) && Inv(sha, calls, s)
    requires p in calls && s.pcs[p] == Rechecking && ReadMeta(s.disk, KeyFor(sha, calls[p])).Ok?
    requires Undisturbed(calls[p], schedule, p) && Turns(schedule, p) >= 3
    ensures var pcs := After(sha, calls, s, [Event(p, false)] + schedule).pcs; p in pcs && pcs[p].Done?
  {
    hide Inv, FreshKeys, Sound, Sha256.Ideal;
    var event := Event(p, false);
    assert [event][..0] == [];
    AfterConcat(sha, calls, s, [event], schedule);
    var t := After(sha, calls, s, [event]);
    assert t == Next(sha, calls, s, event);
    InvStep(sha, calls, s, event);
    InvHasAll(sha, calls, s);
    assert t.pcs[p] == Cleaning(false);
    TurnsBringACallForward(sha, calls, t, schedule, p);
    UndisturbedCallsDoNotFail(sha, calls, t, schedule, p);
  }

  lemma InvHasAll(sha: Sha256, calls: map<nat, Call>, s: System)
    requires Inv(sha, calls, s)
    ensures s.pcs.Keys == calls.Keys
  {}

  // One call on its own

  /** A call that takes `n` steps with nobody in between. */
  function Alone(sha: Sha256, d: Disk, call: Call, pc: Pc, n: nat): (Disk, Pc)
    decreases n
  {
    if n == 0 then (d, pc)
    else var (e, next) := StepOn(sha, d, call, pc, false); Alone(sha, e, call, next, n - 1)
  }

  lemma Turn(sha: Sha256, d: Disk, call: Call, pc: Pc, n: nat)
    ensures Alone(sha, d, call, pc, n + 1) ==
            var (e, next) := StepOn(sha, d, call, pc, false); Alone(sha, e, call, next, n)
  {}

  lemma {:induction false} ReturnedStays(sha: Sha256, d: Disk, call: Call, pc: Pc, n: nat)
    requires pc.Done? || pc.Failed?
    ensures Alone(sha, d, call, pc, n) == (d, pc)
  {
    if n > 0 {
      ReturnedStays(sha, d, call, pc, n - 1);
    }
  }

  function Returned(res: Result<ArtifactMeta>): Pc {
    if res.Ok? then Done(res.value) else Failed
  }

  lemma ExistingAlone(sha: Sha256, d: Disk, call: Call)
    ensures var h := KeyFor(sha, call);
            var (e, res) := HashComputing.HandleExistingHash(sha, d, h, call.temp);
            Alone(sha, d, call, Cleaning(false), 4) == (e, Returned(res))
  {
    hide Delete;
    var e := HashComputing.CleanupTempHash(sha, d, call.temp);
    Turn(sha, d, call, Cleaning(false), 3);
    Turn(sha, d, call, Discarding(false), 2);
    Turn(sha, e, call, Finishing, 1);
    Turn(sha, e, call, Finishing, 2);
    ReturnedStays(sha, e, call, StepOn(sha, e, call, Finishing, false).1, 1);
    ReturnedStays(sha, e, call, StepOn(sha, e, call, Finishing, false).1, 2);
  }

  lemma MovedAlone(sha: Sha256, d: Disk, call: Call)
    requires Blob(call.temp) in d
    ensures var (e, res) := HashComputing.MoveToFinalHash(sha, d, call.temp, KeyFor(sha, call));
            Alone(sha, d, call, Renaming, 4) == (e, Returned(res))
  {
    var half := StepOn(sha, d, call, Renaming, false).0;
    var e := StepOn(sha, half, call, RenamingMeta, false).0;
    hide StepOn;
    Turn(sha, d, call, Renaming, 3);
    Turn(sha, half, call, RenamingMeta, 2);
    Turn(sha, e, call, Finishing, 1);
    StepsOfMove(sha, d, call);
    ReturnedStays(sha, e, call, StepOn(sha, e, call, Finishing, false).1, 1);
  }

  lemma StepsOfMove(sha: Sha256, d: Disk, call: Call)
    requires Blob(call.temp) in d
    ensures var half := StepOn(sha, d, call, Renaming, false).0;
            var e := StepOn(sha, half, call, RenamingMeta, false).0;
            && StepOn(sha, d, call, Renaming, false).1 == RenamingMeta
            && StepOn(sha, half, call, RenamingMeta, false).1 == Finishing
            && StepOn(sha, e, call, Finishing, false) ==
               (e, Returned(HashComputing.MoveToFinalHash(sha, d, call.temp, KeyFor(sha, call)).1))
            && e == HashComputing.MoveToFinalHash(sha, d, call.temp, KeyFor(sha, call)).0
  {}

  lemma StagedAlone(sha: Sha256, d: Disk, call: Call)
    requires IsStagingKey(call.temp) && Gone(d, call.temp)
    requires CreatePlan(sha, d, Identifier(call.temp, None), call.r, call.size, call.meta, call.now).result.Ok?
    ensures Blob(call.temp) in Create(sha, d, Identifier(call.temp, None), call.r, call.size, call.meta, call.now)
  {
    CreateNet(sha, d, Identifier(call.temp, None), call.r, call.size, call.meta, call.now);
  }

  /** Six turns of a call with nobody in between are the sequential protocol: the same disk and the same answer. */
  lemma AloneIsCreateUnknown(sha: Sha256, d: Disk, call: Call)
    requires IsStagingKey(call.temp) && Gone(d, call.temp)
    ensures var (e, res) := HashComputing.CreateUnknown(sha, d, call.temp, call.r, call.size, call.meta, call.now);
            Alone(sha, d, call, Streaming, 6) == (e, Returned(res))
  {
    hide Create, CreatePlan, Delete, IsStagingKey, HashComputing.HandleExistingHash, HashComputing.MoveToFinalHash;
    var staged := Create(sha, d, Identifier(call.temp, None), call.r, call.size, call.meta, call.now);
    Turn(sha, d, call, Streaming, 5);
    if CreatePlan(sha, d, Identifier(call.temp, None), call.r, call.size, call.meta, call.now).result.Ok? {
      StagedAlone(sha, d, call);
      Turn(sha, staged, call, Checking, 4);
      if ReadMeta(staged, KeyFor(sha, call)).Ok? {
        ExistingAlone(sha, staged, call);
      } else {
        MovedAlone(sha, staged, call);
      }
    } else {
      ReturnedStays(sha, staged, call, Failed, 5);
    }
  }

  /** A schedule in which one client takes all the turns. */
  function OnlyOf(p: nat, n: nat): seq<Event> {
    seq(n, _ => Event(p, false))
  }

  lemma {:induction false} AloneIsARun(sha: Sha256, calls: map<nat, Call>, s: System, p: nat, n: nat)
    requires p in calls && p in s.pcs
    ensures var (d, pc) := Alone(sha, s.disk, calls[p], s.pcs[p], n);
            After(sha, calls, s, OnlyOf(p, n)) == System(d, s.pcs[p := pc])
    decreases n
  {
    hide StepOn;
    if n > 0 {
      var event := Event(p, false);
      assert OnlyOf(p, n) == [event] + OnlyOf(p, n - 1) && [event][..0] == [];
      AfterConcat(sha, calls, s, [event], OnlyOf(p, n - 1));
      assert After(sha, calls, s, [event]) == Next(sha, calls, s, event);
      AloneIsARun(sha, calls, Next(sha, calls, s, event), p, n - 1);
    }
  }

  /** The machine refines to the protocol: a call whose turns are uninterrupted is one CreateArtifact. */
  lemma UninterruptedCallIsOneCreate(sha: Sha256, calls: map<nat, Call>, s: System, p: nat)
    requires p in calls && p in s.pcs && s.pcs[p] == Streaming
    requires IsStagingKey(calls[p].temp) && Gone(s.disk, calls[p].temp)
    ensures var call := calls[p];
            var (e, res) := HashComputing.CreateUnknown(sha, s.disk, call.temp, call.r, call.size, call.meta, call.now);
            After(sha, calls, s, OnlyOf(p, 6)) == System(e, s.pcs[p := if res.Ok? then Done(res.value) else Failed])
  {
    hide IsStagingKey, StepOn, HashComputing.CreateUnknown;
    AloneIsARun(sha, calls, s, p, 6);
    AloneIsCreateUnknown(sha, s.disk, calls[p]);
  }
}
