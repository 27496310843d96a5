/**
 * Any number of clients of ConcurrentArtifactStorage: each runs a list of hash-identified, reference-free
 * calls, and the file-system steps of all of them interleave. A call locks its hash, looks at the disk,
 * performs its steps one by one and unlocks; a stream keeps its shared lock until it is closed.
 */
module LockedRuns {
  import opened Digests
  import opened Layout
  import opened Ranges
  import opened Store
  import opened Locks

  /** `hash` is what the call locks: for Move the destination. `cuts` is where a copy pauses. */
  datatype Op =
    | CreateOp(hash: string, r: Reader, size: int, meta: Option<ArtifactMeta>, now: int)
    | UpdateOp(hash: string, req: ByteRange, r: Reader, cuts: seq<nat>)
    | DeleteOp(hash: string)
    | MoveOp(src: string, hash: string)
    | ReadOp(hash: string, req: ByteRange)
    | MetaOp(hash: string)

  datatype Outcome =
    | OfMeta(meta: Result<ArtifactMeta>)
    | OfUnit(done: Result<()>)
    | OfStream(actual: ByteRange, bytes: Bytes)
    | NoStream(error: Error)
    | TimedOut

  predicate IsWriter(op: Op) {
    !op.ReadOp? && !op.MetaOp?
  }

  predicate IsCall(op: Op) {
    IsSafe(op.hash) && (op.UpdateOp? ==> op.r.Reader?)
  }

  // A call on its own

  /** The call as one operation of the storage. */
  function Atomic(sha: Sha256, d: Disk, op: Op): (Disk, Outcome)
    requires IsCall(op)
  {
    var id := Identifier(op.hash, None);
    match op
    case CreateOp(_, r, size, meta, now) =>
      (Create(sha, d, id, r, size, meta, now), OfMeta(CreatePlan(sha, d, id, r, size, meta, now).result))
    case UpdateOp(_, req, r, _) => var (e, res) := UpdateBlob(sha, d, id, req, r); (e, OfUnit(res))
    case DeleteOp(_) => var (e, res) := Delete(sha, d, id); (e, OfUnit(res))
    case MoveOp(src, hash) => var (e, res) := Move(d, src, hash); (e, OfUnit(res))
    case ReadOp(_, req) =>
      (d, match ReadBlob(sha, d, id, req) case Ok((bytes, actual)) => OfStream(actual, bytes) case Err(e) => NoStream(e))
    case MetaOp(_) => (d, OfMeta(GetMeta(sha, d, id)))
  }

  datatype CallPlan = CallPlan(steps: seq<Step>, outcome: Outcome)

  /** A copy into a blob, after each piece that has arrived and in the end. */
  function CopySteps(hash: string, b: Bytes, offset: nat, data: Bytes, cuts: seq<nat>): seq<Step> {
    seq(|cuts|, i requires 0 <= i < |cuts| => Write(Blob(hash), Data(WriteAt(b, offset, data[..Min(cuts[i], |data|)])))) +
    [Write(Blob(hash), Data(WriteAt(b, offset, data)))]
  }

  lemma {:induction false} RunOverwrites(d: Disk, steps: seq<Step>, s: Slot)
    requires steps != [] && forall i | 0 <= i < |steps| :: steps[i].Write? && steps[i].slot == s
    ensures Run(d, steps) == d[s := steps[|steps| - 1].content]
    decreases |steps|
  {
    if |steps| == 1 {
      assert steps[1..] == [];
    } else {
      RunOverwrites(Apply(d, steps[0]), steps[1..], s);
    }
  }

  /** The call as the steps it takes on the disk it finds; a copy into a blob arrives piece by piece. */
  function PlanOf(sha: Sha256, d: Disk, op: Op): CallPlan
    requires IsCall(op)
  {
    match op
    case CreateOp(hash, r, size, meta, now) =>
      var plan := CreatePlan(sha, d, Identifier(hash, None), r, size, meta, now);
      CallPlan(plan.steps, OfMeta(plan.result))
    case UpdateOp(hash, req, r, cuts) =>
      if Blob(hash) !in d then CallPlan([], OfUnit(Err(BlobAbsent)))
      else if req.offset < 0 then CallPlan([], OfUnit(Err(InvalidOffset)))
      else
        CallPlan(CopySteps(hash, BytesAt(d, hash), req.offset, Copied(req.length, r.data), cuts),
                 OfUnit(UpdateOutcome(req.length, r)))
    case DeleteOp(hash) =>
      if Blob(hash) !in d then CallPlan([], OfUnit(Err(BlobAbsent)))
      else CallPlan([Rename(Blob(hash), TrashBlob(hash)), Rename(Meta(hash), TrashMeta(hash))], OfUnit(Ok(())))
    case MoveOp(src, hash) =>
      if Blob(src) !in d then CallPlan([], OfUnit(Err(BlobAbsent)))
      else CallPlan([Rename(Blob(src), Blob(hash)), Rename(Meta(src), Meta(hash))], OfUnit(Ok(())))
    case ReadOp(hash, req) =>
      if Blob(hash) !in d then CallPlan([], NoStream(BlobAbsent))
      else CallPlan([], OfStream(ActualRange(|BytesAt(d, hash)|, req), Delivered(BytesAt(d, hash), req)))
    case MetaOp(hash) => CallPlan([], OfMeta(ReadMeta(d, hash)))
  }

  /** Deleting `hash` finds no records to drop, and no shard directory to sweep. */
  predicate Unreferenced(d: Disk, op: Op) {
    op.DeleteOp? ==> ShardSlots(d, op.hash) == {}
  }

  lemma PlanIsAtomic(sha: Sha256, d: Disk, op: Op)
    requires IsCall(op) && Unreferenced(d, op)
    ensures (Run(d, PlanOf(sha, d, op).steps), PlanOf(sha, d, op).outcome) == Atomic(sha, d, op)
  {
    match op
    case UpdateOp(hash, req, r, cuts) =>
      var steps := PlanOf(sha, d, op).steps;
      if steps != [] {
        RunOverwrites(d, steps, Blob(hash));
      }
    case DeleteOp(hash) =>
      if Blob(hash) in d {
        NoRecords(d, hash);
        RunTwo(d, Rename(Blob(hash), TrashBlob(hash)), Rename(Meta(hash), TrashMeta(hash)));
      }
    case MoveOp(src, hash) => RunTwo(d, Rename(Blob(src), Blob(hash)), Rename(Meta(src), Meta(hash)));
    case _ =>
  }

  lemma NoRecords(d: Disk, hash: string)
    requires IsSafe(hash) && ShardSlots(d, hash) == {}
    ensures DropAllReferences(d, hash) == d && RefsOf(d, hash) == {} && RecordShard(Prefix(hash)) !in d
  {
    forall k ensures Record(hash, k) !in d {
      assert Record(hash, k) in d ==> Record(hash, k) in ShardSlots(d, hash);
    }
    assert RecordShard(Prefix(hash)) in d ==> RecordShard(Prefix(hash)) in ShardSlots(d, hash);
  }

  // What a call looks at and changes

  function Hashes(op: Op): set<string> {
    if op.MoveOp? then {op.src, op.hash} else {op.hash}
  }

  predicate InReach(op: Op, s: Slot) {
    (s.Blob? || s.Meta? || s.TrashBlob? || s.TrashMeta?) && s.hash in Hashes(op)
  }

  ghost predicate Agree(op: Op, d: Disk, e: Disk) {
    forall s | InReach(op, s) :: SameSlot(d, e, s)
  }

  predicate StepInReach(op: Op, step: Step) {
    match step
    case Write(s, _) => InReach(op, s)
    case Rename(s, t) => InReach(op, s) && InReach(op, t)
    case Remove(s) => InReach(op, s)
    case SweepShard(_) => false
  }

  predicate StepsInReach(op: Op, steps: seq<Step>) {
    forall i | 0 <= i < |steps| :: StepInReach(op, steps[i])
  }

  lemma PlanInReach(sha: Sha256, d: Disk, op: Op)
    requires IsCall(op)
    ensures StepsInReach(op, PlanOf(sha, d, op).steps)
  {}

  /** A call depends on nothing but its reach. */
  lemma PlanIsLocal(sha: Sha256, d: Disk, e: Disk, op: Op)
    requires IsCall(op) && Agree(op, d, e)
    ensures PlanOf(sha, d, op) == PlanOf(sha, e, op)
  {
    assert SameSlot(d, e, Blob(op.hash)) && SameSlot(d, e, Meta(op.hash));
    assert op.MoveOp? ==> SameSlot(d, e, Blob(op.src));
  }

  lemma {:induction false} RunInReach(op: Op, d: Disk, e: Disk, steps: seq<Step>)
    requires StepsInReach(op, steps)
    ensures Agree(op, d, e) ==> Agree(op, Run(d, steps), Run(e, steps))
    ensures forall s | !InReach(op, s) :: SameSlot(d, Run(d, steps), s)
    decreases |steps|
  {
    if steps != [] {
      var d', e' := Apply(d, steps[0]), Apply(e, steps[0]);
      ApplyInReach(op, d, e, steps[0]);
      RunInReach(op, d', e', steps[1..]);
      forall s | !InReach(op, s) ensures SameSlot(d, Run(d, steps), s) {
        assert SameSlot(d, d', s) && SameSlot(d', Run(d', steps[1..]), s);
      }
    }
  }

  lemma ApplyInReach(op: Op, d: Disk, e: Disk, step: Step)
    requires StepInReach(op, step)
    ensures Agree(op, d, e) ==> Agree(op, Apply(d, step), Apply(e, step))
    ensures forall s | !InReach(op, s) :: SameSlot(d, Apply(d, step), s)
  {
    hide InReach;
    match step
    case Rename(s, t) => assert Agree(op, d, e) ==> SameSlot(d, e, s) && SameSlot(d, e, t);
    case _ =>
  }

  // Clients

  datatype Pc =
    | Idle
    | Granted
    | Working(pending: seq<Step>, outcome: Outcome)
    | Streaming(actual: ByteRange, got: Bytes)

  /** A client is at its call number `next`. */
  datatype Client = Client(next: nat, pc: Pc)

  datatype Entry = Entry(client: nat, op: Op, outcome: Outcome)

  /** `log` lists the calls that have returned, in the order in which they returned. */
  datatype System = System(disk: Disk, locks: LockTable<Path>, clients: map<nat, Client>, log: seq<Entry>)

  type Programs = map<nat, seq<Op>>

  datatype Act = Try | GiveUp | DoStep | Read(n: nat) | Close

  datatype Event = Event(client: nat, act: Act)

  predicate IsAt(programs: Programs, s: System, p: nat) {
    p in programs && p in s.clients && s.clients[p].next < |programs[p]|
  }

  function OpOf(programs: Programs, s: System, p: nat): Op
    requires IsAt(programs, s, p)
  {
    programs[p][s.clients[p].next]
  }

  /** What the next read of at most `n` bytes returns: the stream is a section of the file as it is now. */
  function Piece(d: Disk, hash: string, actual: ByteRange, got: Bytes, n: nat): Bytes {
    var section := if Blob(hash) in d && actual.offset >= 0 && actual.length >= 0
                   then Section(BytesAt(d, hash), actual.offset, actual.length) else [];
    section[Min(|got|, |section|)..Min(|got| + n, |section|)]
  }

  /** Release the lock and return. */
  function Finish(lockDir: Path, s: System, p: nat, op: Op, outcome: Outcome): System
    requires p in s.clients
  {
    System(s.disk, Unlocked(s.locks, LockPath(lockDir, op.hash), p),
           s.clients[p := Client(s.clients[p].next + 1, Idle)], s.log + [Entry(p, op, outcome)])
  }

  function Next(sha: Sha256, lockDir: Path, programs: Programs, s: System, e: Event): System
    requires forall p, i | p in programs && 0 <= i < |programs[p]| :: IsCall(programs[p][i])
  {
    var p := e.client;
    if !IsAt(programs, s, p) then s
    else
      var op := OpOf(programs, s, p);
      var c := s.clients[p];
      var key := LockPath(lockDir, op.hash);
      match (c.pc, e.act)
      case (Idle, Try) =>
        if CanLock(s.locks, key, IsWriter(op))
        then s.(locks := Locked(s.locks, key, p, IsWriter(op)), clients := s.clients[p := c.(pc := Granted)])
        else s
      case (Idle, GiveUp) =>
        s.(clients := s.clients[p := Client(c.next + 1, Idle)], log := s.log + [Entry(p, op, TimedOut)])
      case (Granted, DoStep) =>
        var plan := PlanOf(sha, s.disk, op);
        if plan.outcome.OfStream?
        then s.(clients := s.clients[p := c.(pc := Streaming(plan.outcome.actual, []))])
        else s.(clients := s.clients[p := c.(pc := Working(plan.steps, plan.outcome))])
      case (Working(pending, outcome), DoStep) =>
        if pending == [] then Finish(lockDir, s, p, op, outcome)
        else s.(disk := Apply(s.disk, pending[0]), clients := s.clients[p := c.(pc := Working(pending[1..], outcome))])
      case (Streaming(actual, got), Read(n)) =>
        s.(clients := s.clients[p := c.(pc := Streaming(actual, got + Piece(s.disk, op.hash, actual, got, n)))])
      case (Streaming(actual, got), Close) => Finish(lockDir, s, p, op, OfStream(actual, got))
      case _ => s
  }

  predicate AllCalls(programs: Programs) {
    forall p, i | p in programs && 0 <= i < |programs[p]| :: IsCall(programs[p][i])
  }

  function After(sha: Sha256, lockDir: Path, programs: Programs, s: System, schedule: seq<Event>): System
    requires AllCalls(programs)
    decreases |schedule|
  {
    if schedule == [] then s
    else Next(sha, lockDir, programs, After(sha, lockDir, programs, s, schedule[..|schedule| - 1]),
              schedule[|schedule| - 1])
  }

  function Start(d: Disk, programs: Programs): System {
    System(d, map[], map p | p in programs :: Client(0, Idle), [])
  }

  /** What a client holds: the lock of its call, from the grant to the return. */
  function HeldBy(lockDir: Path, programs: Programs, s: System, p: nat): Held<Path> {
    if !IsAt(programs, s, p) || s.clients[p].pc.Idle? then Nothing()
    else
      var op := OpOf(programs, s, p);
      Acquired(Nothing(), LockPath(lockDir, op.hash), IsWriter(op))
  }

  function AllHeld(lockDir: Path, programs: Programs, s: System): map<nat, Held<Path>> {
    map p | p in programs :: HeldBy(lockDir, programs, s, p)
  }

  // The serial run of the log

  function Replay(sha: Sha256, d: Disk, log: seq<Entry>): Disk
    requires forall i | 0 <= i < |log| :: IsCall(log[i].op)
    decreases |log|
  {
    if log == [] then d
    else
      var before, last := Replay(sha, d, log[..|log| - 1]), log[|log| - 1];
      if last.outcome.TimedOut? then before else Atomic(sha, before, last.op).0
  }

  /** A stream that was closed early has delivered a prefix. */
  predicate Matches(outcome: Outcome, expected: Outcome) {
    outcome == expected
    || (outcome.OfStream? && expected.OfStream? && outcome.actual == expected.actual && outcome.bytes <= expected.bytes)
  }

  /** Every call that did not time out returned what it returns in the serial run. */
  predicate Justified(sha: Sha256, d: Disk, log: seq<Entry>)
    requires forall i | 0 <= i < |log| :: IsCall(log[i].op)
    decreases |log|
  {
    log == [] ||
    (var before, last := log[..|log| - 1], log[|log| - 1];
     Justified(sha, d, before)
     && (last.outcome.TimedOut? || Matches(last.outcome, Atomic(sha, Replay(sha, d, before), last.op).1)))
  }

  function CallsOf(log: seq<Entry>, p: nat): seq<Op> {
    if log == [] then []
    else
      var last := log[|log| - 1];
      CallsOf(log[..|log| - 1], p) + if last.client == p then [last.op] else []
  }

  // The invariant

  /** No two clients use the source of a Move. */
  predicate PrivateSources(programs: Programs) {
    forall p, i, q, j | p in programs && q in programs && p != q && 0 <= i < |programs[p]| && 0 <= j < |programs[q]| ::
      programs[p][i].MoveOp? ==> programs[p][i].src !in Hashes(programs[q][j])
  }

  predicate NothingToSweep(programs: Programs, d: Disk) {
    forall p, i | p in programs && 0 <= i < |programs[p]| :: Unreferenced(d, programs[p][i])
  }

  ghost predicate SameRecords(d: Disk, e: Disk) {
    forall s: Slot | s.Record? || s.RecordShard? :: s in d <==> s in e
  }

  /** `d` is the disk as it is, `r` the disk of the serial run. */
  ghost predicate PhaseOk(sha: Sha256, d: Disk, r: Disk, op: Op, pc: Pc)
    requires IsCall(op)
  {
    match pc
    case Idle => true
    case Granted => true
    case Working(pending, outcome) =>
      && outcome == PlanOf(sha, r, op).outcome
      && StepsInReach(op, pending)
      && Agree(op, Run(d, pending), Run(r, PlanOf(sha, r, op).steps))
      && (!IsWriter(op) ==> pending == [])
    case Streaming(actual, got) =>
      var outcome := PlanOf(sha, r, op).outcome;
      op.ReadOp? && outcome.OfStream? && actual == outcome.actual && got <= outcome.bytes
  }

  /** A slot that some writer has in its reach and in its hands. */
  predicate InHand(programs: Programs, s: System, slot: Slot) {
    exists p | p in programs ::
      IsAt(programs, s, p) && s.clients[p].pc.Working? && IsWriter(OpOf(programs, s, p))
      && InReach(OpOf(programs, s, p), slot)
  }

  /** Who is where, who holds which lock, and which calls have returned. */
  ghost predicate Bookkept(lockDir: Path, programs: Programs, s: System) {
    && s.clients.Keys == programs.Keys
    && (forall p | p in programs :: s.clients[p].next <= |programs[p]|)
    && (forall p | p in programs && s.clients[p].next == |programs[p]| :: s.clients[p].pc.Idle?)
    && Accurate(s.locks, AllHeld(lockDir, programs, s))
    && (forall i | 0 <= i < |s.log| :: IsCall(s.log[i].op))
    && (forall p | p in programs :: CallsOf(s.log, p) == programs[p][..s.clients[p].next])
  }

  ghost predicate Inv(sha: Sha256, lockDir: Path, programs: Programs, d0: Disk, s: System)
    requires AllCalls(programs)
  {
    && Bookkept(lockDir, programs, s)
    && Justified(sha, d0, s.log)
    && DiskOk(sha, programs, d0, s, Replay(sha, d0, s.log))
  }

  ghost predicate DiskOk(sha: Sha256, programs: Programs, d0: Disk, s: System, r: Disk)
    requires AllCalls(programs)
  {
    && SameRecords(d0, r)
    && (forall slot :: InHand(programs, s, slot) || SameSlot(s.disk, r, slot))
    && (forall p | p in programs && IsAt(programs, s, p) ::
          PhaseOk(sha, s.disk, r, OpOf(programs, s, p), s.clients[p].pc))
  }

  // Locks

  lemma HeldAfter(lockDir: Path, programs: Programs, s: System, t: System, p: nat)
    requires s.clients.Keys == t.clients.Keys == programs.Keys && p in programs
    requires t.clients == s.clients[p := t.clients[p]]
    ensures AllHeld(lockDir, programs, t) == AllHeld(lockDir, programs, s)[p := HeldBy(lockDir, programs, t, p)]
  {}

  lemma CallsOfLonger(log: seq<Entry>, e: Entry, p: nat)
    ensures CallsOf(log + [e], p) == CallsOf(log, p) + if e.client == p then [e.op] else []
  {
    assert (log + [e])[..|log|] == log;
  }

  /** Logging the call that a client has just left keeps the log complete and in program order. */
  lemma LogIsComplete(programs: Programs, s: System, p: nat, outcome: Outcome)
    requires AllCalls(programs) && IsAt(programs, s, p) && s.clients.Keys == programs.Keys
    requires forall q | q in programs :: s.clients[q].next <= |programs[q]|
    requires forall q | q in programs :: CallsOf(s.log, q) == programs[q][..s.clients[q].next]
    ensures var log := s.log + [Entry(p, OpOf(programs, s, p), outcome)];
            var clients := s.clients[p := Client(s.clients[p].next + 1, Idle)];
            forall q | q in programs :: clients[q].next <= |programs[q]| && CallsOf(log, q) == programs[q][..clients[q].next]
  {
    hide CallsOf;
    var n, op := s.clients[p].next, OpOf(programs, s, p);
    assert programs[p][..n] + [op] == programs[p][..n + 1];
    forall q | q in programs
      ensures CallsOf(s.log + [Entry(p, op, outcome)], q) == CallsOf(s.log, q) + if q == p then [op] else []
    {
      CallsOfLonger(s.log, Entry(p, op, outcome), q);
    }
  }

  lemma FinishIsBookkept(lockDir: Path, programs: Programs, s: System, p: nat, outcome: Outcome)
    requires AllCalls(programs) && Bookkept(lockDir, programs, s) && IsAt(programs, s, p) && !s.clients[p].pc.Idle?
    ensures Bookkept(lockDir, programs, Finish(lockDir, s, p, OpOf(programs, s, p), outcome))
  {
    hide Accurate, CallsOf, LockPath, Unlocked;
    var op := OpOf(programs, s, p);
    var t := Finish(lockDir, s, p, op, outcome);
    UnlockFits(s.locks, AllHeld(lockDir, programs, s), LockPath(lockDir, op.hash), p);
    HeldAfter(lockDir, programs, s, t, p);
    assert HeldBy(lockDir, programs, t, p) == Nothing();
    assert Released(HeldBy(lockDir, programs, s, p), LockPath(lockDir, op.hash)) == Nothing();
    LogIsComplete(programs, s, p, outcome);
  }

  lemma GrantIsBookkept(lockDir: Path, programs: Programs, s: System, p: nat)
    requires AllCalls(programs) && Bookkept(lockDir, programs, s) && IsAt(programs, s, p) && s.clients[p].pc.Idle?
    requires var op := OpOf(programs, s, p); CanLock(s.locks, LockPath(lockDir, op.hash), IsWriter(op))
    ensures var op := OpOf(programs, s, p);
            Bookkept(lockDir, programs,
              s.(locks := Locked(s.locks, LockPath(lockDir, op.hash), p, IsWriter(op)),
                 clients := s.clients[p := s.clients[p].(pc := Granted)]))
  {
    hide LockPath, Accurate, CallsOf, Locked;
    var op := OpOf(programs, s, p);
    var key := LockPath(lockDir, op.hash);
    var t := s.(locks := Locked(s.locks, key, p, IsWriter(op)), clients := s.clients[p := s.clients[p].(pc := Granted)]);
    LockFits(s.locks, AllHeld(lockDir, programs, s), key, p, IsWriter(op));
    HeldAfter(lockDir, programs, s, t, p);
  }

  lemma GiveUpIsBookkept(lockDir: Path, programs: Programs, s: System, p: nat)
    requires AllCalls(programs) && Bookkept(lockDir, programs, s) && IsAt(programs, s, p) && s.clients[p].pc.Idle?
    ensures var c := s.clients[p];
            Bookkept(lockDir, programs, s.(clients := s.clients[p := Client(c.next + 1, Idle)],
                                           log := s.log + [Entry(p, OpOf(programs, s, p), TimedOut)]))
  {
    hide LockPath, Accurate, CallsOf;
    var c, op := s.clients[p], OpOf(programs, s, p);
    var t := s.(clients := s.clients[p := Client(c.next + 1, Idle)], log := s.log + [Entry(p, op, TimedOut)]);
    HeldAfter(lockDir, programs, s, t, p);
    assert AllHeld(lockDir, programs, t) == AllHeld(lockDir, programs, s);
    LogIsComplete(programs, s, p, TimedOut);
  }

  lemma InsideIsBookkept(lockDir: Path, programs: Programs, s: System, p: nat, d: Disk, pc: Pc)
    requires Bookkept(lockDir, programs, s) && IsAt(programs, s, p) && !s.clients[p].pc.Idle? && !pc.Idle?
    ensures Bookkept(lockDir, programs, s.(disk := d, clients := s.clients[p := s.clients[p].(pc := pc)]))
  {
    hide LockPath, Accurate;
    var t := s.(disk := d, clients := s.clients[p := s.clients[p].(pc := pc)]);
    HeldAfter(lockDir, programs, s, t, p);
    assert AllHeld(lockDir, programs, t) == AllHeld(lockDir, programs, s);
  }

  lemma BooksStep(sha: Sha256, lockDir: Path, programs: Programs, s: System, e: Event)
    requires AllCalls(programs) && Bookkept(lockDir, programs, s)
    ensures Bookkept(lockDir, programs, Next(sha, lockDir, programs, s, e))
  {
    hide PlanOf, LockPath, Piece, Bookkept, Finish, Locked, Unlocked, CanLock;
    var p := e.client;
    if IsAt(programs, s, p) {
      var c := s.clients[p];
      var t := Next(sha, lockDir, programs, s, e);
      match (c.pc, e.act)
      case (Idle, Try) =>
        if t != s {
          GrantIsBookkept(lockDir, programs, s, p);
        }
      case (Idle, GiveUp) => GiveUpIsBookkept(lockDir, programs, s, p);
      case (Idle, _) =>
      case (Working(pending, outcome), DoStep) =>
        if pending == [] {
          FinishIsBookkept(lockDir, programs, s, p, outcome);
        } else {
          InsideIsBookkept(lockDir, programs, s, p, t.disk, t.clients[p].pc);
        }
      case (Streaming(actual, got), Close) => FinishIsBookkept(lockDir, programs, s, p, OfStream(actual, got));
      case (Granted, DoStep) => InsideIsBookkept(lockDir, programs, s, p, t.disk, t.clients[p].pc);
      case (Streaming(actual, got), Read(n)) => InsideIsBookkept(lockDir, programs, s, p, t.disk, t.clients[p].pc);
      case _ =>
    }
  }

  lemma LockPathsDiffer(lockDir: Path, g: string, h: string)
    requires IsSafe(g) && IsSafe(h) && g != h
    ensures LockPath(lockDir, g) != LockPath(lockDir, h)
  {
    LockPathsArePrefixFree(lockDir, g, h);
  }

  /** While a writer and any other client are inside their calls, they reach different hashes. */
  lemma CallsAreApart(lockDir: Path, programs: Programs, s: System, p: nat, q: nat)
    requires AllCalls(programs) && PrivateSources(programs) && Bookkept(lockDir, programs, s)
    requires IsAt(programs, s, p) && IsAt(programs, s, q) && p != q
    requires !s.clients[p].pc.Idle? && !s.clients[q].pc.Idle?
    requires IsWriter(OpOf(programs, s, p)) || IsWriter(OpOf(programs, s, q))
    ensures Hashes(OpOf(programs, s, p)) !! Hashes(OpOf(programs, s, q))
  {
    hide LockPath;
    var g, h := OpOf(programs, s, p).hash, OpOf(programs, s, q).hash;
    if g == h {
      var held := AllHeld(lockDir, programs, s);
      if IsWriter(OpOf(programs, s, p)) {
        WriterIsAlone(s.locks, held, p, q, LockPath(lockDir, g));
      } else {
        WriterIsAlone(s.locks, held, q, p, LockPath(lockDir, g));
      }
    }
  }

  // Steps on the disk

  lemma PhaseKept(sha: Sha256, d: Disk, r: Disk, d': Disk, r': Disk, op: Op, pc: Pc)
    requires IsCall(op) && PhaseOk(sha, d, r, op, pc) && Agree(op, d, d') && Agree(op, r, r')
    ensures PhaseOk(sha, d', r', op, pc)
  {
    hide PlanOf, InReach;
    PlanIsLocal(sha, r, r', op);
    PlanInReach(sha, r, op);
    RunInReach(op, r, r', PlanOf(sha, r, op).steps);
    if pc.Working? {
      RunInReach(op, d, d', pc.pending);
    }
  }

  /** Whoever is inside a call but has not written yet sees the disk of the serial run. */
  lemma SeesSerialDisk(sha: Sha256, lockDir: Path, programs: Programs, d0: Disk, s: System, r: Disk, p: nat)
    requires AllCalls(programs) && PrivateSources(programs) && Bookkept(lockDir, programs, s)
    requires DiskOk(sha, programs, d0, s, r) && IsAt(programs, s, p)
    requires !s.clients[p].pc.Idle? && !s.clients[p].pc.Working?
    ensures Agree(OpOf(programs, s, p), s.disk, r)
  {
    hide Bookkept, PhaseOk, SameSlot;
    var op := OpOf(programs, s, p);
    forall slot | InReach(op, slot) ensures SameSlot(s.disk, r, slot) {
      if InHand(programs, s, slot) {
        var q :| q in programs && IsAt(programs, s, q) && s.clients[q].pc.Working? && IsWriter(OpOf(programs, s, q))
                 && InReach(OpOf(programs, s, q), slot);
        CallsAreApart(lockDir, programs, s, q, p);
      }
    }
  }

  /** Step by step: what one client does, and what the others may rely on while it does. */
  lemma DiskOkAfter(sha: Sha256, programs: Programs, d0: Disk, s: System, r: Disk, t: System, r': Disk, p: nat)
    requires AllCalls(programs) && DiskOk(sha, programs, d0, s, r)
    requires p in s.clients && p in t.clients && t.clients == s.clients[p := t.clients[p]]
    requires SameRecords(d0, r')
    requires forall slot :: InHand(programs, t, slot) || SameSlot(t.disk, r', slot)
    requires IsAt(programs, t, p) ==> PhaseOk(sha, t.disk, r', OpOf(programs, t, p), t.clients[p].pc)
    requires forall q | q in programs && q != p && IsAt(programs, s, q) && !s.clients[q].pc.Idle? ::
               Agree(OpOf(programs, s, q), s.disk, t.disk) && Agree(OpOf(programs, s, q), r, r')
    ensures DiskOk(sha, programs, d0, t, r')
  {
    hide InHand, SameSlot, Agree, SameRecords;
    forall q | q in programs && IsAt(programs, t, q)
      ensures PhaseOk(sha, t.disk, r', OpOf(programs, t, q), t.clients[q].pc)
    {
      if q != p && !s.clients[q].pc.Idle? {
        PhaseKept(sha, s.disk, r, t.disk, r', OpOf(programs, s, q), s.clients[q].pc);
      }
    }
  }

  lemma AgreeWithItself(op: Op, d: Disk)
    ensures Agree(op, d, d)
  {}

  lemma InHandKept(programs: Programs, s: System, t: System, p: nat, slot: Slot)
    requires InHand(programs, s, slot)
    requires p in t.clients && t.clients == s.clients[p := t.clients[p]]
    requires IsAt(programs, s, p) && s.clients[p].pc.Working? && IsWriter(OpOf(programs, s, p))
             && InReach(OpOf(programs, s, p), slot) ==>
               IsAt(programs, t, p) && t.clients[p].pc.Working? && t.clients[p].next == s.clients[p].next
    ensures InHand(programs, t, slot)
  {
    hide InReach;
    var q :| q in programs && IsAt(programs, s, q) && s.clients[q].pc.Working? && IsWriter(OpOf(programs, s, q))
             && InReach(OpOf(programs, s, q), slot);
    assert IsAt(programs, t, q) && OpOf(programs, t, q) == OpOf(programs, s, q);
  }

  /** Steps that change neither the disk nor the serial run: waiting, giving up, looking, reading. */
  lemma QuietStep(sha: Sha256, programs: Programs, d0: Disk, s: System, r: Disk, t: System, p: nat)
    requires AllCalls(programs) && DiskOk(sha, programs, d0, s, r)
    requires IsAt(programs, s, p) && t.disk == s.disk
    requires p in t.clients && t.clients == s.clients[p := t.clients[p]] && !s.clients[p].pc.Working?
    requires IsAt(programs, t, p) ==> PhaseOk(sha, s.disk, r, OpOf(programs, t, p), t.clients[p].pc)
    ensures DiskOk(sha, programs, d0, t, r)
  {
    hide SameSlot, PhaseOk, InReach;
    forall slot ensures InHand(programs, t, slot) || SameSlot(t.disk, r, slot) {
      if InHand(programs, s, slot) {
        InHandKept(programs, s, t, p, slot);
      }
    }
    forall op: Op, d: Disk ensures Agree(op, d, d) {
      AgreeWithItself(op, d);
    }
    DiskOkAfter(sha, programs, d0, s, r, t, r, p);
  }

  lemma LookStep(sha: Sha256, lockDir: Path, programs: Programs, d0: Disk, s: System, r: Disk, p: nat)
    requires AllCalls(programs) && PrivateSources(programs) && Bookkept(lockDir, programs, s)
    requires DiskOk(sha, programs, d0, s, r) && IsAt(programs, s, p) && s.clients[p].pc.Granted?
    ensures DiskOk(sha, programs, d0, Next(sha, lockDir, programs, s, Event(p, DoStep)), r)
  {
    hide Bookkept, DiskOk, PlanOf, Run;
    var op := OpOf(programs, s, p);
    SeesSerialDisk(sha, lockDir, programs, d0, s, r, p);
    PlanIsLocal(sha, s.disk, r, op);
    PlanInReach(sha, r, op);
    RunInReach(op, s.disk, r, PlanOf(sha, r, op).steps);
    PlanShape(sha, r, op);
    QuietStep(sha, programs, d0, s, r, Next(sha, lockDir, programs, s, Event(p, DoStep)), p);
  }

  lemma PlanShape(sha: Sha256, d: Disk, op: Op)
    requires IsCall(op)
    ensures PlanOf(sha, d, op).outcome.OfStream? ==> op.ReadOp?
    ensures !IsWriter(op) ==> PlanOf(sha, d, op).steps == []
    ensures !PlanOf(sha, d, op).outcome.TimedOut?
  {}

  lemma ReadStep(sha: Sha256, lockDir: Path, programs: Programs, d0: Disk, s: System, r: Disk, p: nat, n: nat)
    requires AllCalls(programs) && PrivateSources(programs) && Bookkept(lockDir, programs, s)
    requires DiskOk(sha, programs, d0, s, r) && IsAt(programs, s, p) && s.clients[p].pc.Streaming?
    ensures DiskOk(sha, programs, d0, Next(sha, lockDir, programs, s, Event(p, Read(n))), r)
  {
    var op := OpOf(programs, s, p);
    var Streaming(actual, got) := s.clients[p].pc;
    SeesSerialDisk(sha, lockDir, programs, d0, s, r, p);
    assert PhaseOk(sha, s.disk, r, op, s.clients[p].pc);
    PieceContinues(sha, s.disk, r, op, got, n);
    hide Bookkept, DiskOk, PlanOf, Piece;
    QuietStep(sha, programs, d0, s, r, Next(sha, lockDir, programs, s, Event(p, Read(n))), p);
  }

  lemma PieceContinues(sha: Sha256, d: Disk, r: Disk, op: Op, got: Bytes, n: nat)
    requires IsCall(op) && op.ReadOp? && Agree(op, d, r) && PlanOf(sha, r, op).outcome.OfStream?
    requires got <= PlanOf(sha, r, op).outcome.bytes
    ensures got + Piece(d, op.hash, PlanOf(sha, r, op).outcome.actual, got, n) <= PlanOf(sha, r, op).outcome.bytes
  {
    PlanIsLocal(sha, d, r, op);
  }

  lemma ReachesAreApart(op: Op, other: Op, d: Disk, e: Disk)
    requires Hashes(op) !! Hashes(other) && forall s | !InReach(op, s) :: SameSlot(d, e, s)
    ensures Agree(other, d, e)
  {}

  lemma WriteStep(sha: Sha256, lockDir: Path, programs: Programs, d0: Disk, s: System, r: Disk, p: nat)
    requires AllCalls(programs) && PrivateSources(programs) && Bookkept(lockDir, programs, s)
    requires DiskOk(sha, programs, d0, s, r) && IsAt(programs, s, p)
    requires s.clients[p].pc.Working? && s.clients[p].pc.pending != []
    ensures DiskOk(sha, programs, d0, Next(sha, lockDir, programs, s, Event(p, DoStep)), r)
  {
    hide Bookkept, PlanOf, InReach, Apply, StepInReach;
    var op := OpOf(programs, s, p);
    var t := Next(sha, lockDir, programs, s, Event(p, DoStep));
    assert PhaseOk(sha, s.disk, r, op, s.clients[p].pc);
    ApplyInReach(op, s.disk, s.disk, s.clients[p].pc.pending[0]);
    forall slot ensures InHand(programs, t, slot) || SameSlot(t.disk, r, slot) {
      if InHand(programs, s, slot) {
        InHandKept(programs, s, t, p, slot);
      } else {
        assert SameSlot(s.disk, t.disk, slot);
      }
    }
    forall q | q in programs && q != p && IsAt(programs, s, q) && !s.clients[q].pc.Idle?
      ensures Agree(OpOf(programs, s, q), s.disk, t.disk) && Agree(OpOf(programs, s, q), r, r)
    {
      CallsAreApart(lockDir, programs, s, p, q);
      ReachesAreApart(op, OpOf(programs, s, q), s.disk, t.disk);
    }
    DiskOkAfter(sha, programs, d0, s, r, t, r, p);
  }

  /** What a call leaves: its planned effect within its reach, nothing elsewhere, and no record touched. */
  lemma AtomicEffect(sha: Sha256, d0: Disk, r: Disk, op: Op)
    requires IsCall(op) && Unreferenced(d0, op) && SameRecords(d0, r)
    ensures Atomic(sha, r, op) == (Run(r, PlanOf(sha, r, op).steps), PlanOf(sha, r, op).outcome)
    ensures forall s | !InReach(op, s) :: SameSlot(r, Atomic(sha, r, op).0, s)
    ensures SameRecords(d0, Atomic(sha, r, op).0)
    ensures !IsWriter(op) ==> Atomic(sha, r, op).0 == r
  {
    assert Unreferenced(r, op) by {
      if op.DeleteOp? {
        forall s | s in ShardSlots(r, op.hash) ensures s in ShardSlots(d0, op.hash) {}
      }
    }
    PlanIsAtomic(sha, r, op);
    PlanInReach(sha, r, op);
    RunInReach(op, r, r, PlanOf(sha, r, op).steps);
    PlanShape(sha, r, op);
    hide PlanOf, Atomic;
    var r' := Atomic(sha, r, op).0;
    forall s: Slot | s.Record? || s.RecordShard? ensures s in d0 <==> s in r' {
      assert SameSlot(r, r', s);
    }
  }

  /** Returning from a call makes its effect part of the serial run. */
  lemma FinishStep(sha: Sha256, lockDir: Path, programs: Programs, d0: Disk, s: System, r: Disk, p: nat,
                   outcome: Outcome)
    requires AllCalls(programs) && PrivateSources(programs) && NothingToSweep(programs, d0)
    requires Bookkept(lockDir, programs, s) && DiskOk(sha, programs, d0, s, r) && IsAt(programs, s, p)
    requires match s.clients[p].pc
             case Working(pending, planned) => pending == [] && outcome == planned
             case Streaming(actual, got) => outcome == OfStream(actual, got)
             case _ => false
    ensures var op := OpOf(programs, s, p);
            && DiskOk(sha, programs, d0, Finish(lockDir, s, p, op, outcome), Atomic(sha, r, op).0)
            && Matches(outcome, Atomic(sha, r, op).1) && !outcome.TimedOut?
  {
    PlanShape(sha, r, OpOf(programs, s, p));
    hide Bookkept, PlanOf, Atomic, InReach, SameRecords, StepInReach;
    var op := OpOf(programs, s, p);
    var t := Finish(lockDir, s, p, op, outcome);
    assert PhaseOk(sha, s.disk, r, op, s.clients[p].pc);
    AtomicEffect(sha, d0, r, op);
    var r' := Atomic(sha, r, op).0;
    assert s.clients[p].pc.Working? ==> Agree(op, s.disk, r');
    forall slot ensures InHand(programs, t, slot) || SameSlot(t.disk, r', slot) {
      if !IsWriter(op) || !InReach(op, slot) {
        assert SameSlot(r, r', slot);
        if InHand(programs, s, slot) {
          InHandKept(programs, s, t, p, slot);
        }
      }
    }
    forall q | q in programs && q != p && IsAt(programs, s, q) && !s.clients[q].pc.Idle?
      ensures Agree(OpOf(programs, s, q), s.disk, t.disk) && Agree(OpOf(programs, s, q), r, r')
    {
      if IsWriter(op) {
        CallsAreApart(lockDir, programs, s, p, q);
        ReachesAreApart(op, OpOf(programs, s, q), r, r');
      }
    }
    DiskOkAfter(sha, programs, d0, s, r, t, r', p);
  }

  // Runs

  lemma LogGrows(sha: Sha256, d: Disk, log: seq<Entry>, e: Entry)
    requires (forall i | 0 <= i < |log| :: IsCall(log[i].op)) && IsCall(e.op) && Justified(sha, d, log)
    ensures e.outcome.TimedOut? ==> Replay(sha, d, log + [e]) == Replay(sha, d, log) && Justified(sha, d, log + [e])
    ensures !e.outcome.TimedOut? ==>
              && Replay(sha, d, log + [e]) == Atomic(sha, Replay(sha, d, log), e.op).0
              && (Matches(e.outcome, Atomic(sha, Replay(sha, d, log), e.op).1) ==> Justified(sha, d, log + [e]))
  {
    hide Atomic, Matches;
    assert (log + [e])[..|log|] == log;
  }

  lemma ReturnStep(sha: Sha256, lockDir: Path, programs: Programs, d0: Disk, s: System, p: nat, outcome: Outcome)
    requires AllCalls(programs) && PrivateSources(programs) && NothingToSweep(programs, d0)
    requires Inv(sha, lockDir, programs, d0, s) && IsAt(programs, s, p)
    requires match s.clients[p].pc
             case Working(pending, planned) => pending == [] && outcome == planned
             case Streaming(actual, got) => outcome == OfStream(actual, got)
             case _ => false
    ensures var t := Finish(lockDir, s, p, OpOf(programs, s, p), outcome);
            Bookkept(lockDir, programs, t) ==> Inv(sha, lockDir, programs, d0, t)
  {
    var r := Replay(sha, d0, s.log);
    FinishStep(sha, lockDir, programs, d0, s, r, p, outcome);
    LogGrows(sha, d0, s.log, Entry(p, OpOf(programs, s, p), outcome));
    hide Bookkept, DiskOk, Replay, Justified, Atomic;
  }

  lemma LogsAreCalls(sha: Sha256, lockDir: Path, programs: Programs, d0: Disk, s: System)
    requires AllCalls(programs) && Inv(sha, lockDir, programs, d0, s)
    ensures forall i | 0 <= i < |s.log| :: IsCall(s.log[i].op)
    ensures Justified(sha, d0, s.log) && DiskOk(sha, programs, d0, s, Replay(sha, d0, s.log))
    ensures Bookkept(lockDir, programs, s)
  {}

  /** What is left to show of a step that keeps the books. */
  lemma InvAgain(sha: Sha256, lockDir: Path, programs: Programs, d0: Disk, s: System)
    requires AllCalls(programs) && Bookkept(lockDir, programs, s)
    requires (forall i | 0 <= i < |s.log| :: IsCall(s.log[i].op)) && Justified(sha, d0, s.log)
    requires DiskOk(sha, programs, d0, s, Replay(sha, d0, s.log))
    ensures Inv(sha, lockDir, programs, d0, s)
  {}

  lemma WaitStep(sha: Sha256, lockDir: Path, programs: Programs, d0: Disk, s: System, e: Event)
    requires AllCalls(programs) && Inv(sha, lockDir, programs, d0, s)
    requires IsAt(programs, s, e.client) && s.clients[e.client].pc.Idle?
    ensures var t := Next(sha, lockDir, programs, s, e);
            Bookkept(lockDir, programs, t) ==> Inv(sha, lockDir, programs, d0, t)
  {
    hide Inv, Bookkept, DiskOk, Replay, Justified, Locked, CanLock, LockPath;
    LogsAreCalls(sha, lockDir, programs, d0, s);
    var p, t := e.client, Next(sha, lockDir, programs, s, e);
    if e.act.Try? {
      QuietStep(sha, programs, d0, s, Replay(sha, d0, s.log), t, p);
    } else if e.act.GiveUp? {
      LogGrows(sha, d0, s.log, Entry(p, OpOf(programs, s, p), TimedOut));
      QuietStep(sha, programs, d0, s, Replay(sha, d0, s.log), t, p);
    }
    if Bookkept(lockDir, programs, t) {
      InvAgain(sha, lockDir, programs, d0, t);
    }
  }

  /** Looking, writing and reading. */
  lemma InsideStep(sha: Sha256, lockDir: Path, programs: Programs, d0: Disk, s: System, e: Event)
    requires AllCalls(programs) && PrivateSources(programs) && Inv(sha, lockDir, programs, d0, s)
    requires IsAt(programs, s, e.client)
    requires match s.clients[e.client].pc
             case Granted => e.act.DoStep?
             case Working(pending, _) => e.act.DoStep? && pending != []
             case Streaming(_, _) => e.act.Read?
             case Idle => false
    ensures var t := Next(sha, lockDir, programs, s, e);
            Bookkept(lockDir, programs, t) ==> Inv(sha, lockDir, programs, d0, t)
  {
    hide Inv, Bookkept, DiskOk, Replay, Justified, PlanOf, Piece, LockPath, Apply, PrivateSources;
    LogsAreCalls(sha, lockDir, programs, d0, s);
    var p, r := e.client, Replay(sha, d0, s.log);
    match s.clients[p].pc {
      case Granted => LookStep(sha, lockDir, programs, d0, s, r, p);
      case Working(_, _) => WriteStep(sha, lockDir, programs, d0, s, r, p);
      case Streaming(_, _) => ReadStep(sha, lockDir, programs, d0, s, r, p, e.act.n);
    }
    if Bookkept(lockDir, programs, Next(sha, lockDir, programs, s, e)) {
      InvAgain(sha, lockDir, programs, d0, Next(sha, lockDir, programs, s, e));
    }
  }

  lemma InvStep(sha: Sha256, lockDir: Path, programs: Programs, d0: Disk, s: System, e: Event)
    requires AllCalls(programs) && PrivateSources(programs) && NothingToSweep(programs, d0)
    requires Inv(sha, lockDir, programs, d0, s)
    ensures Inv(sha, lockDir, programs, d0, Next(sha, lockDir, programs, s, e))
  {
    hide Inv, Bookkept, PlanOf, Piece, Finish, Locked, CanLock, LockPath, PrivateSources, NothingToSweep;
    LogsAreCalls(sha, lockDir, programs, d0, s);
    BooksStep(sha, lockDir, programs, s, e);
    var p := e.client;
    if IsAt(programs, s, p) {
      match s.clients[p].pc
      case Idle => WaitStep(sha, lockDir, programs, d0, s, e);
      case Granted =>
        if e.act.DoStep? {
          InsideStep(sha, lockDir, programs, d0, s, e);
        }
      case Working(pending, outcome) =>
        if e.act.DoStep? && pending == [] {
          ReturnStep(sha, lockDir, programs, d0, s, p, outcome);
        } else if e.act.DoStep? {
          InsideStep(sha, lockDir, programs, d0, s, e);
        }
      case Streaming(actual, got) =>
        if e.act.Read? {
          InsideStep(sha, lockDir, programs, d0, s, e);
        } else if e.act.Close? {
          ReturnStep(sha, lockDir, programs, d0, s, p, OfStream(actual, got));
        }
    }
  }

  lemma StartsInv(sha: Sha256, lockDir: Path, programs: Programs, d0: Disk)
    requires AllCalls(programs)
    ensures Inv(sha, lockDir, programs, d0, Start(d0, programs))
  {
    assert AllHeld(lockDir, programs, Start(d0, programs)) == map p | p in programs :: Nothing<Path>();
  }

  lemma {:induction false} InvRun(sha: Sha256, lockDir: Path, programs: Programs, d0: Disk, s: System,
                                  schedule: seq<Event>)
    requires AllCalls(programs) && PrivateSources(programs) && NothingToSweep(programs, d0)
    requires Inv(sha, lockDir, programs, d0, s)
    ensures Inv(sha, lockDir, programs, d0, After(sha, lockDir, programs, s, schedule))
    decreases |schedule|
  {
    hide NothingToSweep, PrivateSources, Inv;
    if schedule != [] {
      InvRun(sha, lockDir, programs, d0, s, schedule[..|schedule| - 1]);
      InvStep(sha, lockDir, programs, d0, After(sha, lockDir, programs, s, schedule[..|schedule| - 1]),
              schedule[|schedule| - 1]);
    }
  }

  /** A client is between calls when it holds nothing and no stream of its is open. */
  predicate AllIdle(s: System) {
    forall p | p in s.clients :: s.clients[p].pc.Idle?
  }

  lemma IdleIsSerial(sha: Sha256, lockDir: Path, programs: Programs, d0: Disk, s: System)
    requires AllCalls(programs) && Inv(sha, lockDir, programs, d0, s) && AllIdle(s)
    ensures s.disk == Replay(sha, d0, s.log) && s.locks == map[]
  {
    hide Atomic, Justified, CallsOf, Accurate, SameRecords, PhaseOk, Replay;
    AllFree(s.locks, AllHeld(lockDir, programs, s));
    forall slot: Slot ensures SameSlot(s.disk, Replay(sha, d0, s.log), slot) {
      assert !InHand(programs, s, slot);
    }
    SlotBySlot(s.disk, Replay(sha, d0, s.log));
  }

  lemma SlotBySlot(d: Disk, e: Disk)
    requires forall slot :: SameSlot(d, e, slot)
    ensures d == e
  {
    assert d.Keys == e.Keys by {
      forall slot: Slot ensures slot in d <==> slot in e {
        assert SameSlot(d, e, slot);
      }
    }
    forall slot | slot in d ensures d[slot] == e[slot] {
      assert SameSlot(d, e, slot);
    }
  }

  /** The calls that have returned have the results of running them one after the other. */
  ghost predicate IsSerial(sha: Sha256, programs: Programs, d0: Disk, s: System) {
    && (forall i | 0 <= i < |s.log| :: IsCall(s.log[i].op))
    && Justified(sha, d0, s.log)
    && s.clients.Keys == programs.Keys
    && (forall p | p in programs :: s.clients[p].next <= |programs[p]|
                                    && CallsOf(s.log, p) == programs[p][..s.clients[p].next])
  }

  /**
   * Main result: under every interleaving, the calls that have returned have the results of running them
   * one after the other, in the order in which they returned; that order keeps each client's own; and
   * whenever no call is under way the disk is the one that this serial run leaves, and every lock is free.
   */
  lemma RunsAreSerializable(sha: Sha256, lockDir: Path, programs: Programs, d0: Disk, schedule: seq<Event>)
    requires AllCalls(programs) && PrivateSources(programs) && NothingToSweep(programs, d0)
    ensures var s := After(sha, lockDir, programs, Start(d0, programs), schedule);
            && IsSerial(sha, programs, d0, s)
            && (AllIdle(s) ==> s.disk == Replay(sha, d0, s.log) && s.locks == map[])
  {
    hide Replay, Justified, CallsOf, DiskOk, Accurate, AllIdle;
    StartsInv(sha, lockDir, programs, d0);
    InvRun(sha, lockDir, programs, d0, Start(d0, programs), schedule);
    var s := After(sha, lockDir, programs, Start(d0, programs), schedule);
    if AllIdle(s) {
      IdleIsSerial(sha, lockDir, programs, d0, s);
    }
  }

  /** One writer or only readers: while a writer is inside its call, nobody else is inside one on its hash. */
  lemma WritersAreAlone(sha: Sha256, lockDir: Path, programs: Programs, d0: Disk, schedule: seq<Event>, p: nat, q: nat)
    requires AllCalls(programs) && PrivateSources(programs) && NothingToSweep(programs, d0)
    requires var s := After(sha, lockDir, programs, Start(d0, programs), schedule);
             && IsAt(programs, s, p) && IsAt(programs, s, q) && p != q
             && !s.clients[p].pc.Idle? && !s.clients[q].pc.Idle? && IsWriter(OpOf(programs, s, p))
    ensures var s := After(sha, lockDir, programs, Start(d0, programs), schedule);
            OpOf(programs, s, p).hash != OpOf(programs, s, q).hash
  {
    StartsInv(sha, lockDir, programs, d0);
    InvRun(sha, lockDir, programs, d0, Start(d0, programs), schedule);
    CallsAreApart(lockDir, programs, After(sha, lockDir, programs, Start(d0, programs), schedule), p, q);
  }

  // Streams

  /** Whatever step is taken, the reach of a reader inside its call stays as it is. */
  lemma ReaderKeepsItsView(sha: Sha256, lockDir: Path, programs: Programs, d0: Disk, s: System, e: Event, p: nat)
    requires AllCalls(programs) && PrivateSources(programs) && Inv(sha, lockDir, programs, d0, s)
    requires IsAt(programs, s, p) && !s.clients[p].pc.Idle? && !IsWriter(OpOf(programs, s, p))
    ensures Agree(OpOf(programs, s, p), s.disk, Next(sha, lockDir, programs, s, e).disk)
  {
    hide PlanOf, Piece, LockPath, Replay, Justified, SameRecords, InHand, Apply;
    var q := e.client;
    AgreeWithItself(OpOf(programs, s, p), s.disk);
    if IsAt(programs, s, q) && s.clients[q].pc.Working? && s.clients[q].pc.pending != [] {
      var other := OpOf(programs, s, q);
      assert PhaseOk(sha, s.disk, Replay(sha, d0, s.log), other, s.clients[q].pc);
      assert IsWriter(other);
      CallsAreApart(lockDir, programs, s, q, p);
      ApplyInReach(other, s.disk, s.disk, s.clients[q].pc.pending[0]);
      ReachesAreApart(other, OpOf(programs, s, p), s.disk, Apply(s.disk, s.clients[q].pc.pending[0]));
    }
  }

  lemma {:induction false} ViewIsKept(sha: Sha256, lockDir: Path, programs: Programs, d0: Disk, s: System,
                                      schedule: seq<Event>, p: nat)
    requires AllCalls(programs) && PrivateSources(programs) && NothingToSweep(programs, d0)
    requires Inv(sha, lockDir, programs, d0, s)
    requires IsAt(programs, s, p) && !s.clients[p].pc.Idle? && !IsWriter(OpOf(programs, s, p))
    ensures var t := After(sha, lockDir, programs, s, schedule);
            && p in t.clients && t.clients[p].next >= s.clients[p].next
            && (t.clients[p].next == s.clients[p].next ==>
                  !t.clients[p].pc.Idle? && Agree(OpOf(programs, s, p), s.disk, t.disk))
    decreases |schedule|
  {
    hide Inv, Agree, NothingToSweep, PrivateSources, PlanOf, LockPath;
    AgreeWithItself(OpOf(programs, s, p), s.disk);
    if schedule != [] {
      var n := |schedule| - 1;
      var t := After(sha, lockDir, programs, s, schedule[..n]);
      ViewIsKept(sha, lockDir, programs, d0, s, schedule[..n], p);
      InvRun(sha, lockDir, programs, d0, s, schedule[..n]);
      if t.clients[p].next == s.clients[p].next {
        ReaderKeepsItsView(sha, lockDir, programs, d0, t, schedule[n], p);
        AgreeIsTransitive(OpOf(programs, s, p), s.disk, t.disk, Next(sha, lockDir, programs, t, schedule[n]).disk);
      }
    }
  }

  lemma AgreeIsTransitive(op: Op, d: Disk, e: Disk, f: Disk)
    requires Agree(op, d, e) && Agree(op, e, f)
    ensures Agree(op, d, f)
  {
    forall s | InReach(op, s) ensures SameSlot(d, f, s) {
      assert SameSlot(d, e, s) && SameSlot(e, f, s);
    }
  }

  /**
   * Main result on streams: what a stream has delivered at any moment, in whatever pieces and whatever the
   * other clients did meanwhile, is a prefix of the requested slice of the blob as it was when the shared
   * lock was granted; and a stream from which nothing more can be read has delivered the whole slice.
   */
  lemma StreamsAreSnapshots(sha: Sha256, lockDir: Path, programs: Programs, d0: Disk, schedule: seq<Event>,
                            more: seq<Event>, p: nat)
    requires AllCalls(programs) && PrivateSources(programs) && NothingToSweep(programs, d0)
    requires var s := After(sha, lockDir, programs, Start(d0, programs), schedule);
             var t := After(sha, lockDir, programs, s, more);
             && IsAt(programs, s, p) && s.clients[p].pc.Granted? && OpOf(programs, s, p).ReadOp?
             && IsAt(programs, t, p) && t.clients[p].next == s.clients[p].next && t.clients[p].pc.Streaming?
    ensures var s := After(sha, lockDir, programs, Start(d0, programs), schedule);
            var Streaming(actual, got) := After(sha, lockDir, programs, s, more).clients[p].pc;
            var ReadOp(hash, req) := OpOf(programs, s, p);
            && Blob(hash) in s.disk
            && actual == ActualRange(|BytesAt(s.disk, hash)|, req)
            && got <= Delivered(BytesAt(s.disk, hash), req)
            && forall n: nat | n > 0 && Piece(After(sha, lockDir, programs, s, more).disk, hash, actual, got, n) == [] ::
                 got == Delivered(BytesAt(s.disk, hash), req)
  {
    hide Inv, Piece, Agree, PlanOf, Next, NothingToSweep, PrivateSources, Delivered;
    StartsInv(sha, lockDir, programs, d0);
    InvRun(sha, lockDir, programs, d0, Start(d0, programs), schedule);
    var s := After(sha, lockDir, programs, Start(d0, programs), schedule);
    InvRun(sha, lockDir, programs, d0, s, more);
    ViewIsKept(sha, lockDir, programs, d0, s, more, p);
    var t := After(sha, lockDir, programs, s, more);
    StreamMatchesDisk(sha, lockDir, programs, d0, t, p);
    StreamIsPlanned(sha, s.disk, t.disk, OpOf(programs, s, p), t.clients[p].pc);
  }

  lemma StreamIsPlanned(sha: Sha256, d: Disk, e: Disk, op: Op, pc: Pc)
    requires IsCall(op) && op.ReadOp? && Agree(op, d, e) && pc.Streaming?
    requires var outcome := PlanOf(sha, e, op).outcome;
             outcome.OfStream? && pc.actual == outcome.actual && pc.got <= outcome.bytes
    ensures Blob(op.hash) in d
    ensures pc.actual == ActualRange(|BytesAt(d, op.hash)|, op.req) && pc.got <= Delivered(BytesAt(d, op.hash), op.req)
    ensures forall n: nat | n > 0 && Piece(e, op.hash, pc.actual, pc.got, n) == [] ::
              pc.got == Delivered(BytesAt(d, op.hash), op.req)
  {
    PlanIsLocal(sha, d, e, op);
  }

  lemma StreamMatchesDisk(sha: Sha256, lockDir: Path, programs: Programs, d0: Disk, s: System, p: nat)
    requires AllCalls(programs) && PrivateSources(programs) && Inv(sha, lockDir, programs, d0, s)
    requires IsAt(programs, s, p) && s.clients[p].pc.Streaming?
    ensures var Streaming(actual, got) := s.clients[p].pc;
            var outcome := PlanOf(sha, s.disk, OpOf(programs, s, p)).outcome;
            OpOf(programs, s, p).ReadOp? && outcome.OfStream? && actual == outcome.actual && got <= outcome.bytes
  {
    hide PlanOf, LockPath, Justified, InHand;
    var r := Replay(sha, d0, s.log);
    SeesSerialDisk(sha, lockDir, programs, d0, s, r, p);
    PlanIsLocal(sha, s.disk, r, OpOf(programs, s, p));
    assert PhaseOk(sha, s.disk, r, OpOf(programs, s, p), s.clients[p].pc);
  }

  // Waiting

  function StepsLeft(pc: Pc): nat {
    match pc
    case Idle => 0
    case Granted => 1
    case Working(pending, _) => |pending| + 1
    case Streaming(_, _) => 1
  }

  /** The step that brings a client out of its call. */
  function Onward(pc: Pc): Act {
    if pc.Streaming? then Close else DoStep
  }

  lemma HolderCanGoOn(sha: Sha256, lockDir: Path, programs: Programs, s: System, p: nat) returns (q: nat)
    requires AllCalls(programs) && Bookkept(lockDir, programs, s)
    requires IsAt(programs, s, p) && s.clients[p].pc.Idle? && Next(sha, lockDir, programs, s, Event(p, Try)) == s
    ensures IsAt(programs, s, q) && !s.clients[q].pc.Idle? && OpOf(programs, s, q).hash == OpOf(programs, s, p).hash
    ensures var t := Next(sha, lockDir, programs, s, Event(q, Onward(s.clients[q].pc)));
            q in t.clients
            && if s.clients[q].pc.Granted? then !t.clients[q].pc.Granted? && !t.clients[q].pc.Idle?
               else StepsLeft(t.clients[q].pc) < StepsLeft(s.clients[q].pc)
  {
    hide PlanOf, LockPath, Accurate, CallsOf;
    q := SomeoneHolds(s.locks, AllHeld(lockDir, programs, s), LockPath(lockDir, OpOf(programs, s, p).hash));
    if OpOf(programs, s, q).hash != OpOf(programs, s, p).hash {
      LockPathsDiffer(lockDir, OpOf(programs, s, q).hash, OpOf(programs, s, p).hash);
    }
  }

  /**
   * Nobody waits for a waiting client: who cannot get its lock is kept out by a client that is inside a
   * call on the same hash, and that client's next step is always enabled and brings it nearer to the end.
   */
  lemma NobodyWaitsForAWaiter(sha: Sha256, lockDir: Path, programs: Programs, d0: Disk, schedule: seq<Event>, p: nat)
    returns (q: nat)
    requires AllCalls(programs) && PrivateSources(programs) && NothingToSweep(programs, d0)
    requires var s := After(sha, lockDir, programs, Start(d0, programs), schedule);
             && IsAt(programs, s, p) && s.clients[p].pc.Idle?
             && Next(sha, lockDir, programs, s, Event(p, Try)) == s
    ensures var s := After(sha, lockDir, programs, Start(d0, programs), schedule);
            && IsAt(programs, s, q) && !s.clients[q].pc.Idle? && OpOf(programs, s, q).hash == OpOf(programs, s, p).hash
            && var t := Next(sha, lockDir, programs, s, Event(q, Onward(s.clients[q].pc)));
            q in t.clients
            && if s.clients[q].pc.Granted? then !t.clients[q].pc.Granted? && !t.clients[q].pc.Idle?
               else StepsLeft(t.clients[q].pc) < StepsLeft(s.clients[q].pc)
  {
    hide Next, Bookkept, DiskOk, Justified, StepsLeft, Onward;
    StartsInv(sha, lockDir, programs, d0);
    InvRun(sha, lockDir, programs, d0, Start(d0, programs), schedule);
    q := HolderCanGoOn(sha, lockDir, programs, After(sha, lockDir, programs, Start(d0, programs), schedule), p);
  }
}
