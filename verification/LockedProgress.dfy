/** Clients of ConcurrentArtifactStorage get on: a call whose lock is free runs to its end, and readers share. */
module LockedProgress {
  import opened Digests
  import opened Layout
  import opened Ranges
  import opened Store
  import opened Locks
  import opened LockedRuns

  lemma {:induction false} AfterConcat(sha: Sha256, lockDir: Path, programs: Programs, s: System, a: seq<Event>, b: seq<Event>)
    requires AllCalls(programs)
    ensures After(sha, lockDir, programs, s, a + b) == After(sha, lockDir, programs, After(sha, lockDir, programs, s, a), b)
    decreases |b|
  {
    if b == [] {
      assert a + b == a;
    } else {
      assert (a + b)[..|a + b| - 1] == a + b[..|b| - 1];
      AfterConcat(sha, lockDir, programs, s, a, b[..|b| - 1]);
    }
  }

  lemma AfterFirst(sha: Sha256, lockDir: Path, programs: Programs, s: System, e: Event, rest: seq<Event>)
    requires AllCalls(programs)
    ensures After(sha, lockDir, programs, s, [e] + rest) ==
            After(sha, lockDir, programs, Next(sha, lockDir, programs, s, e), rest)
  {
    hide Next;
    assert [e][..0] == [];
    AfterConcat(sha, lockDir, programs, s, [e], rest);
    assert After(sha, lockDir, programs, s, [e]) == Next(sha, lockDir, programs, s, e);
  }

  ghost predicate AllOf(events: seq<Event>, p: nat) {
    forall i | 0 <= i < |events| :: events[i].client == p
  }

  /** The pending steps of a call, one by one, and then its return. */
  lemma {:induction false} WorkFinishes(sha: Sha256, lockDir: Path, programs: Programs, s: System, p: nat)
    returns (events: seq<Event>)
    requires AllCalls(programs) && IsAt(programs, s, p) && s.clients[p].pc.Working?
    ensures AllOf(events, p)
    ensures var Working(pending, outcome) := s.clients[p].pc;
            After(sha, lockDir, programs, s, events) ==
            Finish(lockDir, s.(disk := Run(s.disk, pending)), p, OpOf(programs, s, p), outcome)
    decreases |s.clients[p].pc.pending|
  {
    hide LockPath, Unlocked, Apply;
    var e := Event(p, DoStep);
    var t := Next(sha, lockDir, programs, s, e);
    if s.clients[p].pc.pending == [] {
      events := [e] + [];
      AfterFirst(sha, lockDir, programs, s, e, []);
    } else {
      var rest := WorkFinishes(sha, lockDir, programs, t, p);
      events := [e] + rest;
      AfterFirst(sha, lockDir, programs, s, e, rest);
    }
  }

  lemma WholePiece(d: Disk, hash: string, req: ByteRange)
    requires Blob(hash) in d
    ensures var b := BytesAt(d, hash);
            Piece(d, hash, ActualRange(|b|, req), [], |Delivered(b, req)|) == Delivered(b, req)
  {}

  /** A stream that is read to its end in one piece and closed. */
  lemma StreamFinishes(sha: Sha256, lockDir: Path, programs: Programs, s: System, p: nat) returns (events: seq<Event>)
    requires AllCalls(programs) && IsAt(programs, s, p) && s.clients[p].pc.Streaming? && s.clients[p].pc.got == []
    requires var op := OpOf(programs, s, p); Blob(op.hash) in s.disk && op.ReadOp?
    requires var op := OpOf(programs, s, p); s.clients[p].pc.actual == ActualRange(|BytesAt(s.disk, op.hash)|, op.req)
    ensures AllOf(events, p)
    ensures var op := OpOf(programs, s, p);
            After(sha, lockDir, programs, s, events) ==
            Finish(lockDir, s, p, op, OfStream(s.clients[p].pc.actual, Delivered(BytesAt(s.disk, op.hash), op.req)))
  {
    hide LockPath, Unlocked, ActualRange, Delivered, Piece, PlanOf, Apply, Locked, CanLock;
    var op, actual := OpOf(programs, s, p), s.clients[p].pc.actual;
    var whole := Delivered(BytesAt(s.disk, op.hash), op.req);
    var read, close := Event(p, Read(|whole|)), Event(p, Close);
    assert [] + whole == whole;
    WholePiece(s.disk, op.hash, op.req);
    var t := Next(sha, lockDir, programs, s, read);
    assert t == s.(clients := s.clients[p := s.clients[p].(pc := Streaming(actual, whole))]);
    AfterFirst(sha, lockDir, programs, t, close, []);
    AfterFirst(sha, lockDir, programs, s, read, [close] + []);
    events := [read] + ([close] + []);
  }

  /** What a call leaves that nobody interrupts: the disk and outcome of its plan, the locks as they were. */
  predicate IsCallOf(s: System, t: System, p: nat, op: Op, plan: CallPlan)
    requires p in s.clients
  {
    && t.disk == Run(s.disk, plan.steps)
    && t.locks == s.locks
    && t.clients == s.clients[p := Client(s.clients[p].next + 1, Idle)]
    && t.log == s.log + [Entry(p, op, plan.outcome)]
  }

  lemma StreamPlan(sha: Sha256, d: Disk, op: Op)
    requires IsCall(op) && PlanOf(sha, d, op).outcome.OfStream?
    ensures op.ReadOp? && Blob(op.hash) in d
    ensures PlanOf(sha, d, op).steps == []
    ensures var b := BytesAt(d, op.hash); PlanOf(sha, d, op).outcome == OfStream(ActualRange(|b|, op.req), Delivered(b, op.req))
  {}

  /** Where a client is once it has looked at the disk. */
  function Looked(plan: CallPlan): Pc {
    if plan.outcome.OfStream? then Streaming(plan.outcome.actual, []) else Working(plan.steps, plan.outcome)
  }

  lemma LookStep(sha: Sha256, lockDir: Path, programs: Programs, s: System, p: nat)
    requires AllCalls(programs) && IsAt(programs, s, p) && s.clients[p].pc.Granted?
    ensures Next(sha, lockDir, programs, s, Event(p, DoStep)) ==
            s.(clients := s.clients[p := s.clients[p].(pc := Looked(PlanOf(sha, s.disk, OpOf(programs, s, p))))])
  {
    hide LockPath, Unlocked, Run, ActualRange, Delivered, PlanOf, Piece, Apply, Locked, CanLock;
  }

  lemma SameFinish(lockDir: Path, s: System, p: nat, op: Op, pc: Pc, d: Disk, outcome: Outcome)
    requires p in s.clients
    ensures Finish(lockDir, s.(clients := s.clients[p := s.clients[p].(pc := pc)], disk := d), p, op, outcome) ==
            Finish(lockDir, s.(disk := d), p, op, outcome)
  {
    hide LockPath, Unlocked;
  }

  lemma GrantedFinishes(sha: Sha256, lockDir: Path, programs: Programs, s: System, p: nat) returns (events: seq<Event>)
    requires AllCalls(programs) && IsAt(programs, s, p) && s.clients[p].pc.Granted?
    ensures AllOf(events, p)
    ensures var op := OpOf(programs, s, p);
            var plan := PlanOf(sha, s.disk, op);
            After(sha, lockDir, programs, s, events) == Finish(lockDir, s.(disk := Run(s.disk, plan.steps)), p, op, plan.outcome)
  {
    hide LockPath, Unlocked, Run, ActualRange, Delivered, PlanOf, Next, Finish, After;
    var op := OpOf(programs, s, p);
    var plan := PlanOf(sha, s.disk, op);
    var look := Event(p, DoStep);
    LookStep(sha, lockDir, programs, s, p);
    var t := Next(sha, lockDir, programs, s, look);
    var rest;
    if plan.outcome.OfStream? {
      StreamPlan(sha, s.disk, op);
      rest := StreamFinishes(sha, lockDir, programs, t, p);
      NothingRuns(s.disk);
    } else {
      rest := WorkFinishes(sha, lockDir, programs, t, p);
    }
    SameFinish(lockDir, s, p, op, Looked(plan), Run(s.disk, plan.steps), plan.outcome);
    events := [look] + rest;
    AfterFirst(sha, lockDir, programs, s, look, rest);
  }

  lemma NothingRuns(d: Disk)
    ensures Run(d, []) == d
  {}

  /**
   * Progress: whenever the lock of a waiting client's call is free, the client's own steps bring the call to
   * its end, with the outcome and the disk of one operation of the storage, and all locks as they were.
   */
  lemma CallsComplete(sha: Sha256, lockDir: Path, programs: Programs, d0: Disk, schedule: seq<Event>, p: nat)
    returns (events: seq<Event>)
    requires AllCalls(programs) && PrivateSources(programs) && NothingToSweep(programs, d0)
    requires var s := After(sha, lockDir, programs, Start(d0, programs), schedule);
             && IsAt(programs, s, p) && s.clients[p].pc.Idle?
             && CanLock(s.locks, LockPath(lockDir, OpOf(programs, s, p).hash), IsWriter(OpOf(programs, s, p)))
    ensures AllOf(events, p)
    ensures var s := After(sha, lockDir, programs, Start(d0, programs), schedule);
            var t := After(sha, lockDir, programs, Start(d0, programs), schedule + events);
            var op := OpOf(programs, s, p);
            && IsCallOf(s, t, p, op, PlanOf(sha, s.disk, op))
            && !PlanOf(sha, s.disk, op).outcome.TimedOut?
            && (Unreferenced(s.disk, op) ==> (t.disk, t.log[|s.log|].outcome) == Atomic(sha, s.disk, op))
  {
    hide LockPath, Unlocked, Locked, Run, PlanOf, Atomic, Inv, Accurate, After, Unreferenced, Finish;
    StartsInv(sha, lockDir, programs, d0);
    InvRun(sha, lockDir, programs, d0, Start(d0, programs), schedule);
    var s := After(sha, lockDir, programs, Start(d0, programs), schedule);
    var op := OpOf(programs, s, p);
    var attempt := Event(p, Try);
    var t := Next(sha, lockDir, programs, s, attempt);
    var rest := GrantedFinishes(sha, lockDir, programs, t, p);
    events := [attempt] + rest;
    AfterFirst(sha, lockDir, programs, s, attempt, rest);
    AfterConcat(sha, lockDir, programs, Start(d0, programs), schedule, events);
    FreedAgain(sha, lockDir, programs, d0, s, p);
    FinishedCall(lockDir, s, t, p, op, PlanOf(sha, s.disk, op));
    OutcomeIsReal(sha, s.disk, op);
    if Unreferenced(s.disk, op) {
      PlanIsAtomic(sha, s.disk, op);
    }
  }

  lemma FinishedCall(lockDir: Path, s: System, t: System, p: nat, op: Op, plan: CallPlan)
    requires p in s.clients && CanLock(s.locks, LockPath(lockDir, op.hash), IsWriter(op))
    requires t == s.(locks := Locked(s.locks, LockPath(lockDir, op.hash), p, IsWriter(op)),
                     clients := s.clients[p := s.clients[p].(pc := Granted)])
    requires Unlocked(t.locks, LockPath(lockDir, op.hash), p) == s.locks
    ensures IsCallOf(s, Finish(lockDir, t.(disk := Run(t.disk, plan.steps)), p, op, plan.outcome), p, op, plan)
  {
    hide LockPath, Locked, Unlocked, Run;
  }

  lemma OutcomeIsReal(sha: Sha256, d: Disk, op: Op)
    requires IsCall(op)
    ensures !PlanOf(sha, d, op).outcome.TimedOut?
  {}

  lemma FreedAgain(sha: Sha256, lockDir: Path, programs: Programs, d0: Disk, s: System, p: nat)
    requires AllCalls(programs) && Inv(sha, lockDir, programs, d0, s) && IsAt(programs, s, p) && s.clients[p].pc.Idle?
    requires CanLock(s.locks, LockPath(lockDir, OpOf(programs, s, p).hash), IsWriter(OpOf(programs, s, p)))
    ensures var op, key := OpOf(programs, s, p), LockPath(lockDir, OpOf(programs, s, p).hash);
            Unlocked(Locked(s.locks, key, p, IsWriter(op)), key, p) == s.locks
  {
    hide LockPath, Justified, DiskOk, CallsOf, Unlocked, Locked;
    var op, key := OpOf(programs, s, p), LockPath(lockDir, OpOf(programs, s, p).hash);
    var mine := AllHeld(lockDir, programs, s)[p];
    assert mine == Nothing();
    assert key in s.locks && p in s.locks[key].holders ==> key in mine.shared;
    LockThenUnlock(s.locks, key, p, IsWriter(op));
  }

  /**
   * Readers share: a call that only reads is kept out by a writer, and by nothing else. With
   * NobodyWaitsForAWaiter, every client that waits does so for a call that can go on.
   */
  lemma ReadersWaitForWritersOnly(sha: Sha256, lockDir: Path, programs: Programs, d0: Disk, schedule: seq<Event>, p: nat)
    requires AllCalls(programs) && PrivateSources(programs) && NothingToSweep(programs, d0)
    requires var s := After(sha, lockDir, programs, Start(d0, programs), schedule);
             && IsAt(programs, s, p) && s.clients[p].pc.Idle?
    ensures var s := After(sha, lockDir, programs, Start(d0, programs), schedule);
            var key, op := LockPath(lockDir, OpOf(programs, s, p).hash), OpOf(programs, s, p);
            CanLock(s.locks, key, IsWriter(op))
            <==> forall q | q in programs && IsAt(programs, s, q) && !s.clients[q].pc.Idle?
                            && OpOf(programs, s, q).hash == op.hash ::
                   (op.ReadOp? || op.MetaOp?) && (OpOf(programs, s, q).ReadOp? || OpOf(programs, s, q).MetaOp?)
  {
    hide LockPath, Justified, DiskOk, CallsOf, After;
    StartsInv(sha, lockDir, programs, d0);
    InvRun(sha, lockDir, programs, d0, Start(d0, programs), schedule);
    var s := After(sha, lockDir, programs, Start(d0, programs), schedule);
    FreeIffCompatible(lockDir, programs, s, p);
  }

  predicate OnlyReads(op: Op) {
    op.ReadOp? || op.MetaOp?
  }

  lemma FreeIffCompatible(lockDir: Path, programs: Programs, s: System, p: nat)
    requires AllCalls(programs) && Bookkept(lockDir, programs, s) && IsAt(programs, s, p) && s.clients[p].pc.Idle?
    ensures var key, op := LockPath(lockDir, OpOf(programs, s, p).hash), OpOf(programs, s, p);
            CanLock(s.locks, key, IsWriter(op))
            <==> forall q | q in programs && IsAt(programs, s, q) && !s.clients[q].pc.Idle? && OpOf(programs, s, q).hash == op.hash ::
                   OnlyReads(op) && OnlyReads(OpOf(programs, s, q))
  {
    hide LockPath, CallsOf;
    var op, key := OpOf(programs, s, p), LockPath(lockDir, OpOf(programs, s, p).hash);
    var held := AllHeld(lockDir, programs, s);
    if CanLock(s.locks, key, IsWriter(op)) {
      forall q | q in programs && IsAt(programs, s, q) && !s.clients[q].pc.Idle? && OpOf(programs, s, q).hash == op.hash
        ensures OnlyReads(op) && OnlyReads(OpOf(programs, s, q))
      {
        assert Holds(held[q], key);
      }
    } else {
      var q := SomeoneHolds(s.locks, held, key);
      if OpOf(programs, s, q).hash != op.hash {
        LockPathsDiffer(lockDir, OpOf(programs, s, q).hash, op.hash);
      }
      assert IsWriter(op) || s.locks[key].Exclusive?;
    }
  }
}
