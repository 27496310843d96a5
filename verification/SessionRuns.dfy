/**
 * Upload sessions under concurrency: any number of starts, chunks, completions and clean-ups, interleaved
 * between their lock operations. Two levels of locks: the mutex of the session map, and one per session.
 */
module SessionRuns {
  import opened Digests
  import opened Store
  import opened Uploads
  import opened Locks

  /** `uuid` and `file` are the names a start comes up with; a session is known by the number of its start. */
  datatype Request =
    | StartReq(name: string, uuid: string, file: string, now: int)
    | ChunkReq(name: string, uuid: string)
    | CompleteReq(name: string, uuid: string)
    | SweepReq(now: int)

  type Requests = map<nat, Request>

  /**
   * The fields of a session that change, and its history, on which no step depends: the chunk streams it
   * has taken in the order of its lock, who is copying into it, who has taken it out of the map, and how
   * often its file has been removed.
   */
  datatype Upload = Upload(file: Option<string>, offset: int, chunks: seq<Reader>, copier: Option<nat>,
                           claims: seq<nat>, removals: nat)

  datatype LockName = SessionsMutex | SessionMutex(session: nat)

  datatype Pc =
    | Begin
    | Waiting
    | Inside
    | Found(session: nat)
    | Owning(session: nat)
    | Copying(session: nat, got: Bytes)
    | Publishing(session: nat)
    | Discarding(session: nat, result: Result<int>)
    | Removing(session: nat, result: Result<int>)
    | Sweeping(todo: set<string>)
    | Dropping(todo: set<string>, session: nat)
    | Dropped(todo: set<string>, session: nat)
    | Done(result: Result<int>)

  datatype State = State(files: map<string, Bytes>, uploads: map<nat, Upload>, sessions: map<string, nat>)

  datatype System = System(state: State, locks: LockTable<LockName>, pcs: map<nat, Pc>)

  /** `Deliver` is a piece of a chunk stream that arrives, `End` the end of the stream. */
  datatype Act = Go | Deliver(data: Bytes) | End(fails: bool) | Pick(uuid: string)

  /** How a step goes on: not at all, to another point, to it once a lock is free, or releasing a lock. */
  datatype Move =
    | Stay
    | Goto(pc: Pc)
    | Take(lock: LockName, exclusive: bool, pc: Pc)
    | Give(lock: LockName, pc: Pc)

  datatype Event = Event(process: nat, act: Act)

  /** The file of a session, unless it has been discarded. */
  function FileOf(s: State, id: nat): Option<string> {
    if id in s.uploads then s.uploads[id].file else None
  }

  /** os.CreateTemp and the new session of process `p`. */
  function Created(s: State, p: nat, file: string): State {
    s.(files := s.files[file := []], uploads := s.uploads[p := Upload(Some(file), 0, [], None, [], 0)])
  }

  /** The body of discard: close and remove the file unless that has been done. */
  function Discarded(s: State, id: nat): State {
    match FileOf(s, id)
    case None => s
    case Some(f) =>
      var up := s.uploads[id];
      s.(files := s.files - {f}, uploads := s.uploads[id := up.(file := None, removals := up.removals + 1)])
  }

  /** io.Copy returns: only a copy that has not failed advances the offset. */
  function Ended(s: State, id: nat, got: Bytes, fails: bool): State
    requires id in s.uploads
  {
    var up := s.uploads[id].(chunks := s.uploads[id].chunks + [Reader(got, fails)], copier := None);
    s.(uploads := s.uploads[id := if fails then up else up.(offset := up.offset + |got|)])
  }

  /** Process `p` takes the session under `uuid` out of the map. */
  function Unmapped(s: State, uuid: string, p: nat): State {
    if uuid !in s.sessions || s.sessions[uuid] !in s.uploads then s
    else
      var id := s.sessions[uuid];
      var up := s.uploads[id];
      s.(sessions := s.sessions - {uuid}, uploads := s.uploads[id := up.(claims := up.claims + [p])])
  }

  function StartStep(s: State, p: nat, req: Request, pc: Pc, act: Act): (State, Move)
    requires req.StartReq?
  {
    match (pc, act)
    case (Begin, Go) => (Created(s, p, req.file), Goto(Waiting))
    case (Waiting, Go) => (s, Take(SessionsMutex, true, Inside))
    case (Inside, Go) => (s.(sessions := s.sessions[req.uuid := p]), Give(SessionsMutex, Done(Ok(0))))
    case _ => (s, Stay)
  }

  function ChunkStep(reqs: Requests, s: State, p: nat, req: Request, pc: Pc, act: Act): (State, Move)
    requires req.ChunkReq?
  {
    match (pc, act)
    case (Begin, Go) => (s, Take(SessionsMutex, false, Inside))
    case (Inside, Go) =>
      (s, Give(SessionsMutex,
               if req.uuid !in s.sessions then Done(Err(SessionNotFound))
               else if NameOf(reqs, s.sessions[req.uuid]) != req.name then Done(Err(NameMismatch))
               else Found(s.sessions[req.uuid])))
    case (Found(id), Go) => (s, Take(SessionMutex(id), true, Owning(id)))
    case (Owning(id), Go) =>
      if FileOf(s, id).None? then (s, Give(SessionMutex(id), Done(Err(SessionClosed))))
      else (s.(uploads := s.uploads[id := s.uploads[id].(copier := Some(p))]), Goto(Copying(id, [])))
    case (Copying(id, got), Deliver(data)) =>
      (match FileOf(s, id)
       case Some(f) =>
         if f in s.files then (s.(files := s.files[f := s.files[f] + data]), Goto(Copying(id, got + data))) else (s, Stay)
       case None => (s, Stay))
    case (Copying(id, got), End(fails)) =>
      if id !in s.uploads then (s, Stay)
      else
        var t := Ended(s, id, got, fails);
        (t, Give(SessionMutex(id), Done(if fails then Err(ReadFailed) else Ok(t.uploads[id].offset))))
    case _ => (s, Stay)
  }

  /** What PutBlob makes of the file and the final chunk is not followed here. */
  function CompleteStep(reqs: Requests, s: State, p: nat, req: Request, pc: Pc, act: Act): (State, Move)
    requires req.CompleteReq?
  {
    match (pc, act)
    case (Begin, Go) => (s, Take(SessionsMutex, true, Inside))
    case (Inside, Go) =>
      if req.uuid !in s.sessions then (s, Give(SessionsMutex, Done(Err(SessionNotFound))))
      else
        var id := s.sessions[req.uuid];
        (Unmapped(s, req.uuid, p),
         Give(SessionsMutex, if NameOf(reqs, id) != req.name then Discarding(id, Err(NameMismatch)) else Found(id)))
    case (Found(id), Go) => (s, Take(SessionMutex(id), true, Owning(id)))
    case (Owning(id), Go) =>
      (s, Give(SessionMutex(id), if FileOf(s, id).None? then Discarding(id, Err(SessionClosed)) else Publishing(id)))
    case (Publishing(id), Go) => (s, Goto(Discarding(id, Ok(0))))
    case (Discarding(id, result), Go) => (s, Take(SessionMutex(id), true, Removing(id, result)))
    case (Removing(id, result), Go) => (Discarded(s, id), Give(SessionMutex(id), Done(result)))
    case _ => (s, Stay)
  }

  function SweepStep(reqs: Requests, s: State, p: nat, req: Request, pc: Pc, act: Act): (State, Move)
    requires req.SweepReq?
  {
    match (pc, act)
    case (Begin, Go) => (s, Take(SessionsMutex, true, Sweeping(s.sessions.Keys)))
    case (Sweeping(todo), Go) => (s, if todo == {} then Give(SessionsMutex, Done(Ok(0))) else Stay)
    case (Sweeping(todo), Pick(u)) =>
      if u !in todo then (s, Stay)
      else if u in s.sessions && req.now - CreatedAt(reqs, s.sessions[u]) > HOUR then
        (Unmapped(s, u, p), Goto(Dropping(todo - {u}, s.sessions[u])))
      else (s, Goto(Sweeping(todo - {u})))
    case (Dropping(todo, id), Go) => (s, Take(SessionMutex(id), true, Dropped(todo, id)))
    case (Dropped(todo, id), Go) => (Discarded(s, id), Give(SessionMutex(id), Sweeping(todo)))
    case _ => (s, Stay)
  }

  function NameOf(reqs: Requests, id: nat): string {
    if id in reqs && reqs[id].StartReq? then reqs[id].name else ""
  }

  function CreatedAt(reqs: Requests, id: nat): int {
    if id in reqs && reqs[id].StartReq? then reqs[id].now else 0
  }

  function StepOf(reqs: Requests, s: State, p: nat, pc: Pc, act: Act): (State, Move)
    requires p in reqs
  {
    match reqs[p]
    case StartReq(_, _, _, _) => StartStep(s, p, reqs[p], pc, act)
    case ChunkReq(_, _) => ChunkStep(reqs, s, p, reqs[p], pc, act)
    case CompleteReq(_, _) => CompleteStep(reqs, s, p, reqs[p], pc, act)
    case SweepReq(_) => SweepStep(reqs, s, p, reqs[p], pc, act)
  }

  function Next(reqs: Requests, s: System, e: Event): System {
    var p := e.process;
    if p !in reqs || p !in s.pcs then s
    else
      var (state, move) := StepOf(reqs, s.state, p, s.pcs[p], e.act);
      match move
      case Stay => s
      case Goto(pc) => System(state, s.locks, s.pcs[p := pc])
      case Take(k, exclusive, pc) =>
        if CanLock(s.locks, k, exclusive) then System(state, Locked(s.locks, k, p, exclusive), s.pcs[p := pc]) else s
      case Give(k, pc) => System(state, Unlocked(s.locks, k, p), s.pcs[p := pc])
  }

  function After(reqs: Requests, s: System, schedule: seq<Event>): System
    decreases |schedule|
  {
    if schedule == [] then s
    else Next(reqs, After(reqs, s, schedule[..|schedule| - 1]), schedule[|schedule| - 1])
  }

  function Start(reqs: Requests): System {
    System(State(map[], map[], map[]), map[], map p | p in reqs :: Begin)
  }

  /** UUIDs and temporary files have names of their own. */
  predicate FreshNames(reqs: Requests) {
    forall p, q | p in reqs && q in reqs && p != q && reqs[p].StartReq? && reqs[q].StartReq? ::
      reqs[p].uuid != reqs[q].uuid && reqs[p].file != reqs[q].file
  }

  // Who holds and who owns what

  function HeldBy(req: Request, pc: Pc): Held<LockName> {
    match pc
    case Inside => Acquired(Nothing(), SessionsMutex, !req.ChunkReq?)
    case Owning(id) => Held({SessionMutex(id)}, {})
    case Copying(id, _) => Held({SessionMutex(id)}, {})
    case Removing(id, _) => Held({SessionMutex(id)}, {})
    case Sweeping(_) => Held({SessionsMutex}, {})
    case Dropping(_, _) => Held({SessionsMutex}, {})
    case Dropped(_, id) => Held({SessionsMutex, SessionMutex(id)}, {})
    case _ => Nothing()
  }

  function AllHeld(reqs: Requests, s: System): map<nat, Held<LockName>> {
    map p | p in reqs && p in s.pcs :: HeldBy(reqs[p], s.pcs[p])
  }

  /** The session that a completion or a clean-up has taken out of the map and not yet discarded. */
  function Claimed(req: Request, pc: Pc): Option<nat> {
    if req.CompleteReq? then
      match pc
      case Found(id) => Some(id)
      case Owning(id) => Some(id)
      case Publishing(id) => Some(id)
      case Discarding(id, _) => Some(id)
      case Removing(id, _) => Some(id)
      case _ => None
    else if req.SweepReq? then
      match pc
      case Dropping(_, id) => Some(id)
      case Dropped(_, id) => Some(id)
      case _ => None
    else None
  }

  predicate IsStarting(reqs: Requests, s: System, id: nat) {
    id in reqs && reqs[id].StartReq? && id in s.pcs && (s.pcs[id].Waiting? || s.pcs[id].Inside?)
  }

  predicate IsMapped(reqs: Requests, s: System, id: nat) {
    id in reqs && reqs[id].StartReq? && reqs[id].uuid in s.state.sessions && s.state.sessions[reqs[id].uuid] == id
  }

  predicate IsClaimed(reqs: Requests, s: System, id: nat) {
    exists p | p in reqs && p in s.pcs :: Claimed(reqs[p], s.pcs[p]) == Some(id)
  }

  // Locks

  predicate PcFits(req: Request, pc: Pc) {
    match req
    case StartReq(_, _, _, _) => pc.Begin? || pc.Waiting? || pc.Inside? || pc.Done?
    case ChunkReq(_, _) => pc.Begin? || pc.Inside? || pc.Found? || pc.Owning? || pc.Copying? || pc.Done?
    case CompleteReq(_, _) =>
      pc.Begin? || pc.Inside? || pc.Found? || pc.Owning? || pc.Publishing? || pc.Discarding? || pc.Removing? || pc.Done?
    case SweepReq(_) => pc.Begin? || pc.Sweeping? || pc.Dropping? || pc.Dropped? || pc.Done?
  }

  ghost predicate LocksOk(reqs: Requests, s: System) {
    && s.pcs.Keys == reqs.Keys
    && (forall p | p in reqs :: PcFits(reqs[p], s.pcs[p]))
    && Accurate(s.locks, AllHeld(reqs, s))
  }

  /** Every step keeps to its request's program, takes only locks it has not, and gives only locks it has. */
  predicate MoveFits(req: Request, pc: Pc, move: Move) {
    match move
    case Stay => true
    case Goto(next) => PcFits(req, next) && HeldBy(req, next) == HeldBy(req, pc)
    case Take(k, exclusive, next) =>
      PcFits(req, next) && !Holds(HeldBy(req, pc), k) && HeldBy(req, next) == Acquired(HeldBy(req, pc), k, exclusive)
    case Give(k, next) =>
      PcFits(req, next) && Holds(HeldBy(req, pc), k) && HeldBy(req, next) == Released(HeldBy(req, pc), k)
  }

  lemma StepsFit(reqs: Requests, s: State, p: nat, pc: Pc, act: Act)
    requires p in reqs && PcFits(reqs[p], pc)
    ensures MoveFits(reqs[p], pc, StepOf(reqs, s, p, pc, act).1)
  {
    match reqs[p]
    case StartReq(_, _, _, _) =>
    case ChunkReq(_, _) => ChunkFits(reqs, s, p, pc, act);
    case CompleteReq(_, _) => CompleteFits(reqs, s, p, pc, act);
    case SweepReq(_) => SweepFits(reqs, s, p, pc, act);
  }

  lemma ChunkFits(reqs: Requests, s: State, p: nat, pc: Pc, act: Act)
    requires p in reqs && reqs[p].ChunkReq? && PcFits(reqs[p], pc)
    ensures MoveFits(reqs[p], pc, ChunkStep(reqs, s, p, reqs[p], pc, act).1)
  {}

  lemma CompleteFits(reqs: Requests, s: State, p: nat, pc: Pc, act: Act)
    requires p in reqs && reqs[p].CompleteReq? && PcFits(reqs[p], pc)
    ensures MoveFits(reqs[p], pc, CompleteStep(reqs, s, p, reqs[p], pc, act).1)
  {
    hide Discarded, Unmapped;
  }

  lemma SweepFits(reqs: Requests, s: State, p: nat, pc: Pc, act: Act)
    requires p in reqs && reqs[p].SweepReq? && PcFits(reqs[p], pc)
    ensures MoveFits(reqs[p], pc, SweepStep(reqs, s, p, reqs[p], pc, act).1)
  {
    hide Discarded, Unmapped;
  }

  lemma LocksStep(reqs: Requests, s: System, e: Event)
    requires LocksOk(reqs, s)
    ensures LocksOk(reqs, Next(reqs, s, e))
  {
    hide Accurate, HeldBy, Unlocked, Locked, StepOf, Holds, CanLock, PcFits;
    var p, t := e.process, Next(reqs, s, e);
    if p in reqs && t != s {
      StepsFit(reqs, s.state, p, s.pcs[p], e.act);
      assert AllHeld(reqs, t) == AllHeld(reqs, s)[p := HeldBy(reqs[p], t.pcs[p])];
      match StepOf(reqs, s.state, p, s.pcs[p], e.act).1
      case Take(k, exclusive, pc) => LockFits(s.locks, AllHeld(reqs, s), k, p, exclusive);
      case Give(k, pc) => UnlockFits(s.locks, AllHeld(reqs, s), k, p);
      case Goto(pc) => assert AllHeld(reqs, t) == AllHeld(reqs, s);
    }
  }

  // Where sessions are

  function SessionIn(pc: Pc): Option<nat> {
    match pc
    case Found(id) => Some(id)
    case Owning(id) => Some(id)
    case Copying(id, _) => Some(id)
    case Publishing(id) => Some(id)
    case Discarding(id, _) => Some(id)
    case Removing(id, _) => Some(id)
    case Dropping(_, id) => Some(id)
    case Dropped(_, id) => Some(id)
    case _ => None
  }

  type Pcs = map<nat, Pc>

  predicate HasStarted(reqs: Requests, pcs: Pcs, id: nat) {
    id in reqs && reqs[id].StartReq? && id in pcs && !pcs[id].Begin?
  }

  /**
   * A session is being started; or it is in the map and nobody has claimed it; or one process has claimed
   * it, and the file is there until exactly that process has discarded it.
   */
  predicate PlaceOk(reqs: Requests, st: State, pcs: Pcs, id: nat)
    requires HasStarted(reqs, pcs, id) && id in st.uploads
  {
    var up, uuid := st.uploads[id], reqs[id].uuid;
    var mapped := uuid in st.sessions && st.sessions[uuid] == id;
    && (up.file.Some? ==> up.file.value == reqs[id].file)
    && up.removals == (if up.file.Some? then 0 else 1)
    && |up.claims| <= 1
    && (mapped ==> pcs[id].Done?)
    && (pcs[id].Done? ==> (mapped <==> up.claims == []))
    && (up.claims == [] ==> up.file.Some?)
    && (up.claims != [] ==> pcs[id].Done? && ClaimOk(reqs, pcs, up.claims[0], id, up.file.Some?))
  }

  predicate ClaimOk(reqs: Requests, pcs: Pcs, q: nat, id: nat, open: bool) {
    q in reqs && q in pcs && (open <==> Claimed(reqs[q], pcs[q]) == Some(id))
  }

  predicate ProcessOk(reqs: Requests, st: State, p: nat, pc: Pc)
    requires p in reqs
  {
    && (SessionIn(pc).Some? ==> SessionIn(pc).value in st.uploads)
    && (Claimed(reqs[p], pc).Some? ==>
          var id := Claimed(reqs[p], pc).value; id in st.uploads && st.uploads[id].claims == [p])
  }

  ghost predicate Placed(reqs: Requests, st: State, pcs: Pcs) {
    && pcs.Keys == reqs.Keys
    && (forall id :: id in st.uploads <==> HasStarted(reqs, pcs, id))
    && (forall u | u in st.sessions :: st.sessions[u] in st.uploads && reqs[st.sessions[u]].uuid == u)
    && (forall id | id in st.uploads :: PlaceOk(reqs, st, pcs, id))
    && (forall p | p in reqs :: ProcessOk(reqs, st, p, pcs[p]))
  }

  predicate SamePlace(up: Upload, up': Upload) {
    up'.file == up.file && up'.claims == up.claims && up'.removals == up.removals
  }

  predicate SameClaim(reqs: Requests, pcs: Pcs, pcs': Pcs, q: nat) {
    q in reqs && q in pcs && q in pcs' ==> Claimed(reqs[q], pcs'[q]) == Claimed(reqs[q], pcs[q])
  }

  /** One session, when a step elsewhere leaves its record, its place in the map and its claimant alone. */
  lemma PlaceKept(reqs: Requests, st: State, st': State, pcs: Pcs, pcs': Pcs, id: nat)
    requires HasStarted(reqs, pcs, id) && id in st.uploads && PlaceOk(reqs, st, pcs, id)
    requires id in st'.uploads && SamePlace(st.uploads[id], st'.uploads[id])
    requires pcs.Keys == pcs'.Keys && HasStarted(reqs, pcs', id) && pcs'[id].Done? == pcs[id].Done?
    requires var u := reqs[id].uuid;
             (u in st'.sessions && st'.sessions[u] == id) <==> (u in st.sessions && st.sessions[u] == id)
    requires st.uploads[id].claims != [] ==> SameClaim(reqs, pcs, pcs', st.uploads[id].claims[0])
    ensures PlaceOk(reqs, st', pcs', id)
  {
    hide Claimed;
  }

  /** One process, when no claims change. */
  lemma ProcessKept(reqs: Requests, st: State, st': State, p: nat, pc: Pc, pc': Pc)
    requires p in reqs && ProcessOk(reqs, st, p, pc) && st.uploads.Keys <= st'.uploads.Keys
    requires forall id | id in st.uploads :: st'.uploads[id].claims == st.uploads[id].claims
    requires SessionIn(pc').Some? ==> SessionIn(pc').value in st'.uploads
    requires Claimed(reqs[p], pc') == Claimed(reqs[p], pc)
    ensures ProcessOk(reqs, st', p, pc')
  {}

  lemma ProcessesKept(reqs: Requests, st: State, st': State, pcs: Pcs, p: nat, pc: Pc)
    requires pcs.Keys == reqs.Keys && p in reqs && forall q | q in reqs :: ProcessOk(reqs, st, q, pcs[q])
    requires st.uploads.Keys <= st'.uploads.Keys
    requires forall id | id in st.uploads :: st'.uploads[id].claims == st.uploads[id].claims
    requires SessionIn(pc).Some? ==> SessionIn(pc).value in st'.uploads
    requires Claimed(reqs[p], pc) == Claimed(reqs[p], pcs[p])
    ensures forall q | q in reqs :: ProcessOk(reqs, st', q, pcs[p := pc][q])
    ensures forall q | q in reqs :: SameClaim(reqs, pcs, pcs[p := pc], q)
  {
    hide SessionIn, Claimed, ProcessOk;
    forall q | q in reqs ensures ProcessOk(reqs, st', q, pcs[p := pc][q]) {
      SessionIsThere(reqs, st, q, pcs[q]);
      ProcessKept(reqs, st, st', q, pcs[q], pcs[p := pc][q]);
    }
  }

  /** Steps that leave the sessions where they are. */
  lemma QuietIsPlaced(reqs: Requests, st: State, st': State, pcs: Pcs, p: nat, pc: Pc)
    requires Placed(reqs, st, pcs) && p in reqs
    requires st'.sessions == st.sessions && st'.uploads.Keys == st.uploads.Keys
    requires forall id | id in st.uploads :: SamePlace(st.uploads[id], st'.uploads[id])
    requires SessionIn(pc).Some? ==> SessionIn(pc).value in st.uploads
    requires Claimed(reqs[p], pc) == Claimed(reqs[p], pcs[p])
    requires reqs[p].StartReq? ==> !pcs[p].Begin? && !pc.Begin? && !pcs[p].Done? && !pc.Done?
    ensures Placed(reqs, st', pcs[p := pc])
  {
    hide SessionIn, Claimed, PlaceOk, ProcessOk, SameClaim;
    ProcessesKept(reqs, st, st', pcs, p, pc);
    forall id | id in st'.uploads ensures PlaceOk(reqs, st', pcs[p := pc], id) {
      QuietElsewhere(reqs, st, st', pcs, p, pc, id);
    }
  }

  lemma QuietElsewhere(reqs: Requests, st: State, st': State, pcs: Pcs, p: nat, pc: Pc, id: nat)
    requires pcs.Keys == reqs.Keys && p in reqs
    requires HasStarted(reqs, pcs, id) && id in st.uploads && PlaceOk(reqs, st, pcs, id)
    requires id in st'.uploads && SamePlace(st.uploads[id], st'.uploads[id]) && st'.sessions == st.sessions
    requires Claimed(reqs[p], pc) == Claimed(reqs[p], pcs[p])
    requires reqs[p].StartReq? ==> !pc.Begin? && !pcs[p].Done? && !pc.Done?
    ensures PlaceOk(reqs, st', pcs[p := pc], id)
  {
    hide Claimed, PlaceOk;
    PlaceKept(reqs, st, st', pcs, pcs[p := pc], id);
  }

  lemma SessionIsThere(reqs: Requests, st: State, p: nat, pc: Pc)
    requires p in reqs && ProcessOk(reqs, st, p, pc)
    ensures SessionIn(pc).Some? ==> SessionIn(pc).value in st.uploads
  {}

  lemma StartsHaveNothing(req: Request)
    requires req.StartReq?
    ensures Claimed(req, Begin) == Claimed(req, Waiting) == Claimed(req, Inside) == Claimed(req, Done(Ok(0))) == None
    ensures SessionIn(Waiting) == SessionIn(Done(Ok(0))) == None
  {}

  lemma CreatedIsPlaced(reqs: Requests, st: State, pcs: Pcs, p: nat)
    requires Placed(reqs, st, pcs) && p in reqs && reqs[p].StartReq? && pcs[p].Begin?
    ensures Placed(reqs, Created(st, p, reqs[p].file), pcs[p := Waiting])
  {
    hide SessionIn, Claimed, ProcessOk, SameClaim;
    StartsHaveNothing(reqs[p]);
    var st', pcs' := Created(st, p, reqs[p].file), pcs[p := Waiting];
    ProcessesKept(reqs, st, st', pcs, p, Waiting);
    forall id | id in st'.uploads ensures HasStarted(reqs, pcs', id) && PlaceOk(reqs, st', pcs', id) {
      if id != p {
        assert HasStarted(reqs, pcs, id);
        PlaceKept(reqs, st, st', pcs, pcs', id);
      }
    }
  }

  lemma InsertedIsPlaced(reqs: Requests, st: State, pcs: Pcs, p: nat)
    requires Placed(reqs, st, pcs) && FreshNames(reqs) && p in reqs && reqs[p].StartReq? && pcs[p].Inside?
    ensures Placed(reqs, st.(sessions := st.sessions[reqs[p].uuid := p]), pcs[p := Done(Ok(0))])
  {
    hide SessionIn, Claimed, ProcessOk, FreshNames, PlaceOk, SameClaim;
    StartsHaveNothing(reqs[p]);
    var st', pcs' := st.(sessions := st.sessions[reqs[p].uuid := p]), pcs[p := Done(Ok(0))];
    ProcessesKept(reqs, st, st', pcs, p, Done(Ok(0)));
    PlacedKeys(reqs, st, pcs, p);
    forall id | id in st'.uploads ensures PlaceOk(reqs, st', pcs', id) {
      if id == p {
        PlaceOfInserted(reqs, st, pcs, p);
      } else {
        InsertedElsewhere(reqs, st, pcs, p, id);
      }
    }
  }

  lemma InsertedElsewhere(reqs: Requests, st: State, pcs: Pcs, p: nat, id: nat)
    requires pcs.Keys == reqs.Keys && FreshNames(reqs) && p in reqs && reqs[p].StartReq? && pcs[p].Inside? && id != p
    requires HasStarted(reqs, pcs, id) && id in st.uploads && PlaceOk(reqs, st, pcs, id)
    ensures PlaceOk(reqs, st.(sessions := st.sessions[reqs[p].uuid := p]), pcs[p := Done(Ok(0))], id)
  {
    hide SessionIn, Claimed, FreshNames, PlaceOk;
    StartsHaveNothing(reqs[p]);
    DifferentNames(reqs, id, p);
    PlaceKept(reqs, st, st.(sessions := st.sessions[reqs[p].uuid := p]), pcs, pcs[p := Done(Ok(0))], id);
  }

  lemma PlaceOfInserted(reqs: Requests, st: State, pcs: Pcs, p: nat)
    requires HasStarted(reqs, pcs, p) && p in st.uploads && PlaceOk(reqs, st, pcs, p) && pcs[p].Inside?
    ensures PlaceOk(reqs, st.(sessions := st.sessions[reqs[p].uuid := p]), pcs[p := Done(Ok(0))], p)
  {}

  lemma DifferentNames(reqs: Requests, p: nat, q: nat)
    requires FreshNames(reqs) && p in reqs && q in reqs && p != q && reqs[p].StartReq? && reqs[q].StartReq?
    ensures reqs[p].uuid != reqs[q].uuid && reqs[p].file != reqs[q].file
  {}

  lemma ClaimedIsPlaced(reqs: Requests, st: State, pcs: Pcs, p: nat, u: string, pc: Pc)
    requires Placed(reqs, st, pcs) && p in reqs && !reqs[p].StartReq? && u in st.sessions
    requires Claimed(reqs[p], pcs[p]).None? && Claimed(reqs[p], pc) == SessionIn(pc) == Some(st.sessions[u])
    ensures Placed(reqs, Unmapped(st, u, p), pcs[p := pc])
  {
    hide SessionIn, Claimed;
    var st', pcs' := Unmapped(st, u, p), pcs[p := pc];
    forall id | id in st'.uploads ensures PlaceOk(reqs, st', pcs', id) {
      assert PlaceOk(reqs, st, pcs, id);
    }
    forall q | q in reqs ensures ProcessOk(reqs, st', q, pcs'[q]) {
      assert ProcessOk(reqs, st, q, pcs[q]);
      assert PlaceOk(reqs, st, pcs, st.sessions[u]);
    }
  }

  lemma DiscardedIsPlaced(reqs: Requests, st: State, pcs: Pcs, p: nat, id: nat, pc: Pc)
    requires Placed(reqs, st, pcs) && p in reqs && !reqs[p].StartReq?
    requires Claimed(reqs[p], pcs[p]) == Some(id) && Claimed(reqs[p], pc).None? && SessionIn(pc).None?
    ensures Placed(reqs, Discarded(st, id), pcs[p := pc]) && FileOf(st, id).Some?
  {
    hide SessionIn, Claimed;
    var st', pcs' := Discarded(st, id), pcs[p := pc];
    assert ProcessOk(reqs, st, p, pcs[p]) && PlaceOk(reqs, st, pcs, id);
    forall i | i in st'.uploads ensures PlaceOk(reqs, st', pcs', i) {
      assert PlaceOk(reqs, st, pcs, i);
    }
    forall q | q in reqs ensures ProcessOk(reqs, st', q, pcs'[q]) {
      assert ProcessOk(reqs, st, q, pcs[q]);
    }
  }

  // What sessions contain

  function InFlight(pcs: Pcs, copier: Option<nat>): Bytes {
    if copier.Some? && copier.value in pcs && pcs[copier.value].Copying? then pcs[copier.value].got else []
  }

  /** The file is what the chunks delivered, in the order of the lock, and what a copy has delivered so far. */
  predicate ContentOk(st: State, pcs: Pcs, id: nat)
    requires id in st.uploads
  {
    var up := st.uploads[id];
    && (forall i | 0 <= i < |up.chunks| :: up.chunks[i].Reader?)
    && up.offset == |Delivery(up.chunks)| - Leftover(up.chunks)
    && (up.file.Some? ==>
          up.file.value in st.files && st.files[up.file.value] == Delivery(up.chunks) + InFlight(pcs, up.copier))
    && (up.copier.Some? ==>
          && up.file.Some? && up.copier.value in pcs
          && pcs[up.copier.value].Copying? && pcs[up.copier.value].session == id)
  }

  predicate IsCopier(st: State, p: nat, id: nat) {
    id in st.uploads && st.uploads[id].copier == Some(p)
  }

  predicate IsOwned(st: State, f: string) {
    exists id | id in st.uploads :: st.uploads[id].file == Some(f)
  }

  ghost predicate Filled(reqs: Requests, st: State, pcs: Pcs) {
    && pcs.Keys == reqs.Keys
    && (forall id | id in st.uploads :: ContentOk(st, pcs, id))
    && (forall p | p in reqs && pcs[p].Copying? :: IsCopier(st, p, pcs[p].session))
    && (forall f | f in st.files :: IsOwned(st, f))
  }

  /** The copier of a session holds its lock. */
  lemma NoCopier(reqs: Requests, s: System, p: nat, id: nat)
    requires LocksOk(reqs, s) && Filled(reqs, s.state, s.pcs) && id in s.state.uploads
    requires p in reqs && !s.pcs[p].Copying? && Holds(HeldBy(reqs[p], s.pcs[p]), SessionMutex(id))
    ensures s.state.uploads[id].copier == None
  {
    assert ContentOk(s.state, s.pcs, id);
    if s.state.uploads[id].copier.Some? {
      var q := s.state.uploads[id].copier.value;
      WriterIsAlone(s.locks, AllHeld(reqs, s), q, p, SessionMutex(id));
    }
  }

  lemma QuietIsFilled(reqs: Requests, st: State, st': State, pcs: Pcs, p: nat, pc: Pc)
    requires Filled(reqs, st, pcs) && p in reqs && !pcs[p].Copying? && !pc.Copying?
    requires st'.files == st.files && st'.uploads.Keys == st.uploads.Keys
    requires forall id | id in st.uploads :: SameContent(st.uploads[id], st'.uploads[id])
    ensures Filled(reqs, st', pcs[p := pc])
  {
    hide ContentOk, IsOwned;
    forall id | id in st.uploads ensures ContentOk(st', pcs[p := pc], id) {
      ContentSame(st, st', pcs, p, pc, id);
    }
    forall f | f in st'.files ensures IsOwned(st', f) {
      OwnedSame(st, st', f);
    }
  }

  lemma ContentSame(st: State, st': State, pcs: Pcs, p: nat, pc: Pc, id: nat)
    requires id in st.uploads && id in st'.uploads && ContentOk(st, pcs, id) && st'.files == st.files
    requires SameContent(st.uploads[id], st'.uploads[id]) && p in pcs && !pcs[p].Copying? && !pc.Copying?
    ensures ContentOk(st', pcs[p := pc], id)
  {
    hide Delivery, Leftover;
  }

  lemma OwnedSame(st: State, st': State, f: string)
    requires IsOwned(st, f) && st'.uploads.Keys == st.uploads.Keys
    requires forall id | id in st.uploads :: SameContent(st.uploads[id], st'.uploads[id])
    ensures IsOwned(st', f)
  {
    var id :| id in st.uploads && st.uploads[id].file == Some(f);
    assert SameContent(st.uploads[id], st'.uploads[id]);
  }

  predicate SameContent(up: Upload, up': Upload) {
    up' == up.(claims := up'.claims, removals := up'.removals)
  }

  lemma {:induction false} OneMoreChunk(chunks: seq<Reader>, r: Reader)
    requires r.Reader? && forall i | 0 <= i < |chunks| :: chunks[i].Reader?
    ensures Delivery(chunks + [r]) == Delivery(chunks) + r.data
    ensures Leftover(chunks + [r]) == Leftover(chunks) + if r.fails then |r.data| else 0
    decreases |chunks|
  {
    if chunks != [] {
      assert (chunks + [r])[1..] == chunks[1..] + [r];
      OneMoreChunk(chunks[1..], r);
    }
  }

  /** One session, when a step elsewhere leaves its record, its file and its copier alone. */
  lemma ContentKept(st: State, st': State, pcs: Pcs, pcs': Pcs, id: nat)
    requires id in st.uploads && ContentOk(st, pcs, id) && id in st'.uploads && st'.uploads[id] == st.uploads[id]
    requires var up := st.uploads[id];
             && (up.file.Some? ==> up.file.value in st.files
                                   && up.file.value in st'.files && st'.files[up.file.value] == st.files[up.file.value])
             && (up.copier.Some? ==> up.copier.value in pcs && up.copier.value in pcs'
                                     && pcs'[up.copier.value] == pcs[up.copier.value])
    ensures ContentOk(st', pcs', id)
  {
    hide Delivery, Leftover;
  }

  lemma CopierIsThere(st: State, pcs: Pcs, id: nat)
    requires id in st.uploads && ContentOk(st, pcs, id)
    ensures var up := st.uploads[id];
            && (up.file.Some? ==> up.file.value in st.files)
            && (up.copier.Some? ==> up.copier.value in pcs && pcs[up.copier.value].Copying?
                                    && pcs[up.copier.value].session == id)
  {}

  lemma FileIsItsOwn(reqs: Requests, st: State, pcs: Pcs, id: nat)
    requires Placed(reqs, st, pcs) && id in st.uploads
    ensures id in reqs && reqs[id].StartReq?
    ensures st.uploads[id].file.Some? ==> st.uploads[id].file.value == reqs[id].file
  {
    assert HasStarted(reqs, pcs, id) && PlaceOk(reqs, st, pcs, id);
  }

  lemma CreatedIsFilled(reqs: Requests, st: State, pcs: Pcs, p: nat)
    requires Placed(reqs, st, pcs) && Filled(reqs, st, pcs) && FreshNames(reqs)
    requires p in reqs && reqs[p].StartReq? && pcs[p].Begin?
    ensures Filled(reqs, Created(st, p, reqs[p].file), pcs[p := Waiting])
  {
    hide FreshNames, Placed, ContentOk, IsOwned;
    PlacedKeys(reqs, st, pcs, p);
    var st', pcs' := Created(st, p, reqs[p].file), pcs[p := Waiting];
    CreatedIsOwned(st, p, reqs[p].file);
    NewContent(st', pcs', p, reqs[p].file);
    forall id | id in st.uploads ensures ContentOk(st', pcs', id) {
      CreatedElsewhere(reqs, st, pcs, p, id);
    }
  }

  lemma CreatedElsewhere(reqs: Requests, st: State, pcs: Pcs, p: nat, id: nat)
    requires Placed(reqs, st, pcs) && FreshNames(reqs) && p in reqs && reqs[p].StartReq? && !pcs[p].Copying?
    requires p !in st.uploads && id in st.uploads && ContentOk(st, pcs, id)
    ensures ContentOk(Created(st, p, reqs[p].file), pcs[p := Waiting], id)
  {
    hide FreshNames, Placed, ContentOk;
    FileIsItsOwn(reqs, st, pcs, id);
    DifferentNames(reqs, id, p);
    CopierIsThere(st, pcs, id);
    ContentKept(st, Created(st, p, reqs[p].file), pcs, pcs[p := Waiting], id);
  }

  lemma CreatedIsOwned(st: State, p: nat, f: string)
    requires p !in st.uploads && forall g | g in st.files :: IsOwned(st, g)
    ensures forall g | g in Created(st, p, f).files :: IsOwned(Created(st, p, f), g)
  {
    var st' := Created(st, p, f);
    assert st'.uploads[p].file == Some(f);
    forall g | g in st'.files && g != f ensures IsOwned(st', g) {
      assert IsOwned(st, g);
      var id :| id in st.uploads && st.uploads[id].file == Some(g);
      assert st'.uploads[id].file == Some(g);
    }
  }

  lemma PlacedKeys(reqs: Requests, st: State, pcs: Pcs, id: nat)
    requires Placed(reqs, st, pcs)
    ensures id in st.uploads <==> HasStarted(reqs, pcs, id)
  {}

  lemma NewContent(st: State, pcs: Pcs, id: nat, f: string)
    requires id in st.uploads && st.uploads[id] == Upload(Some(f), 0, [], None, [], 0)
    requires f in st.files && st.files[f] == []
    ensures ContentOk(st, pcs, id)
  {}

  /** Changing one session's record and file leaves the others as they are. */
  lemma OneIsFilled(reqs: Requests, st: State, st': State, pcs: Pcs, pcs': Pcs, id: nat, p: nat)
    requires Placed(reqs, st, pcs) && Filled(reqs, st, pcs) && FreshNames(reqs)
    requires id in st.uploads && st.uploads[id].file == Some(reqs[id].file) && p in reqs
    requires p in pcs' && pcs' == pcs[p := pcs'[p]]
    requires id in st'.uploads && st'.uploads == st.uploads[id := st'.uploads[id]]
    requires st'.uploads[id].file in {None, st.uploads[id].file}
    requires st'.files - {reqs[id].file} == st.files - {reqs[id].file}
    requires reqs[id].file in st'.files <==> st'.uploads[id].file.Some?
    requires pcs[p].Copying? ==> pcs[p].session == id
    requires pcs'[p].Copying? ==> pcs'[p].session == id && IsCopier(st', p, id)
    requires st.uploads[id].copier.Some? ==> st.uploads[id].copier.value == p
    requires ContentOk(st', pcs', id)
    ensures Filled(reqs, st', pcs')
  {
    hide Delivery, Leftover, FreshNames, Placed, ContentOk;
    FileIsItsOwn(reqs, st, pcs, id);
    var f := reqs[id].file;
    forall i | i in st'.uploads ensures ContentOk(st', pcs', i) {
      if i != id {
        FileIsItsOwn(reqs, st, pcs, i);
        FileIsItsOwn(reqs, st, pcs, id);
        CopierIsThere(st, pcs, i);
        DifferentNames(reqs, i, id);
        assert reqs[i].file in st.files ==> reqs[i].file in st'.files - {f} && reqs[i].file in st.files - {f};
        ContentKept(st, st', pcs, pcs', i);
      }
    }
    forall g | g in st'.files ensures IsOwned(st', g) {
      if g == f {
        assert st'.uploads[id].file == Some(f);
      } else {
        assert g in st.files - {f};
        assert IsOwned(st, g);
        var i :| i in st.uploads && st.uploads[i].file == Some(g);
        assert st'.uploads[i].file == Some(g);
      }
    }
    forall q | q in reqs && pcs'[q].Copying? ensures IsCopier(st', q, pcs'[q].session) {
      if q != p {
        assert IsCopier(st, q, pcs[q].session);
      }
    }
  }

  lemma CopyStarts(reqs: Requests, st: State, pcs: Pcs, p: nat, id: nat)
    requires Placed(reqs, st, pcs) && Filled(reqs, st, pcs) && FreshNames(reqs)
    requires p in reqs && !pcs[p].Copying? && id in st.uploads
    requires st.uploads[id].copier == None && st.uploads[id].file.Some?
    ensures Filled(reqs, st.(uploads := st.uploads[id := st.uploads[id].(copier := Some(p))]), pcs[p := Copying(id, [])])
  {
    hide Delivery, Leftover, FreshNames, Placed;
    var st', pcs' := st.(uploads := st.uploads[id := st.uploads[id].(copier := Some(p))]), pcs[p := Copying(id, [])];
    FileIsItsOwn(reqs, st, pcs, id);
    assert ContentOk(st, pcs, id);
    assert ContentOk(st', pcs', id);
    hide ContentOk;
    OneIsFilled(reqs, st, st', pcs, pcs', id, p);
  }

  lemma CopyGoesOn(reqs: Requests, st: State, pcs: Pcs, p: nat, id: nat, data: Bytes)
    requires Placed(reqs, st, pcs) && Filled(reqs, st, pcs) && FreshNames(reqs)
    requires p in reqs && pcs[p].Copying? && pcs[p].session == id
    ensures id in st.uploads && st.uploads[id].file.Some? && st.uploads[id].file.value in st.files
    ensures var f := st.uploads[id].file.value;
            Filled(reqs, st.(files := st.files[f := st.files[f] + data]), pcs[p := Copying(id, pcs[p].got + data)])
  {
    hide Delivery, Leftover, FreshNames, Placed, ContentOk;
    assert IsCopier(st, p, id) && ContentOk(st, pcs, id);
    FileIsItsOwn(reqs, st, pcs, id);
    GrownContent(st, pcs, p, id, data);
    var f := st.uploads[id].file.value;
    var st', pcs' := st.(files := st.files[f := st.files[f] + data]), pcs[p := Copying(id, pcs[p].got + data)];
    assert st'.uploads == st.uploads[id := st'.uploads[id]];
    OneIsFilled(reqs, st, st', pcs, pcs', id, p);
  }

  lemma GrownContent(st: State, pcs: Pcs, p: nat, id: nat, data: Bytes)
    requires p in pcs && pcs[p].Copying? && pcs[p].session == id && IsCopier(st, p, id) && ContentOk(st, pcs, id)
    ensures st.uploads[id].file.Some? && st.uploads[id].file.value in st.files
    ensures var f := st.uploads[id].file.value;
            ContentOk(st.(files := st.files[f := st.files[f] + data]), pcs[p := Copying(id, pcs[p].got + data)], id)
  {
    hide Delivery, Leftover;
  }

  lemma CopyEnds(reqs: Requests, st: State, pcs: Pcs, p: nat, id: nat, fails: bool, result: Result<int>)
    requires Placed(reqs, st, pcs) && Filled(reqs, st, pcs) && FreshNames(reqs)
    requires p in reqs && pcs[p].Copying? && pcs[p].session == id && id in st.uploads
    ensures Filled(reqs, Ended(st, id, pcs[p].got, fails), pcs[p := Done(result)])
  {
    hide Delivery, Leftover, FreshNames, Placed, ContentOk;
    assert IsCopier(st, p, id) && ContentOk(st, pcs, id);
    FileIsItsOwn(reqs, st, pcs, id);
    EndedContent(st, pcs, p, id, fails, result);
    assert Ended(st, id, pcs[p].got, fails).uploads == st.uploads[id := Ended(st, id, pcs[p].got, fails).uploads[id]];
    OneIsFilled(reqs, st, Ended(st, id, pcs[p].got, fails), pcs, pcs[p := Done(result)], id, p);
  }

  lemma EndedContent(st: State, pcs: Pcs, p: nat, id: nat, fails: bool, result: Result<int>)
    requires p in pcs && pcs[p].Copying? && IsCopier(st, p, id) && ContentOk(st, pcs, id)
    ensures ContentOk(Ended(st, id, pcs[p].got, fails), pcs[p := Done(result)], id)
    ensures st.uploads[id].file.Some? && st.uploads[id].file.value in st.files
  {
    hide Delivery, Leftover;
    OneMoreChunk(st.uploads[id].chunks, Reader(pcs[p].got, fails));
  }

  lemma DiscardedIsFilled(reqs: Requests, st: State, pcs: Pcs, p: nat, id: nat, pc: Pc)
    requires Placed(reqs, st, pcs) && Filled(reqs, st, pcs) && FreshNames(reqs)
    requires p in reqs && !pcs[p].Copying? && !pc.Copying? && id in st.uploads
    requires st.uploads[id].copier == None && st.uploads[id].file.Some?
    ensures Filled(reqs, Discarded(st, id), pcs[p := pc])
  {
    hide Delivery, Leftover, FreshNames, Placed;
    var st', pcs' := Discarded(st, id), pcs[p := pc];
    FileIsItsOwn(reqs, st, pcs, id);
    assert ContentOk(st, pcs, id);
    assert ContentOk(st', pcs', id);
    hide ContentOk;
    OneIsFilled(reqs, st, st', pcs, pcs', id, p);
  }

  // Every step

  ghost predicate Inv(reqs: Requests, s: System) {
    LocksOk(reqs, s) && Placed(reqs, s.state, s.pcs) && Filled(reqs, s.state, s.pcs)
  }

  ghost predicate StateOk(reqs: Requests, st: State, pcs: Pcs) {
    Placed(reqs, st, pcs) && Filled(reqs, st, pcs)
  }

  /** Steps of control alone. */
  lemma QuietStep(reqs: Requests, st: State, pcs: Pcs, p: nat, pc: Pc)
    requires StateOk(reqs, st, pcs) && p in reqs && !pcs[p].Copying? && !pc.Copying?
    requires SessionIn(pc).Some? ==> SessionIn(pc).value in st.uploads
    requires Claimed(reqs[p], pc) == Claimed(reqs[p], pcs[p])
    requires reqs[p].StartReq? ==> !pcs[p].Begin? && !pc.Begin? && !pcs[p].Done? && !pc.Done?
    ensures StateOk(reqs, st, pcs[p := pc])
  {
    QuietIsPlaced(reqs, st, st, pcs, p, pc);
    QuietIsFilled(reqs, st, st, pcs, p, pc);
  }

  lemma StartData(reqs: Requests, s: System, p: nat, act: Act)
    requires Inv(reqs, s) && FreshNames(reqs) && p in reqs && reqs[p].StartReq?
    ensures var (st, move) := StartStep(s.state, p, reqs[p], s.pcs[p], act);
            move.Stay? || StateOk(reqs, st, s.pcs[p := move.pc])
  {
    hide Placed, Filled, Created, LocksOk, FreshNames, PlaceOk, ProcessOk, ContentOk;
    assert s.pcs.Keys == reqs.Keys by { PcsKeys(reqs, s); }
    if act.Go? {
      match s.pcs[p]
      case Begin =>
        CreatedIsPlaced(reqs, s.state, s.pcs, p);
        CreatedIsFilled(reqs, s.state, s.pcs, p);
      case Waiting => QuietStep(reqs, s.state, s.pcs, p, Inside);
      case Inside =>
        InsertedIsPlaced(reqs, s.state, s.pcs, p);
        QuietIsFilled(reqs, s.state, s.state.(sessions := s.state.sessions[reqs[p].uuid := p]), s.pcs, p, Done(Ok(0)));
      case _ =>
    }
  }

  lemma PcsKeys(reqs: Requests, s: System)
    requires Inv(reqs, s)
    ensures s.pcs.Keys == reqs.Keys
    ensures forall p | p in reqs :: PcFits(reqs[p], s.pcs[p])
    ensures forall p | p in reqs && SessionIn(s.pcs[p]).Some? :: SessionIn(s.pcs[p]).value in s.state.uploads
    ensures forall u | u in s.state.sessions :: s.state.sessions[u] in s.state.uploads
  {
    forall p | p in reqs && SessionIn(s.pcs[p]).Some? ensures SessionIn(s.pcs[p]).value in s.state.uploads {
      assert ProcessOk(reqs, s.state, p, s.pcs[p]);
    }
  }

  lemma ChunkData(reqs: Requests, s: System, p: nat, act: Act)
    requires Inv(reqs, s) && FreshNames(reqs) && p in reqs && reqs[p].ChunkReq?
    ensures p in s.pcs
    ensures var (st, move) := ChunkStep(reqs, s.state, p, reqs[p], s.pcs[p], act);
            move.Stay? || StateOk(reqs, st, s.pcs[p := move.pc])
  {
    hide Placed, Filled, LocksOk, FreshNames, PlaceOk, ProcessOk, ContentOk;
    PcsKeys(reqs, s);
    var (st, move) := ChunkStep(reqs, s.state, p, reqs[p], s.pcs[p], act);
    match s.pcs[p]
    case Owning(id) =>
      if act.Go? && FileOf(s.state, id).None? {
        QuietStep(reqs, s.state, s.pcs, p, Done(Err(SessionClosed)));
      } else if act.Go? {
        NoCopier(reqs, s, p, id);
        QuietIsPlaced(reqs, s.state, st, s.pcs, p, Copying(id, []));
        CopyStarts(reqs, s.state, s.pcs, p, id);
      }
    case Copying(id, got) =>
      if act.Deliver? {
        CopyGoesOn(reqs, s.state, s.pcs, p, id, act.data);
        QuietIsPlaced(reqs, s.state, st, s.pcs, p, Copying(id, got + act.data));
      } else if act.End? {
        CopyEnds(reqs, s.state, s.pcs, p, id, act.fails, move.pc.result);
        QuietIsPlaced(reqs, s.state, st, s.pcs, p, move.pc);
      }
    case Found(id) => QuietStep(reqs, s.state, s.pcs, p, Owning(id));
    case Begin => QuietStep(reqs, s.state, s.pcs, p, Inside);
    case Inside =>
      if act.Go? {
        QuietStep(reqs, s.state, s.pcs, p, move.pc);
      }
    case _ =>
  }

  /** The end of a discard, by the one who has claimed the session and holds its lock. */
  lemma DiscardStep(reqs: Requests, s: System, p: nat, id: nat, pc: Pc)
    requires Inv(reqs, s) && FreshNames(reqs) && p in reqs && !reqs[p].StartReq? && p in s.pcs
    requires Claimed(reqs[p], s.pcs[p]) == Some(id) && Claimed(reqs[p], pc).None? && SessionIn(pc).None?
    requires Holds(HeldBy(reqs[p], s.pcs[p]), SessionMutex(id)) && !s.pcs[p].Copying?
    ensures StateOk(reqs, Discarded(s.state, id), s.pcs[p := pc])
  {
    hide Placed, Filled, LocksOk, FreshNames, PlaceOk, ProcessOk, ContentOk, Discarded, Claimed, HeldBy;
    DiscardedIsPlaced(reqs, s.state, s.pcs, p, id, pc);
    NoCopier(reqs, s, p, id);
    DiscardedIsFilled(reqs, s.state, s.pcs, p, id, pc);
  }

  lemma ClaimStep(reqs: Requests, s: System, p: nat, u: string, pc: Pc)
    requires Inv(reqs, s) && p in reqs && p in s.pcs && !reqs[p].StartReq? && u in s.state.sessions
    requires Claimed(reqs[p], s.pcs[p]).None? && !s.pcs[p].Copying? && !pc.Copying?
    requires Claimed(reqs[p], pc) == SessionIn(pc) == Some(s.state.sessions[u])
    ensures StateOk(reqs, Unmapped(s.state, u, p), s.pcs[p := pc])
  {
    hide Placed, Filled, LocksOk, PlaceOk, ProcessOk, ContentOk, Claimed, SessionIn;
    ClaimedIsPlaced(reqs, s.state, s.pcs, p, u, pc);
    QuietIsFilled(reqs, s.state, Unmapped(s.state, u, p), s.pcs, p, pc);
  }

  lemma CompleteData(reqs: Requests, s: System, p: nat, act: Act)
    requires Inv(reqs, s) && FreshNames(reqs) && p in reqs && reqs[p].CompleteReq?
    ensures p in s.pcs
    ensures var (st, move) := CompleteStep(reqs, s.state, p, reqs[p], s.pcs[p], act);
            move.Stay? || StateOk(reqs, st, s.pcs[p := move.pc])
  {
    hide Placed, Filled, LocksOk, FreshNames, PlaceOk, ProcessOk, ContentOk, Discarded, Unmapped;
    PcsKeys(reqs, s);
    var (st, move) := CompleteStep(reqs, s.state, p, reqs[p], s.pcs[p], act);
    if act.Go? {
      match s.pcs[p]
      case Begin => QuietStep(reqs, s.state, s.pcs, p, Inside);
      case Inside =>
        if reqs[p].uuid in s.state.sessions {
          ClaimStep(reqs, s, p, reqs[p].uuid, move.pc);
        } else {
          QuietStep(reqs, s.state, s.pcs, p, Done(Err(SessionNotFound)));
        }
      case Found(id) => QuietStep(reqs, s.state, s.pcs, p, Owning(id));
      case Owning(id) => QuietStep(reqs, s.state, s.pcs, p, move.pc);
      case Publishing(id) => QuietStep(reqs, s.state, s.pcs, p, Discarding(id, Ok(0)));
      case Discarding(id, result) => QuietStep(reqs, s.state, s.pcs, p, Removing(id, result));
      case Removing(id, result) => DiscardStep(reqs, s, p, id, Done(result));
      case _ =>
    }
  }

  lemma SweepData(reqs: Requests, s: System, p: nat, act: Act)
    requires Inv(reqs, s) && FreshNames(reqs) && p in reqs && reqs[p].SweepReq?
    ensures p in s.pcs
    ensures var (st, move) := SweepStep(reqs, s.state, p, reqs[p], s.pcs[p], act);
            move.Stay? || StateOk(reqs, st, s.pcs[p := move.pc])
  {
    hide Placed, Filled, LocksOk, FreshNames, PlaceOk, ProcessOk, ContentOk, Discarded, Unmapped;
    PcsKeys(reqs, s);
    var (st, move) := SweepStep(reqs, s.state, p, reqs[p], s.pcs[p], act);
    match s.pcs[p]
    case Begin => QuietStep(reqs, s.state, s.pcs, p, Sweeping(s.state.sessions.Keys));
    case Sweeping(todo) =>
      if !move.Stay? && move.pc.Dropping? {
        ClaimStep(reqs, s, p, act.uuid, move.pc);
      } else if !move.Stay? {
        QuietStep(reqs, s.state, s.pcs, p, move.pc);
      }
    case Dropping(todo, id) => QuietStep(reqs, s.state, s.pcs, p, Dropped(todo, id));
    case Dropped(todo, id) => DiscardStep(reqs, s, p, id, Sweeping(todo));
    case _ =>
  }

  lemma InvStep(reqs: Requests, s: System, e: Event)
    requires Inv(reqs, s) && FreshNames(reqs)
    ensures Inv(reqs, Next(reqs, s, e))
  {
    hide Placed, Filled, LocksOk, FreshNames, StartStep, ChunkStep, CompleteStep, SweepStep;
    LocksStep(reqs, s, e);
    var p := e.process;
    if p in reqs && p in s.pcs {
      match reqs[p]
      case StartReq(_, _, _, _) => StartData(reqs, s, p, e.act);
      case ChunkReq(_, _) => ChunkData(reqs, s, p, e.act);
      case CompleteReq(_, _) => CompleteData(reqs, s, p, e.act);
      case SweepReq(_) => SweepData(reqs, s, p, e.act);
    }
  }

  lemma {:induction false} InvRun(reqs: Requests, schedule: seq<Event>)
    requires FreshNames(reqs)
    ensures Inv(reqs, After(reqs, Start(reqs), schedule))
    decreases |schedule|
  {
    if schedule == [] {
      assert AllHeld(reqs, Start(reqs)) == map p | p in reqs :: Nothing<LockName>();
    } else {
      hide Inv, FreshNames;
      InvRun(reqs, schedule[..|schedule| - 1]);
      InvStep(reqs, After(reqs, Start(reqs), schedule[..|schedule| - 1]), schedule[|schedule| - 1]);
    }
  }

  // Results

  /**
   * A session leaves the map at most once and its file is removed at most once; at any moment at most one
   * process has it in hand, and a process that has it in hand finds its file there.
   */
  lemma SessionsAreClaimedOnce(reqs: Requests, schedule: seq<Event>, id: nat)
    requires FreshNames(reqs) && id in After(reqs, Start(reqs), schedule).state.uploads
    ensures var s := After(reqs, Start(reqs), schedule);
            var up := s.state.uploads[id];
            && |up.claims| <= 1 && up.removals <= 1 && (IsMapped(reqs, s, id) ==> up.claims == [])
            && (forall p | p in reqs && p in s.pcs && Claimed(reqs[p], s.pcs[p]) == Some(id) ::
                  up.claims == [p] && up.file.Some?)
  {
    InvRun(reqs, schedule);
    var s := After(reqs, Start(reqs), schedule);
    assert PlaceOk(reqs, s.state, s.pcs, id) by { PlacedKeys(reqs, s.state, s.pcs, id); }
    forall p | p in reqs && p in s.pcs && Claimed(reqs[p], s.pcs[p]) == Some(id)
      ensures s.state.uploads[id].claims == [p] && s.state.uploads[id].file.Some?
    {
      assert ProcessOk(reqs, s.state, p, s.pcs[p]);
    }
  }

  /**
   * While a session is in the map its file is live and holds what its chunks delivered, in the order of
   * its lock, followed by what a copy under way has delivered; and its offset is the length of the
   * finished chunks exactly as long as no failed chunk has left bytes behind.
   */
  lemma MappedSessionsHoldTheirChunks(reqs: Requests, schedule: seq<Event>, u: string)
    requires FreshNames(reqs) && u in After(reqs, Start(reqs), schedule).state.sessions
    ensures var s := After(reqs, Start(reqs), schedule);
            var id := s.state.sessions[u];
            && id in s.state.uploads && IsMapped(reqs, s, id)
            && var up := s.state.uploads[id];
            && up.file.Some? && up.file.value in s.state.files
            && (forall i | 0 <= i < |up.chunks| :: up.chunks[i].Reader?)
            && s.state.files[up.file.value] == Delivery(up.chunks) + InFlight(s.pcs, up.copier)
            && (up.offset == |Delivery(up.chunks)|
                <==> forall i | 0 <= i < |up.chunks| && up.chunks[i].fails :: up.chunks[i].data == [])
            && (up.copier.None? <==> forall p | p in reqs && p in s.pcs :: !(s.pcs[p].Copying? && s.pcs[p].session == id))
  {
    hide Delivery, Leftover;
    InvRun(reqs, schedule);
    var s := After(reqs, Start(reqs), schedule);
    var id := s.state.sessions[u];
    assert PlaceOk(reqs, s.state, s.pcs, id) by { PlacedKeys(reqs, s.state, s.pcs, id); }
    assert ContentOk(s.state, s.pcs, id);
    LeftoverIsZero(s.state.uploads[id].chunks);
    forall p | p in reqs && s.pcs[p].Copying? && s.pcs[p].session == id ensures s.state.uploads[id].copier == Some(p) {
      assert IsCopier(s.state, p, s.pcs[p].session);
    }
  }

  predicate IsFileOf(reqs: Requests, s: System, id: nat, f: string) {
    id in s.state.uploads && id in reqs && reqs[id].StartReq? && reqs[id].file == f
  }

  predicate IsOpen(reqs: Requests, s: System, id: nat) {
    IsStarting(reqs, s, id) || IsMapped(reqs, s, id) || IsClaimed(reqs, s, id)
  }

  /**
   * The live temporary files are exactly those of sessions that are being started, are in the map, or
   * have been claimed and not yet discarded.
   */
  lemma LiveFilesAreAccountedFor(reqs: Requests, schedule: seq<Event>, f: string)
    requires FreshNames(reqs)
    ensures var s := After(reqs, Start(reqs), schedule);
            f in s.state.files <==> exists id :: IsFileOf(reqs, s, id, f) && IsOpen(reqs, s, id)
  {
    InvRun(reqs, schedule);
    var s := After(reqs, Start(reqs), schedule);
    hide Inv, IsOpen;
    if f in s.state.files {
      var id := OwnerOf(reqs, s, f);
    }
    if id :| IsFileOf(reqs, s, id, f) && IsOpen(reqs, s, id) {
      OpenHasFile(reqs, s, id, f);
    }
  }

  lemma OwnerOf(reqs: Requests, s: System, f: string) returns (id: nat)
    requires Inv(reqs, s) && f in s.state.files
    ensures IsFileOf(reqs, s, id, f) && IsOpen(reqs, s, id)
  {
    assert IsOwned(s.state, f);
    id :| id in s.state.uploads && s.state.uploads[id].file == Some(f);
    FileIsItsOwn(reqs, s.state, s.pcs, id);
    OpenIsAccountedFor(reqs, s, id);
  }

  lemma OpenHasFile(reqs: Requests, s: System, id: nat, f: string)
    requires Inv(reqs, s) && IsFileOf(reqs, s, id, f) && IsOpen(reqs, s, id)
    ensures f in s.state.files
  {
    hide Delivery, Leftover;
    OpenIsAccountedFor(reqs, s, id);
    FileIsItsOwn(reqs, s.state, s.pcs, id);
    assert ContentOk(s.state, s.pcs, id);
  }

  /** When every process has returned, only the sessions in the map have temporary files. */
  lemma NothingIsLeftBehind(reqs: Requests, schedule: seq<Event>, f: string)
    requires FreshNames(reqs)
    requires var s := After(reqs, Start(reqs), schedule); forall p | p in reqs && p in s.pcs :: s.pcs[p].Done?
    ensures var s := After(reqs, Start(reqs), schedule);
            f in s.state.files <==> exists id :: IsFileOf(reqs, s, id, f) && IsMapped(reqs, s, id)
  {
    LiveFilesAreAccountedFor(reqs, schedule, f);
    var s := After(reqs, Start(reqs), schedule);
    forall id ensures IsOpen(reqs, s, id) <==> IsMapped(reqs, s, id) {}
  }

  lemma OpenIsAccountedFor(reqs: Requests, s: System, id: nat)
    requires Inv(reqs, s) && id in s.state.uploads
    ensures s.state.uploads[id].file.Some? <==> IsOpen(reqs, s, id)
  {
    PlacedKeys(reqs, s.state, s.pcs, id);
    assert PlaceOk(reqs, s.state, s.pcs, id);
    if IsClaimed(reqs, s, id) {
      var p :| p in reqs && p in s.pcs && Claimed(reqs[p], s.pcs[p]) == Some(id);
      assert ProcessOk(reqs, s.state, p, s.pcs[p]);
    }
  }

  // Verdicts

  /** The session with the UUID of completion `p` was taken out of the map by `p`. */
  predicate HasWon(reqs: Requests, s: System, p: nat, uuid: string) {
    exists id | id in s.state.uploads && id in reqs && reqs[id].StartReq? && reqs[id].uuid == uuid ::
      s.state.uploads[id].claims == [p]
  }

  predicate IsWinner(reqs: Requests, s: System, p: nat) {
    p in reqs && p in s.pcs && reqs[p].CompleteReq? && IsWinning(reqs[p], s.pcs[p])
  }

  ghost predicate WinnersOk(reqs: Requests, s: System) {
    forall p | IsWinner(reqs, s, p) :: HasWon(reqs, s, p, reqs[p].uuid)
  }

  /** The sessions in the map are there and unclaimed. */
  predicate MapIsUnclaimed(st: State) {
    forall u | u in st.sessions :: st.sessions[u] in st.uploads && st.uploads[st.sessions[u]].claims == []
  }

  lemma InvMapIsUnclaimed(reqs: Requests, s: System)
    requires Inv(reqs, s)
    ensures MapIsUnclaimed(s.state)
    ensures forall p | p in reqs && reqs[p].StartReq? && p in s.pcs && s.pcs[p].Begin? :: p !in s.state.uploads
    ensures forall u | u in s.state.sessions :: var id := s.state.sessions[u];
              id in reqs && reqs[id].StartReq? && reqs[id].uuid == u
  {
    hide Filled, LocksOk;
    forall u | u in s.state.sessions ensures s.state.uploads[s.state.sessions[u]].claims == [] {
      assert HasStarted(reqs, s.pcs, s.state.sessions[u]) && PlaceOk(reqs, s.state, s.pcs, s.state.sessions[u]);
    }
  }

  lemma StepKeepsClaims(reqs: Requests, st: State, p: nat, pc: Pc, act: Act, id: nat)
    requires p in reqs && MapIsUnclaimed(st) && (reqs[p].StartReq? && pc.Begin? ==> p !in st.uploads)
    requires id in st.uploads && st.uploads[id].claims != []
    ensures var t := StepOf(reqs, st, p, pc, act).0; id in t.uploads && t.uploads[id].claims == st.uploads[id].claims
  {}

  /** Once claimed, always claimed by the same process. */
  lemma ClaimsStay(reqs: Requests, s: System, e: Event, id: nat)
    requires Inv(reqs, s) && id in s.state.uploads && s.state.uploads[id].claims != []
    ensures var t := Next(reqs, s, e).state; id in t.uploads && t.uploads[id].claims == s.state.uploads[id].claims
  {
    hide Inv, StepOf, CanLock, Locked, Unlocked, MapIsUnclaimed;
    InvMapIsUnclaimed(reqs, s);
    var p := e.process;
    if p in reqs && p in s.pcs {
      StepKeepsClaims(reqs, s.state, p, s.pcs[p], e.act, id);
    }
  }

  lemma WonStays(reqs: Requests, s: System, e: Event, p: nat, uuid: string)
    requires Inv(reqs, s) && HasWon(reqs, s, p, uuid)
    ensures HasWon(reqs, Next(reqs, s, e), p, uuid)
  {
    hide Inv, Next;
    var id :| id in s.state.uploads && id in reqs && reqs[id].StartReq? && reqs[id].uuid == uuid
              && s.state.uploads[id].claims == [p];
    ClaimsStay(reqs, s, e, id);
    assert Next(reqs, s, e).state.uploads[id].claims == [p];
  }

  predicate IsWinning(req: Request, pc: Pc) {
    Claimed(req, pc).Some? || (pc.Done? && pc.result.Ok?)
  }

  /** A completion that does not have a session yet can only get one by taking it out of the map. */
  lemma WinningStep(reqs: Requests, st: State, p: nat, pc: Pc, act: Act)
    requires p in reqs && reqs[p].CompleteReq? && PcFits(reqs[p], pc) && !IsWinning(reqs[p], pc)
    requires var move := CompleteStep(reqs, st, p, reqs[p], pc, act).1; !move.Stay? && IsWinning(reqs[p], move.pc)
    ensures reqs[p].uuid in st.sessions
    ensures CompleteStep(reqs, st, p, reqs[p], pc, act).0 == Unmapped(st, reqs[p].uuid, p)
  {
    hide Unmapped, Discarded;
  }

  lemma NewWinnerHasWon(reqs: Requests, s: System, e: Event)
    requires Inv(reqs, s) && !IsWinner(reqs, s, e.process) && IsWinner(reqs, Next(reqs, s, e), e.process)
    ensures HasWon(reqs, Next(reqs, s, e), e.process, reqs[e.process].uuid)
  {
    hide Inv, CanLock, Locked, Unlocked, CompleteStep, StartStep, ChunkStep, SweepStep, IsWinning, PcFits, SessionIn;
    InvMapIsUnclaimed(reqs, s);
    PcsKeys(reqs, s);
    var p, u := e.process, reqs[e.process].uuid;
    WinningStep(reqs, s.state, p, s.pcs[p], e.act);
    assert Next(reqs, s, e).state.uploads[s.state.sessions[u]].claims == [p];
  }

  lemma {:induction false} WinnersRun(reqs: Requests, schedule: seq<Event>)
    requires FreshNames(reqs)
    ensures WinnersOk(reqs, After(reqs, Start(reqs), schedule))
    decreases |schedule|
  {
    if schedule != [] {
      var n := |schedule| - 1;
      var s := After(reqs, Start(reqs), schedule[..n]);
      InvRun(reqs, schedule[..n]);
      WinnersRun(reqs, schedule[..n]);
      hide Inv, HasWon;
      forall p | IsWinner(reqs, Next(reqs, s, schedule[n]), p)
        ensures HasWon(reqs, Next(reqs, s, schedule[n]), p, reqs[p].uuid)
      {
        if IsWinner(reqs, s, p) {
          WonStays(reqs, s, schedule[n], p, reqs[p].uuid);
        } else {
          OthersDoNotWin(reqs, s, schedule[n], p);
          NewWinnerHasWon(reqs, s, schedule[n]);
        }
      }
    }
  }

  lemma OthersDoNotWin(reqs: Requests, s: System, e: Event, p: nat)
    requires !IsWinner(reqs, s, p) && IsWinner(reqs, Next(reqs, s, e), p)
    ensures p == e.process
  {
    hide StepOf, CanLock, Locked, Unlocked;
  }

  /** Of all completions of one upload, at most one publishes it, however they interleave. */
  lemma OneCompletionSucceeds(reqs: Requests, schedule: seq<Event>, p: nat, q: nat)
    requires FreshNames(reqs) && p in reqs && q in reqs && reqs[p].CompleteReq? && reqs[q].CompleteReq?
    requires reqs[p].uuid == reqs[q].uuid
    requires var pcs := After(reqs, Start(reqs), schedule).pcs;
             p in pcs && q in pcs && pcs[p].Done? && pcs[q].Done? && pcs[p].result.Ok? && pcs[q].result.Ok?
    ensures p == q
  {
    var s := After(reqs, Start(reqs), schedule);
    WinnersRun(reqs, schedule);
    assert IsWinner(reqs, s, p) && IsWinner(reqs, s, q);
    var i :| i in s.state.uploads && i in reqs && reqs[i].StartReq? && reqs[i].uuid == reqs[p].uuid
             && s.state.uploads[i].claims == [p];
    var j :| j in s.state.uploads && j in reqs && reqs[j].StartReq? && reqs[j].uuid == reqs[q].uuid
             && s.state.uploads[j].claims == [q];
    if i != j {
      DifferentNames(reqs, i, j);
    }
    assert [p][0] == [q][0];
  }

  // Waiting

  /** The mutex of the map comes first: whoever holds a session's lock never waits for a lock. */
  lemma LocksAreOrdered(reqs: Requests, st: State, p: nat, pc: Pc, act: Act, held: LockName)
    requires p in reqs && PcFits(reqs[p], pc)
    requires StepOf(reqs, st, p, pc, act).1.Take? && Holds(HeldBy(reqs[p], pc), held)
    ensures held == SessionsMutex && StepOf(reqs, st, p, pc, act).1.lock.SessionMutex?
  {
    hide Unmapped, Discarded, Created;
  }

  /** The points at which a process goes on whatever the locks are. */
  predicate IsFree(req: Request, pc: Pc) {
    pc.Inside? || pc.Owning? || pc.Copying? || pc.Publishing? || pc.Removing? || pc.Sweeping? || pc.Dropped?
    || (req.StartReq? && pc.Begin?)
  }

  lemma FreeGoesOn(reqs: Requests, s: System, p: nat) returns (e: Event)
    requires Inv(reqs, s) && p in reqs && p in s.pcs && IsFree(reqs[p], s.pcs[p])
    ensures Next(reqs, s, e) != s && e.process == p && !e.act.Deliver?
  {
    hide Inv, StepOf, Locked, Unlocked, CanLock, PcFits;
    PcsKeys(reqs, s);
    var pc := s.pcs[p];
    var act := Go;
    if pc.Copying? {
      act := End(false);
    } else if pc.Sweeping? && pc.todo != {} {
      var u :| u in pc.todo;
      act := Pick(u);
    }
    e := Event(p, act);
    FreeMoves(reqs, s.state, p, pc, act);
    assert Next(reqs, s, e).pcs[p] != pc;
  }

  lemma FreeMoves(reqs: Requests, st: State, p: nat, pc: Pc, act: Act)
    requires p in reqs && PcFits(reqs[p], pc) && IsFree(reqs[p], pc)
    requires SessionIn(pc).Some? ==> SessionIn(pc).value in st.uploads
    requires if pc.Copying? then act == End(false)
             else if pc.Sweeping? && pc.todo != {} then act.Pick? && act.uuid in pc.todo else act == Go
    ensures var move := StepOf(reqs, st, p, pc, act).1; (move.Goto? || move.Give?) && move.pc != pc
  {
    hide Unmapped, Discarded, Created;
  }

  /** The next step of `p` needs a lock that `q` holds. */
  predicate WaitsFor(reqs: Requests, s: System, p: nat, q: nat) {
    && p in reqs && p in s.pcs && q in reqs && q in s.pcs
    && var move := StepOf(reqs, s.state, p, s.pcs[p], Go).1;
    move.Take? && !CanLock(s.locks, move.lock, move.exclusive) && Holds(HeldBy(reqs[q], s.pcs[q]), move.lock)
  }

  lemma HolderIsFree(req: Request, pc: Pc, k: LockName)
    requires PcFits(req, pc) && Holds(HeldBy(req, pc), k)
    ensures IsFree(req, pc) || (k == SessionsMutex && pc.Dropping?)
  {}

  lemma WaiterTakes(reqs: Requests, st: State, p: nat, pc: Pc)
    requires p in reqs && PcFits(reqs[p], pc) && !pc.Done? && !IsFree(reqs[p], pc)
    ensures var move := StepOf(reqs, st, p, pc, Go).1;
            && move.Take? && move.pc != pc
            && move.lock == if SessionIn(pc).Some? then SessionMutex(SessionIn(pc).value) else SessionsMutex
  {
    hide Unmapped, Discarded, Created;
  }

  /**
   * A process that cannot take its next step waits for one that goes on, unless that is a clean-up which
   * waits for a session in turn.
   */
  lemma UnfinishedWaits(reqs: Requests, s: System, p: nat) returns (q: nat)
    requires Inv(reqs, s) && p in reqs && p in s.pcs && !s.pcs[p].Done? && !IsFree(reqs[p], s.pcs[p])
    requires Next(reqs, s, Event(p, Go)) == s
    ensures WaitsFor(reqs, s, p, q)
    ensures IsFree(reqs[q], s.pcs[q]) || (s.pcs[q].Dropping? && !s.pcs[p].Dropping?)
  {
    hide Placed, Filled, Accurate, StepOf, IsFree, PcFits, Locked, HeldBy;
    WaiterTakes(reqs, s.state, p, s.pcs[p]);
    var k := StepOf(reqs, s.state, p, s.pcs[p], Go).1.lock;
    q := SomeoneHolds(s.locks, AllHeld(reqs, s), k);
    HolderIsFree(reqs[q], s.pcs[q], k);
  }

  /**
   * No deadlock: a process that has not returned can take a step, or waits for one that can, or waits for a
   * clean-up that waits for one that can.
   */
  lemma NobodyIsStuck(reqs: Requests, schedule: seq<Event>, p: nat) returns (e: Event, via: nat)
    requires FreshNames(reqs) && p in reqs
    requires var pcs := After(reqs, Start(reqs), schedule).pcs; p in pcs && !pcs[p].Done?
    ensures var s := After(reqs, Start(reqs), schedule);
            && Next(reqs, s, e) != s && !e.act.Deliver?
            && (e.process == p || WaitsFor(reqs, s, p, e.process)
                || (WaitsFor(reqs, s, p, via) && WaitsFor(reqs, s, via, e.process)))
  {
    hide Inv, Next, After, IsFree, WaitsFor;
    InvRun(reqs, schedule);
    e, via := SomeoneGoesOn(reqs, After(reqs, Start(reqs), schedule), p);
  }

  lemma SomeoneGoesOn(reqs: Requests, s: System, p: nat) returns (e: Event, via: nat)
    requires Inv(reqs, s) && p in reqs && p in s.pcs && !s.pcs[p].Done?
    ensures Next(reqs, s, e) != s && !e.act.Deliver?
    ensures e.process == p || WaitsFor(reqs, s, p, e.process)
            || (WaitsFor(reqs, s, p, via) && WaitsFor(reqs, s, via, e.process))
  {
    hide Inv, Next, IsFree, StepOf, CanLock, HeldBy, Holds;
    e, via := Event(p, Go), p;
    var q := p;
    if !IsFree(reqs[p], s.pcs[p]) && Next(reqs, s, e) == s {
      q := UnfinishedWaits(reqs, s, p);
      e := Event(q, Go);
      if !IsFree(reqs[q], s.pcs[q]) && Next(reqs, s, e) == s {
        via := q;
        q := UnfinishedWaits(reqs, s, via);
      }
    }
    if IsFree(reqs[q], s.pcs[q]) {
      e := FreeGoesOn(reqs, s, q);
    }
  }
}
