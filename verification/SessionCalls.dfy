/**
 * The session machine, one request at a time: a request that nobody interrupts does what the operation of
 * Uploads.dfy does to the value of the sessions and answers the same; and every request comes to an end.
 */
module SessionCalls {
  import opened Digests
  import opened Store
  import opened Uploads
  import opened Locks
  import opened SessionRuns

  /** The sessions in the map, each with what its file holds. */
  function ValueOf(reqs: Requests, st: State): Sessions {
    map u | u in st.sessions && FileOf(st, st.sessions[u]).Some? && FileOf(st, st.sessions[u]).value in st.files ::
      var id := st.sessions[u];
      Session(NameOf(reqs, id), st.files[FileOf(st, id).value], st.uploads[id].offset, CreatedAt(reqs, id))
  }

  /** A session in the map has an open file that is its own. */
  predicate IsIntact(reqs: Requests, st: State, u: string) {
    && u in st.sessions
    && var id := st.sessions[u];
    && id in reqs && reqs[id].StartReq? && reqs[id].uuid == u
    && FileOf(st, id) == Some(reqs[id].file) && reqs[id].file in st.files
  }

  ghost predicate AllIntact(reqs: Requests, st: State) {
    forall u | u in st.sessions :: IsIntact(reqs, st, u)
  }

  lemma InvIsIntact(reqs: Requests, s: System)
    requires Inv(reqs, s)
    ensures AllIntact(reqs, s.state)
  {
    hide LocksOk;
    forall u | u in s.state.sessions ensures IsIntact(reqs, s.state, u) {
      var id := s.state.sessions[u];
      PlacedKeys(reqs, s.state, s.pcs, id);
      assert PlaceOk(reqs, s.state, s.pcs, id);
      FileIsItsOwn(reqs, s.state, s.pcs, id);
      assert ContentOk(s.state, s.pcs, id);
    }
  }

  lemma ValueIsThere(reqs: Requests, st: State)
    requires AllIntact(reqs, st)
    ensures ValueOf(reqs, st).Keys == st.sessions.Keys
    ensures forall u | u in st.sessions :: ValueOf(reqs, st)[u].name == NameOf(reqs, st.sessions[u])
    ensures forall u | u in st.sessions :: ValueOf(reqs, st)[u].created == CreatedAt(reqs, st.sessions[u])
  {
    forall u | u in st.sessions ensures u in ValueOf(reqs, st) {
      assert IsIntact(reqs, st, u);
    }
  }

  // Schedules

  lemma {:induction false} AfterConcat(reqs: Requests, s: System, a: seq<Event>, b: seq<Event>)
    ensures After(reqs, s, a + b) == After(reqs, After(reqs, s, a), b)
    decreases |b|
  {
    hide Next;
    if b == [] {
      assert a + b == a;
    } else {
      assert (a + b)[..|a + b| - 1] == a + b[..|b| - 1];
      AfterConcat(reqs, s, a, b[..|b| - 1]);
    }
  }

  lemma AfterFirst(reqs: Requests, s: System, e: Event, rest: seq<Event>)
    ensures After(reqs, s, [e] + rest) == After(reqs, Next(reqs, s, e), rest)
  {
    hide Next;
    assert [e][..0] == [];
    AfterConcat(reqs, s, [e], rest);
    assert After(reqs, s, [e]) == Next(reqs, s, e);
  }

  /** The acts of one process, one after the other. */
  function Acts(p: nat, acts: seq<Act>): seq<Event> {
    seq(|acts|, i requires 0 <= i < |acts| => Event(p, acts[i]))
  }

  lemma ActsFirst(reqs: Requests, s: System, p: nat, act: Act, rest: seq<Act>)
    ensures After(reqs, s, Acts(p, [act] + rest)) == After(reqs, Next(reqs, s, Event(p, act)), Acts(p, rest))
  {
    assert Acts(p, [act] + rest) == [Event(p, act)] + Acts(p, rest);
    AfterFirst(reqs, s, Event(p, act), Acts(p, rest));
  }

  lemma NoActs(reqs: Requests, s: System, p: nat)
    ensures After(reqs, s, Acts(p, [])) == s
  {}

  /** The process has returned, the locks are free again, and nothing else has moved. */
  predicate HasReturned(s: System, t: System, p: nat, result: Result<int>) {
    t.locks == s.locks && t.pcs == s.pcs[p := Done(result)]
  }

  // Starts

  lemma StartAlone(reqs: Requests, s: System, p: nat)
    requires Inv(reqs, s) && FreshNames(reqs) && s.locks == map[]
    requires p in reqs && reqs[p].StartReq? && p in s.pcs && s.pcs[p].Begin?
    ensures var StartReq(name, uuid, file, now) := reqs[p];
            var t := After(reqs, s, Acts(p, [Go] + ([Go] + ([Go] + []))));
            HasReturned(s, t, p, Ok(0)) && ValueOf(reqs, t.state) == StartUpload(ValueOf(reqs, s.state), name, uuid, now)
  {
    hide After, Acts, Inv, FreshNames, ValueOf, AllIntact, Next, Inserted;
    var t1 := Next(reqs, s, Event(p, Go));
    var t2 := Next(reqs, t1, Event(p, Go));
    var t3 := Next(reqs, t2, Event(p, Go));
    ActsFirst(reqs, s, p, Go, [Go] + ([Go] + []));
    ActsFirst(reqs, t1, p, Go, [Go] + []);
    ActsFirst(reqs, t2, p, Go, []);
    NoActs(reqs, t3, p);
    StartSteps(reqs, s, p);
    InvIsIntact(reqs, s);
    NotStartedYet(reqs, s, p);
    StartedState(reqs, s.state, p);
  }

  function Inserted(reqs: Requests, st: State, p: nat): State
    requires p in reqs && reqs[p].StartReq?
  {
    var made := Created(st, p, reqs[p].file);
    made.(sessions := made.sessions[reqs[p].uuid := p])
  }

  lemma StartSteps(reqs: Requests, s: System, p: nat)
    requires s.locks == map[] && p in reqs && reqs[p].StartReq? && p in s.pcs && s.pcs[p].Begin?
    ensures var t := Next(reqs, Next(reqs, Next(reqs, s, Event(p, Go)), Event(p, Go)), Event(p, Go));
            t == System(Inserted(reqs, s.state, p), map[], s.pcs[p := Done(Ok(0))])
  {
    var t1 := Next(reqs, s, Event(p, Go));
    var t2 := Next(reqs, t1, Event(p, Go));
    assert t2 == System(t1.state, map[SessionsMutex := Exclusive(p)], s.pcs[p := Inside]);
  }

  lemma NotStartedYet(reqs: Requests, s: System, p: nat)
    requires Inv(reqs, s) && p in reqs && p in s.pcs && s.pcs[p].Begin?
    ensures p !in s.state.uploads
  {
    PlacedKeys(reqs, s.state, s.pcs, p);
  }

  lemma StartedState(reqs: Requests, st: State, p: nat)
    requires AllIntact(reqs, st) && FreshNames(reqs) && p in reqs && reqs[p].StartReq? && p !in st.uploads
    ensures ValueOf(reqs, Inserted(reqs, st, p)) ==
            StartUpload(ValueOf(reqs, st), reqs[p].name, reqs[p].uuid, reqs[p].now)
  {
    hide FreshNames, IsIntact, ValueOf, Inserted;
    var t := Inserted(reqs, st, p);
    ValueIsThere(reqs, st);
    StartedHere(reqs, st, p);
    forall u | u in st.sessions ensures u in ValueOf(reqs, t) && ValueOf(reqs, t)[u] == ValueOf(reqs, st)[u] {
      assert IsIntact(reqs, st, u);
      StartedElsewhere(reqs, st, p, u);
    }
  }

  lemma StartedHere(reqs: Requests, st: State, p: nat)
    requires p in reqs && reqs[p].StartReq?
    ensures var StartReq(name, uuid, _, now) := reqs[p];
            var value := ValueOf(reqs, Inserted(reqs, st, p));
            && value.Keys <= st.sessions.Keys + {uuid}
            && uuid in value && value[uuid] == Session(name, [], 0, now)
  {}

  lemma StartedElsewhere(reqs: Requests, st: State, p: nat, u: string)
    requires IsIntact(reqs, st, u) && FreshNames(reqs) && p in reqs && reqs[p].StartReq? && p !in st.uploads
    ensures u in ValueOf(reqs, st)
    ensures var t := Inserted(reqs, st, p); u in ValueOf(reqs, t) && ValueOf(reqs, t)[u] == ValueOf(reqs, st)[u]
  {
    hide FreshNames, Inserted;
    DifferentNames(reqs, st.sessions[u], p);
    InsertedShape(reqs, st, p, u, st.sessions[u]);
  }

  lemma InsertedShape(reqs: Requests, st: State, p: nat, u: string, id: nat)
    requires p in reqs && reqs[p].StartReq? && id != p && u != reqs[p].uuid
    ensures var t := Inserted(reqs, st, p);
            && (u in t.sessions <==> u in st.sessions) && (u in st.sessions ==> t.sessions[u] == st.sessions[u])
            && (id in t.uploads <==> id in st.uploads) && (id in st.uploads ==> t.uploads[id] == st.uploads[id])
            && t.files == st.files[reqs[p].file := []]
  {}

  // Chunks

  /** The session `id` of the map with a chunk more. */
  function Appended(st: State, id: nat, f: string, data: Bytes, fails: bool): State
    requires id in st.uploads && f in st.files
  {
    Ended(st.(files := st.files[f := st.files[f] + data]), id, data, fails)
  }

  lemma AppendedState(reqs: Requests, st: State, u: string, data: Bytes, fails: bool)
    requires AllIntact(reqs, st) && FreshNames(reqs) && u in st.sessions
    requires FileOf(st, st.sessions[u]).Some? && FileOf(st, st.sessions[u]).value in st.files
    ensures var id := st.sessions[u];
            ValueOf(reqs, Appended(st, id, FileOf(st, id).value, data, fails)) ==
            UploadChunk(ValueOf(reqs, st), NameOf(reqs, id), u, Reader(data, fails)).0
  {
    hide FreshNames, Appended;
    var id := st.sessions[u];
    var f := FileOf(st, id).value;
    var t := Appended(st, id, f, data, fails);
    assert IsIntact(reqs, st, u);
    ValueIsThere(reqs, st);
    forall v | v in st.sessions && v != u ensures v in ValueOf(reqs, t) && ValueOf(reqs, t)[v] == ValueOf(reqs, st)[v] {
      AppendedElsewhere(reqs, st, u, v, data, fails);
    }
    AppendedHere(reqs, st, u, data, fails);
    hide IsIntact, AllIntact, FileOf;
  }

  lemma AppendedHere(reqs: Requests, st: State, u: string, data: Bytes, fails: bool)
    requires IsIntact(reqs, st, u) && u in ValueOf(reqs, st)
    ensures var id := st.sessions[u];
            var t := Appended(st, id, FileOf(st, id).value, data, fails);
            var before := ValueOf(reqs, st)[u];
            && t.sessions == st.sessions && u in ValueOf(reqs, t)
            && ValueOf(reqs, t)[u] ==
               before.(bytes := before.bytes + data, offset := if fails then before.offset else before.offset + |data|)
  {}

  lemma AppendedElsewhere(reqs: Requests, st: State, u: string, v: string, data: Bytes, fails: bool)
    requires IsIntact(reqs, st, u) && IsIntact(reqs, st, v) && FreshNames(reqs) && u != v
    ensures var id := st.sessions[u];
            var t := Appended(st, id, FileOf(st, id).value, data, fails);
            v in ValueOf(reqs, st) && v in ValueOf(reqs, t) && ValueOf(reqs, t)[v] == ValueOf(reqs, st)[v]
  {
    DifferentNames(reqs, st.sessions[v], st.sessions[u]);
  }

  /** A chunk that arrives in one piece. */
  function ChunkActs(data: Bytes, fails: bool): seq<Act> {
    [Go] + ([Go] + ([Go] + ([Go] + ([Deliver(data)] + ([End(fails)] + [])))))
  }

  lemma ChunkAlone(reqs: Requests, s: System, p: nat, data: Bytes, fails: bool)
    requires Inv(reqs, s) && FreshNames(reqs) && s.locks == map[]
    requires p in reqs && reqs[p].ChunkReq? && s.pcs[p].Begin?
    ensures var ChunkReq(name, uuid) := reqs[p];
            var t := After(reqs, s, Acts(p, ChunkActs(data, fails)));
            var (value, res) := UploadChunk(ValueOf(reqs, s.state), name, uuid, Reader(data, fails));
            HasReturned(s, t, p, res) && ValueOf(reqs, t.state) == value
  {
    hide After, Acts, Inv, FreshNames, Next, ValueOf, AllIntact, IsIntact;
    InvIsIntact(reqs, s);
    ValueIsThere(reqs, s.state);
    PcsKeys(reqs, s);
    var t1 := Next(reqs, s, Event(p, Go));
    var t2 := Next(reqs, t1, Event(p, Go));
    ActsFirst(reqs, s, p, Go, [Go] + ([Go] + ([Go] + ([Deliver(data)] + ([End(fails)] + [])))));
    ActsFirst(reqs, t1, p, Go, [Go] + ([Go] + ([Deliver(data)] + ([End(fails)] + []))));
    ChunkLooks(reqs, s, p);
    if t2.pcs[p].Done? {
      DoneActs(reqs, t2, p, [Go] + ([Go] + ([Deliver(data)] + ([End(fails)] + []))));
    } else {
      IntactFile(reqs, s.state, reqs[p].uuid);
      ChunkCopies(reqs, t2, p, s.state.sessions[reqs[p].uuid], data, fails);
      AppendedState(reqs, s.state, reqs[p].uuid, data, fails);
      AppendedOffset(reqs, s.state, reqs[p].uuid, data, fails);
    }
  }

  lemma IntactFile(reqs: Requests, st: State, u: string)
    requires AllIntact(reqs, st) && u in st.sessions
    ensures IsIntact(reqs, st, u) && FileOf(st, st.sessions[u]).Some? && FileOf(st, st.sessions[u]).value in st.files
  {}

  lemma AppendedOffset(reqs: Requests, st: State, u: string, data: Bytes, fails: bool)
    requires IsIntact(reqs, st, u) && u in ValueOf(reqs, st)
    ensures var id := st.sessions[u];
            Appended(st, id, FileOf(st, id).value, data, false).uploads[id].offset == ValueOf(reqs, st)[u].offset + |data|
  {}

  lemma {:induction false} DoneActs(reqs: Requests, s: System, p: nat, acts: seq<Act>)
    requires p in s.pcs && s.pcs[p].Done?
    ensures After(reqs, s, Acts(p, acts)) == s
    decreases |acts|
  {
    if acts == [] {
      NoActs(reqs, s, p);
    } else {
      assert acts == [acts[0]] + acts[1..];
      ActsFirst(reqs, s, p, acts[0], acts[1..]);
      hide After, Acts;
      assert Next(reqs, s, Event(p, acts[0])) == s;
      DoneActs(reqs, s, p, acts[1..]);
    }
  }

  /** The look into the map. */
  lemma ChunkLooks(reqs: Requests, s: System, p: nat)
    requires s.locks == map[] && p in reqs && reqs[p].ChunkReq? && p in s.pcs && s.pcs[p].Begin?
    ensures var t := Next(reqs, Next(reqs, s, Event(p, Go)), Event(p, Go));
            var u := reqs[p].uuid;
            t == System(s.state, map[], s.pcs[p :=
              if u !in s.state.sessions then Done(Err(SessionNotFound))
              else if NameOf(reqs, s.state.sessions[u]) != reqs[p].name then Done(Err(NameMismatch))
              else Found(s.state.sessions[u])])
  {
    var t := Next(reqs, s, Event(p, Go));
    var none: set<nat> := {};
    assert none + {p} == {p} && {p} - {p} == none;
    assert t == System(s.state, map[SessionsMutex := Shared({p})], s.pcs[p := Inside]);
  }

  /** The copy under the session's lock. */
  lemma ChunkCopies(reqs: Requests, s: System, p: nat, id: nat, data: Bytes, fails: bool)
    requires s.locks == map[] && p in reqs && reqs[p].ChunkReq? && p in s.pcs && s.pcs[p] == Found(id)
    requires FileOf(s.state, id).Some? && FileOf(s.state, id).value in s.state.files
    ensures var t := After(reqs, s, Acts(p, [Go] + ([Go] + ([Deliver(data)] + ([End(fails)] + [])))));
            var grown := Appended(s.state, id, FileOf(s.state, id).value, data, fails);
            t == System(grown, map[], s.pcs[p := Done(if fails then Err(ReadFailed) else Ok(grown.uploads[id].offset))])
  {
    hide After, Acts, Next, FileOf, Appended;
    var t1 := Next(reqs, s, Event(p, Go));
    var t2 := Next(reqs, t1, Event(p, Go));
    var t3 := Next(reqs, t2, Event(p, Deliver(data)));
    ActsFirst(reqs, s, p, Go, [Go] + ([Deliver(data)] + ([End(fails)] + [])));
    ActsFirst(reqs, t1, p, Go, [Deliver(data)] + ([End(fails)] + []));
    ActsFirst(reqs, t2, p, Deliver(data), [End(fails)] + []);
    ActsFirst(reqs, t3, p, End(fails), []);
    NoActs(reqs, Next(reqs, t3, Event(p, End(fails))), p);
    CopyBegins(reqs, s, p, id);
    CopyEnds(reqs, s.state, t2, p, id, data, fails);
  }

  /** The session while `p` copies into it. */
  function WithCopier(st: State, id: nat, p: nat): State
    requires id in st.uploads
  {
    st.(uploads := st.uploads[id := st.uploads[id].(copier := Some(p))])
  }

  lemma CopyBegins(reqs: Requests, s: System, p: nat, id: nat)
    requires s.locks == map[] && p in reqs && reqs[p].ChunkReq? && p in s.pcs && s.pcs[p] == Found(id)
    requires FileOf(s.state, id).Some?
    ensures Next(reqs, Next(reqs, s, Event(p, Go)), Event(p, Go)) ==
            System(WithCopier(s.state, id, p), map[SessionMutex(id) := Exclusive(p)], s.pcs[p := Copying(id, [])])
  {
    var t := Next(reqs, s, Event(p, Go));
    assert t == System(s.state, map[SessionMutex(id) := Exclusive(p)], s.pcs[p := Owning(id)]);
  }

  lemma CopyEnds(reqs: Requests, st: State, s: System, p: nat, id: nat, data: Bytes, fails: bool)
    requires FileOf(st, id).Some? && FileOf(st, id).value in st.files && p in reqs && reqs[p].ChunkReq?
    requires p in s.pcs && s == System(WithCopier(st, id, p), map[SessionMutex(id) := Exclusive(p)], s.pcs[p := Copying(id, [])])
    ensures var grown := Appended(st, id, FileOf(st, id).value, data, fails);
            Next(reqs, Next(reqs, s, Event(p, Deliver(data))), Event(p, End(fails))) ==
            System(grown, map[], s.pcs[p := Done(if fails then Err(ReadFailed) else Ok(grown.uploads[id].offset))])
  {
    assert s.pcs[p] == Copying(id, []);
    var f, taken := FileOf(st, id).value, WithCopier(st, id, p);
    var t := Next(reqs, s, Event(p, Deliver(data)));
    assert [] + data == data;
    assert t == System(taken.(files := taken.files[f := taken.files[f] + data]), s.locks, s.pcs[p := Copying(id, data)]);
  }

  // Completions

  /** The session under `u` taken out of the map by `p`, and its file removed. */
  function Taken(st: State, u: string, p: nat): State
    requires u in st.sessions
  {
    Discarded(Unmapped(st, u, p), st.sessions[u])
  }

  lemma TakenState(reqs: Requests, st: State, u: string, p: nat)
    requires AllIntact(reqs, st) && FreshNames(reqs) && u in st.sessions
    ensures ValueOf(reqs, Taken(st, u, p)) == ValueOf(reqs, st) - {u}
    ensures Taken(st, u, p).files == st.files - {reqs[st.sessions[u]].file}
  {
    hide FreshNames, IsIntact, ValueOf, Taken;
    ValueIsThere(reqs, st);
    assert IsIntact(reqs, st, u);
    TakenHere(reqs, st, u, p);
    forall v | v in st.sessions && v != u
      ensures v in ValueOf(reqs, Taken(st, u, p)) && ValueOf(reqs, Taken(st, u, p))[v] == ValueOf(reqs, st)[v]
    {
      assert IsIntact(reqs, st, v);
      TakenElsewhere(reqs, st, u, v, p);
    }
  }

  lemma TakenHere(reqs: Requests, st: State, u: string, p: nat)
    requires IsIntact(reqs, st, u)
    ensures ValueOf(reqs, Taken(st, u, p)).Keys <= st.sessions.Keys - {u}
    ensures Taken(st, u, p).files == st.files - {reqs[st.sessions[u]].file}
  {}

  lemma TakenElsewhere(reqs: Requests, st: State, u: string, v: string, p: nat)
    requires IsIntact(reqs, st, u) && IsIntact(reqs, st, v) && FreshNames(reqs) && u != v
    ensures var t := Taken(st, u, p);
            v in ValueOf(reqs, st) && v in ValueOf(reqs, t) && ValueOf(reqs, t)[v] == ValueOf(reqs, st)[v]
  {
    hide Taken, FreshNames;
    DifferentNames(reqs, st.sessions[v], st.sessions[u]);
    TakenShape(reqs, st, u, p, st.sessions[v]);
  }

  lemma TakenShape(reqs: Requests, st: State, u: string, p: nat, other: nat)
    requires IsIntact(reqs, st, u) && other != st.sessions[u]
    ensures var t := Taken(st, u, p);
            && t.sessions == st.sessions - {u} && t.files == st.files - {reqs[st.sessions[u]].file}
            && (other in st.uploads <==> other in t.uploads)
            && (other in st.uploads ==> t.uploads[other] == st.uploads[other])
  {}

  /** Enough turns for the longest way through. */
  function CompleteActs(): seq<Act> {
    [Go] + ([Go] + ([Go] + ([Go] + ([Go] + ([Go] + ([Go] + []))))))
  }

  lemma CompleteAlone(reqs: Requests, s: System, p: nat)
    requires Inv(reqs, s) && FreshNames(reqs) && s.locks == map[]
    requires p in reqs && reqs[p].CompleteReq? && p in s.pcs && s.pcs[p].Begin?
    ensures var CompleteReq(name, uuid) := reqs[p];
            var value, t := ValueOf(reqs, s.state), After(reqs, s, Acts(p, CompleteActs()));
            && HasReturned(s, t, p, if uuid !in value then Err(SessionNotFound)
                                    else if value[uuid].name != name then Err(NameMismatch) else Ok(0))
            && ValueOf(reqs, t.state) == value - {uuid}
  {
    hide After, Acts, Inv, FreshNames, Next, ValueOf, AllIntact, IsIntact, Taken;
    var u := reqs[p].uuid;
    InvIsIntact(reqs, s);
    ValueIsThere(reqs, s.state);
    var t1 := Next(reqs, s, Event(p, Go));
    var t2 := Next(reqs, t1, Event(p, Go));
    var rest: seq<Act> := [Go] + ([Go] + ([Go] + ([Go] + ([Go] + []))));
    ActsFirst(reqs, s, p, Go, [Go] + rest);
    ActsFirst(reqs, t1, p, Go, rest);
    CompleteLooks(reqs, s, p);
    if u !in s.state.sessions {
      DoneActs(reqs, t2, p, rest);
    } else {
      IntactFile(reqs, s.state, u);
      TakenState(reqs, s.state, u, p);
      var id := s.state.sessions[u];
      UnmappedFile(s.state, u, p);
      if t2.pcs[p].Found? {
        CompletePublishes(reqs, t2, p, id, [Go] + ([Go] + []));
        var t5 := t2.(pcs := t2.pcs[p := Discarding(id, Ok(0))]);
        CompleteRemoves(reqs, t5, p, id, Ok(0), []);
        NoActs(reqs, CompletedAs(t5, p, id, Ok(0)), p);
        SameTaken(s, t2, p, id, Ok(0), Discarding(id, Ok(0)));
      } else {
        CompleteRemoves(reqs, t2, p, id, Err(NameMismatch), [Go] + ([Go] + ([Go] + [])));
        DoneActs(reqs, CompletedAs(t2, p, id, Err(NameMismatch)), p, [Go] + ([Go] + ([Go] + [])));
      }
    }
  }

  lemma SameTaken(s: System, t: System, p: nat, id: nat, result: Result<int>, pc: Pc)
    requires p in t.pcs
    ensures CompletedAs(t.(pcs := t.pcs[p := pc]), p, id, result) == CompletedAs(t, p, id, result)
  {}

  lemma UnmappedFile(st: State, u: string, p: nat)
    requires u in st.sessions && FileOf(st, st.sessions[u]).Some?
    ensures FileOf(Unmapped(st, u, p), st.sessions[u]) == FileOf(st, st.sessions[u])
    ensures Taken(st, u, p) == Discarded(Unmapped(st, u, p), st.sessions[u])
  {}

  lemma CompleteLooks(reqs: Requests, s: System, p: nat)
    requires s.locks == map[] && p in reqs && reqs[p].CompleteReq? && p in s.pcs && s.pcs[p].Begin?
    ensures var t := Next(reqs, Next(reqs, s, Event(p, Go)), Event(p, Go));
            var u := reqs[p].uuid;
            t == if u !in s.state.sessions then s.(pcs := s.pcs[p := Done(Err(SessionNotFound))])
                 else
                   var id := s.state.sessions[u];
                   System(Unmapped(s.state, u, p), map[], s.pcs[p :=
                     if NameOf(reqs, id) != reqs[p].name then Discarding(id, Err(NameMismatch)) else Found(id)])
  {
    hide Unmapped;
    var t := Next(reqs, s, Event(p, Go));
    assert t == System(s.state, map[SessionsMutex := Exclusive(p)], s.pcs[p := Inside]);
  }

  lemma CompletePublishes(reqs: Requests, s: System, p: nat, id: nat, rest: seq<Act>)
    requires s.locks == map[] && p in reqs && reqs[p].CompleteReq? && p in s.pcs && s.pcs[p] == Found(id)
    requires FileOf(s.state, id).Some?
    ensures After(reqs, s, Acts(p, [Go] + ([Go] + ([Go] + rest)))) ==
            After(reqs, s.(pcs := s.pcs[p := Discarding(id, Ok(0))]), Acts(p, rest))
  {
    hide After, Acts, FileOf, Discarded, Unmapped;
    var t1 := Next(reqs, s, Event(p, Go));
    assert t1 == System(s.state, map[SessionMutex(id) := Exclusive(p)], s.pcs[p := Owning(id)]);
    var t2 := Next(reqs, t1, Event(p, Go));
    assert t2 == System(s.state, map[], s.pcs[p := Publishing(id)]);
    ActsFirst(reqs, s, p, Go, [Go] + ([Go] + rest));
    ActsFirst(reqs, t1, p, Go, [Go] + rest);
    ActsFirst(reqs, t2, p, Go, rest);
    assert Next(reqs, t2, Event(p, Go)) == s.(pcs := s.pcs[p := Discarding(id, Ok(0))]);
  }

  function CompletedAs(s: System, p: nat, id: nat, result: Result<int>): System {
    System(Discarded(s.state, id), s.locks, s.pcs[p := Done(result)])
  }

  lemma CompleteRemoves(reqs: Requests, s: System, p: nat, id: nat, result: Result<int>, rest: seq<Act>)
    requires s.locks == map[] && p in reqs && reqs[p].CompleteReq? && p in s.pcs && s.pcs[p] == Discarding(id, result)
    ensures After(reqs, s, Acts(p, [Go] + ([Go] + rest))) == After(reqs, CompletedAs(s, p, id, result), Acts(p, rest))
  {
    hide After, Acts, FileOf, Discarded, Unmapped;
    var t1 := Next(reqs, s, Event(p, Go));
    assert t1 == System(s.state, map[SessionMutex(id) := Exclusive(p)], s.pcs[p := Removing(id, result)]);
    ActsFirst(reqs, s, p, Go, [Go] + rest);
    ActsFirst(reqs, t1, p, Go, rest);
    assert Next(reqs, t1, Event(p, Go)) == CompletedAs(s, p, id, result);
  }

  // Clean-ups

  /** The sessions, without the expired ones among `todo`. */
  function Swept(value: Sessions, todo: set<string>, now: int): Sessions {
    map u | u in value && !(u in todo && now - value[u].created > HOUR) :: value[u]
  }

  function Sweeper(p: nat): LockTable<LockName> {
    map[SessionsMutex := Exclusive(p)]
  }

  lemma {:induction false} SweepRest(reqs: Requests, s: System, p: nat, todo: set<string>) returns (acts: seq<Act>)
    requires Inv(reqs, s) && FreshNames(reqs) && p in reqs && reqs[p].SweepReq? && p in s.pcs
    requires s.locks == Sweeper(p) && s.pcs[p] == Sweeping(todo)
    ensures var t := After(reqs, s, Acts(p, acts));
            && t.locks == map[] && t.pcs == s.pcs[p := Done(Ok(0))]
            && ValueOf(reqs, t.state) == Swept(ValueOf(reqs, s.state), todo, reqs[p].now)
    decreases todo
  {
    hide After, Acts, Inv, FreshNames, Next, ValueOf, AllIntact, Taken, Unmapped, Discarded;
    if todo == {} {
      acts := [Go] + [];
      ActsFirst(reqs, s, p, Go, []);
      NoActs(reqs, Next(reqs, s, Event(p, Go)), p);
      SweepEnds(reqs, s, p);
    } else {
      var u :| u in todo;
      InvIsIntact(reqs, s);
      ValueIsThere(reqs, s.state);
      if u in s.state.sessions && reqs[p].now - CreatedAt(reqs, s.state.sessions[u]) > HOUR {
        TakenState(reqs, s.state, u, p);
        var t := SweptOne(reqs, s, p, todo, u);
        var rest := SweepRest(reqs, t, p, todo - {u});
        acts := [Pick(u)] + ([Go] + ([Go] + rest));
        SweepDrops(reqs, s, p, todo, u, rest);
      } else {
        var t := s.(pcs := s.pcs[p := Sweeping(todo - {u})]);
        SweepKeeps(reqs, s, p, todo, u);
        InvStep(reqs, s, Event(p, Pick(u)));
        var rest := SweepRest(reqs, t, p, todo - {u});
        acts := [Pick(u)] + rest;
        ActsFirst(reqs, s, p, Pick(u), rest);
      }
    }
  }

  lemma SweepEnds(reqs: Requests, s: System, p: nat)
    requires p in reqs && reqs[p].SweepReq? && p in s.pcs && s.locks == Sweeper(p) && s.pcs[p] == Sweeping({})
    ensures Next(reqs, s, Event(p, Go)) == System(s.state, map[], s.pcs[p := Done(Ok(0))])
    ensures Swept(ValueOf(reqs, s.state), {}, reqs[p].now) == ValueOf(reqs, s.state)
  {}

  lemma SweepKeeps(reqs: Requests, s: System, p: nat, todo: set<string>, u: string)
    requires p in reqs && reqs[p].SweepReq? && p in s.pcs && s.pcs[p] == Sweeping(todo) && u in todo
    requires !(u in s.state.sessions && reqs[p].now - CreatedAt(reqs, s.state.sessions[u]) > HOUR)
    ensures Next(reqs, s, Event(p, Pick(u))) == s.(pcs := s.pcs[p := Sweeping(todo - {u})])
  {
    hide Unmapped, Discarded;
  }

  /** The state after one expired session has been dropped. */
  lemma SweptOne(reqs: Requests, s: System, p: nat, todo: set<string>, u: string) returns (t: System)
    requires Inv(reqs, s) && FreshNames(reqs) && p in reqs && reqs[p].SweepReq? && p in s.pcs
    requires s.locks == Sweeper(p) && s.pcs[p] == Sweeping(todo) && u in todo
    requires u in s.state.sessions && reqs[p].now - CreatedAt(reqs, s.state.sessions[u]) > HOUR
    ensures t == System(Taken(s.state, u, p), s.locks, s.pcs[p := Sweeping(todo - {u})]) && Inv(reqs, t)
    ensures t == Next(reqs, Next(reqs, Next(reqs, s, Event(p, Pick(u))), Event(p, Go)), Event(p, Go))
  {
    hide Inv, FreshNames, Unmapped, Discarded, FileOf;
    var id := s.state.sessions[u];
    var t1 := Next(reqs, s, Event(p, Pick(u)));
    assert t1 == System(Unmapped(s.state, u, p), s.locks, s.pcs[p := Dropping(todo - {u}, id)]);
    var t2 := Next(reqs, t1, Event(p, Go));
    assert t2 == System(t1.state, Sweeper(p)[SessionMutex(id) := Exclusive(p)], s.pcs[p := Dropped(todo - {u}, id)]);
    t := Next(reqs, t2, Event(p, Go));
    assert Sweeper(p)[SessionMutex(id) := Exclusive(p)] - {SessionMutex(id)} == Sweeper(p);
    InvStep(reqs, s, Event(p, Pick(u)));
    InvStep(reqs, t1, Event(p, Go));
    InvStep(reqs, t2, Event(p, Go));
  }

  lemma SweepDrops(reqs: Requests, s: System, p: nat, todo: set<string>, u: string, rest: seq<Act>)
    ensures var t := Next(reqs, Next(reqs, Next(reqs, s, Event(p, Pick(u))), Event(p, Go)), Event(p, Go));
            After(reqs, s, Acts(p, [Pick(u)] + ([Go] + ([Go] + rest)))) == After(reqs, t, Acts(p, rest))
  {
    hide Next, After, Acts;
    var t1 := Next(reqs, s, Event(p, Pick(u)));
    ActsFirst(reqs, s, p, Pick(u), [Go] + ([Go] + rest));
    ActsFirst(reqs, t1, p, Go, [Go] + rest);
    ActsFirst(reqs, Next(reqs, t1, Event(p, Go)), p, Go, rest);
  }

  /** A clean-up that looks at the sessions in some order drops exactly the expired ones. */
  lemma SweepAlone(reqs: Requests, s: System, p: nat) returns (acts: seq<Act>)
    requires Inv(reqs, s) && FreshNames(reqs) && s.locks == map[]
    requires p in reqs && reqs[p].SweepReq? && p in s.pcs && s.pcs[p].Begin?
    ensures var t := After(reqs, s, Acts(p, acts));
            HasReturned(s, t, p, Ok(0)) && ValueOf(reqs, t.state) == Expire(ValueOf(reqs, s.state), reqs[p].now)
  {
    hide After, Acts, Inv, FreshNames, Next, AllIntact, IsIntact, ValueOf, Swept, Expire;
    InvIsIntact(reqs, s);
    ValueIsThere(reqs, s.state);
    SweptAll(ValueOf(reqs, s.state), s.state.sessions.Keys, reqs[p].now);
    SweepBegins(reqs, s, p);
    InvStep(reqs, s, Event(p, Go));
    var t := Next(reqs, s, Event(p, Go));
    var rest := SweepRest(reqs, t, p, s.state.sessions.Keys);
    acts := [Go] + rest;
    ActsFirst(reqs, s, p, Go, rest);
  }

  lemma SweptAll(value: Sessions, todo: set<string>, now: int)
    requires value.Keys <= todo
    ensures Swept(value, todo, now) == Expire(value, now)
  {}

  lemma SweepBegins(reqs: Requests, s: System, p: nat)
    requires s.locks == map[] && p in reqs && reqs[p].SweepReq? && p in s.pcs && s.pcs[p].Begin?
    ensures Next(reqs, s, Event(p, Go)) == System(s.state, Sweeper(p), s.pcs[p := Sweeping(s.state.sessions.Keys)])
  {}

  // Every request comes to an end

  function NotBegun(pc: Pc): nat {
    if pc.Begin? then 1 else 0
  }

  /** What is left to do once a request has begun. */
  function Rank(pc: Pc): nat {
    match pc
    case Begin => 0
    case Waiting => 7
    case Inside => 6
    case Found(_) => 5
    case Owning(_) => 4
    case Copying(_, _) => 3
    case Publishing(_) => 3
    case Discarding(_, _) => 2
    case Removing(_, _) => 1
    case Dropping(todo, _) => 3 * |todo| + 3
    case Dropped(todo, _) => 3 * |todo| + 2
    case Sweeping(todo) => 3 * |todo| + 1
    case Done(_) => 0
  }

  predicate IsNearer(pc: Pc, next: Pc) {
    !next.Begin? && (pc.Begin? || Rank(next) < Rank(pc))
  }

  lemma OnwardSteps(reqs: Requests, st: State, p: nat, pc: Pc, act: Act)
    requires p in reqs && PcFits(reqs[p], pc) && !act.Deliver?
    ensures var move := StepOf(reqs, st, p, pc, act).1; !move.Stay? ==> IsNearer(pc, move.pc)
  {
    match reqs[p]
    case StartReq(_, _, _, _) =>
    case ChunkReq(_, _) => ChunkGoesOn(reqs, st, p, pc, act);
    case CompleteReq(_, _) => CompleteGoesOn(reqs, st, p, pc, act);
    case SweepReq(_) => SweepGoesOn(reqs, st, p, pc, act);
  }

  lemma ChunkGoesOn(reqs: Requests, st: State, p: nat, pc: Pc, act: Act)
    requires p in reqs && reqs[p].ChunkReq? && PcFits(reqs[p], pc) && !act.Deliver?
    ensures var move := ChunkStep(reqs, st, p, reqs[p], pc, act).1; !move.Stay? ==> IsNearer(pc, move.pc)
  {
    hide Ended, FileOf;
  }

  lemma CompleteGoesOn(reqs: Requests, st: State, p: nat, pc: Pc, act: Act)
    requires p in reqs && reqs[p].CompleteReq? && PcFits(reqs[p], pc)
    ensures var move := CompleteStep(reqs, st, p, reqs[p], pc, act).1; !move.Stay? ==> IsNearer(pc, move.pc)
  {
    hide Unmapped, Discarded, FileOf;
  }

  lemma SweepGoesOn(reqs: Requests, st: State, p: nat, pc: Pc, act: Act)
    requires p in reqs && reqs[p].SweepReq? && PcFits(reqs[p], pc)
    ensures var move := SweepStep(reqs, st, p, reqs[p], pc, act).1; !move.Stay? ==> IsNearer(pc, move.pc)
  {
    hide Unmapped, Discarded;
    if act.Pick? && pc.Sweeping? && act.uuid in pc.todo {
      assert pc.todo == (pc.todo - {act.uuid}) + {act.uuid};
    }
  }

  /** Every step but a piece of a chunk brings its request nearer to its end. */
  lemma EveryTurnCounts(reqs: Requests, s: System, e: Event)
    requires Inv(reqs, s) && !e.act.Deliver? && Next(reqs, s, e) != s
    ensures var p, t := e.process, Next(reqs, s, e);
            p in reqs && p in s.pcs && t.pcs == s.pcs[p := t.pcs[p]] && IsNearer(s.pcs[p], t.pcs[p])
  {
    hide Inv, StepOf, CanLock, Locked, Unlocked, PcFits;
    PcsKeys(reqs, s);
    if e.process in reqs {
      FitsHere(reqs, s, e.process);
      OnwardSteps(reqs, s.state, e.process, s.pcs[e.process], e.act);
    }
  }

  lemma FitsHere(reqs: Requests, s: System, p: nat)
    requires Inv(reqs, s) && p in reqs
    ensures p in s.pcs && PcFits(reqs[p], s.pcs[p])
  {}

  /** A sum over the processes below `n`. */
  function Sum(f: Pc -> nat, pcs: Pcs, n: nat): nat {
    if n == 0 then 0 else Sum(f, pcs, n - 1) + if n - 1 in pcs then f(pcs[n - 1]) else 0
  }

  lemma {:induction false} SumOfOneChange(f: Pc -> nat, pcs: Pcs, p: nat, pc: Pc, n: nat)
    requires p in pcs
    ensures Sum(f, pcs[p := pc], n) == if p < n then Sum(f, pcs, n) - f(pcs[p]) + f(pc) else Sum(f, pcs, n)
  {
    if n > 0 {
      SumOfOneChange(f, pcs, p, pc, n - 1);
    }
  }

  lemma {:induction false} Bound(processes: set<nat>) returns (n: nat)
    ensures forall p | p in processes :: p < n
    decreases processes
  {
    if processes == {} {
      n := 0;
    } else {
      var p :| p in processes;
      var m := Bound(processes - {p});
      n := if m > p then m else p + 1;
      assert forall q | q in processes :: q == p || q in processes - {p};
    }
  }

  lemma {:induction false} Completes(reqs: Requests, s: System, n: nat) returns (more: seq<Event>)
    requires Inv(reqs, s) && FreshNames(reqs) && forall p | p in reqs :: p < n
    ensures var t := After(reqs, s, more); forall p | p in reqs :: p in t.pcs && t.pcs[p].Done?
    decreases Sum(NotBegun, s.pcs, n), Sum(Rank, s.pcs, n)
  {
    hide Inv, FreshNames, Next, IsNearer, WaitsFor;
    PcsKeys(reqs, s);
    if p :| p in reqs && !s.pcs[p].Done? {
      var e, via := SomeoneGoesOn(reqs, s, p);
      var t := Next(reqs, s, e);
      EveryTurnCounts(reqs, s, e);
      InvStep(reqs, s, e);
      SumsGoDown(s.pcs, e.process, t.pcs[e.process], n);
      var rest := Completes(reqs, t, n);
      more := [e] + rest;
      AfterFirst(reqs, s, e, rest);
    } else {
      more := [];
    }
  }

  lemma SumsGoDown(pcs: Pcs, p: nat, pc: Pc, n: nat)
    requires p in pcs && p < n && IsNearer(pcs[p], pc)
    ensures var next := pcs[p := pc];
            || Sum(NotBegun, next, n) < Sum(NotBegun, pcs, n)
            || (Sum(NotBegun, next, n) == Sum(NotBegun, pcs, n) && Sum(Rank, next, n) < Sum(Rank, pcs, n))
  {
    hide Sum;
    SumOfOneChange(NotBegun, pcs, p, pc, n);
    SumOfOneChange(Rank, pcs, p, pc, n);
  }

  /**
   * Progress: from every state of every run there is a way on in which every request returns, whoever holds
   * and waits for what.
   */
  lemma EveryoneCanReturn(reqs: Requests, schedule: seq<Event>) returns (more: seq<Event>)
    requires FreshNames(reqs)
    ensures var t := After(reqs, Start(reqs), schedule + more); forall p | p in reqs :: p in t.pcs && t.pcs[p].Done?
  {
    hide Inv, FreshNames, Next;
    InvRun(reqs, schedule);
    var n := Bound(reqs.Keys);
    more := Completes(reqs, After(reqs, Start(reqs), schedule), n);
    AfterConcat(reqs, Start(reqs), schedule, more);
  }
}
