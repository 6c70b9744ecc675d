/** The daemon as a step system: registry, pending broadcast tasks and client streams
    (daemon/main.py, daemon/reaper.py, daemon/broadcaster.py). */
module Broadcast {
  import opened Schema
  import opened StateMachine
  import opened Registry
  import opened Frontend
  import opened DeskLayout

  /** A broadcast scheduled but not started. It holds a reference to the record, not a copy of it. */
  datatype Task<Ref> = PendingUpsert(sid: string, record: Ref) | PendingRemove(sid: string)

  /** `sent` keeps, for every connection ever accepted, the messages written to it so far. */
  datatype Daemon<Ref, Cid> = Daemon(
    store: Store<Ref>, pending: seq<Task<Ref>>, clients: set<Cid>, sent: map<Cid, seq<Message>>)

  // ---- messages ----

  ghost predicate Serialisable<Ref>(heap: map<Ref, Record>, t: Task<Ref>) {
    t.PendingUpsert? ==> t.record in heap && heap[t.record].sessionId == t.sid
  }

  /** The message a task sends if it runs now: the record is read at this moment, not when it was scheduled. */
  function Serialise<Ref>(heap: map<Ref, Record>, t: Task<Ref>): Message
    requires Serialisable(heap, t)
  {
    match t
    case PendingUpsert(sid, r) => Upsert(sid, heap[r].ToWire())
    case PendingRemove(sid) => Remove(sid)
  }

  function SerialiseAll<Ref>(heap: map<Ref, Record>, ts: seq<Task<Ref>>): seq<Message>
    requires forall t :: t in ts ==> Serialisable(heap, t)
  {
    if ts == [] then [] else SerialiseAll(heap, ts[..|ts| - 1]) + [Serialise(heap, ts[|ts| - 1])]
  }

  function SnapshotOf<Ref>(s: Store<Ref>): Message
    requires WellFormed(s)
  {
    Snapshot(map sid | sid in s.agents :: s.heap[s.agents[sid]].ToWire())
  }

  function Removals(order: seq<string>): seq<Message> {
    seq(|order|, i requires 0 <= i < |order| => Remove(order[i]))
  }

  // ---- delivery ----

  /** One more message on the streams of the given connections. */
  function Written<Cid>(sent: map<Cid, seq<Message>>, targets: set<Cid>, m: Message): map<Cid, seq<Message>> {
    map c | c in sent :: if c in targets then sent[c] + [m] else sent[c]
  }

  /** One message to every client. A failed write drops that client and reaches nobody else. */
  function Deliver<Ref, Cid>(d: Daemon<Ref, Cid>, m: Message, fails: set<Cid>): Daemon<Ref, Cid> {
    d.(clients := d.clients - fails, sent := Written(d.sent, d.clients - fails, m))
  }

  function DeliverAll<Ref, Cid>(d: Daemon<Ref, Cid>, ms: seq<Message>, fails: seq<set<Cid>>): Daemon<Ref, Cid>
    requires |fails| == |ms|
  {
    if ms == [] then d
    else Deliver(DeliverAll(d, ms[..|ms| - 1], fails[..|ms| - 1]), ms[|ms| - 1], fails[|ms| - 1])
  }

  // ---- steps ----

  datatype DaemonStep<Ref, Cid> =
    | Event(event: HookEvent, now: int, files: Files, created: Ref)  // a datagram; may create the record `created`
    | Sweep(files: Files, alive: set<string>, order: seq<string>, fails: seq<set<Cid>>)  // one reaper iteration
    | Tick(failed: set<Cid>)  // one periodic snapshot
    | Connect(client: Cid, written: bool)
    | Drop(dropped: Cid)
    | RunTask(failing: set<Cid>)  // the oldest pending broadcast starts, and completes

  function Scheduled<Ref>(e: HookEvent, before: Store<Ref>, after: Store<Ref>): seq<Task<Ref>> {
    match OpFor(e.sessionId in before.agents, e)
    case OpRemove => [PendingRemove(e.sessionId)]
    case OpUpsert => if e.sessionId in after.agents then [PendingUpsert(e.sessionId, after.agents[e.sessionId])] else []
    case OpNoop => []
  }

  function EventScheduled<Ref, Cid>(d: Daemon<Ref, Cid>, e: HookEvent, now: int, files: Files, r: Ref): Daemon<Ref, Cid>
    requires WellFormed(d.store)
  {
    var store := EventStore(d.store, e, now, files, r);
    d.(store := store, pending := d.pending + Scheduled(e, d.store, store))
  }

  function Reaped<Ref>(s: Store<Ref>, files: Files, alive: set<string>): set<string>
    requires WellFormed(s)
  {
    set sid | sid in s.agents && Dead(ResolveIdentity(s.heap[s.agents[sid]], files), sid, alive)
  }

  ghost predicate Ready<Ref, Cid>(d: Daemon<Ref, Cid>) {
    WellFormed(d.store) && forall t :: t in d.pending ==> Serialisable(d.store.heap, t)
  }

  /** What the environment may do next. */
  ghost predicate Possible<Ref, Cid>(d: Daemon<Ref, Cid>, s: DaemonStep<Ref, Cid>)
    requires Ready(d)
  {
    match s
    case Event(e, _, _, r) => e.sessionId !in d.store.agents ==> r !in d.store.heap
    case Sweep(files, alive, order, fails) => SweepShape(d, files, alive, order, fails)
    case Tick(_) => true
    case Connect(c, _) => c !in d.sent
    case Drop(_) => true
    case RunTask(_) => d.pending != []
  }

  /** What it may do when broadcasts keep to their order of creation: the tasks scheduled before a sweep
      have run, so that no removal of the reaper overtakes a pending diff of its session. */
  ghost predicate Enabled<Ref, Cid>(d: Daemon<Ref, Cid>, s: DaemonStep<Ref, Cid>)
    requires Ready(d)
  {
    Possible(d, s) && (s.Sweep? ==> !Overtakes(d, s.order))
  }

  ghost predicate SweepShape<Ref, Cid>(
    d: Daemon<Ref, Cid>, files: Files, alive: set<string>, order: seq<string>, fails: seq<set<Cid>>)
    requires Ready(d)
  {
    Enumerates(order, Reaped(d.store, files, alive)) && |fails| == |order|
  }

  ghost predicate Overtakes<Ref, Cid>(d: Daemon<Ref, Cid>, order: seq<string>) {
    exists sid :: sid in order && sid != "" && LastFor(d.pending, sid).Some?
  }

  /** The last pending task about a session. */
  function LastFor<Ref>(ts: seq<Task<Ref>>, sid: string): Option<Task<Ref>> {
    if ts == [] then None
    else if ts[|ts| - 1].sid == sid then Some(ts[|ts| - 1])
    else LastFor(ts[..|ts| - 1], sid)
  }

  /** Identities retried, then the dead removed. */
  function SweptStore<Ref>(s: Store<Ref>, files: Files, alive: set<string>): Store<Ref>
    requires WellFormed(s)
  {
    ResolveKeepsWellFormed(s, files, {});
    ReapStore(ResolveStore(s, files), alive)
  }

  function StoreAfter<Ref, Cid>(d: Daemon<Ref, Cid>, s: DaemonStep<Ref, Cid>): Store<Ref>
    requires Ready(d)
  {
    match s
    case Event(e, now, files, r) => EventStore(d.store, e, now, files, r)
    case Sweep(files, alive, _, _) => SweptStore(d.store, files, alive)
    case _ => d.store
  }

  /** The messages a step broadcasts to whoever is connected. */
  function Emits<Ref, Cid>(d: Daemon<Ref, Cid>, s: DaemonStep<Ref, Cid>): seq<Message>
    requires Ready(d) && Possible(d, s)
  {
    match s
    case Sweep(_, _, order, _) => Removals(order)
    case Tick(_) => [SnapshotOf(d.store)]
    case RunTask(_) => [Serialise(d.store.heap, d.pending[0])]
    case _ => []
  }

  function After<Ref, Cid>(d: Daemon<Ref, Cid>, s: DaemonStep<Ref, Cid>): Daemon<Ref, Cid>
    requires Ready(d) && Possible(d, s)
  {
    match s
    case Event(e, now, files, r) => EventScheduled(d, e, now, files, r)
    case Sweep(files, alive, order, fails) =>
      DeliverAll(d.(store := SweptStore(d.store, files, alive)), Removals(order), fails)
    case Tick(fails) => Deliver(d, SnapshotOf(d.store), fails)
    case Connect(c, written) =>
      d.(clients := d.clients + {c}, sent := d.sent[c := if written then [SnapshotOf(d.store)] else []])
    case Drop(c) => d.(clients := d.clients - {c})
    case RunTask(fails) => Deliver(d.(pending := d.pending[1..]), Serialise(d.store.heap, d.pending[0]), fails)
  }

  // ---- agreement ----

  /** Same state, same label, since the same moment. */
  predicate StatusOf(w: Wire, r: Record) {
    w.state == r.state && w.actionLabel == r.actionLabel && w.stateSince == r.stateSince
  }

  /** The replica shows this session exactly if it is registered, with the registered status. */
  ghost predicate AgreesOn<Ref>(s: Store<Ref>, v: Replica, sid: string)
    requires WellFormed(s)
  {
    && (sid in v <==> sid in s.agents)
    && (sid in v ==> StatusOf(v[sid], s.heap[s.agents[sid]]))
  }

  ghost predicate Agrees<Ref>(s: Store<Ref>, v: Replica)
    requires WellFormed(s)
  {
    forall sid :: sid != "" ==> AgreesOn(s, v, sid)
  }

  /** This broadcast leads where the registry already is. */
  ghost predicate LeadsHome<Ref>(s: Store<Ref>, t: Task<Ref>) {
    match t
    case PendingUpsert(sid, r) => sid in s.agents && s.agents[sid] == r
    case PendingRemove(sid) => sid !in s.agents
  }

  /** So does the last of the given tasks about each session. */
  ghost predicate AllLeadHome<Ref>(s: Store<Ref>, ts: seq<Task<Ref>>) {
    forall sid :: sid != "" && LastFor(ts, sid).Some? ==> LeadsHome(s, LastFor(ts, sid).value)
  }

  /** All but the `stale` oldest pending tasks lead home. */
  ghost predicate SoundBut<Ref, Cid>(d: Daemon<Ref, Cid>, stale: nat) {
    Ready(d) && stale <= |d.pending| && AllLeadHome(d.store, d.pending[stale..])
  }

  ghost predicate Sound<Ref, Cid>(d: Daemon<Ref, Cid>) {
    Ready(d) && AllLeadHome(d.store, d.pending)
  }

  /** A replica that lags by the pending tasks only: it agrees wherever nothing is pending. */
  ghost predicate Follows<Ref, Cid>(d: Daemon<Ref, Cid>, v: Replica)
    requires Ready(d)
  {
    forall sid :: sid != "" && LastFor(d.pending, sid).None? ==> AgreesOn(d.store, v, sid)
  }

  /** The daemon right after cold start: some registry, nothing pending, nobody connected. */
  ghost predicate Initial<Ref, Cid>(d: Daemon<Ref, Cid>) {
    WellFormed(d.store) && d.pending == [] && d.clients == {} && d.sent == map[]
  }

  // ---- pending tasks, applied ----

  lemma ApplyLast<Ref>(heap: map<Ref, Record>, ts: seq<Task<Ref>>, v: Replica)
    requires ts != [] && forall t :: t in ts ==> Serialisable(heap, t)
    ensures var n := |ts| - 1;
            HandleAll(v, SerialiseAll(heap, ts))
            == Handle(HandleAll(v, SerialiseAll(heap, ts[..n])), Serialise(heap, ts[n]))
  {
    var n := |ts| - 1;
    assert ts[n] in ts;
    var ms := SerialiseAll(heap, ts[..n]);
    assert (ms + [Serialise(heap, ts[n])])[..|ms|] == ms;
  }

  lemma TaskApplied<Ref>(heap: map<Ref, Record>, t: Task<Ref>, v: Replica, sid: string)
    requires sid != "" && Serialisable(heap, t)
    ensures var v' := Handle(v, Serialise(heap, t));
            if t.sid != sid then (sid in v' <==> sid in v) && (sid in v ==> v'[sid] == v[sid])
            else if t.PendingUpsert? then sid in v' && v'[sid] == heap[t.record].ToWire()
            else sid !in v'
  {
  }

  lemma {:induction false} AppliedAt<Ref>(heap: map<Ref, Record>, ts: seq<Task<Ref>>, v: Replica, sid: string)
    requires sid != "" && forall t :: t in ts ==> Serialisable(heap, t)
    ensures var v' := HandleAll(v, SerialiseAll(heap, ts));
            match LastFor(ts, sid)
            case None => (sid in v' <==> sid in v) && (sid in v ==> v'[sid] == v[sid])
            case Some(PendingUpsert(_, r)) => r in heap && sid in v' && v'[sid] == heap[r].ToWire()
            case Some(PendingRemove(_)) => sid !in v'
  {
    if ts != [] {
      var n := |ts| - 1;
      AppliedAt(heap, ts[..n], v, sid);
      ApplyLast(heap, ts, v);
      assert ts[n] in ts;
      TaskApplied(heap, ts[n], HandleAll(v, SerialiseAll(heap, ts[..n])), sid);
    }
  }

  /** Lagging by the pending tasks means exactly that running them, on the records as they are now,
      brings every session's status home. */
  lemma PendingSettles<Ref, Cid>(d: Daemon<Ref, Cid>, v: Replica)
    requires Sound(d)
    ensures Follows(d, v) <==> Agrees(d.store, HandleAll(v, SerialiseAll(d.store.heap, d.pending)))
  {
    var v' := HandleAll(v, SerialiseAll(d.store.heap, d.pending));
    forall sid | sid != ""
      ensures LastFor(d.pending, sid).Some? ==> AgreesOn(d.store, v', sid)
      ensures LastFor(d.pending, sid).None? ==> (AgreesOn(d.store, v, sid) <==> AgreesOn(d.store, v', sid))
    {
      AppliedAt(d.store.heap, d.pending, v, sid);
      LastForIsPending(d.pending, sid);
    }
  }

  lemma SnapshotFollows<Ref, Cid>(d: Daemon<Ref, Cid>)
    requires Ready(d)
    ensures Follows(d, SnapshotOf(d.store).agents)
  {
  }

  // ---- single steps ----

  lemma {:induction false} LastForIsPending<Ref>(ts: seq<Task<Ref>>, sid: string)
    ensures LastFor(ts, sid).Some? ==> LastFor(ts, sid).value in ts && LastFor(ts, sid).value.sid == sid
  {
    if ts != [] { LastForIsPending(ts[..|ts| - 1], sid); }
  }

  lemma {:induction false} LastForWithoutHead<Ref>(ts: seq<Task<Ref>>, sid: string)
    requires ts != []
    ensures LastFor(ts, sid) ==
              if LastFor(ts[1..], sid).Some? then LastFor(ts[1..], sid)
              else if ts[0].sid == sid then Some(ts[0]) else None
  {
    var n := |ts| - 1;
    if n > 0 && ts[n].sid != sid {
      LastForWithoutHead(ts[..n], sid);
      assert ts[..n][1..] == ts[1..][..n - 1];
    }
  }

  lemma {:induction false} LastForInTail<Ref>(ts: seq<Task<Ref>>, k: nat, sid: string)
    requires k <= |ts|
    ensures LastFor(ts[k..], sid).Some? ==> LastFor(ts, sid) == LastFor(ts[k..], sid)
  {
    var n := |ts| - 1;
    if k <= n && ts[n].sid != sid {
      LastForInTail(ts[..n], k, sid);
      assert ts[..n][k..] == ts[k..][..n - k];
    }
  }

  lemma LastForSnoc<Ref>(ts: seq<Task<Ref>>, added: seq<Task<Ref>>, sid: string)
    requires |added| <= 1
    ensures LastFor(ts + added, sid) ==
              if added != [] && added[0].sid == sid then Some(added[0]) else LastFor(ts, sid)
  {
    if added == [] {
      assert ts + added == ts;
    } else {
      assert (ts + added)[..|ts|] == ts;
    }
  }

  /** What an event does to the store, seen from outside the record it addresses. */
  lemma EventEffect<Ref>(s: Store<Ref>, e: HookEvent, now: int, files: Files, r: Ref)
    requires WellFormed(s) && (e.sessionId !in s.agents ==> r !in s.heap)
    ensures var s' := EventStore(s, e, now, files, r);
            && WellFormed(s')
            && (forall sid :: sid != e.sessionId ==> (sid in s'.agents <==> sid in s.agents))
            && (forall sid :: sid != e.sessionId && sid in s.agents ==>
                  s'.agents[sid] == s.agents[sid] && s'.heap[s.agents[sid]] == s.heap[s.agents[sid]])
            && (forall q :: q in s.heap ==> q in s'.heap && s'.heap[q].sessionId == s.heap[q].sessionId)
  {
    EventRefinesValues(s, e, now, files, r);
    if e.sessionId in s.agents {
      EventKeepsId(true, s.heap[s.agents[e.sessionId]], e, now, files);
    }
  }

  /** What it does to the session it addresses. */
  lemma EventOutcome<Ref>(s: Store<Ref>, e: HookEvent, now: int, files: Files, r: Ref)
    requires WellFormed(s) && (e.sessionId !in s.agents ==> r !in s.heap)
    ensures var s', op := EventStore(s, e, now, files, r), OpFor(e.sessionId in s.agents, e);
            && (e.sessionId in s'.agents <==> op != OpRemove)
            && (op == OpNoop ==>
                  && e.sessionId in s.agents && s'.agents == s.agents
                  && s'.heap[s.agents[e.sessionId]].Shown() == s.heap[s.agents[e.sessionId]].Shown())
  {
    if OpFor(e.sessionId in s.agents, e) == OpNoop {
      NoopIsSilent(s.heap[s.agents[e.sessionId]], e, now);
    }
  }

  lemma EventKeepsReady<Ref, Cid>(d: Daemon<Ref, Cid>, e: HookEvent, now: int, files: Files, r: Ref)
    requires Ready(d) && (e.sessionId !in d.store.agents ==> r !in d.store.heap)
    ensures Ready(EventScheduled(d, e, now, files, r))
  {
    var d' := EventScheduled(d, e, now, files, r);
    EventEffect(d.store, e, now, files, r);
    forall t | t in d'.pending ensures Serialisable(d'.store.heap, t) {
      if t in d.pending { assert Serialisable(d.store.heap, t); }
    }
  }

  /** What an event schedules, added to tasks that lead home, leads home after the event. */
  lemma EventKeepsLeading<Ref>(s: Store<Ref>, ts: seq<Task<Ref>>, e: HookEvent, now: int, files: Files, r: Ref)
    requires WellFormed(s) && (e.sessionId !in s.agents ==> r !in s.heap) && AllLeadHome(s, ts)
    ensures var s' := EventStore(s, e, now, files, r);
            AllLeadHome(s', ts + Scheduled(e, s, s'))
  {
    var s' := EventStore(s, e, now, files, r);
    var added := Scheduled(e, s, s');
    EventEffect(s, e, now, files, r);
    EventOutcome(s, e, now, files, r);
    forall sid | sid != "" && LastFor(ts + added, sid).Some? ensures LeadsHome(s', LastFor(ts + added, sid).value) {
      LastForSnoc(ts, added, sid);
      LastForIsPending(ts, sid);
    }
  }

  lemma EventKeepsFollowing<Ref, Cid>(d: Daemon<Ref, Cid>, s: DaemonStep<Ref, Cid>, v: Replica)
    requires Ready(d) && s.Event? && Possible(d, s) && Follows(d, v)
    ensures Ready(After(d, s)) && Follows(After(d, s), v)
  {
    var e, d' := s.event, After(d, s);
    EventKeepsReady(d, e, s.now, s.files, s.created);
    EventEffect(d.store, e, s.now, s.files, s.created);
    EventOutcome(d.store, e, s.now, s.files, s.created);
    forall sid | sid != "" && LastFor(d'.pending, sid).None? ensures AgreesOn(d'.store, v, sid) {
      LastForSnoc(d.pending, Scheduled(e, d.store, d'.store), sid);
      assert AgreesOn(d.store, v, sid);
    }
  }

  lemma SweepEffect<Ref>(s: Store<Ref>, files: Files, alive: set<string>)
    requires WellFormed(s)
    ensures WellFormed(ResolveStore(s, files))
    ensures var s' := SweptStore(s, files, alive);
            && WellFormed(s')
            && s'.agents == s.agents - Reaped(s, files, alive)
            && s'.heap.Keys == s.heap.Keys
            && (forall q :: q in s.heap ==>
                  s'.heap[q].sessionId == s.heap[q].sessionId && s'.heap[q].Shown() == s.heap[q].Shown())
  {
    ResolveKeepsWellFormed(s, files, {});
    var s1 := ResolveStore(s, files);
    assert forall sid :: sid in s.agents ==> s1.heap[s.agents[sid]] == ResolveIdentity(s.heap[s.agents[sid]], files);
    assert DeadInStore(s1, alive) == Reaped(s, files, alive);
  }

  lemma {:induction false} RemovalsApplied(v: Replica, order: seq<string>, sid: string)
    requires sid != ""
    ensures var v' := HandleAll(v, Removals(order));
            (sid in v' <==> sid in v && sid !in order) && (sid in v' ==> v'[sid] == v[sid])
  {
    if order != [] {
      var n := |order| - 1;
      RemovalsApplied(v, order[..n], sid);
      assert Removals(order)[..n] == Removals(order[..n]);
    }
  }

  lemma {:induction false} DeliverAllKeeps<Ref, Cid>(d: Daemon<Ref, Cid>, ms: seq<Message>, fails: seq<set<Cid>>)
    requires |fails| == |ms|
    ensures var d' := DeliverAll(d, ms, fails);
            && d'.store == d.store && d'.pending == d.pending && d'.clients <= d.clients
            && d'.sent.Keys == d.sent.Keys
            && (forall c :: c in d'.clients && c in d.sent ==> d'.sent[c] == d.sent[c] + ms)
            && (forall c :: c in d.sent ==> d.sent[c] <= d'.sent[c])
  {
    if ms == [] {
      assert forall c :: c in d.sent ==> d.sent[c] + ms == d.sent[c];
    } else {
      var n := |ms| - 1;
      DeliverAllKeeps(d, ms[..n], fails[..n]);
      assert ms == ms[..n] + [ms[n]];
    }
  }

  lemma SweepKeepsReady<Ref, Cid>(d: Daemon<Ref, Cid>, files: Files, alive: set<string>)
    requires Ready(d)
    ensures Ready(d.(store := SweptStore(d.store, files, alive)))
  {
    SweepEffect(d.store, files, alive);
    forall t | t in d.pending ensures Serialisable(SweptStore(d.store, files, alive).heap, t) {
      assert Serialisable(d.store.heap, t);
    }
  }

  lemma SweepKeepsLeading<Ref>(s: Store<Ref>, ts: seq<Task<Ref>>, files: Files, alive: set<string>)
    requires WellFormed(s) && AllLeadHome(s, ts)
    requires forall sid :: sid in Reaped(s, files, alive) && sid != "" ==> LastFor(ts, sid).None?
    ensures AllLeadHome(SweptStore(s, files, alive), ts)
  {
    SweepEffect(s, files, alive);
    forall sid | sid != "" && LastFor(ts, sid).Some?
      ensures LeadsHome(SweptStore(s, files, alive), LastFor(ts, sid).value)
    {
      LastForIsPending(ts, sid);
    }
  }

  lemma SweepKeepsFollowing<Ref, Cid>(d: Daemon<Ref, Cid>, s: DaemonStep<Ref, Cid>, v: Replica)
    requires Ready(d) && s.Sweep? && Possible(d, s) && Follows(d, v)
    ensures Ready(After(d, s)) && Follows(After(d, s), HandleAll(v, Emits(d, s)))
  {
    var d' := After(d, s);
    SweepIsReady(d, s);
    SweepEffect(d.store, s.files, s.alive);
    forall sid | sid != "" && LastFor(d.pending, sid).None?
      ensures AgreesOn(d'.store, HandleAll(v, Emits(d, s)), sid)
    {
      assert AgreesOn(d.store, v, sid);
      RemovalsApplied(v, s.order, sid);
    }
  }

  lemma SweepIsReady<Ref, Cid>(d: Daemon<Ref, Cid>, s: DaemonStep<Ref, Cid>)
    requires Ready(d) && s.Sweep? && Possible(d, s)
    ensures Ready(After(d, s)) && After(d, s).pending == d.pending && After(d, s).store == StoreAfter(d, s)
  {
    SweepKeepsReady(d, s.files, s.alive);
    DeliverAllKeeps(d.(store := StoreAfter(d, s)), Removals(s.order), s.fails);
  }

  lemma TailLeads<Ref>(s: Store<Ref>, ts: seq<Task<Ref>>)
    requires ts != [] && AllLeadHome(s, ts)
    ensures AllLeadHome(s, ts[1..])
  {
    forall sid ensures LastFor(ts[1..], sid).Some? ==> LastFor(ts, sid) == LastFor(ts[1..], sid) {
      LastForWithoutHead(ts, sid);
    }
  }

  lemma TaskKeepsFollowing<Ref, Cid>(d: Daemon<Ref, Cid>, s: DaemonStep<Ref, Cid>, v: Replica)
    requires Sound(d) && s.RunTask? && Possible(d, s) && Follows(d, v)
    ensures Ready(After(d, s)) && Follows(After(d, s), HandleAll(v, Emits(d, s)))
  {
    var d' := After(d, s);
    var head := d.pending[0];
    assert [Serialise(d.store.heap, head)][..0] == [];
    assert HandleAll(v, Emits(d, s)) == Handle(v, Serialise(d.store.heap, head));
    forall sid | sid != "" && LastFor(d'.pending, sid).None?
      ensures AgreesOn(d'.store, HandleAll(v, Emits(d, s)), sid)
    {
      LastForWithoutHead(d.pending, sid);
      if head.sid != sid { assert AgreesOn(d.store, v, sid); }
    }
  }

  /** Any step, a sweep that overtakes pending diffs included, leaves tasks that can be serialised. */
  lemma StepKeepsReady<Ref, Cid>(d: Daemon<Ref, Cid>, s: DaemonStep<Ref, Cid>)
    requires Ready(d) && Possible(d, s)
    ensures Ready(After(d, s)) && After(d, s).store == StoreAfter(d, s)
  {
    match s
    case Event(e, now, files, r) => EventKeepsReady(d, e, now, files, r);
    case Sweep(_, _, _, _) => SweepIsReady(d, s);
    case _ =>
  }

  /** How many of the `stale` oldest tasks a step leaves pending. */
  function StaleAfter<Ref, Cid>(s: DaemonStep<Ref, Cid>, stale: nat): nat {
    if s.RunTask? && stale > 0 then stale - 1 else stale
  }

  /** A step in order keeps leading home all that did, and a task that runs is one less that does not. */
  lemma StepKeepsSoundBut<Ref, Cid>(d: Daemon<Ref, Cid>, s: DaemonStep<Ref, Cid>, stale: nat)
    requires SoundBut(d, stale) && Enabled(d, s)
    ensures SoundBut(After(d, s), StaleAfter(s, stale))
  {
    StepKeepsReady(d, s);
    var d', fresher := After(d, s), d.pending[stale..];
    match s
    case Event(e, now, files, r) =>
      EventKeepsLeading(d.store, fresher, e, now, files, r);
      assert d'.pending[stale..] == fresher + Scheduled(e, d.store, d'.store);
    case Sweep(files, alive, order, _) =>
      SweepIsReady(d, s);
      forall sid | sid in Reaped(d.store, files, alive) && sid != "" ensures LastFor(fresher, sid).None? {
        LastForInTail(d.pending, stale, sid);
      }
      SweepKeepsLeading(d.store, fresher, files, alive);
    case RunTask(_) =>
      if stale == 0 {
        assert fresher == d.pending;
        TailLeads(d.store, d.pending);
        assert d'.pending[0..] == d.pending[1..];
      } else {
        assert d'.pending[stale - 1..] == fresher;
      }
    case _ =>
  }

  lemma SoundButNone<Ref, Cid>(d: Daemon<Ref, Cid>)
    ensures SoundBut(d, 0) <==> Sound(d)
  {
    assert d.pending[0..] == d.pending;
  }

  /** Every step, interleaved anyhow, keeps the pending tasks leading home, and a replica that lags by
      the pending tasks only still does so after handling what the step broadcast. */
  lemma StepKeepsFollowing<Ref, Cid>(d: Daemon<Ref, Cid>, s: DaemonStep<Ref, Cid>, v: Replica)
    requires Sound(d) && Enabled(d, s)
    ensures Sound(After(d, s))
    ensures Follows(d, v) ==> Follows(After(d, s), HandleAll(v, Emits(d, s)))
  {
    SoundButNone(d);
    StepKeepsSoundBut(d, s, 0);
    SoundButNone(After(d, s));
    if Follows(d, v) {
      match s
      case Event(_, _, _, _) => EventKeepsFollowing(d, s, v);
      case Sweep(_, _, _, _) => SweepKeepsFollowing(d, s, v);
      case RunTask(_) => TaskKeepsFollowing(d, s, v);
      case Tick(_) =>
        assert [SnapshotOf(d.store)][..0] == [];
        SnapshotFollows(d);
      case _ =>
    }
  }

  /** What one step writes: every client that survives it got exactly the messages the step emits,
      or, if it is the newcomer, the snapshot of the moment, unless that first write failed. */
  lemma StepStreams<Ref, Cid>(d: Daemon<Ref, Cid>, s: DaemonStep<Ref, Cid>, c: Cid)
    requires Ready(d) && Possible(d, s) && d.clients <= d.sent.Keys
    ensures var d' := After(d, s);
            && d'.clients <= d'.sent.Keys
            && (c in d.sent ==> c in d'.sent && d.sent[c] <= d'.sent[c])
            && (c in d.sent && c in d'.clients ==> c in d.clients && d'.sent[c] == d.sent[c] + Emits(d, s))
            && (c !in d.sent && c in d'.clients ==>
                  s.Connect? && s.client == c && d'.sent[c] == if s.written then [SnapshotOf(d.store)] else [])
  {
    if s.Sweep? {
      DeliverAllKeeps(d.(store := StoreAfter(d, s)), Removals(s.order), s.fails);
    }
  }

  // ---- who is served ----

  predicate Joins<Ref, Cid>(s: DaemonStep<Ref, Cid>, c: Cid) {
    s.Connect? && s.client == c
  }

  /** The client disconnects, or a write to it fails. */
  ghost predicate Leaves<Ref, Cid>(s: DaemonStep<Ref, Cid>, c: Cid) {
    match s
    case Drop(dropped) => dropped == c
    case Tick(failed) => c in failed
    case RunTask(failing) => c in failing
    case Sweep(_, _, _, fails) => exists i :: 0 <= i < |fails| && c in fails[i]
    case _ => false
  }

  lemma {:induction false} ServedAfterAll<Ref, Cid>(
    d: Daemon<Ref, Cid>, ms: seq<Message>, fails: seq<set<Cid>>, c: Cid)
    requires |fails| == |ms|
    ensures c in DeliverAll(d, ms, fails).clients <==> c in d.clients && forall i :: 0 <= i < |fails| ==> c !in fails[i]
  {
    if ms != [] {
      var n := |ms| - 1;
      ServedAfterAll(d, ms[..n], fails[..n], c);
      assert forall i :: 0 <= i < n ==> fails[i] == fails[..n][i];
    }
  }

  /** Who connects is served, and so is everyone who was, unless it disconnects or a write to it fails. */
  lemma ServedAfterStep<Ref, Cid>(d: Daemon<Ref, Cid>, s: DaemonStep<Ref, Cid>, c: Cid)
    requires Ready(d) && Possible(d, s)
    ensures c in After(d, s).clients <==> Joins(s, c) || (c in d.clients && !Leaves(s, c))
  {
    if s.Sweep? {
      ServedAfterAll(d.(store := StoreAfter(d, s)), Removals(s.order), s.fails, c);
    }
  }

  /** The writes a failure leaves out, for broadcasts one after another. */
  lemma {:induction false} SentUntilFailure<Ref, Cid>(
    d: Daemon<Ref, Cid>, ms: seq<Message>, fails: seq<set<Cid>>, c: Cid) returns (k: nat)
    requires |fails| == |ms| && c in d.sent
    ensures k <= |ms| && c in DeliverAll(d, ms, fails).sent
    ensures DeliverAll(d, ms, fails).sent[c] == d.sent[c] + ms[..k]
    ensures c !in d.clients ==> k == 0
    ensures forall i :: 0 <= i < k ==> c !in fails[i]
    ensures c in d.clients && k < |ms| ==> c in fails[k]
  {
    if ms == [] {
      k := 0;
    } else {
      var n := |ms| - 1;
      k := SentUntilFailure(d, ms[..n], fails[..n], c);
      assert ms[..n][..k] == ms[..k];
      ServedAfterAll(d, ms[..n], fails[..n], c);
      if k == n && c in d.clients && c !in fails[n] {
        assert forall i :: 0 <= i < n ==> fails[..n][i] == fails[i];
        assert ms[..n] + [ms[n]] == ms && ms[..n + 1] == ms;
        k := n + 1;
      }
    }
  }

  /** A step writes nothing to who is not served, and to who is, what it broadcasts up to the first write
      that fails. */
  lemma StreamsGrowUntilFailure<Ref, Cid>(d: Daemon<Ref, Cid>, s: DaemonStep<Ref, Cid>, c: Cid) returns (k: nat)
    requires Ready(d) && Possible(d, s) && c in d.sent
    ensures k <= |Emits(d, s)| && c in After(d, s).sent
    ensures After(d, s).sent[c] == d.sent[c] + Emits(d, s)[..k]
    ensures c !in d.clients ==> k == 0
    ensures c in d.clients && Leaves(s, c) && (s.Tick? || s.RunTask?) ==> k == 0
    ensures c in d.clients && s.Sweep? ==>
              (forall i :: 0 <= i < k ==> c !in s.fails[i]) && (k < |s.order| ==> c in s.fails[k])
  {
    match s
    case Sweep(_, _, order, fails) =>
      k := SentUntilFailure(d.(store := StoreAfter(d, s)), Removals(order), fails, c);
    case Tick(fails) =>
      k := if c in d.clients - fails then 1 else 0;
    case RunTask(fails) =>
      k := if c in d.clients - fails then 1 else 0;
    case _ =>
      k := 0;
      assert d.sent[c] + [] == d.sent[c];
  }

  // ---- what a step schedules and sends ----

  /** An event schedules one diff, by kind: a removal for a SessionEnd, nothing for an event that is not
      handled of a session that is known, otherwise an upsert of the session's record. */
  lemma EventSchedulesByKind<Ref, Cid>(d: Daemon<Ref, Cid>, e: HookEvent, now: int, files: Files, r: Ref)
    requires Ready(d) && (e.sessionId !in d.store.agents ==> r !in d.store.heap)
    ensures var step: DaemonStep<Ref, Cid> := Event(e, now, files, r);
            var d' := After(d, step);
            && d'.clients == d.clients && d'.sent == d.sent
            && (e.sessionId in d'.store.agents <==> e.kind != SessionEnd)
            && d'.pending == d.pending +
                 if e.kind == SessionEnd then [PendingRemove(e.sessionId)]
                 else if e.kind == Unhandled && e.sessionId in d.store.agents then []
                 else [PendingUpsert(e.sessionId, d'.store.agents[e.sessionId])]
  {
    OpByKind(e.sessionId in d.store.agents, e);
    EventOutcome(d.store, e, now, files, r);
  }

  /** A diff carries every field of the record as it is when its broadcast runs. */
  lemma DiffCarriesItsRecord<Ref, Cid>(d: Daemon<Ref, Cid>, fails: set<Cid>)
    requires Ready(d) && d.pending != []
    ensures var step: DaemonStep<Ref, Cid> := RunTask(fails);
            && |Emits(d, step)| == 1
            && (match d.pending[0]
                case PendingUpsert(sid, r) =>
                  && r in d.store.heap && Emits(d, step)[0].Upsert? && Emits(d, step)[0].sid == sid
                  && Carries(Emits(d, step)[0].agent, d.store.heap[r])
                case PendingRemove(sid) => Emits(d, step)[0] == Remove(sid))
  {
    assert Serialisable(d.store.heap, d.pending[0]);
  }

  lemma SnapshotCarriesTheRegistry<Ref>(s: Store<Ref>)
    requires WellFormed(s)
    ensures SnapshotOf(s).Snapshot? && SnapshotOf(s).agents.Keys == s.agents.Keys
    ensures forall sid :: sid in s.agents ==> Carries(SnapshotOf(s).agents[sid], s.heap[s.agents[sid]])
  {
  }

  /** A sweep keeps exactly the sessions that have no pid, even after a look at their files, and those
      whose pid is of a living process. */
  lemma SweepKeepsTheLiving<Ref>(s: Store<Ref>, files: Files, alive: set<string>, sid: string)
    requires WellFormed(s) && sid in s.agents
    ensures var r := s.heap[s.agents[sid]];
            var pid := if r.pid.None? && sid in files then files[sid].pid else r.pid;
            sid in SweptStore(s, files, alive).agents <==> pid.None? || (pid.value != 0 && sid in alive)
  {
    SweepEffect(s, files, alive);
    ResolutionByFields(s.heap[s.agents[sid]], files);
  }

  lemma StreamsStayKnown<Ref, Cid>(d: Daemon<Ref, Cid>, s: DaemonStep<Ref, Cid>)
    requires Ready(d) && Possible(d, s) && d.clients <= d.sent.Keys
    ensures After(d, s).clients <= After(d, s).sent.Keys
  {
    forall c | c in After(d, s).clients ensures c in After(d, s).sent { StepStreams(d, s, c); }
  }
}
