/** Daemon, byte streams and frontends together: the whole replication path
    (frontend/net_client.py between daemon/broadcaster.py and frontend/main.py). */
module World {
  import opened Schema
  import opened SeqLemmas
  import opened Ipc
  import opened Frontend
  import opened Broadcast
  import opened Agreement

  /** A frontend process. `consumed` counts the bytes read off its present connection, `residual` is its
      line buffer, `origin` the replica it would have had if its queue had been drained when it connected. */
  datatype Front<Cid> = Front(
    display: Display, queue: seq<Message>, connection: Option<Cid>, consumed: nat, residual: bytes, origin: Replica)

  datatype World<Ref, Cid, Fid> = World(daemon: Daemon<Ref, Cid>, fronts: map<Fid, Front<Cid>>)

  datatype WorldStep<Ref, Cid, Fid> =
    | DaemonActs(step: DaemonStep<Ref, Cid>)
    | Joins(front: Fid, connection: Cid, written: bool)  // connects, with a fresh line buffer
    | Reads(reader: Fid, bytes: nat)  // one recv call, of any size
    | Drains(drainer: Fid, clocks: seq<Readings>)
    | Sweeps(sweeper: Fid, now: int)
    | Loses(loser: Fid)  // the connection closes, possibly mid-frame
    | Fails(failing: Fid)  // an attempt to connect is refused

  /** The bytes on a connection not yet read by the frontend. */
  function Unread<Ref, Cid>(c: Codec<Message>, d: Daemon<Ref, Cid>, f: Front<Cid>): bytes
    requires f.connection.Some? && f.connection.value in d.sent
    requires f.consumed <= |Sent(c, d.sent[f.connection.value])|
  {
    Sent(c, d.sent[f.connection.value])[f.consumed..]
  }

  /** What the line buffer and the unread bytes will yield once read to the end. */
  function Arriving<Ref, Cid>(c: Codec<Message>, d: Daemon<Ref, Cid>, f: Front<Cid>): Fed<Message>
    requires f.connection.Some? && f.connection.value in d.sent
    requires f.consumed <= |Sent(c, d.sent[f.connection.value])|
  {
    Parse(c, f.residual + Unread(c, d, f))
  }

  ghost predicate Attached<Ref, Cid>(c: Codec<Message>, d: Daemon<Ref, Cid>, f: Front<Cid>) {
    f.connection.Some? ==>
      && f.connection.value in d.sent
      && f.consumed <= |Sent(c, d.sent[f.connection.value])|
  }

  ghost predicate WellAttached<Ref, Cid, Fid>(c: Codec<Message>, w: World<Ref, Cid, Fid>) {
    Ready(w.daemon) && forall f :: f in w.fronts ==> Attached(c, w.daemon, w.fronts[f])
  }

  ghost predicate Can<Ref, Cid, Fid>(c: Codec<Message>, w: World<Ref, Cid, Fid>, s: WorldStep<Ref, Cid, Fid>)
    requires WellAttached(c, w)
  {
    match s
    case DaemonActs(step) => !step.Connect? && Possible(w.daemon, step)
    case Joins(f, k, written) => f in w.fronts && w.fronts[f].connection.None? && k !in w.daemon.sent
    case Reads(f, n) =>
      f in w.fronts && w.fronts[f].connection.Some? && n <= |Unread(c, w.daemon, w.fronts[f])|
    case Drains(f, clocks) => f in w.fronts && |clocks| == |w.fronts[f].queue|
    case Sweeps(f, _) => f in w.fronts
    case Loses(f) => f in w.fronts && w.fronts[f].connection.Some?
    case Fails(f) => f in w.fronts && w.fronts[f].connection.None?
  }

  /** A new connection: the status notice queued, the line buffer empty. */
  function Joined<Cid>(f: Front<Cid>, k: Cid): Front<Cid> {
    var queue := f.queue + [ConnStatus(true)];
    Front(f.display, queue, Some(k), 0, [], HandleAll(f.display.agents, queue))
  }

  /** One read: complete lines decoded onto the queue, the partial one kept. */
  function Received<Cid>(c: Codec<Message>, f: Front<Cid>, chunk: bytes): Front<Cid> {
    var fed := Parse(c, f.residual + chunk);
    f.(queue := f.queue + fed.messages, residual := fed.residual, consumed := f.consumed + |chunk|)
  }

  function Drained<Cid>(f: Front<Cid>, clocks: seq<Readings>): Front<Cid>
    requires |clocks| == |f.queue|
  {
    f.(display := HandleQueue(f.display, f.queue, clocks), queue := [])
  }

  function Lost<Cid>(f: Front<Cid>): Front<Cid> {
    f.(connection := None, residual := [], consumed := 0, queue := f.queue + [ConnStatus(false)])
  }

  function Refused<Cid>(f: Front<Cid>): Front<Cid> {
    f.(queue := f.queue + [ConnStatus(false)])
  }

  function Turn<Ref, Cid, Fid>(
    c: Codec<Message>, w: World<Ref, Cid, Fid>, s: WorldStep<Ref, Cid, Fid>): World<Ref, Cid, Fid>
    requires WellAttached(c, w) && Can(c, w, s)
  {
    match s
    case DaemonActs(step) => w.(daemon := After(w.daemon, step))
    case Joins(f, k, written) =>
      World(After(w.daemon, Connect(k, written)), w.fronts[f := Joined(w.fronts[f], k)])
    case Reads(f, n) =>
      w.(fronts := w.fronts[f := Received(c, w.fronts[f], Unread(c, w.daemon, w.fronts[f])[..n])])
    case Drains(f, clocks) => w.(fronts := w.fronts[f := Drained(w.fronts[f], clocks)])
    case Sweeps(f, now) =>
      var front := w.fronts[f];
      w.(fronts := w.fronts[f := front.(display := UpdateGhosts(front.display, now))])
    case Loses(f) => w.(fronts := w.fronts[f := Lost(w.fronts[f])])
    case Fails(f) => w.(fronts := w.fronts[f := Refused(w.fronts[f])])
  }

  // ---- the in-flight invariant ----

  /** Queue, line buffer and unread bytes together carry exactly what the connection was sent. */
  ghost predicate InFlight<Ref, Cid>(c: Codec<Message>, d: Daemon<Ref, Cid>, f: Front<Cid>)
    requires Attached(c, d, f)
  {
    f.connection.Some? ==>
      && NEWLINE !in f.residual && Arriving(c, d, f).residual == [] && Plain(Arriving(c, d, f).messages)
      && HandleAll(f.display.agents, f.queue + Arriving(c, d, f).messages)
         == HandleAll(f.origin, d.sent[f.connection.value])
  }

  /** The connection light, as it will be once the queue is drained, is on iff there is a connection. */
  ghost predicate Honest<Cid>(f: Front<Cid>) {
    LightAfter(f.display.connected, f.queue) == f.connection.Some?
  }

  ghost predicate Inv<Ref, Cid, Fid>(c: Codec<Message>, w: World<Ref, Cid, Fid>) {
    && WellAttached(c, w) && w.daemon.clients <= w.daemon.sent.Keys && AllSent(w.daemon, NotNotice)
    && forall f :: f in w.fronts ==>
         Tidy(w.fronts[f].display) && Honest(w.fronts[f]) && InFlight(c, w.daemon, w.fronts[f])
  }

  /** More messages on the connection: attachment and the invariant carry over to the longer stream. */
  lemma StreamGrows<Ref, Cid>(c: Codec<Message>, d: Daemon<Ref, Cid>, d': Daemon<Ref, Cid>, f: Front<Cid>)
    requires Faithful(c) && Attached(c, d, f) && InFlight(c, d, f)
    requires f.connection.Some? ==>
               && f.connection.value in d'.sent && d.sent[f.connection.value] <= d'.sent[f.connection.value]
               && Plain(d'.sent[f.connection.value])
    ensures Attached(c, d', f) && InFlight(c, d', f)
  {
    if f.connection.Some? {
      var k := f.connection.value;
      var before, more := d.sent[k], d'.sent[k][|d.sent[k]|..];
      assert before == d'.sent[k][..|before|] && Plain(more);
      TakeDrop(d'.sent[k], |before|);
      SentConcat(c, before, more);
      assert Sent(c, d'.sent[k]) == Sent(c, before) + Sent(c, more);
      DropConcat(Sent(c, before), Sent(c, more), f.consumed);
      assert Unread(c, d', f) == Unread(c, d, f) + Sent(c, more);
      var rest := Arriving(c, d, f).messages;
      MoreArrives(c, f.residual, Unread(c, d, f), more);
      assert Arriving(c, d', f) == Fed(rest + more, []);
      MoreHandled(f.display.agents, f.queue, rest, f.origin, before, more);
    }
  }

  lemma MoreArrives(c: Codec<Message>, residual: bytes, unread: bytes, more: seq<Message>)
    requires Faithful(c) && Parse(c, residual + unread).residual == []
    ensures Parse(c, residual + (unread + Sent(c, more))) == Fed(Parse(c, residual + unread).messages + more, [])
  {
    ConcatAssoc(residual, unread, Sent(c, more));
    ParseConcat(c, residual + unread, Sent(c, more));
    assert [] + Sent(c, more) == Sent(c, more);
    SentParses(c, more);
  }

  lemma MoreHandled(
    v: Replica, queue: seq<Message>, rest: seq<Message>, u: Replica, before: seq<Message>, more: seq<Message>)
    requires HandleAll(v, queue + rest) == HandleAll(u, before)
    ensures HandleAll(v, queue + (rest + more)) == HandleAll(u, before + more)
  {
    ConcatAssoc(queue, rest, more);
    HandleAllConcat(v, queue + rest, more);
    HandleAllConcat(u, before, more);
  }

  lemma ReadLeavesTheRest<Ref, Cid>(c: Codec<Message>, d: Daemon<Ref, Cid>, f: Front<Cid>, n: nat)
    requires Attached(c, d, f) && f.connection.Some? && n <= |Unread(c, d, f)|
    ensures var f' := Received(c, f, Unread(c, d, f)[..n]);
            Attached(c, d, f') && Unread(c, d, f') == Unread(c, d, f)[n..]
  {
    DropDrop(Sent(c, d.sent[f.connection.value]), f.consumed, n);
  }

  lemma ReadKeepsInFlight<Ref, Cid>(c: Codec<Message>, d: Daemon<Ref, Cid>, f: Front<Cid>, n: nat)
    requires Attached(c, d, f) && InFlight(c, d, f) && f.connection.Some? && n <= |Unread(c, d, f)|
    ensures var f' := Received(c, f, Unread(c, d, f)[..n]);
            Attached(c, d, f') && InFlight(c, d, f') && (Honest(f) ==> Honest(f'))
  {
    var unread := Unread(c, d, f);
    ReadLeavesTheRest(c, d, f, n);
    ReadInParts(c, f.residual, unread, n);
    var first := Parse(c, f.residual + unread[..n]);
    var second := Parse(c, first.residual + unread[n..]);
    ConcatAssoc(f.queue, first.messages, second.messages);
    PlainSplit(first.messages, second.messages);
    PlainKeepsLight(f.display.connected, f.queue, first.messages);
  }

  lemma PlainSplit(a: seq<Message>, b: seq<Message>)
    requires Plain(a + b)
    ensures Plain(a) && Plain(b)
  {
    forall i | 0 <= i < |a| ensures !a[i].ConnStatus? { assert (a + b)[i] == a[i]; }
    forall i | 0 <= i < |b| ensures !b[i].ConnStatus? { assert (a + b)[|a| + i] == b[i]; }
  }

  lemma ReadInParts(c: Codec<Message>, residual: bytes, unread: bytes, n: nat)
    requires n <= |unread|
    ensures var first := Parse(c, residual + unread[..n]);
            var second := Parse(c, first.residual + unread[n..]);
            && NEWLINE !in first.residual
            && Parse(c, residual + unread) == Fed(first.messages + second.messages, second.residual)
  {
    TakeDrop(unread, n);
    ConcatAssoc(residual, unread[..n], unread[n..]);
    ParseConcat(c, residual + unread[..n], unread[n..]);
    SplitHoldsNoNewline(residual + unread[..n]);
  }

  lemma JoinStartsInFlight<Ref, Cid>(c: Codec<Message>, d: Daemon<Ref, Cid>, f: Front<Cid>, k: Cid)
    requires Faithful(c) && k in d.sent && Plain(d.sent[k])
    ensures Attached(c, d, Joined(f, k)) && InFlight(c, d, Joined(f, k)) && Honest(Joined(f, k))
  {
    var f' := Joined(f, k);
    assert f'.residual + Unread(c, d, f') == Sent(c, d.sent[k]);
    SentParses(c, d.sent[k]);
    HandleAllConcat(f.display.agents, f'.queue, d.sent[k]);
  }

  lemma DrainKeepsInFlight<Ref, Cid>(c: Codec<Message>, d: Daemon<Ref, Cid>, f: Front<Cid>, clocks: seq<Readings>)
    requires Attached(c, d, f) && InFlight(c, d, f) && Tidy(f.display) && |clocks| == |f.queue|
    ensures var f' := Drained(f, clocks);
            Tidy(f'.display) && Attached(c, d, f') && InFlight(c, d, f') && (Honest(f) ==> Honest(f'))
  {
    QueueFollowsReplica(f.display, f.queue, clocks);
    QueueSetsLight(f.display, f.queue, clocks);
    if f.connection.Some? {
      var rest := Arriving(c, d, f).messages;
      HandleAllConcat(f.display.agents, f.queue, rest);
      assert [] + rest == rest;
    }
  }

  lemma DaemonStepKeepsStreams<Ref, Cid>(d: Daemon<Ref, Cid>, s: DaemonStep<Ref, Cid>)
    requires Ready(d) && Possible(d, s) && d.clients <= d.sent.Keys
    ensures forall k :: k in d.sent ==> k in After(d, s).sent && d.sent[k] <= After(d, s).sent[k]
  {
    forall k | k in d.sent ensures k in After(d, s).sent && d.sent[k] <= After(d, s).sent[k] { StepStreams(d, s, k); }
  }

  /** One step of anything, anywhere, keeps the whole invariant. */
  lemma TurnKeepsInv<Ref, Cid, Fid>(c: Codec<Message>, w: World<Ref, Cid, Fid>, s: WorldStep<Ref, Cid, Fid>)
    requires Faithful(c) && Inv(c, w) && Can(c, w, s)
    ensures Inv(c, Turn(c, w, s))
  {
    match s
    case DaemonActs(step) => DaemonTurnKeepsInv(c, w, s, step);
    case Joins(f, k, written) => DaemonTurnKeepsInv(c, w, s, Connect(k, written));
    case Reads(f, n) =>
      ReadKeepsInFlight(c, w.daemon, w.fronts[f], n);
      FrontTurnKeepsInv(c, w, f, Turn(c, w, s).fronts[f]);
    case Drains(f, clocks) =>
      DrainKeepsInFlight(c, w.daemon, w.fronts[f], clocks);
      FrontTurnKeepsInv(c, w, f, Turn(c, w, s).fronts[f]);
    case Sweeps(f, now) =>
      GhostSweepKeepsTidy(w.fronts[f].display, now);
      FrontTurnKeepsInv(c, w, f, Turn(c, w, s).fronts[f]);
    case Loses(f) =>
      NoticeSetsLight(w.fronts[f].display.connected, w.fronts[f].queue, false);
      FrontTurnKeepsInv(c, w, f, Lost(w.fronts[f]));
    case Fails(f) =>
      NoticeSetsLight(w.fronts[f].display.connected, w.fronts[f].queue, false);
      FrontTurnKeepsInv(c, w, f, Refused(w.fronts[f]));
  }

  lemma FrontTurnKeepsInv<Ref, Cid, Fid>(c: Codec<Message>, w: World<Ref, Cid, Fid>, f: Fid, front: Front<Cid>)
    requires Inv(c, w) && Tidy(front.display) && Honest(front)
    requires Attached(c, w.daemon, front) && InFlight(c, w.daemon, front)
    ensures Inv(c, w.(fronts := w.fronts[f := front]))
  {
  }

  lemma FrontOutlastsStep<Ref, Cid>(c: Codec<Message>, d: Daemon<Ref, Cid>, d': Daemon<Ref, Cid>, f: Front<Cid>)
    requires Faithful(c) && Attached(c, d, f) && InFlight(c, d, f) && AllSent(d', NotNotice)
    requires forall k :: k in d.sent ==> k in d'.sent && d.sent[k] <= d'.sent[k]
    ensures Attached(c, d', f) && InFlight(c, d', f)
  {
    if f.connection.Some? { assert AllOf(d'.sent[f.connection.value], NotNotice); }
    StreamGrows(c, d, d', f);
  }

  lemma DaemonTurnKeepsInv<Ref, Cid, Fid>(
    c: Codec<Message>, w: World<Ref, Cid, Fid>, s: WorldStep<Ref, Cid, Fid>, step: DaemonStep<Ref, Cid>)
    requires Faithful(c) && Inv(c, w) && Can(c, w, s) && (s.DaemonActs? || s.Joins?)
    requires step == if s.DaemonActs? then s.step else Connect(s.connection, s.written)
    ensures Inv(c, Turn(c, w, s))
  {
    var w' := Turn(c, w, s);
    StepKeepsReady(w.daemon, step);
    StreamsStayKnown(w.daemon, step);
    StepSendsNoNotice(w.daemon, step);
    DaemonStepKeepsStreams(w.daemon, step);
    forall f | f in w'.fronts
      ensures Tidy(w'.fronts[f].display) && Honest(w'.fronts[f])
      ensures Attached(c, w'.daemon, w'.fronts[f]) && InFlight(c, w'.daemon, w'.fronts[f])
    {
      if s.Joins? && f == s.front {
        assert AllOf(w'.daemon.sent[s.connection], NotNotice);
        JoinStartsInFlight(c, w'.daemon, w.fronts[f], s.connection);
      } else {
        FrontOutlastsStep(c, w.daemon, w'.daemon, w.fronts[f]);
      }
    }
  }

  // ---- whole runs ----

  /** Any daemon after cold start, and any number of frontends just started. */
  ghost predicate Start<Ref, Cid, Fid>(w: World<Ref, Cid, Fid>) {
    && Initial(w.daemon)
    && forall f :: f in w.fronts ==>
         w.fronts[f] == Front(Display(map[], map[], map[], map[], false), [], None, 0, [], map[])
  }

  ghost predicate Unfolds<Ref, Cid, Fid>(
    c: Codec<Message>, w: World<Ref, Cid, Fid>, steps: seq<WorldStep<Ref, Cid, Fid>>, w': World<Ref, Cid, Fid>)
    decreases |steps|
  {
    if steps == [] then w == w'
    else WellAttached(c, w) && Can(c, w, steps[0]) && Unfolds(c, Turn(c, w, steps[0]), steps[1..], w')
  }

  lemma {:induction false} ReachableWorldsAreSound<Ref, Cid, Fid>(
    c: Codec<Message>, w: World<Ref, Cid, Fid>, steps: seq<WorldStep<Ref, Cid, Fid>>, w': World<Ref, Cid, Fid>)
    requires Faithful(c) && Inv(c, w) && Unfolds(c, w, steps, w')
    ensures Inv(c, w')
    decreases |steps|
  {
    if steps != [] {
      TurnKeepsInv(c, w, steps[0]);
      ReachableWorldsAreSound(c, Turn(c, w, steps[0]), steps[1..], w');
    }
  }

  function DaemonStepOf<Ref, Cid, Fid>(s: WorldStep<Ref, Cid, Fid>): seq<DaemonStep<Ref, Cid>> {
    match s
    case DaemonActs(step) => [step]
    case Joins(_, k, written) => [Connect(k, written)]
    case _ => []
  }

  /** What the daemon does in the course of a run. */
  function DaemonSteps<Ref, Cid, Fid>(steps: seq<WorldStep<Ref, Cid, Fid>>): seq<DaemonStep<Ref, Cid>> {
    if steps == [] then [] else DaemonStepOf(steps[0]) + DaemonSteps(steps[1..])
  }

  lemma TurnTakesDaemonStep<Ref, Cid, Fid>(
    c: Codec<Message>, w: World<Ref, Cid, Fid>, s: WorldStep<Ref, Cid, Fid>, rest: seq<DaemonStep<Ref, Cid>>)
    requires WellAttached(c, w) && Can(c, w, s)
    ensures DaemonStepOf(s) == [] ==> DaemonStepOf(s) + rest == rest && Turn(c, w, s).daemon == w.daemon
    ensures DaemonStepOf(s) != [] ==>
              var all := DaemonStepOf(s) + rest;
              && all != [] && all[1..] == rest && all[0] == DaemonStepOf(s)[0]
              && Possible(w.daemon, all[0]) && Turn(c, w, s).daemon == After(w.daemon, all[0])
  {
  }

  lemma {:induction false} DaemonTakesItsSteps<Ref, Cid, Fid>(
    c: Codec<Message>, w: World<Ref, Cid, Fid>, steps: seq<WorldStep<Ref, Cid, Fid>>, w': World<Ref, Cid, Fid>)
    requires Unfolds(c, w, steps, w')
    ensures RunsTo(w.daemon, DaemonSteps(steps), w'.daemon)
    decreases |steps|
  {
    if steps != [] {
      DaemonTakesItsSteps(c, Turn(c, w, steps[0]), steps[1..], w');
      TurnTakesDaemonStep(c, w, steps[0], DaemonSteps(steps[1..]));
    }
  }

  lemma FrontInRun<Ref, Cid, Fid>(
    c: Codec<Message>, w: World<Ref, Cid, Fid>, steps: seq<WorldStep<Ref, Cid, Fid>>, w': World<Ref, Cid, Fid>, f: Fid)
    requires Faithful(c) && Start(w) && Unfolds(c, w, steps, w') && f in w'.fronts
    ensures WellAttached(c, w') && RunsTo(w.daemon, DaemonSteps(steps), w'.daemon)
    ensures Tidy(w'.fronts[f].display) && Honest(w'.fronts[f]) && InFlight(c, w'.daemon, w'.fronts[f])
  {
    StartIsSound(c, w);
    ReachableWorldsAreSound(c, w, steps, w');
    DaemonTakesItsSteps(c, w, steps, w');
  }

  /** The run takes its daemon steps in order. */
  ghost predicate Orderly<Ref, Cid, Fid>(
    c: Codec<Message>, w: World<Ref, Cid, Fid>, steps: seq<WorldStep<Ref, Cid, Fid>>, w': World<Ref, Cid, Fid>)
  {
    Unfolds(c, w, steps, w') && InOrder(w.daemon, DaemonSteps(steps))
  }

  /** The replica a frontend would show once its queue, its buffer, the unread bytes and the pending
      broadcasts have all been absorbed. */
  function Absorbed<Ref, Cid>(c: Codec<Message>, d: Daemon<Ref, Cid>, f: Front<Cid>): Replica
    requires Ready(d) && Attached(c, d, f) && f.connection.Some?
  {
    HandleAll(f.display.agents,
              f.queue + Arriving(c, d, f).messages + SerialiseAll(d.store.heap, d.pending))
  }

  /** Absorbing everything in flight gives what the connection's stream and the pending tasks give. */
  lemma AbsorbedIsStreamed<Ref, Cid>(c: Codec<Message>, d: Daemon<Ref, Cid>, f: Front<Cid>)
    requires Ready(d) && Attached(c, d, f) && InFlight(c, d, f) && f.connection.Some?
    ensures Absorbed(c, d, f)
            == HandleAll(f.origin, d.sent[f.connection.value] + SerialiseAll(d.store.heap, d.pending))
  {
    var rest, tasks := Arriving(c, d, f).messages, SerialiseAll(d.store.heap, d.pending);
    HandleAllConcat(f.display.agents, f.queue + rest, tasks);
    HandleAllConcat(f.origin, d.sent[f.connection.value], tasks);
  }

  /** By what the daemon has done since state `d`, it serves this frontend's connection, and has sent a
      snapshot on it. */
  ghost predicate GreetedSince<Ref, Cid, Fid>(
    d: Daemon<Ref, Cid>, steps: seq<WorldStep<Ref, Cid, Fid>>, f: Front<Cid>)
  {
    f.connection.Some? && Greeted(f.connection.value in d.clients, DaemonSteps(steps), f.connection.value)
  }

  /** End-to-end agreement: in every state of every run of any number of frontends, with bytes cut into
      reads anyhow, queues drained whenever and connections lost and reopened, a frontend whose connection
      the daemon still serves and has sent a snapshot on would show, once everything in flight and pending
      is absorbed, exactly the registered sessions (those with a name) and their registered status. */
  lemma FrontendsAgreeWithRegistry<Ref, Cid, Fid>(
    c: Codec<Message>, w: World<Ref, Cid, Fid>, steps: seq<WorldStep<Ref, Cid, Fid>>, w': World<Ref, Cid, Fid>, f: Fid)
    requires Faithful(c) && Start(w) && Orderly(c, w, steps, w')
    requires f in w'.fronts && GreetedSince(w.daemon, steps, w'.fronts[f])
    ensures WellAttached(c, w')
    ensures Agrees(w'.daemon.store, Absorbed(c, w'.daemon, w'.fronts[f]))
  {
    var d, d', front := w.daemon, w'.daemon, w'.fronts[f];
    FrontInRun(c, w, steps, w', f);
    InitialIsSound(d);
    StreamsAgreeWithRegistry(d, DaemonSteps(steps), d', front.connection.value, front.origin);
    AbsorbedIsStreamed(c, d', front);
  }

  /** When every event names its session, the agreement is of the whole session table. */
  lemma NamedFrontendsAgreeTotally<Ref, Cid, Fid>(
    c: Codec<Message>, w: World<Ref, Cid, Fid>, steps: seq<WorldStep<Ref, Cid, Fid>>, w': World<Ref, Cid, Fid>, f: Fid)
    requires Faithful(c) && Start(w) && Orderly(c, w, steps, w')
    requires "" !in w.daemon.store.agents
    requires forall i :: 0 <= i < |DaemonSteps(steps)| ==> NamesItsSession(DaemonSteps(steps)[i])
    requires f in w'.fronts && GreetedSince(w.daemon, steps, w'.fronts[f])
    ensures WellAttached(c, w')
    ensures ShowsRegistry(w'.daemon.store, Absorbed(c, w'.daemon, w'.fronts[f]))
  {
    var d, d', front := w.daemon, w'.daemon, w'.fronts[f];
    FrontInRun(c, w, steps, w', f);
    NamedSessionsAgreeTotally(d, DaemonSteps(steps), d', front.connection.value, front.origin);
    AbsorbedIsStreamed(c, d', front);
  }

  lemma HealedWorldsAreSound<Ref, Cid, Fid>(
    c: Codec<Message>, w0: World<Ref, Cid, Fid>, disorder: seq<WorldStep<Ref, Cid, Fid>>, w: World<Ref, Cid, Fid>,
    settle: seq<WorldStep<Ref, Cid, Fid>>, w1: World<Ref, Cid, Fid>,
    steps: seq<WorldStep<Ref, Cid, Fid>>, w': World<Ref, Cid, Fid>)
    requires Faithful(c) && Start(w0)
    requires Unfolds(c, w0, disorder, w) && Unfolds(c, w, settle, w1) && Unfolds(c, w1, steps, w')
    ensures Inv(c, w')
  {
    StartIsSound(c, w0);
    ReachableWorldsAreSound(c, w0, disorder, w);
    ReachableWorldsAreSound(c, w, settle, w1);
    ReachableWorldsAreSound(c, w1, steps, w');
  }

  lemma StartIsSound<Ref, Cid, Fid>(c: Codec<Message>, w: World<Ref, Cid, Fid>)
    requires Start(w)
    ensures Inv(c, w)
  {
  }

  lemma HealedStreamsAgree<Ref, Cid, Fid>(
    c: Codec<Message>, w0: World<Ref, Cid, Fid>, disorder: seq<WorldStep<Ref, Cid, Fid>>, w: World<Ref, Cid, Fid>,
    settle: seq<WorldStep<Ref, Cid, Fid>>, w1: World<Ref, Cid, Fid>,
    steps: seq<WorldStep<Ref, Cid, Fid>>, w': World<Ref, Cid, Fid>, k: Cid, start: Replica)
    requires Initial(w0.daemon) && Unfolds(c, w0, disorder, w)
    requires Orderly(c, w, settle, w1) && TasksRun(DaemonSteps(settle)) >= |w.daemon.pending|
    requires Orderly(c, w1, steps, w')
    requires Greeted(k in w1.daemon.clients, DaemonSteps(steps), k)
    ensures var d := w'.daemon;
            && Ready(d) && k in d.sent
            && Agrees(d.store, HandleAll(start, d.sent[k] + SerialiseAll(d.store.heap, d.pending)))
  {
    DaemonTakesItsSteps(c, w0, disorder, w);
    DaemonTakesItsSteps(c, w, settle, w1);
    DaemonTakesItsSteps(c, w1, steps, w');
    InitialIsSound(w0.daemon);
    RunKeepsReady(w0.daemon, DaemonSteps(disorder), w.daemon);
    StreamsGrow(w0.daemon, DaemonSteps(disorder), w.daemon, k);
    DisorderIsHealed(w.daemon, DaemonSteps(settle), w1.daemon, DaemonSteps(steps), w'.daemon, k, start);
  }

  /** Self-healing, end to end: after any run from the start, with reapers overtaking diffs and connections
      cut anywhere, let the tasks then pending run in order (`settle`). From then on every frontend served
      agrees again as soon as a snapshot has been sent on its connection. */
  lemma DisorderedWorldsHeal<Ref, Cid, Fid>(
    c: Codec<Message>, w0: World<Ref, Cid, Fid>, disorder: seq<WorldStep<Ref, Cid, Fid>>, w: World<Ref, Cid, Fid>,
    settle: seq<WorldStep<Ref, Cid, Fid>>, w1: World<Ref, Cid, Fid>,
    steps: seq<WorldStep<Ref, Cid, Fid>>, w': World<Ref, Cid, Fid>, f: Fid)
    requires Faithful(c) && Start(w0) && Unfolds(c, w0, disorder, w)
    requires Orderly(c, w, settle, w1) && TasksRun(DaemonSteps(settle)) >= |w.daemon.pending|
    requires Orderly(c, w1, steps, w')
    requires f in w'.fronts && GreetedSince(w1.daemon, steps, w'.fronts[f])
    ensures WellAttached(c, w')
    ensures Agrees(w'.daemon.store, Absorbed(c, w'.daemon, w'.fronts[f]))
  {
    HealedWorldsAreSound(c, w0, disorder, w, settle, w1, steps, w');
    var front := w'.fronts[f];
    HealedStreamsAgree(c, w0, disorder, w, settle, w1, steps, w', front.connection.value, front.origin);
    AbsorbedIsStreamed(c, w'.daemon, front);
  }

  /** The connection light is honest: in every reachable state, a frontend that has drained its queue shows
      itself connected exactly if it is. */
  lemma LightIsHonest<Ref, Cid, Fid>(
    c: Codec<Message>, w: World<Ref, Cid, Fid>, steps: seq<WorldStep<Ref, Cid, Fid>>, w': World<Ref, Cid, Fid>, f: Fid)
    requires Faithful(c) && Start(w) && Unfolds(c, w, steps, w') && f in w'.fronts
    ensures w'.fronts[f].queue == [] ==> (w'.fronts[f].display.connected <==> w'.fronts[f].connection.Some?)
    ensures LightAfter(w'.fronts[f].display.connected, w'.fronts[f].queue) <==> w'.fronts[f].connection.Some?
  {
    FrontInRun(c, w, steps, w', f);
  }

  // ---- quiescence ----

  /** Nothing pending at the daemon, unread on the connection or queued at the frontend. */
  ghost predicate Quiet<Ref, Cid>(c: Codec<Message>, d: Daemon<Ref, Cid>, f: Front<Cid>) {
    && d.pending == [] && f.queue == [] && f.connection.Some? && f.connection.value in d.sent
    && f.consumed == |Sent(c, d.sent[f.connection.value])|
  }

  /** In particular, once nothing is pending, unread or queued, what the frontend shows is the registry. */
  lemma QuietFrontendsShowTheRegistry<Ref, Cid, Fid>(
    c: Codec<Message>, w: World<Ref, Cid, Fid>, steps: seq<WorldStep<Ref, Cid, Fid>>, w': World<Ref, Cid, Fid>, f: Fid)
    requires Faithful(c) && Start(w) && Orderly(c, w, steps, w')
    requires f in w'.fronts && GreetedSince(w.daemon, steps, w'.fronts[f])
    requires Quiet(c, w'.daemon, w'.fronts[f])
    ensures Ready(w'.daemon) && Agrees(w'.daemon.store, w'.fronts[f].display.agents)
    ensures Tidy(w'.fronts[f].display)
    ensures "" !in w.daemon.store.agents
            && (forall i :: 0 <= i < |DaemonSteps(steps)| ==> NamesItsSession(DaemonSteps(steps)[i]))
            ==> ShowsRegistry(w'.daemon.store, w'.fronts[f].display.agents)
  {
    FrontendsAgreeWithRegistry(c, w, steps, w', f);
    QuietShowsAbsorbed(c, w, steps, w', f);
    if "" !in w.daemon.store.agents
       && forall i :: 0 <= i < |DaemonSteps(steps)| ==> NamesItsSession(DaemonSteps(steps)[i]) {
      NamedFrontendsAgreeTotally(c, w, steps, w', f);
    }
  }

  /** Quiescence is always within reach: from any reachable world, for any served frontend, letting the
      pending tasks run, reading what has arrived and draining the queue once makes it quiet, with the
      registry unchanged and exactly the absorbed replica on show. */
  lemma QuietIsReachable<Ref, Cid, Fid>(c: Codec<Message>, w: World<Ref, Cid, Fid>, f: Fid, reading: Readings)
    returns (steps: seq<WorldStep<Ref, Cid, Fid>>, w': World<Ref, Cid, Fid>)
    requires Faithful(c) && Inv(c, w) && f in w.fronts
    requires w.fronts[f].connection.Some? && w.fronts[f].connection.value in w.daemon.clients
    ensures Orderly(c, w, steps, w')
    ensures forall s :: s in steps ==> (s.DaemonActs? && s.step.RunTask?) || s.Reads? || s.Drains?
    ensures f in w'.fronts && Quiet(c, w'.daemon, w'.fronts[f])
    ensures w'.daemon.store == w.daemon.store && w'.daemon.clients == w.daemon.clients
    ensures w'.fronts[f].display.agents == Absorbed(c, w.daemon, w.fronts[f])
    decreases |w.daemon.pending|
  {
    if w.daemon.pending == [] {
      steps, w' := ReadAndDrain(c, w, f, reading);
    } else {
      var run: WorldStep<Ref, Cid, Fid> := DaemonActs(RunTask({}));
      var w1 := Turn(c, w, run);
      TurnKeepsInv(c, w, run);
      RunTaskKeepsAbsorbed(c, w.daemon, w.fronts[f]);
      steps, w' := QuietIsReachable(c, w1, f, reading);
      steps := UnfoldFirst(c, w, run, steps, w');
    }
  }

  lemma UnfoldFirst<Ref, Cid, Fid>(
    c: Codec<Message>, w: World<Ref, Cid, Fid>, s: WorldStep<Ref, Cid, Fid>, rest: seq<WorldStep<Ref, Cid, Fid>>,
    w': World<Ref, Cid, Fid>) returns (steps: seq<WorldStep<Ref, Cid, Fid>>)
    requires WellAttached(c, w) && Can(c, w, s) && Unfolds(c, Turn(c, w, s), rest, w')
    requires (s.DaemonActs? && s.step.RunTask?) || s.Reads? || s.Drains?
    requires InOrder(Turn(c, w, s).daemon, DaemonSteps(rest))
    ensures steps == [s] + rest && Unfolds(c, w, steps, w') && InOrder(w.daemon, DaemonSteps(steps))
  {
    steps := [s] + rest;
    assert steps[1..] == rest;
    TurnTakesDaemonStep(c, w, s, DaemonSteps(rest));
  }

  lemma RunTaskShifts<Ref, Cid>(d: Daemon<Ref, Cid>, k: Cid)
    requires Ready(d) && d.pending != [] && d.clients <= d.sent.Keys && k in d.clients
    ensures var d' := After(d, RunTask({}));
            && Ready(d') && d'.store == d.store && d'.clients == d.clients && |d'.pending| == |d.pending| - 1
            && k in d'.sent && d.sent[k] <= d'.sent[k]
            && d'.sent[k] + SerialiseAll(d.store.heap, d'.pending)
               == d.sent[k] + SerialiseAll(d.store.heap, d.pending)
  {
    var m := Serialise(d.store.heap, d.pending[0]);
    StepStreams(d, RunTask({}), k);
    SerialiseHead(d.store.heap, d.pending);
    ConcatAssoc(d.sent[k], [m], SerialiseAll(d.store.heap, d.pending[1..]));
  }

  /** A task that runs moves its message from the pending tasks onto the stream. */
  lemma RunTaskKeepsAbsorbed<Ref, Cid>(c: Codec<Message>, d: Daemon<Ref, Cid>, f: Front<Cid>)
    requires Faithful(c) && Ready(d) && d.pending != [] && d.clients <= d.sent.Keys && AllSent(d, NotNotice)
    requires Attached(c, d, f) && InFlight(c, d, f) && f.connection.Some? && f.connection.value in d.clients
    ensures var d' := After(d, RunTask({}));
            && Ready(d') && d'.store == d.store && d'.clients == d.clients && |d'.pending| == |d.pending| - 1
            && Attached(c, d', f) && InFlight(c, d', f)
            && Absorbed(c, d', f) == Absorbed(c, d, f)
  {
    var d' := After(d, RunTask({}));
    RunTaskShifts(d, f.connection.value);
    StepSendsNoNotice(d, RunTask({}));
    assert AllOf(d'.sent[f.connection.value], NotNotice);
    StreamGrows(c, d, d', f);
    AbsorbedIsStreamed(c, d, f);
    AbsorbedIsStreamed(c, d', f);
  }

  lemma ReadAndDrain<Ref, Cid, Fid>(c: Codec<Message>, w: World<Ref, Cid, Fid>, f: Fid, reading: Readings)
    returns (steps: seq<WorldStep<Ref, Cid, Fid>>, w': World<Ref, Cid, Fid>)
    requires Faithful(c) && Inv(c, w) && f in w.fronts && w.daemon.pending == []
    requires w.fronts[f].connection.Some?
    ensures Orderly(c, w, steps, w')
    ensures forall s :: s in steps ==> s.Reads? || s.Drains?
    ensures f in w'.fronts && Quiet(c, w'.daemon, w'.fronts[f]) && w'.daemon == w.daemon
    ensures w'.fronts[f].display.agents == Absorbed(c, w.daemon, w.fronts[f])
  {
    var read: WorldStep<Ref, Cid, Fid> := Reads(f, |Unread(c, w.daemon, w.fronts[f])|);
    ReadingAllAbsorbs(c, w.daemon, w.fronts[f]);
    TurnKeepsInv(c, w, read);
    steps, w' := Drain(c, Turn(c, w, read), f, reading);
    steps := UnfoldFirst(c, w, read, steps, w');
  }

  lemma Drain<Ref, Cid, Fid>(c: Codec<Message>, w: World<Ref, Cid, Fid>, f: Fid, reading: Readings)
    returns (steps: seq<WorldStep<Ref, Cid, Fid>>, w': World<Ref, Cid, Fid>)
    requires Inv(c, w) && f in w.fronts
    ensures Orderly(c, w, steps, w')
    ensures forall s :: s in steps ==> s.Drains?
    ensures w'.daemon == w.daemon && f in w'.fronts && w'.fronts[f].queue == []
    ensures w'.fronts[f].connection == w.fronts[f].connection && w'.fronts[f].consumed == w.fronts[f].consumed
    ensures w'.fronts[f].display.agents == HandleAll(w.fronts[f].display.agents, w.fronts[f].queue)
  {
    var queue := w.fronts[f].queue;
    var clocks := seq(|queue|, i => reading);
    var drain: WorldStep<Ref, Cid, Fid> := Drains(f, clocks);
    w' := Turn(c, w, drain);
    steps := UnfoldFirst(c, w, drain, [], w');
    QueueFollowsReplica(w.fronts[f].display, queue, clocks);
  }

  lemma ReadingAllAbsorbs<Ref, Cid>(c: Codec<Message>, d: Daemon<Ref, Cid>, f: Front<Cid>)
    requires Ready(d) && Attached(c, d, f) && f.connection.Some? && d.pending == []
    ensures var f' := Received(c, f, Unread(c, d, f)[..|Unread(c, d, f)|]);
            && f'.consumed == |Sent(c, d.sent[f.connection.value])|
            && HandleAll(f.display.agents, f'.queue) == Absorbed(c, d, f)
  {
    var unread := Unread(c, d, f);
    assert unread[..|unread|] == unread;
    var absorbed := f.queue + Arriving(c, d, f).messages;
    assert absorbed + [] == absorbed;
  }

  lemma QuietShowsAbsorbed<Ref, Cid, Fid>(
    c: Codec<Message>, w: World<Ref, Cid, Fid>, steps: seq<WorldStep<Ref, Cid, Fid>>, w': World<Ref, Cid, Fid>, f: Fid)
    requires Faithful(c) && Start(w) && Unfolds(c, w, steps, w') && f in w'.fronts
    requires Quiet(c, w'.daemon, w'.fronts[f])
    ensures WellAttached(c, w') && Tidy(w'.fronts[f].display)
    ensures Absorbed(c, w'.daemon, w'.fronts[f]) == w'.fronts[f].display.agents
  {
    FrontInRun(c, w, steps, w', f);
    NothingInFlight(c, w'.daemon, w'.fronts[f]);
  }

  lemma NothingInFlight<Ref, Cid>(c: Codec<Message>, d: Daemon<Ref, Cid>, f: Front<Cid>)
    requires Ready(d) && Attached(c, d, f) && InFlight(c, d, f) && f.connection.Some?
    requires f.consumed == |Sent(c, d.sent[f.connection.value])| && d.pending == [] && f.queue == []
    ensures Absorbed(c, d, f) == f.display.agents
  {
    assert f.residual + Unread(c, d, f) == f.residual;
    assert SplitLines(f.residual) == Split([], f.residual);
    var none: seq<Message> := [];
    assert none + none + none == none;
  }
}
