/** Agreement between the daemon's registry and its clients' replicas over whole runs. */
module Agreement {
  import opened Schema
  import opened SeqLemmas
  import opened StateMachine
  import opened Registry
  import opened Frontend
  import opened Broadcast

  /** Any run at all, in which the reaper may overtake pending diffs. */
  ghost predicate RunsTo<Ref, Cid>(d: Daemon<Ref, Cid>, steps: seq<DaemonStep<Ref, Cid>>, d': Daemon<Ref, Cid>)
    decreases |steps|
  {
    if steps == [] then d == d'
    else Ready(d) && Possible(d, steps[0]) && RunsTo(After(d, steps[0]), steps[1..], d')
  }

  /** The run keeps broadcasts to their order of creation throughout. */
  ghost predicate InOrder<Ref, Cid>(d: Daemon<Ref, Cid>, steps: seq<DaemonStep<Ref, Cid>>)
    decreases |steps|
  {
    steps != [] ==> Ready(d) && Enabled(d, steps[0]) && InOrder(After(d, steps[0]), steps[1..])
  }

  /** Everything broadcast over a run, whether or not anybody was connected. */
  ghost function EmittedOver<Ref, Cid>(
    d: Daemon<Ref, Cid>, steps: seq<DaemonStep<Ref, Cid>>, d': Daemon<Ref, Cid>): seq<Message>
    requires RunsTo(d, steps, d')
    decreases |steps|
  {
    if steps == [] then []
    else Emits(d, steps[0]) + EmittedOver(After(d, steps[0]), steps[1..], d')
  }

  lemma {:induction false} RunKeepsReady<Ref, Cid>(
    d: Daemon<Ref, Cid>, steps: seq<DaemonStep<Ref, Cid>>, d': Daemon<Ref, Cid>)
    requires Ready(d) && RunsTo(d, steps, d')
    ensures Ready(d')
    decreases |steps|
  {
    if steps != [] {
      StepKeepsReady(d, steps[0]);
      RunKeepsReady(After(d, steps[0]), steps[1..], d');
    }
  }

  // ---- who is served ----

  /** Neither disconnecting nor failing a write from position `k` of the run on. */
  ghost predicate Stays<Ref, Cid>(steps: seq<DaemonStep<Ref, Cid>>, k: nat, c: Cid) {
    forall i :: k <= i < |steps| ==> !Leaves(steps[i], c)
  }

  ghost predicate JoinsAndStays<Ref, Cid>(steps: seq<DaemonStep<Ref, Cid>>, k: int, c: Cid) {
    0 <= k < |steps| && Joins(steps[k], c) && Stays(steps, k + 1, c)
  }

  /** Served at the end of a run: connected in it, or `before` it, and staying since. */
  ghost predicate Served<Ref, Cid>(before: bool, steps: seq<DaemonStep<Ref, Cid>>, c: Cid) {
    (before && Stays(steps, 0, c)) || exists k :: JoinsAndStays(steps, k, c)
  }

  /** The k-th step sends the client a snapshot, its greeting or a periodic one, and it stays. */
  ghost predicate GreetedAt<Ref, Cid>(before: bool, steps: seq<DaemonStep<Ref, Cid>>, k: int, c: Cid) {
    && 0 <= k < |steps| && Stays(steps, k + 1, c)
    && (steps[k] == Connect(c, true) || (steps[k].Tick? && Served(before, steps[..k + 1], c)))
  }

  /** Served at the end of a run, and sent a snapshot in it. */
  ghost predicate Greeted<Ref, Cid>(before: bool, steps: seq<DaemonStep<Ref, Cid>>, c: Cid) {
    exists k :: GreetedAt(before, steps, k, c)
  }

  lemma StaysSnoc<Ref, Cid>(p: seq<DaemonStep<Ref, Cid>>, s: DaemonStep<Ref, Cid>, k: nat, c: Cid)
    requires k <= |p|
    ensures Stays(p + [s], k, c) <==> Stays(p, k, c) && !Leaves(s, c)
  {
    var steps := p + [s];
    assert steps[|p|] == s && forall i :: 0 <= i < |p| ==> steps[i] == p[i];
    if Stays(steps, k, c) {
      assert !Leaves(steps[|p|], c);
      forall i | k <= i < |p| ensures !Leaves(p[i], c) { assert !Leaves(steps[i], c); }
    }
  }

  lemma ServedSnoc<Ref, Cid>(before: bool, p: seq<DaemonStep<Ref, Cid>>, s: DaemonStep<Ref, Cid>, c: Cid)
    ensures Served(before, p + [s], c) <==> Joins(s, c) || (Served(before, p, c) && !Leaves(s, c))
  {
    var steps := p + [s];
    StaysSnoc(p, s, 0, c);
    forall k ensures JoinsAndStays(steps, k, c)
                     <==> (k == |p| && Joins(s, c)) || (JoinsAndStays(p, k, c) && !Leaves(s, c))
    {
      if 0 <= k < |p| {
        StaysSnoc(p, s, k + 1, c);
        assert steps[k] == p[k];
      }
    }
    if Joins(s, c) { assert JoinsAndStays(steps, |p|, c); }
  }

  lemma GreetedSnoc<Ref, Cid>(before: bool, p: seq<DaemonStep<Ref, Cid>>, s: DaemonStep<Ref, Cid>, c: Cid)
    ensures Greeted(before, p + [s], c)
            <==> s == Connect(c, true) || (s.Tick? && Served(before, p + [s], c))
                 || (Greeted(before, p, c) && !Leaves(s, c))
  {
    var steps := p + [s];
    assert steps[..|p| + 1] == steps;
    forall k
      ensures GreetedAt(before, steps, k, c)
              <==> (k == |p| && (s == Connect(c, true) || (s.Tick? && Served(before, steps, c))))
                   || (GreetedAt(before, p, k, c) && !Leaves(s, c))
    {
      if 0 <= k < |p| {
        StaysSnoc(p, s, k + 1, c);
        assert steps[k] == p[k] && steps[..k + 1] == p[..k + 1];
      }
    }
    if s == Connect(c, true) || (s.Tick? && Served(before, steps, c)) {
      assert GreetedAt(before, steps, |p|, c);
    }
  }

  /** A run up to its last step, and that step. */
  lemma {:induction false} LastStep<Ref, Cid>(
    d: Daemon<Ref, Cid>, p: seq<DaemonStep<Ref, Cid>>, s: DaemonStep<Ref, Cid>, d': Daemon<Ref, Cid>)
    returns (d1: Daemon<Ref, Cid>)
    requires Ready(d) && RunsTo(d, p + [s], d')
    ensures RunsTo(d, p, d1) && Ready(d1) && Possible(d1, s) && d' == After(d1, s)
    decreases |p|
  {
    if p == [] {
      d1 := d;
      assert (p + [s])[1..] == [];
    } else {
      assert (p + [s])[1..] == p[1..] + [s];
      StepKeepsReady(d, p[0]);
      d1 := LastStep(After(d, p[0]), p[1..], s, d');
    }
  }

  /** The clients after any run, from its steps alone: those that connected in it, or were there before,
      and have since neither disconnected nor failed a write. */
  lemma {:induction false} ServedIffJoinedAndStaying<Ref, Cid>(
    d: Daemon<Ref, Cid>, steps: seq<DaemonStep<Ref, Cid>>, d': Daemon<Ref, Cid>, c: Cid)
    requires Ready(d) && RunsTo(d, steps, d')
    ensures c in d'.clients <==> Served(c in d.clients, steps, c)
    decreases |steps|
  {
    if steps != [] {
      var p, s := steps[..|steps| - 1], steps[|steps| - 1];
      assert steps == p + [s];
      var d1 := LastStep(d, p, s, d');
      ServedIffJoinedAndStaying(d, p, d1, c);
      ServedAfterStep(d1, s, c);
      ServedSnoc(c in d.clients, p, s, c);
    }
  }

  // ---- streams ----

  lemma {:induction false} StreamsGrow<Ref, Cid>(
    d: Daemon<Ref, Cid>, steps: seq<DaemonStep<Ref, Cid>>, d': Daemon<Ref, Cid>, c: Cid)
    requires Ready(d) && d.clients <= d.sent.Keys && RunsTo(d, steps, d')
    ensures d'.clients <= d'.sent.Keys
    ensures c in d.sent ==> c in d'.sent && d.sent[c] <= d'.sent[c]
    decreases |steps|
  {
    if steps != [] {
      StepKeepsReady(d, steps[0]);
      StreamsStayKnown(d, steps[0]);
      StepStreams(d, steps[0], c);
      StreamsGrow(After(d, steps[0]), steps[1..], d', c);
    }
  }

  /** Gapless streams: over any run, a client that stays has been sent exactly what was broadcast
      meanwhile, in order; nothing was queued for it and nothing is missing. */
  lemma StreamsAreGapless<Ref, Cid>(
    d: Daemon<Ref, Cid>, steps: seq<DaemonStep<Ref, Cid>>, d': Daemon<Ref, Cid>, c: Cid)
    requires Ready(d) && d.clients <= d.sent.Keys && RunsTo(d, steps, d') && c in d.clients && Stays(steps, 0, c)
    ensures c in d'.clients && c in d'.sent && d'.sent[c] == d.sent[c] + EmittedOver(d, steps, d')
  {
    ServedIffJoinedAndStaying(d, steps, d', c);
    ClientStreamIsGapless(d, steps, d', c);
  }

  lemma {:induction false} ClientStreamIsGapless<Ref, Cid>(
    d: Daemon<Ref, Cid>, steps: seq<DaemonStep<Ref, Cid>>, d': Daemon<Ref, Cid>, c: Cid)
    requires Ready(d) && d.clients <= d.sent.Keys && RunsTo(d, steps, d') && c in d.sent && c in d'.clients
    ensures c in d.clients && c in d'.sent && d'.sent[c] == d.sent[c] + EmittedOver(d, steps, d')
    decreases |steps|
  {
    if steps == [] {
      assert d.sent[c] + [] == d.sent[c];
    } else {
      StepKeepsReady(d, steps[0]);
      StreamsStayKnown(d, steps[0]);
      StepStreams(d, steps[0], c);
      ClientStreamIsGapless(After(d, steps[0]), steps[1..], d', c);
      ConcatAssoc(d.sent[c], Emits(d, steps[0]), EmittedOver(After(d, steps[0]), steps[1..], d'));
    }
  }

  /** From its connection on: the snapshot of that moment, then everything broadcast since. The stream
      starts with that snapshot exactly if the connect-time write succeeded, because the daemon keeps a
      client whose first write failed. */
  lemma GreetedStreamIsComplete<Ref, Cid>(
    d: Daemon<Ref, Cid>, connect: DaemonStep<Ref, Cid>, steps: seq<DaemonStep<Ref, Cid>>, d': Daemon<Ref, Cid>)
    requires Ready(d) && d.clients <= d.sent.Keys && connect.Connect? && Possible(d, connect)
    requires RunsTo(After(d, connect), steps, d') && Stays(steps, 0, connect.client)
    ensures connect.client in d'.clients && connect.client in d'.sent
    ensures d'.sent[connect.client] == [SnapshotOf(d.store)] + EmittedOver(After(d, connect), steps, d')
            <==> connect.written
  {
    StepKeepsReady(d, connect);
    StreamsStayKnown(d, connect);
    ServedAfterStep(d, connect, connect.client);
    StreamsAreGapless(After(d, connect), steps, d', connect.client);
  }

  // ---- following ----

  /** What a client has been sent since a given state. */
  ghost function News<Ref, Cid>(d: Daemon<Ref, Cid>, d': Daemon<Ref, Cid>, c: Cid): seq<Message>
    requires c in d'.sent
  {
    if c in d.sent && |d.sent[c]| <= |d'.sent[c]| then d'.sent[c][|d.sent[c]|..] else d'.sent[c]
  }

  lemma NewsGrow<Ref, Cid>(
    d: Daemon<Ref, Cid>, d1: Daemon<Ref, Cid>, d': Daemon<Ref, Cid>, c: Cid, more: seq<Message>)
    requires c in d1.sent && c in d'.sent && d'.sent[c] == d1.sent[c] + more
    requires c in d.sent ==> d.sent[c] <= d1.sent[c]
    ensures News(d, d', c) == News(d, d1, c) + more
  {
    if c in d.sent { DropConcat(d1.sent[c], more, |d.sent[c]|); }
  }

  lemma HasSnapshotConcat(a: seq<Message>, b: seq<Message>)
    ensures HasSnapshot(a + b) <==> HasSnapshot(a) || HasSnapshot(b)
  {
    if HasSnapshot(a + b) && !HasSnapshot(a) { SnapshotIsInTail(a, b); }
    if HasSnapshot(a) {
      var i :| 0 <= i < |a| && a[i].Snapshot?;
      assert (a + b)[i] == a[i];
    }
    if HasSnapshot(b) {
      var i :| 0 <= i < |b| && b[i].Snapshot?;
      assert (a + b)[|a| + i] == b[i];
    }
  }

  /** A client is served and has been sent a snapshot since a given state exactly if the steps since say so. */
  lemma {:induction false} GreetedIffSentSnapshot<Ref, Cid>(
    d: Daemon<Ref, Cid>, steps: seq<DaemonStep<Ref, Cid>>, d': Daemon<Ref, Cid>, c: Cid)
    requires Ready(d) && d.clients <= d.sent.Keys && RunsTo(d, steps, d')
    ensures Greeted(c in d.clients, steps, c)
            <==> c in d'.clients && c in d'.sent && HasSnapshot(News(d, d', c))
    decreases |steps|
  {
    if steps != [] {
      var p, s := steps[..|steps| - 1], steps[|steps| - 1];
      assert steps == p + [s];
      var d1 := LastStep(d, p, s, d');
      GreetedIffSentSnapshot(d, p, d1, c);
      StreamsGrow(d, p, d1, c);
      GreetedSnoc(c in d.clients, p, s, c);
      ServedIffJoinedAndStaying(d, steps, d', c);
      ServedAfterStep(d1, s, c);
      if c in d'.clients { StepGreets(d, d1, s, c); }
    }
  }

  lemma StepGreets<Ref, Cid>(d: Daemon<Ref, Cid>, d1: Daemon<Ref, Cid>, s: DaemonStep<Ref, Cid>, c: Cid)
    requires Ready(d1) && Possible(d1, s) && d1.clients <= d1.sent.Keys
    requires c in d.sent ==> c in d1.sent && d.sent[c] <= d1.sent[c]
    requires c in After(d1, s).clients
    ensures c in After(d1, s).sent
    ensures HasSnapshot(News(d, After(d1, s), c))
            <==> s == Connect(c, true) || s.Tick? || (c in d1.clients && HasSnapshot(News(d, d1, c)))
  {
    StepStreams(d1, s, c);
    ServedAfterStep(d1, s, c);
    if c in d1.sent {
      NewsGrow(d, d1, After(d1, s), c, Emits(d1, s));
      HasSnapshotConcat(News(d, d1, c), Emits(d1, s));
      if HasSnapshot(Emits(d1, s)) { OnlyTicksEmitSnapshots(d1, s); }
      if s.Tick? { assert Emits(d1, s)[0].Snapshot?; }
    } else if s == Connect(c, true) {
      assert After(d1, s).sent[c][0].Snapshot?;
    }
  }

  lemma {:induction false} FollowerKeepsFollowing<Ref, Cid>(
    d: Daemon<Ref, Cid>, steps: seq<DaemonStep<Ref, Cid>>, d': Daemon<Ref, Cid>, v: Replica)
    requires Sound(d) && RunsTo(d, steps, d') && InOrder(d, steps)
    ensures Sound(d')
    ensures Follows(d, v) ==> Follows(d', HandleAll(v, EmittedOver(d, steps, d')))
    decreases |steps|
  {
    if steps != [] {
      var d1 := After(d, steps[0]);
      StepKeepsFollowing(d, steps[0], v);
      FollowerKeepsFollowing(d1, steps[1..], d', HandleAll(v, Emits(d, steps[0])));
      HandleAllConcat(v, Emits(d, steps[0]), EmittedOver(d1, steps[1..], d'));
    }
  }

  lemma OnlyTicksEmitSnapshots<Ref, Cid>(d: Daemon<Ref, Cid>, s: DaemonStep<Ref, Cid>)
    requires Ready(d) && Possible(d, s) && HasSnapshot(Emits(d, s))
    ensures s.Tick?
  {
  }

  lemma SnapshotIsInTail(before: seq<Message>, more: seq<Message>)
    requires !HasSnapshot(before) && HasSnapshot(before + more)
    ensures HasSnapshot(more)
  {
    var i :| 0 <= i < |before + more| && (before + more)[i].Snapshot?;
    assert forall j :: 0 <= j < |before| ==> !before[j].Snapshot?;
    assert more[i - |before|] == (before + more)[i];
  }

  /** Whoever was sent what a run broadcast follows after it, if a snapshot was among it. */
  lemma {:induction false} SnapshotMakesFollower<Ref, Cid>(
    d: Daemon<Ref, Cid>, steps: seq<DaemonStep<Ref, Cid>>, d': Daemon<Ref, Cid>, v: Replica)
    requires Sound(d) && RunsTo(d, steps, d') && InOrder(d, steps) && HasSnapshot(EmittedOver(d, steps, d'))
    ensures Sound(d') && Follows(d', HandleAll(v, EmittedOver(d, steps, d')))
    decreases |steps|
  {
    var d1, v1 := After(d, steps[0]), HandleAll(v, Emits(d, steps[0]));
    var rest := EmittedOver(d1, steps[1..], d');
    StepKeepsFollowing(d, steps[0], v);
    HandleAllConcat(v, Emits(d, steps[0]), rest);
    if HasSnapshot(Emits(d, steps[0])) {
      OnlyTicksEmitSnapshots(d, steps[0]);
      assert [SnapshotOf(d.store)][..0] == [];
      SnapshotFollows(d);
      FollowerKeepsFollowing(d1, steps[1..], d', v1);
    } else {
      SnapshotIsInTail(Emits(d, steps[0]), rest);
      SnapshotMakesFollower(d1, steps[1..], d', v1);
    }
  }

  /** From any sound state on, in every state reached in order, the pending tasks lead home, and every
      client that has been sent a snapshot since lags by them only, whatever it was sent before. */
  lemma {:induction false} ReachableStatesFollow<Ref, Cid>(
    d: Daemon<Ref, Cid>, steps: seq<DaemonStep<Ref, Cid>>, d': Daemon<Ref, Cid>, c: Cid, v: Replica)
    requires Sound(d) && d.clients <= d.sent.Keys && RunsTo(d, steps, d') && InOrder(d, steps)
    ensures Sound(d') && d'.clients <= d'.sent.Keys
    ensures c in d'.clients && HasSnapshot(News(d, d', c)) ==> Follows(d', HandleAll(v, d'.sent[c]))
    decreases |steps|
  {
    if steps != [] {
      StepKeepsFollowing(d, steps[0], v);
      StreamsStayKnown(d, steps[0]);
      StepStreams(d, steps[0], c);
      ReachableStatesFollow(After(d, steps[0]), steps[1..], d', c, v);
    }
    if c in d'.clients && HasSnapshot(News(d, d', c)) {
      if c in d.sent {
        ClientStreamIsGapless(d, steps, d', c);
        assert News(d, d', c) == EmittedOver(d, steps, d');
        HandleAllConcat(v, d.sent[c], EmittedOver(d, steps, d'));
        SnapshotMakesFollower(d, steps, d', HandleAll(v, d.sent[c]));
      } else if steps != [] && c in After(d, steps[0]).sent {
        NewcomerFollows(d, steps, d', c, v);
      }
    }
  }

  lemma NewcomerFollows<Ref, Cid>(
    d: Daemon<Ref, Cid>, steps: seq<DaemonStep<Ref, Cid>>, d': Daemon<Ref, Cid>, c: Cid, v: Replica)
    requires Sound(d) && d.clients <= d.sent.Keys && RunsTo(d, steps, d') && InOrder(d, steps)
    requires steps != [] && c !in d.sent && c in After(d, steps[0]).sent
    requires c in d'.clients && c in d'.sent && HasSnapshot(d'.sent[c])
    ensures Ready(d') && Follows(d', HandleAll(v, d'.sent[c]))
  {
    var d1 := After(d, steps[0]);
    var more := EmittedOver(d1, steps[1..], d');
    StepKeepsFollowing(d, steps[0], v);
    StreamsStayKnown(d, steps[0]);
    ClientStreamIsGapless(d1, steps[1..], d', c);
    StepStreams(d, steps[0], c);
    if d1.sent[c] == [] {
      assert d'.sent[c] == more;
      SnapshotMakesFollower(d1, steps[1..], d', v);
    } else {
      assert [SnapshotOf(d.store)][..0] == [];
      SnapshotFollows(d);
      HandleAllConcat(v, d1.sent[c], more);
      FollowerKeepsFollowing(d1, steps[1..], d', HandleAll(v, d1.sent[c]));
    }
  }

  /** End-to-end agreement, daemon side: in every state reached in order from a sound one, whatever
      replica a client started from and whatever it was sent before, if by the steps since it is served and
      was sent a snapshot, its stream followed by the pending tasks shows exactly the registered sessions,
      each with the registered state, label and since, although diffs read mutable records late and no-ops
      and identity fixes send nothing. */
  lemma StreamsAgreeWithRegistry<Ref, Cid>(
    d: Daemon<Ref, Cid>, steps: seq<DaemonStep<Ref, Cid>>, d': Daemon<Ref, Cid>, c: Cid, start: Replica)
    requires Sound(d) && d.clients <= d.sent.Keys && RunsTo(d, steps, d') && InOrder(d, steps)
    requires Greeted(c in d.clients, steps, c)
    ensures Ready(d') && c in d'.clients && c in d'.sent
    ensures Agrees(d'.store, HandleAll(start, d'.sent[c] + SerialiseAll(d'.store.heap, d'.pending)))
  {
    GreetedIffSentSnapshot(d, steps, d', c);
    ReachableStatesFollow(d, steps, d', c, start);
    HandleAllConcat(start, d'.sent[c], SerialiseAll(d'.store.heap, d'.pending));
    PendingSettles(d', HandleAll(start, d'.sent[c]));
  }

  lemma InitialIsSound<Ref, Cid>(d: Daemon<Ref, Cid>)
    requires Initial(d)
    ensures Sound(d) && d.clients <= d.sent.Keys
  {
  }

  // ---- the registry within the daemon ----

  function RegistryStepsOf<Ref, Cid>(s: DaemonStep<Ref, Cid>): seq<RegistryStep> {
    match s
    case Event(e, now, files, _) => [RegistryStep.EventStep(e, now, files)]
    case Sweep(files, alive, _, _) => [ResolveStep(files), ReapStep(alive)]
    case _ => []
  }

  function AllRegistrySteps<Ref, Cid>(steps: seq<DaemonStep<Ref, Cid>>): seq<RegistryStep> {
    if steps == [] then [] else RegistryStepsOf(steps[0]) + AllRegistrySteps(steps[1..])
  }

  lemma StepRefinesRegistry<Ref, Cid>(d: Daemon<Ref, Cid>, s: DaemonStep<Ref, Cid>)
    requires Ready(d) && Possible(d, s)
    ensures WellFormed(StoreAfter(d, s))
    ensures Values(StoreAfter(d, s)) == Registry.Run(Values(d.store), RegistryStepsOf(s))
  {
    match s
    case Event(e, now, files, r) =>
      EventRefinesValues(d.store, e, now, files, r);
      var step := RegistryStep.EventStep(e, now, files);
      assert [step][1..] == [];
    case Sweep(files, alive, _, _) =>
      SweepRefinesValues(d.store, files, alive);
      SweepRefinesValues(ResolveStore(d.store, files), files, alive);
      var m := Registry.Next(Values(d.store), ResolveStep(files));
      var steps := [ResolveStep(files), ReapStep(alive)];
      assert steps[1..] == [ReapStep(alive)] && [ReapStep(alive)][1..] == [];
      assert Registry.Run(Values(d.store), steps) == Registry.Run(m, [ReapStep(alive)]);
      assert Registry.Run(m, [ReapStep(alive)]) == Registry.Next(m, ReapStep(alive));
    case _ =>
  }

  /** Over any run, the shared mutable records hold exactly what a plain registry of values would, so
      session isolation holds of the daemon too. */
  lemma {:induction false} DaemonRefinesRegistry<Ref, Cid>(
    d: Daemon<Ref, Cid>, steps: seq<DaemonStep<Ref, Cid>>, d': Daemon<Ref, Cid>, sid: string)
    requires Ready(d) && RunsTo(d, steps, d')
    ensures Ready(d') && Values(d'.store) == Registry.Run(Values(d.store), AllRegistrySteps(steps))
    ensures Lookup(Values(d'.store), sid) ==
              RunOne(Lookup(Values(d.store), sid), sid, OwnSteps(AllRegistrySteps(steps), sid))
    decreases |steps|
  {
    if steps != [] {
      StepRefinesRegistry(d, steps[0]);
      StepKeepsReady(d, steps[0]);
      DaemonRefinesRegistry(After(d, steps[0]), steps[1..], d', sid);
      Registry.RunConcat(Values(d.store), RegistryStepsOf(steps[0]), AllRegistrySteps(steps[1..]));
    }
    SessionIsolation(Values(d.store), AllRegistrySteps(steps), sid);
  }

  // ---- healing ----

  function TasksRun<Ref, Cid>(steps: seq<DaemonStep<Ref, Cid>>): nat {
    if steps == [] then 0 else TasksRun(steps[1..]) + if steps[0].RunTask? then 1 else 0
  }

  /** However a daemon came into its state, reapers overtaking diffs included: once the tasks then pending
      have run, in order, the pending tasks lead home again. */
  lemma {:induction false} StaleTasksRunOut<Ref, Cid>(
    d: Daemon<Ref, Cid>, steps: seq<DaemonStep<Ref, Cid>>, d': Daemon<Ref, Cid>, stale: nat)
    requires SoundBut(d, stale) && RunsTo(d, steps, d') && InOrder(d, steps) && TasksRun(steps) >= stale
    ensures Sound(d')
    decreases |steps|
  {
    if steps == [] {
      SoundButNone(d);
    } else {
      StepKeepsSoundBut(d, steps[0], stale);
      StaleTasksRunOut(After(d, steps[0]), steps[1..], d', StaleAfter(steps[0], stale));
    }
  }

  /** Whatever messages a replica was fed before, lost, duplicated, reordered or cut off, one snapshot
      makes it equal to the registry on every wire field. */
  lemma SnapshotRestoresEveryField<Ref>(s: Store<Ref>, start: Replica, noise: seq<Message>)
    requires WellFormed(s)
    ensures var healed := HandleAll(start, noise + [SnapshotOf(s)]);
            && healed.Keys == s.agents.Keys
            && forall sid :: sid in healed ==> Carries(healed[sid], s.heap[s.agents[sid]])
  {
    HandleAllConcat(start, noise, [SnapshotOf(s)]);
    assert [SnapshotOf(s)][..0] == [];
    SnapshotCarriesTheRegistry(s);
  }

  /** Self-healing: from any state at all, let the tasks pending there run (`settle`). A snapshot taken
      from then on makes any replica equal to the registry on every wire field, and the broadcasts after
      it, in order, keep every session's status in agreement. */
  lemma OneSnapshotHeals<Ref, Cid>(
    d: Daemon<Ref, Cid>, settle: seq<DaemonStep<Ref, Cid>>, d1: Daemon<Ref, Cid>, steps: seq<DaemonStep<Ref, Cid>>,
    d': Daemon<Ref, Cid>, start: Replica, noise: seq<Message>)
    requires Ready(d) && RunsTo(d, settle, d1) && InOrder(d, settle) && TasksRun(settle) >= |d.pending|
    requires RunsTo(d1, steps, d') && InOrder(d1, steps)
    ensures Ready(d1) && Ready(d')
    ensures var healed := HandleAll(start, noise + [SnapshotOf(d1.store)]);
            && healed.Keys == d1.store.agents.Keys
            && (forall sid :: sid in healed ==> Carries(healed[sid], d1.store.heap[d1.store.agents[sid]]))
            && Agrees(d'.store, HandleAll(healed, EmittedOver(d1, steps, d') + SerialiseAll(d'.store.heap, d'.pending)))
  {
    StaleTasksRunOut(d, settle, d1, |d.pending|);
    var healed := HandleAll(start, noise + [SnapshotOf(d1.store)]);
    SnapshotRestoresEveryField(d1.store, start, noise);
    SnapshotFollows(d1);
    assert healed == SnapshotOf(d1.store).agents;
    FollowerKeepsFollowing(d1, steps, d', healed);
    PendingSettles(d', HandleAll(healed, EmittedOver(d1, steps, d')));
    HandleAllConcat(healed, EmittedOver(d1, steps, d'), SerialiseAll(d'.store.heap, d'.pending));
  }

  /** The same on real streams. From any state at all, and so after any run however disordered, let the tasks
      pending there run in order; from then on every client that is sent a snapshot agrees again. */
  lemma DisorderIsHealed<Ref, Cid>(
    d: Daemon<Ref, Cid>, settle: seq<DaemonStep<Ref, Cid>>, d1: Daemon<Ref, Cid>, steps: seq<DaemonStep<Ref, Cid>>,
    d': Daemon<Ref, Cid>, c: Cid, start: Replica)
    requires Ready(d) && d.clients <= d.sent.Keys
    requires RunsTo(d, settle, d1) && InOrder(d, settle) && TasksRun(settle) >= |d.pending|
    requires RunsTo(d1, steps, d') && InOrder(d1, steps)
    requires Greeted(c in d1.clients, steps, c)
    ensures Ready(d') && c in d'.clients && c in d'.sent
    ensures Agrees(d'.store, HandleAll(start, d'.sent[c] + SerialiseAll(d'.store.heap, d'.pending)))
  {
    StaleTasksRunOut(d, settle, d1, |d.pending|);
    StreamsGrow(d, settle, d1, c);
    StreamsAgreeWithRegistry(d1, steps, d', c, start);
  }

  // ---- quiescence ----

  /** Nothing else happening, the pending tasks run down to none, the registry stays as it is, and what
      they broadcast is what they would broadcast now. */
  lemma {:induction false} PendingRunsDry<Ref, Cid>(d: Daemon<Ref, Cid>, steps: seq<DaemonStep<Ref, Cid>>)
    returns (d': Daemon<Ref, Cid>)
    requires Ready(d) && |steps| == |d.pending| && forall i :: 0 <= i < |steps| ==> steps[i].RunTask?
    ensures RunsTo(d, steps, d') && d'.pending == [] && d'.store == d.store
    ensures EmittedOver(d, steps, d') == SerialiseAll(d.store.heap, d.pending)
    decreases |steps|
  {
    if steps == [] {
      d' := d;
    } else {
      var d1 := After(d, steps[0]);
      d' := PendingRunsDry(d1, steps[1..]);
      SerialiseHead(d.store.heap, d.pending);
    }
  }

  lemma {:induction false} SerialiseConcat<Ref>(heap: map<Ref, Record>, a: seq<Task<Ref>>, b: seq<Task<Ref>>)
    requires forall t :: t in a ==> Serialisable(heap, t)
    requires forall t :: t in b ==> Serialisable(heap, t)
    ensures forall t :: t in a + b ==> Serialisable(heap, t)
    ensures SerialiseAll(heap, a + b) == SerialiseAll(heap, a) + SerialiseAll(heap, b)
  {
    if b == [] {
      assert a + b == a;
    } else {
      var p, t := b[..|b| - 1], b[|b| - 1];
      SerialiseConcat(heap, a, p);
      assert t in b && (a + b)[..|a + b| - 1] == a + p;
      ConcatAssoc(SerialiseAll(heap, a), SerialiseAll(heap, p), [Serialise(heap, t)]);
    }
  }

  lemma SerialiseHead<Ref>(heap: map<Ref, Record>, ts: seq<Task<Ref>>)
    requires ts != [] && forall t :: t in ts ==> Serialisable(heap, t)
    ensures SerialiseAll(heap, ts) == [Serialise(heap, ts[0])] + SerialiseAll(heap, ts[1..])
  {
    assert ts == [ts[0]] + ts[1..];
    assert [ts[0]][..0] == [];
    assert SerialiseAll(heap, [ts[0]]) == [] + [Serialise(heap, ts[0])];
    SerialiseConcat(heap, [ts[0]], ts[1..]);
  }

  // ---- where agreement would break ----

  /** The reaper broadcasts its removals directly. Doing so keeps a following replica in agreement
      exactly if no reaped session still has a diff pending: a removal that overtakes one is undone
      by it, and the frontend shows a session the registry no longer has. */
  lemma SweepAgreesIffNothingIsOvertaken<Ref, Cid>(
    d: Daemon<Ref, Cid>, files: Files, alive: set<string>, order: seq<string>, fails: seq<set<Cid>>, v: Replica)
    requires Sound(d) && Follows(d, v) && SweepShape(d, files, alive, order, fails)
    ensures Ready(d.(store := SweptStore(d.store, files, alive)))
    ensures Agrees(SweptStore(d.store, files, alive),
                   HandleAll(HandleAll(v, Removals(order)),
                             SerialiseAll(SweptStore(d.store, files, alive).heap, d.pending)))
            <==> !Overtakes(d, order)
  {
    var s' := SweptStore(d.store, files, alive);
    SweepEffect(d.store, files, alive);
    SweepKeepsReady(d, files, alive);
    var v' := HandleAll(v, Removals(order));
    var settled := HandleAll(v', SerialiseAll(s'.heap, d.pending));
    if Overtakes(d, order) {
      var sid :| sid in order && sid != "" && LastFor(d.pending, sid).Some?;
      AppliedAt(s'.heap, d.pending, v', sid);
      LastForIsPending(d.pending, sid);
      assert sid in d.store.agents && !AgreesOn(s', settled, sid);
    } else {
      var sweep: DaemonStep<Ref, Cid> := Sweep(files, alive, order, fails);
      StepKeepsFollowing(d, sweep, v);
      SweepIsReady(d, sweep);
      PendingSettles(After(d, sweep), v');
    }
  }

  /** Such a state is one event away from cold start: the first event of a session whose process is
      already gone, the reaper waking before its broadcast has run. */
  lemma OvertakingIsReachable() returns (d: Daemon<nat, nat>, d': Daemon<nat, nat>, files: Files)
    ensures Initial(d) && exists steps :: RunsTo(d, steps, d') && InOrder(d, steps)
    ensures Ready(d') && SweepShape(d', files, {}, ["s"], [{}]) && Overtakes(d', ["s"])
  {
    files := map["s" := SessionInfo(Some(1), None, None)];
    d := Daemon(Store(map[], map[]), [], {}, map[]);
    var e := HookEvent("s", SessionStart, "", None, None);
    var steps: seq<DaemonStep<nat, nat>> := [Event(e, 0, files, 0)];
    d' := After(d, steps[0]);
    assert steps[1..] == [];
    assert RunsTo(d, steps, d') && InOrder(d, steps);
    StepKeepsReady(d, steps[0]);
    assert d'.store.agents == map["s" := 0] && d'.store.heap[0].pid == Some(1);
    assert Reaped(d'.store, files, {}) == {"s"};
    assert d'.pending == [PendingUpsert("s", 0)];
    assert "s" in ["s"] && LastFor(d'.pending, "s").Some?;
  }

  /** A removal held back until later, after the session has come back, does harm exactly if the diff that
      brought it back is already out. */
  lemma LateRemovalAgreesIffNotOutrun<Ref, Cid>(d: Daemon<Ref, Cid>, sid: string, v: Replica)
    requires Sound(d) && Follows(d, v)
    ensures Agrees(d.store, HandleAll(Handle(v, Remove(sid)), SerialiseAll(d.store.heap, d.pending)))
            <==> sid == "" || sid !in d.store.agents || LastFor(d.pending, sid).Some?
  {
    var v1 := Handle(v, Remove(sid));
    if sid == "" || sid !in d.store.agents || LastFor(d.pending, sid).Some? {
      forall x | x != "" && LastFor(d.pending, x).None? ensures AgreesOn(d.store, v1, x) {
        assert AgreesOn(d.store, v, x);
      }
      PendingSettles(d, v1);
    } else {
      AppliedAt(d.store.heap, d.pending, v1, sid);
      assert !AgreesOn(d.store, HandleAll(v1, SerialiseAll(d.store.heap, d.pending)), sid);
    }
  }

  /** A new session reaches the replicas by its own diff exactly if its id is not empty: the frontend
      skips diffs for the empty id, so such a session would show up only with the next snapshot. */
  lemma NewSessionReachesReplicaIffNamed<Ref, Cid>(
    d: Daemon<Ref, Cid>, e: HookEvent, now: int, files: Files, r: Ref, v: Replica)
    requires Sound(d) && Follows(d, v) && e.sessionId !in d.store.agents && r !in d.store.heap
    requires OpFor(false, e) == OpUpsert && e.sessionId !in v
    ensures var step: DaemonStep<Ref, Cid> := Event(e, now, files, r);
            var d' := After(d, step);
            && Ready(d')
            && (AgreesOn(d'.store, HandleAll(v, SerialiseAll(d'.store.heap, d'.pending)), e.sessionId)
                <==> e.sessionId != "")
  {
    var step: DaemonStep<Ref, Cid> := Event(e, now, files, r);
    var d' := After(d, step);
    StepKeepsFollowing(d, step, v);
    EventOutcome(d.store, e, now, files, r);
    PendingSettles(d', v);
    if e.sessionId == "" {
      EmptyIdIsIgnored(d'.store.heap, d'.pending, v);
    }
  }

  lemma {:induction false} EmptyIdIsIgnored<Ref>(heap: map<Ref, Record>, ts: seq<Task<Ref>>, v: Replica)
    requires forall t :: t in ts ==> Serialisable(heap, t)
    ensures "" in HandleAll(v, SerialiseAll(heap, ts)) <==> "" in v
  {
    if ts != [] {
      EmptyIdIsIgnored(heap, ts[..|ts| - 1], v);
      ApplyLast(heap, ts, v);
    }
  }

  // ---- total agreement ----

  /** Exactly the registered sessions, each with its registered status. */
  ghost predicate ShowsRegistry<Ref>(s: Store<Ref>, v: Replica)
    requires WellFormed(s)
  {
    v.Keys == s.agents.Keys && forall sid :: sid in v ==> StatusOf(v[sid], s.heap[s.agents[sid]])
  }

  predicate NamesItsSession<Ref, Cid>(s: DaemonStep<Ref, Cid>) {
    s.Event? ==> s.event.sessionId != ""
  }

  // ---- what streams consist of ----

  ghost predicate AllOf(ms: seq<Message>, p: Message -> bool) {
    forall i :: 0 <= i < |ms| ==> p(ms[i])
  }

  ghost predicate AllSent<Ref, Cid>(d: Daemon<Ref, Cid>, p: Message -> bool) {
    forall c :: c in d.sent ==> AllOf(d.sent[c], p)
  }

  lemma DeliverKeepsAll<Ref, Cid>(d: Daemon<Ref, Cid>, m: Message, fails: set<Cid>, p: Message -> bool)
    requires AllSent(d, p) && p(m)
    ensures AllSent(Deliver(d, m, fails), p)
  {
    forall c | c in d.sent ensures AllOf(d.sent[c] + [m], p) {
      assert AllOf(d.sent[c], p);
    }
  }

  lemma {:induction false} DeliverAllKeepsAll<Ref, Cid>(
    d: Daemon<Ref, Cid>, ms: seq<Message>, fails: seq<set<Cid>>, p: Message -> bool)
    requires |fails| == |ms| && AllOf(ms, p) && AllSent(d, p)
    ensures AllSent(DeliverAll(d, ms, fails), p)
  {
    if ms != [] {
      var n := |ms| - 1;
      DeliverAllKeepsAll(d, ms[..n], fails[..n], p);
      DeliverKeepsAll(DeliverAll(d, ms[..n], fails[..n]), ms[n], fails[n], p);
    }
  }

  lemma StepKeepsAll<Ref, Cid>(d: Daemon<Ref, Cid>, s: DaemonStep<Ref, Cid>, p: Message -> bool)
    requires Ready(d) && Possible(d, s) && AllSent(d, p) && AllOf(Emits(d, s), p) && p(SnapshotOf(d.store))
    ensures AllSent(After(d, s), p)
  {
    match s
    case Sweep(files, alive, order, fails) =>
      DeliverAllKeepsAll(d.(store := StoreAfter(d, s)), Removals(order), fails, p);
    case Tick(fails) => DeliverKeepsAll(d, SnapshotOf(d.store), fails, p);
    case RunTask(fails) =>
      assert Emits(d, s)[0] == Serialise(d.store.heap, d.pending[0]);
      DeliverKeepsAll(d.(pending := d.pending[1..]), Serialise(d.store.heap, d.pending[0]), fails, p);
    case _ =>
  }

  /** Connection notices are the frontend's own; the daemon sends none. */
  predicate NotNotice(m: Message) { !m.ConnStatus? }

  lemma StepSendsNoNotice<Ref, Cid>(d: Daemon<Ref, Cid>, s: DaemonStep<Ref, Cid>)
    requires Ready(d) && Possible(d, s) && AllSent(d, NotNotice)
    ensures AllSent(After(d, s), NotNotice)
  {
    StepKeepsAll(d, s, NotNotice);
  }

  predicate Named(m: Message) { m.Snapshot? ==> "" !in m.agents }

  ghost predicate AllNamed<Ref, Cid>(d: Daemon<Ref, Cid>) {
    "" !in d.store.agents && AllSent(d, Named)
  }

  lemma {:induction false} NamedStreamsNeverShowEmptyId(v: Replica, ms: seq<Message>)
    requires "" !in v && AllOf(ms, Named)
    ensures "" !in HandleAll(v, ms)
  {
    if ms != [] {
      assert Named(ms[|ms| - 1]);
      NamedStreamsNeverShowEmptyId(v, ms[..|ms| - 1]);
    }
  }

  lemma StepKeepsNamed<Ref, Cid>(d: Daemon<Ref, Cid>, s: DaemonStep<Ref, Cid>)
    requires Ready(d) && Possible(d, s) && AllNamed(d) && NamesItsSession(s)
    ensures AllNamed(After(d, s))
  {
    StepKeepsAll(d, s, Named);
    StepKeepsReady(d, s);
    match s
    case Event(e, now, files, r) => EventEffect(d.store, e, now, files, r);
    case Sweep(files, alive, _, _) => SweepEffect(d.store, files, alive);
    case _ =>
  }

  lemma {:induction false} RunKeepsNamed<Ref, Cid>(
    d: Daemon<Ref, Cid>, steps: seq<DaemonStep<Ref, Cid>>, d': Daemon<Ref, Cid>)
    requires Ready(d) && AllNamed(d) && RunsTo(d, steps, d')
    requires forall i :: 0 <= i < |steps| ==> NamesItsSession(steps[i])
    ensures AllNamed(d')
    decreases |steps|
  {
    if steps != [] {
      StepKeepsNamed(d, steps[0]);
      StepKeepsReady(d, steps[0]);
      RunKeepsNamed(After(d, steps[0]), steps[1..], d');
    }
  }

  /** When every event names its session, as the emitter guarantees, and cold start took no unnamed one,
      agreement is total: a greeted client's stream and the pending tasks give exactly the registered
      session set, with the registered status each. */
  lemma NamedSessionsAgreeTotally<Ref, Cid>(
    d: Daemon<Ref, Cid>, steps: seq<DaemonStep<Ref, Cid>>, d': Daemon<Ref, Cid>, c: Cid, start: Replica)
    requires Initial(d) && "" !in d.store.agents && RunsTo(d, steps, d') && InOrder(d, steps)
    requires forall i :: 0 <= i < |steps| ==> NamesItsSession(steps[i])
    requires Greeted(c in d.clients, steps, c)
    ensures Ready(d') && c in d'.clients && c in d'.sent
    ensures ShowsRegistry(d'.store, HandleAll(start, d'.sent[c] + SerialiseAll(d'.store.heap, d'.pending)))
  {
    InitialIsSound(d);
    StreamsAgreeWithRegistry(d, steps, d', c, start);
    GreetedIffSentSnapshot(d, steps, d', c);
    RunKeepsNamed(d, steps, d');
    var ms := SerialiseAll(d'.store.heap, d'.pending);
    SnapshotErasesHistory(start, map[], d'.sent[c]);
    HandleAllConcat(start, d'.sent[c], ms);
    NamedStreamsNeverShowEmptyId(map[], d'.sent[c]);
    EmptyIdIsIgnored(d'.store.heap, d'.pending, HandleAll(start, d'.sent[c]));
    var v := HandleAll(start, d'.sent[c] + ms);
    forall sid ensures sid in v <==> sid in d'.store.agents {
      if sid != "" { assert AgreesOn(d'.store, v, sid); }
    }
    forall sid | sid in v ensures StatusOf(v[sid], d'.store.heap[d'.store.agents[sid]]) {
      assert AgreesOn(d'.store, v, sid);
    }
  }
}
