/** The frontend's replica of the session table, with fading ghosts and animation timers
    (frontend/main.py). Clock readings are in milliseconds. */
module Frontend {
  import opened Schema
  import opened DeskLayout

  const DESPAWN_ANIM_MS := 400

  // ---- the replica alone ----

  type Replica = map<string, Wire>

  /** What one message does to the session table. Diffs for the empty id are ignored; snapshots are not filtered. */
  function Handle(agents: Replica, m: Message): Replica {
    match m
    case Snapshot(snap) => snap
    case Upsert(sid, agent) => if sid == "" then agents else agents[sid := agent]
    case Remove(sid) => if sid == "" then agents else agents - {sid}
    case ConnStatus(_) => agents
  }

  function HandleAll(agents: Replica, ms: seq<Message>): Replica {
    if ms == [] then agents else Handle(HandleAll(agents, ms[..|ms| - 1]), ms[|ms| - 1])
  }

  lemma {:induction false} HandleAllConcat(agents: Replica, a: seq<Message>, b: seq<Message>)
    ensures HandleAll(agents, a + b) == HandleAll(HandleAll(agents, a), b)
  {
    if b == [] {
      assert a + b == a;
    } else {
      HandleAllConcat(agents, a, b[..|b| - 1]);
      assert (a + b)[..|a + b| - 1] == a + b[..|b| - 1];
    }
  }

  ghost predicate HasSnapshot(ms: seq<Message>) {
    exists i :: 0 <= i < |ms| && ms[i].Snapshot?
  }

  /** Self-healing: once a snapshot is in the stream, whatever state the replica was in before,
      through loss, duplication, reordering or an earlier connection, has no influence any more. */
  lemma {:induction false} SnapshotErasesHistory(a: Replica, b: Replica, ms: seq<Message>)
    requires HasSnapshot(ms)
    ensures HandleAll(a, ms) == HandleAll(b, ms)
  {
    var n := |ms| - 1;
    if !ms[n].Snapshot? {
      var i :| 0 <= i < |ms| && ms[i].Snapshot?;
      assert ms[..n][i].Snapshot?;
      SnapshotErasesHistory(a, b, ms[..n]);
    }
  }

  // ---- the whole display state ----

  datatype Ghost = Ghost(agent: Wire, despawnStarted: int)

  datatype Display = Display(
    agents: Replica, ghosts: map<string, Ghost>, spawnStarted: map<string, int>, askingSince: map<string, int>,
    connected: bool)

  /** No session is both live and fading, and only live ones carry timers. */
  ghost predicate Tidy(st: Display) {
    && st.agents.Keys !! st.ghosts.Keys
    && st.spawnStarted.Keys <= st.agents.Keys
    && st.askingSince.Keys <= st.agents.Keys
  }

  function Shown(st: Display): set<string> { st.agents.Keys + st.ghosts.Keys }

  predicate StartsAsking(agents: Replica, sid: string, agent: Wire) {
    agent.state == Asking && !(sid in agents && agents[sid].state == Asking)
  }

  function UpsertAgent(st: Display, sid: string, agent: Wire, now: int): Display {
    Display(
      st.agents[sid := agent],
      st.ghosts - {sid},
      if sid !in st.agents && sid !in st.ghosts then st.spawnStarted[sid := now] else st.spawnStarted,
      if StartsAsking(st.agents, sid, agent) then st.askingSince[sid := now] else st.askingSince,
      st.connected)
  }

  function StartDespawn(st: Display, sid: string, now: int): Display {
    if sid !in st.agents then st
    else Display(st.agents - {sid}, st.ghosts[sid := Ghost(st.agents[sid], now)],
                 st.spawnStarted - {sid}, st.askingSince - {sid}, st.connected)
  }

  function Askers(st: Display, snap: Replica, todo: set<string>): set<string> {
    set x | x in snap && x !in todo && StartsAsking(st.agents, x, snap[x])
  }

  function MergedAgents(st: Display, snap: Replica, todo: set<string>): Replica {
    map s | s in st.agents.Keys + (snap.Keys - todo) :: if s in snap && s !in todo then snap[s] else st.agents[s]
  }

  function MergedSpawns(st: Display, snap: Replica, todo: set<string>, now: int): map<string, int> {
    map s | s in st.spawnStarted.Keys + (snap.Keys - todo - Shown(st)) ::
      if s in snap && s !in todo && s !in Shown(st) then now else st.spawnStarted[s]
  }

  function MergedAskers(st: Display, snap: Replica, todo: set<string>, now: int): map<string, int> {
    map s | s in st.askingSince.Keys + Askers(st, snap, todo) ::
      if s in Askers(st, snap, todo) then now else st.askingSince[s]
  }

  /** A snapshot applied to all of its sessions but those in `todo`. */
  function Merged(st: Display, snap: Replica, todo: set<string>, now: int): Display {
    Display(MergedAgents(st, snap, todo), st.ghosts - (snap.Keys - todo), MergedSpawns(st, snap, todo, now),
            MergedAskers(st, snap, todo, now), st.connected)
  }

  predicate Stays(st: Display, keep: set<string>, s: string) { s !in st.agents || s in keep }

  function FadedGhosts(st: Display, keep: set<string>, clock: string -> int): map<string, Ghost> {
    map s | s in st.ghosts.Keys + (st.agents.Keys - keep) ::
      if s in st.agents && s !in keep then Ghost(st.agents[s], clock(s)) else st.ghosts[s]
  }

  /** The agents not in `keep` turned into ghosts, each at its own clock reading. */
  function Faded(st: Display, keep: set<string>, clock: string -> int): Display {
    Display(
      map s | s in st.agents && s in keep :: st.agents[s],
      FadedGhosts(st, keep, clock),
      map s | s in st.spawnStarted && Stays(st, keep, s) :: st.spawnStarted[s],
      map s | s in st.askingSince && Stays(st, keep, s) :: st.askingSince[s],
      st.connected)
  }

  function ApplySnapshot(st: Display, snap: Replica, now: int, clock: string -> int): Display {
    Faded(Merged(st, snap, {}, now), snap.Keys, clock)
  }

  function HandleMessage(st: Display, m: Message, now: int, clock: string -> int): Display {
    match m
    case ConnStatus(connected) => st.(connected := connected)
    case Snapshot(snap) => ApplySnapshot(st, snap, now, clock)
    case Upsert(sid, agent) => if sid == "" then st else UpsertAgent(st, sid, agent, now)
    case Remove(sid) => if sid == "" then st else StartDespawn(st, sid, clock(sid))
  }

  predicate Expired(g: Ghost, now: int) { now - g.despawnStarted >= DESPAWN_ANIM_MS }

  function FinishedGhosts(st: Display, now: int): set<string> {
    set s | s in st.ghosts && Expired(st.ghosts[s], now)
  }

  function UpdateGhosts(st: Display, now: int): Display {
    st.(ghosts := st.ghosts - FinishedGhosts(st, now))
  }

  lemma SameMap<V>(a: map<string, V>, b: map<string, V>)
    requires forall s :: (s in a <==> s in b) && (s in a ==> a[s] == b[s])
    ensures a == b
  {
  }

  lemma MergeAgentsOneMore(st: Display, snap: Replica, todo: set<string>, sid: string)
    requires sid in snap && sid in todo
    ensures MergedAgents(st, snap, todo - {sid}) == MergedAgents(st, snap, todo)[sid := snap[sid]]
    ensures st.ghosts - (snap.Keys - (todo - {sid})) == st.ghosts - (snap.Keys - todo) - {sid}
  {
  }

  lemma MergeSpawnOneMore(st: Display, snap: Replica, todo: set<string>, sid: string, now: int)
    requires sid in snap && sid in todo
    ensures var before := MergedSpawns(st, snap, todo, now);
            MergedSpawns(st, snap, todo - {sid}, now) == if sid !in Shown(st) then before[sid := now] else before
  {
    var before, after := MergedSpawns(st, snap, todo, now), MergedSpawns(st, snap, todo - {sid}, now);
    SameMap(after, if sid !in Shown(st) then before[sid := now] else before);
  }

  lemma AskersOneMore(st: Display, snap: Replica, todo: set<string>, sid: string)
    requires sid in snap && sid in todo
    ensures Askers(st, snap, todo - {sid})
            == Askers(st, snap, todo) + if StartsAsking(st.agents, sid, snap[sid]) then {sid} else {}
  {
  }

  lemma MergeAskingOneMore(st: Display, snap: Replica, todo: set<string>, sid: string, now: int)
    requires sid in snap && sid in todo
    ensures var before := MergedAskers(st, snap, todo, now);
            MergedAskers(st, snap, todo - {sid}, now)
            == if StartsAsking(st.agents, sid, snap[sid]) then before[sid := now] else before
  {
    AskersOneMore(st, snap, todo, sid);
  }

  lemma MergeOneMore(st: Display, snap: Replica, todo: set<string>, sid: string, now: int)
    requires sid in snap && sid in todo
    ensures Merged(st, snap, todo - {sid}, now) == UpsertAgent(Merged(st, snap, todo, now), sid, snap[sid], now)
  {
    MergeAgentsOneMore(st, snap, todo, sid);
    MergeSpawnOneMore(st, snap, todo, sid, now);
    MergeAskingOneMore(st, snap, todo, sid, now);
    var before := Merged(st, snap, todo, now);
    assert sid in before.agents <==> sid in st.agents;
    assert sid in st.agents ==> before.agents[sid] == st.agents[sid];
    assert sid in before.ghosts <==> sid in st.ghosts;
  }

  lemma MergeNothing(st: Display, snap: Replica, now: int)
    ensures Merged(st, snap, snap.Keys, now) == st
  {
    var m := Merged(st, snap, snap.Keys, now);
    assert m.agents == st.agents && m.ghosts == st.ghosts;
    assert m.spawnStarted == st.spawnStarted && m.askingSince == st.askingSince;
  }

  lemma FadeAgentsOneMore(st: Display, keep: set<string>, sid: string, clock: string -> int)
    requires sid in st.agents && sid in keep
    ensures Faded(st, keep - {sid}, clock).agents == Faded(st, keep, clock).agents - {sid}
    ensures Faded(st, keep - {sid}, clock).spawnStarted == Faded(st, keep, clock).spawnStarted - {sid}
    ensures Faded(st, keep - {sid}, clock).askingSince == Faded(st, keep, clock).askingSince - {sid}
  {
  }

  lemma FadeGhostsOneMore(st: Display, keep: set<string>, sid: string, clock: string -> int)
    requires sid in st.agents && sid in keep
    ensures FadedGhosts(st, keep - {sid}, clock)
            == FadedGhosts(st, keep, clock)[sid := Ghost(st.agents[sid], clock(sid))]
  {
    var before, after := FadedGhosts(st, keep, clock), FadedGhosts(st, keep - {sid}, clock);
    SameMap(after, before[sid := Ghost(st.agents[sid], clock(sid))]);
  }

  lemma FadeOneMore(st: Display, keep: set<string>, sid: string, clock: string -> int)
    requires sid in st.agents && sid in keep
    ensures Faded(st, keep - {sid}, clock) == StartDespawn(Faded(st, keep, clock), sid, clock(sid))
  {
    FadeAgentsOneMore(st, keep, sid, clock);
    FadeGhostsOneMore(st, keep, sid, clock);
  }

  /** The agents neither in `keep` nor in `todo` turned into ghosts. */
  function FadedBut(st: Display, keep: set<string>, todo: set<string>, clock: string -> int): Display {
    Faded(st, keep + todo, clock)
  }

  lemma FadeStart(st: Display, keep: set<string>, clock: string -> int)
    ensures FadedBut(st, keep, st.agents.Keys - keep, clock) == st
  {
    var f := FadedBut(st, keep, st.agents.Keys - keep, clock);
    SameMap(f.ghosts, st.ghosts);
    assert f.agents == st.agents && f.spawnStarted == st.spawnStarted && f.askingSince == st.askingSince;
  }

  lemma FadeNext(st: Display, keep: set<string>, todo: set<string>, sid: string, clock: string -> int)
    requires sid in st.agents && sid in todo && sid !in keep
    ensures FadedBut(st, keep, todo - {sid}, clock) == StartDespawn(FadedBut(st, keep, todo, clock), sid, clock(sid))
  {
    FadeOneMore(st, keep + todo, sid, clock);
    assert keep + todo - {sid} == keep + (todo - {sid});
  }

  lemma FadeEnd(st: Display, keep: set<string>, clock: string -> int)
    ensures FadedBut(st, keep, {}, clock) == Faded(st, keep, clock)
  {
    assert keep + {} == keep;
  }

  lemma FadedShows(st: Display, keep: set<string>, clock: string -> int)
    ensures var st' := Faded(st, keep, clock);
            && st'.agents.Keys == st.agents.Keys * keep
            && (forall s :: s in st'.agents ==> st'.agents[s] == st.agents[s])
            && st'.ghosts.Keys == st.ghosts.Keys + (st.agents.Keys - keep)
            && (forall s :: s in st'.ghosts ==>
                  st'.ghosts[s] == if s in st.agents && s !in keep then Ghost(st.agents[s], clock(s)) else st.ghosts[s])
  {
  }

  lemma MergedShows(st: Display, snap: Replica, now: int)
    ensures var st' := Merged(st, snap, {}, now);
            && st'.agents.Keys == st.agents.Keys + snap.Keys
            && (forall s :: s in st'.agents ==> st'.agents[s] == if s in snap then snap[s] else st.agents[s])
            && st'.ghosts == st.ghosts - snap.Keys
  {
  }

  lemma SnapshotAgents(st: Display, snap: Replica, now: int, clock: string -> int)
    ensures ApplySnapshot(st, snap, now, clock).agents == snap
  {
    MergedShows(st, snap, now);
    FadedShows(Merged(st, snap, {}, now), snap.Keys, clock);
    SameMap(ApplySnapshot(st, snap, now, clock).agents, snap);
  }

  /** What becomes of one session as a ghost. */
  predicate GhostIs(st: Display, snap: Replica, clock: string -> int, s: string, ghosts: map<string, Ghost>) {
    && (s in ghosts <==> s in Shown(st) && s !in snap)
    && (s in ghosts ==> ghosts[s] == if s in st.ghosts then st.ghosts[s] else Ghost(st.agents[s], clock(s)))
  }

  lemma SnapshotGhostAt(st: Display, snap: Replica, now: int, clock: string -> int, s: string)
    requires Tidy(st)
    ensures GhostIs(st, snap, clock, s, ApplySnapshot(st, snap, now, clock).ghosts)
  {
    MergedShows(st, snap, now);
    FadedShows(Merged(st, snap, {}, now), snap.Keys, clock);
  }

  lemma GhostsTogether(st: Display, snap: Replica, clock: string -> int, ghosts: map<string, Ghost>)
    requires Tidy(st) && forall s :: GhostIs(st, snap, clock, s, ghosts)
    ensures ghosts.Keys == Shown(st) - snap.Keys
    ensures forall s :: s in ghosts ==>
              ghosts[s] == if s in st.ghosts then st.ghosts[s] else Ghost(st.agents[s], clock(s))
  {
    assert forall s :: s in ghosts.Keys ==> GhostIs(st, snap, clock, s, ghosts);
    assert forall s :: s in Shown(st) - snap.Keys ==> GhostIs(st, snap, clock, s, ghosts);
  }

  lemma SnapshotGhosts(st: Display, snap: Replica, now: int, clock: string -> int)
    requires Tidy(st)
    ensures var ghosts := ApplySnapshot(st, snap, now, clock).ghosts;
            && ghosts.Keys == Shown(st) - snap.Keys
            && forall s :: s in ghosts ==>
                 ghosts[s] == if s in st.ghosts then st.ghosts[s] else Ghost(st.agents[s], clock(s))
  {
    var ghosts := ApplySnapshot(st, snap, now, clock).ghosts;
    forall s ensures GhostIs(st, snap, clock, s, ghosts) { SnapshotGhostAt(st, snap, now, clock, s); }
    GhostsTogether(st, snap, clock, ghosts);
  }

  /** A snapshot leaves exactly its own sessions live, on every wire field; the ones it dropped
      join the ghosts that were fading, and resurrected ghosts stop fading. */
  lemma SnapshotReplacesAgents(st: Display, snap: Replica, now: int, clock: string -> int)
    requires Tidy(st)
    ensures var st' := ApplySnapshot(st, snap, now, clock);
            && st'.agents == snap
            && st'.ghosts.Keys == Shown(st) - snap.Keys
            && (forall s :: s in st'.ghosts ==>
                  st'.ghosts[s] == if s in st.ghosts then st.ghosts[s] else Ghost(st.agents[s], clock(s)))
  {
    SnapshotAgents(st, snap, now, clock);
    SnapshotGhosts(st, snap, now, clock);
  }

  /** Spawn timers after a snapshot: those of agents that stay, and new ones for the sessions not shown before. */
  lemma SnapshotStartsSpawnTimers(st: Display, snap: Replica, now: int, clock: string -> int)
    requires Tidy(st)
    ensures var st' := ApplySnapshot(st, snap, now, clock);
            && st'.spawnStarted.Keys == snap.Keys * st.spawnStarted.Keys + (snap.Keys - Shown(st))
            && (forall s :: s in st'.spawnStarted ==>
                  st'.spawnStarted[s] == if s in Shown(st) then st.spawnStarted[s] else now)
  {
  }

  /** The display's session table follows the replica specification, whatever the clocks say. */
  lemma DisplayFollowsReplica(st: Display, m: Message, now: int, clock: string -> int)
    requires Tidy(st)
    ensures HandleMessage(st, m, now, clock).agents == Handle(st.agents, m)
  {
    if m.Snapshot? { SnapshotReplacesAgents(st, m.agents, now, clock); }
  }

  lemma UpsertIsTidy(st: Display, sid: string, agent: Wire, now: int)
    requires Tidy(st)
    ensures Tidy(UpsertAgent(st, sid, agent, now)) && Shown(UpsertAgent(st, sid, agent, now)) == Shown(st) + {sid}
  {
  }

  lemma DespawnIsTidy(st: Display, sid: string, now: int)
    requires Tidy(st)
    ensures Tidy(StartDespawn(st, sid, now)) && Shown(StartDespawn(st, sid, now)) == Shown(st)
  {
  }

  lemma SnapshotIsTidy(st: Display, snap: Replica, now: int, clock: string -> int)
    requires Tidy(st)
    ensures Tidy(ApplySnapshot(st, snap, now, clock))
    ensures Shown(ApplySnapshot(st, snap, now, clock)) == Shown(st) + snap.Keys
  {
    SnapshotReplacesAgents(st, snap, now, clock);
  }

  /** Messages and ghost sweeps keep the display tidy; a message never makes a shown session vanish,
      and a sweep removes exactly the ghosts whose fade is over. */
  lemma MessageKeepsTidy(st: Display, m: Message, now: int, clock: string -> int)
    requires Tidy(st)
    ensures Tidy(HandleMessage(st, m, now, clock))
    ensures Shown(HandleMessage(st, m, now, clock)) ==
              Shown(st) + (match m case Snapshot(s) => s.Keys case Upsert(sid, _) => {sid} - {""} case _ => {})
  {
    match m
    case Snapshot(snap) => SnapshotIsTidy(st, snap, now, clock);
    case Upsert(sid, agent) => UpsertIsTidy(st, sid, agent, now);
    case Remove(sid) => DespawnIsTidy(st, sid, clock(sid));
    case ConnStatus(_) =>
  }

  lemma GhostSweepKeepsTidy(st: Display, now: int)
    requires Tidy(st)
    ensures Tidy(UpdateGhosts(st, now)) && UpdateGhosts(st, now).agents == st.agents
    ensures Shown(UpdateGhosts(st, now)) == Shown(st) - FinishedGhosts(st, now)
    ensures forall s :: s in UpdateGhosts(st, now).ghosts <==> Fades(st, s, now)
    ensures forall s :: s in UpdateGhosts(st, now).ghosts ==> UpdateGhosts(st, now).ghosts[s] == st.ghosts[s]
    ensures UpdateGhosts(st, now).connected == st.connected
  {
  }

  /** The session is a ghost whose fade began less than 0.4 seconds ago. */
  predicate Fades(st: Display, s: string, now: int) {
    s in st.ghosts && now < st.ghosts[s].despawnStarted + 400
  }

  // ---- the life of a ghost ----

  datatype DisplayStep = Handles(message: Message, readings: Readings) | SweepsGhosts(now: int)

  function DisplayAfter(st: Display, s: DisplayStep): Display {
    match s
    case Handles(m, readings) => HandleMessage(st, m, readings.now, readings.despawnAt)
    case SweepsGhosts(now) => UpdateGhosts(st, now)
  }

  function DisplayRun(st: Display, steps: seq<DisplayStep>): Display {
    if steps == [] then st else DisplayAfter(DisplayRun(st, steps[..|steps| - 1]), steps[|steps| - 1])
  }

  /** The step brings the session back. */
  predicate Resurrects(s: DisplayStep, sid: string) {
    s.Handles? &&
    match s.message
    case Snapshot(snap) => sid in snap
    case Upsert(id, _) => id == sid && sid != ""
    case _ => false
  }

  predicate SweepsAt(s: DisplayStep, from: int) {
    s.SweepsGhosts? && s.now >= from
  }

  lemma GhostAfterStep(st: Display, s: DisplayStep, sid: string)
    requires Tidy(st) && !Resurrects(s, sid) && sid !in st.agents
    ensures var st' := DisplayAfter(st, s);
            && Tidy(st') && sid !in st'.agents
            && (sid in st'.ghosts <==> sid in st.ghosts && !SweepsAt(s, st.ghosts[sid].despawnStarted + 400))
            && (sid in st'.ghosts ==> st'.ghosts[sid] == st.ghosts[sid])
  {
    match s
    case Handles(m, readings) =>
      MessageKeepsTidy(st, m, readings.now, readings.despawnAt);
      if m.Snapshot? { SnapshotReplacesAgents(st, m.agents, readings.now, readings.despawnAt); }
    case SweepsGhosts(now) => GhostSweepKeepsTidy(st, now);
  }

  /** Over any run that does not bring it back, a ghost stays on show, and so at its desk, unchanged, until
      the first sweep at least 0.4 seconds after its fade began, and is gone from then on. */
  lemma {:induction false} GhostStaysUntilFaded(st: Display, steps: seq<DisplayStep>, sid: string)
    requires Tidy(st) && sid in st.ghosts
    requires forall i :: 0 <= i < |steps| ==> !Resurrects(steps[i], sid)
    ensures var st' := DisplayRun(st, steps);
            && Tidy(st') && sid !in st'.agents
            && (sid in st'.ghosts <==>
                  forall i :: 0 <= i < |steps| ==> !SweepsAt(steps[i], st.ghosts[sid].despawnStarted + 400))
            && (sid in st'.ghosts ==> st'.ghosts[sid] == st.ghosts[sid])
  {
    if steps != [] {
      var p, s := steps[..|steps| - 1], steps[|steps| - 1];
      GhostStaysUntilFaded(st, p, sid);
      GhostAfterStep(DisplayRun(st, p), s, sid);
      assert forall i :: 0 <= i < |p| ==> p[i] == steps[i];
    }
  }

  // ---- timers ----

  predicate SameTimer(before: map<string, int>, after: map<string, int>, s: string) {
    (s in before <==> s in after) && (s in before ==> after[s] == before[s])
  }

  predicate Asks(agents: Replica, s: string) {
    s in agents && agents[s].state == Asking
  }

  /** A session on show after a message: its spawn timer starts iff it was not on show before, its flash
      timer iff it asks and did not before; a running timer is never restarted. */
  ghost predicate TimersOf(st: Display, st': Display, now: int, s: string) {
    SpawnTimerOf(st, st'.spawnStarted, now, s) && AskTimerOf(st, Asks(st'.agents, s), st'.askingSince, now, s)
  }

  predicate SpawnTimerOf(st: Display, spawnStarted: map<string, int>, now: int, s: string) {
    if s in Shown(st) then SameTimer(st.spawnStarted, spawnStarted, s)
    else s in spawnStarted && spawnStarted[s] == now
  }

  predicate AskTimerOf(st: Display, asks: bool, askingSince: map<string, int>, now: int, s: string) {
    if asks && !Asks(st.agents, s) then s in askingSince && askingSince[s] == now
    else SameTimer(st.askingSince, askingSince, s)
  }

  lemma UpsertTimes(st: Display, sid: string, agent: Wire, now: int, s: string)
    requires Tidy(st) && s in UpsertAgent(st, sid, agent, now).agents
    ensures TimersOf(st, UpsertAgent(st, sid, agent, now), now, s)
  {
  }

  lemma DespawnTimes(st: Display, sid: string, started: int, now: int, s: string)
    requires Tidy(st) && s in StartDespawn(st, sid, started).agents
    ensures TimersOf(st, StartDespawn(st, sid, started), now, s)
  {
  }

  lemma SnapshotSpawnTime(st: Display, snap: Replica, now: int, clock: string -> int, s: string)
    requires Tidy(st) && s in snap
    ensures SpawnTimerOf(st, ApplySnapshot(st, snap, now, clock).spawnStarted, now, s)
  {
    var m := Merged(st, snap, {}, now);
    assert SpawnTimerOf(st, m.spawnStarted, now, s);
    assert SameTimer(m.spawnStarted, ApplySnapshot(st, snap, now, clock).spawnStarted, s);
  }

  lemma SnapshotAskTime(st: Display, snap: Replica, now: int, clock: string -> int, s: string)
    requires Tidy(st) && s in snap
    ensures AskTimerOf(st, snap[s].state == Asking, ApplySnapshot(st, snap, now, clock).askingSince, now, s)
  {
    var m := Merged(st, snap, {}, now);
    assert s in Askers(st, snap, {}) <==> StartsAsking(st.agents, s, snap[s]);
    assert AskTimerOf(st, snap[s].state == Asking, m.askingSince, now, s);
    assert SameTimer(m.askingSince, ApplySnapshot(st, snap, now, clock).askingSince, s);
  }

  lemma SnapshotTimes(st: Display, snap: Replica, now: int, clock: string -> int, s: string)
    requires Tidy(st) && s in snap
    ensures TimersOf(st, ApplySnapshot(st, snap, now, clock), now, s)
  {
    SnapshotAgents(st, snap, now, clock);
    SnapshotSpawnTime(st, snap, now, clock, s);
    SnapshotAskTime(st, snap, now, clock, s);
  }

  /** What a message does to the timers and the connection light. */
  lemma MessageSetsTimers(st: Display, m: Message, now: int, clock: string -> int)
    requires Tidy(st)
    ensures var st' := HandleMessage(st, m, now, clock);
            && (forall s :: s in st'.agents ==> TimersOf(st, st', now, s))
            && st'.connected == if m.ConnStatus? then m.connected else st.connected
  {
    var st' := HandleMessage(st, m, now, clock);
    DisplayFollowsReplica(st, m, now, clock);
    forall s | s in st'.agents ensures TimersOf(st, st', now, s) {
      match m
      case Upsert(sid, agent) => if sid != "" { UpsertTimes(st, sid, agent, now, s); }
      case Remove(sid) => if sid != "" { DespawnTimes(st, sid, clock(sid), now, s); }
      case Snapshot(snap) => SnapshotTimes(st, snap, now, clock, s);
      case ConnStatus(_) =>
    }
  }

  /** A removed session becomes a ghost as it last was, fading from the moment of its removal. */
  lemma RemovalStartsFade(st: Display, sid: string, now: int, clock: string -> int)
    requires sid in st.agents && sid != ""
    ensures var st' := HandleMessage(st, Remove(sid), now, clock);
            sid !in st'.agents && sid in st'.ghosts && st'.ghosts[sid] == Ghost(st.agents[sid], clock(sid))
  {
  }

  // ---- the connection light ----

  /** What the light shows once the queue is drained: its last connection notice, if it holds any. */
  function LightAfter(light: bool, queue: seq<Message>): bool {
    if queue == [] then light
    else
      var m := queue[|queue| - 1];
      if m.ConnStatus? then m.connected else LightAfter(light, queue[..|queue| - 1])
  }

  lemma {:induction false} QueueSetsLight(st: Display, queue: seq<Message>, clocks: seq<Readings>)
    requires Tidy(st) && |clocks| == |queue|
    ensures HandleQueue(st, queue, clocks).connected == LightAfter(st.connected, queue)
  {
    if queue != [] {
      var n := |queue| - 1;
      QueueSetsLight(st, queue[..n], clocks[..n]);
      QueueFollowsReplica(st, queue[..n], clocks[..n]);
      MessageSetsTimers(HandleQueue(st, queue[..n], clocks[..n]), queue[n], clocks[n].now, clocks[n].despawnAt);
    }
  }

  /** No connection notice among the messages: so it is with all that comes from the daemon. */
  ghost predicate Plain(ms: seq<Message>) {
    forall i :: 0 <= i < |ms| ==> !ms[i].ConnStatus?
  }

  lemma {:induction false} PlainKeepsLight(light: bool, queue: seq<Message>, ms: seq<Message>)
    requires Plain(ms)
    ensures LightAfter(light, queue + ms) == LightAfter(light, queue)
  {
    if ms == [] {
      assert queue + ms == queue;
    } else {
      var n := |ms| - 1;
      assert (queue + ms)[..|queue + ms| - 1] == queue + ms[..n];
      PlainKeepsLight(light, queue, ms[..n]);
    }
  }

  lemma NoticeSetsLight(light: bool, queue: seq<Message>, connected: bool)
    ensures LightAfter(light, queue + [ConnStatus(connected)]) == connected
  {
  }

  /** Until drawing retires them, every agent that is asking has a flash timer. */
  ghost predicate AskersAreTimed(st: Display) {
    forall s :: s in st.agents && st.agents[s].state == Asking ==> s in st.askingSince
  }

  lemma MessageKeepsAskersTimed(st: Display, m: Message, now: int, clock: string -> int)
    requires Tidy(st) && AskersAreTimed(st)
    ensures AskersAreTimed(HandleMessage(st, m, now, clock))
  {
    if m.Snapshot? { SnapshotReplacesAgents(st, m.agents, now, clock); }
  }

  // ---- draining the queue ----

  /** The clock readings taken while one message is handled. */
  datatype Readings = Readings(now: int, despawnAt: string -> int)

  function HandleQueue(st: Display, queue: seq<Message>, clocks: seq<Readings>): Display
    requires |clocks| == |queue|
  {
    if queue == [] then st
    else
      var n := |queue| - 1;
      HandleMessage(HandleQueue(st, queue[..n], clocks[..n]), queue[n], clocks[n].now, clocks[n].despawnAt)
  }

  lemma HandleOneMore(st: Display, queue: seq<Message>, clocks: seq<Readings>, k: nat)
    requires |clocks| == |queue| && k < |queue|
    ensures HandleQueue(st, queue[..k + 1], clocks[..k + 1])
            == HandleMessage(HandleQueue(st, queue[..k], clocks[..k]), queue[k], clocks[k].now, clocks[k].despawnAt)
  {
    assert queue[..k + 1][..k] == queue[..k] && clocks[..k + 1][..k] == clocks[..k];
  }

  lemma {:induction false} QueueFollowsReplica(st: Display, queue: seq<Message>, clocks: seq<Readings>)
    requires Tidy(st) && |clocks| == |queue|
    ensures Tidy(HandleQueue(st, queue, clocks))
    ensures HandleQueue(st, queue, clocks).agents == HandleAll(st.agents, queue)
  {
    if queue != [] {
      var n := |queue| - 1;
      QueueFollowsReplica(st, queue[..n], clocks[..n]);
      var before := HandleQueue(st, queue[..n], clocks[..n]);
      MessageKeepsTidy(before, queue[n], clocks[n].now, clocks[n].despawnAt);
      DisplayFollowsReplica(before, queue[n], clocks[n].now, clocks[n].despawnAt);
    }
  }

  // ---- the application object ----

  /** Every desk of `before` is still held, in the same slot. */
  ghost predicate Extends(before: map<string, nat>, after: map<string, nat>) {
    forall s :: s in before ==> s in after && after[s] == before[s]
  }

  lemma ExtendsTransitive(a: map<string, nat>, b: map<string, nat>, c: map<string, nat>)
    requires Extends(a, b) && Extends(b, c)
    ensures Extends(a, c)
  {
  }

  class App {
    const layout: Layout
    var agents: Replica
    var ghosts: map<string, Ghost>
    var spawnStarted: map<string, int>
    var askingSince: map<string, int>
    var connected: bool
    var queue: seq<Message>

    ghost function State(): Display
      reads this
    {
      Display(agents, ghosts, spawnStarted, askingSince, connected)
    }

    /** Every live agent and every ghost has a desk of its own, and nobody else has one. */
    ghost predicate Valid()
      reads this, layout
    {
      Tidy(State()) && layout.Valid() && layout.slotOfSession.Keys == Shown(State())
    }

    constructor ()
      ensures Valid() && State() == Display(map[], map[], map[], map[], false) && queue == [] && fresh(layout)
    {
      layout := new Layout();
      agents, ghosts, spawnStarted, askingSince, connected, queue := map[], map[], map[], map[], false, [];
    }

    method SyncLayout()
      requires Tidy(State()) && layout.Valid()
      modifies layout
      ensures Valid() && State() == old(State()) && queue == old(queue)
      ensures old(layout.slotOfSession).Keys <= Shown(State()) ==>
                Extends(old(layout.slotOfSession), layout.slotOfSession)
      ensures Shown(State()) <= old(layout.slotOfSession).Keys ==>
                Extends(layout.slotOfSession, old(layout.slotOfSession))
      ensures layout.nextSlot == Max(old(layout.nextSlot), |Shown(State())|)
    {
      layout.Sync(agents.Keys + ghosts.Keys);
    }

    /** The layout is still that of the sessions shown before, who are all shown still. */
    ghost predicate Outdated(before: set<string>)
      reads this, layout
    {
      Tidy(State()) && layout.Valid() && layout.slotOfSession.Keys == before <= Shown(State())
    }

    /** Laying out again then moves no desk. */
    method Resync(ghost before: set<string>)
      requires Outdated(before)
      modifies layout
      ensures Valid() && State() == old(State()) && queue == old(queue)
      ensures Extends(old(layout.slotOfSession), layout.slotOfSession)
    {
      SyncLayout();
    }

    method Upsert(sid: string, agent: Wire, now: int)
      requires Valid()
      modifies this, layout
      ensures Valid() && queue == old(queue)
      ensures State() == UpsertAgent(old(State()), sid, agent, now)
      ensures Extends(old(layout.slotOfSession), layout.slotOfSession)
    {
      UpsertIsTidy(State(), sid, agent, now);
      UpsertFields(sid, agent, now);
      Resync(old(Shown(State())));
    }

    method UpsertFields(sid: string, agent: Wire, now: int)
      modifies this`agents, this`ghosts, this`spawnStarted, this`askingSince
      ensures State() == UpsertAgent(old(State()), sid, agent, now)
    {
      var isNew := sid !in agents && sid !in ghosts;
      ghosts := ghosts - {sid};
      var wasAsking := sid in agents && agents[sid].state == Asking;
      agents := agents[sid := agent];
      if isNew { spawnStarted := spawnStarted[sid := now]; }
      if agent.state == Asking && !wasAsking { askingSince := askingSince[sid := now]; }
    }

    method Despawn(sid: string, now: int)
      requires Valid()
      modifies this, layout
      ensures Valid() && queue == old(queue)
      ensures State() == StartDespawn(old(State()), sid, now)
      ensures Extends(old(layout.slotOfSession), layout.slotOfSession)
    {
      if sid in agents {
        StartFading(sid, now);
        Resync(old(Shown(State())));
      }
    }

    method StartFading(sid: string, now: int)
      requires Valid() && sid in agents
      modifies this`agents, this`ghosts, this`spawnStarted, this`askingSince
      ensures State() == StartDespawn(old(State()), sid, now) && Outdated(old(Shown(State())))
      ensures layout.slotOfSession == old(layout.slotOfSession)
    {
      DespawnIsTidy(State(), sid, now);
      DespawnFields(sid, now);
    }

    method DespawnFields(sid: string, now: int)
      requires sid in agents
      modifies this`agents, this`ghosts, this`spawnStarted, this`askingSince
      ensures State() == StartDespawn(old(State()), sid, now)
    {
      var agent := agents[sid];
      agents := agents - {sid};
      ghosts := ghosts[sid := Ghost(agent, now)];
      spawnStarted := spawnStarted - {sid};
      askingSince := askingSince - {sid};
    }

    /** One message. No desk already in use moves, whatever the message. */
    method Receive(m: Message, now: int, clock: string -> int)
      requires Valid()
      modifies this, layout
      ensures Valid() && queue == old(queue)
      ensures State() == HandleMessage(old(State()), m, now, clock)
      ensures Extends(old(layout.slotOfSession), layout.slotOfSession)
    {
      match m {
        case ConnStatus(c) => connected := c;
        case Snapshot(snap) => ReceiveSnapshot(snap, now, clock);
        case Upsert(sid, agent) => if sid != "" { Upsert(sid, agent, now); }
        case Remove(sid) => if sid != "" { Despawn(sid, clock(sid)); }
      }
    }

    method ReceiveSnapshot(snap: Replica, now: int, clock: string -> int)
      requires Valid()
      modifies this, layout
      ensures Valid() && queue == old(queue)
      ensures State() == ApplySnapshot(old(State()), snap, now, clock)
      ensures Extends(old(layout.slotOfSession), layout.slotOfSession)
    {
      ghost var st, desks := State(), layout.slotOfSession;
      MergeSnapshot(snap, now);
      ghost var mid := layout.slotOfSession;
      FadeMissing(snap.Keys, clock);
      ExtendsTransitive(desks, mid, layout.slotOfSession);
    }

    /** Upserts every agent of the snapshot, in any order. */
    method MergeSnapshot(snap: Replica, now: int)
      requires Valid()
      modifies this, layout
      ensures Valid() && queue == old(queue)
      ensures State() == Merged(old(State()), snap, {}, now)
      ensures Extends(old(layout.slotOfSession), layout.slotOfSession)
    {
      ghost var st, desks, q := State(), layout.slotOfSession, queue;
      var todo := snap.Keys;
      MergeNothing(st, snap, now);
      while todo != {}
        invariant Valid() && queue == q && todo <= snap.Keys
        invariant State() == Merged(st, snap, todo, now)
        invariant Extends(desks, layout.slotOfSession)
        decreases todo
      {
        var sid :| sid in todo;
        MergeOneMore(st, snap, todo, sid, now);
        ghost var mid := layout.slotOfSession;
        Upsert(sid, snap[sid], now);
        ExtendsTransitive(desks, mid, layout.slotOfSession);
        todo := todo - {sid};
      }
    }

    /** Despawns every agent not in `keep`, in any order. */
    method FadeMissing(keep: set<string>, clock: string -> int)
      requires Valid()
      modifies this, layout
      ensures Valid() && queue == old(queue)
      ensures State() == Faded(old(State()), keep, clock)
      ensures Extends(old(layout.slotOfSession), layout.slotOfSession)
    {
      ghost var st, desks, q := State(), layout.slotOfSession, queue;
      var todo := agents.Keys - keep;
      FadeStart(st, keep, clock);
      while todo != {}
        invariant Valid() && queue == q && todo <= st.agents.Keys && todo !! keep
        invariant State() == FadedBut(st, keep, todo, clock)
        invariant Extends(desks, layout.slotOfSession)
        decreases todo
      {
        var sid :| sid in todo;
        FadeNext(st, keep, todo, sid, clock);
        ghost var mid := layout.slotOfSession;
        Despawn(sid, clock(sid));
        ExtendsTransitive(desks, mid, layout.slotOfSession);
        todo := todo - {sid};
      }
      FadeEnd(st, keep, clock);
    }

    method DrainQueue(clocks: seq<Readings>)
      requires Valid() && |clocks| == |queue|
      modifies this, layout
      ensures Valid() && queue == []
      ensures State() == HandleQueue(old(State()), old(queue), clocks)
      ensures Extends(old(layout.slotOfSession), layout.slotOfSession)
    {
      ghost var st, desks, all := State(), layout.slotOfSession, queue;
      ghost var k := 0;
      var left := clocks;
      while queue != []
        invariant Valid() && k <= |all| && queue == all[k..] && left == clocks[k..]
        invariant State() == HandleQueue(st, all[..k], clocks[..k])
        invariant Extends(desks, layout.slotOfSession)
        decreases |queue|
      {
        var reading := left[0];
        left := left[1..];
        HandleOneMore(st, all, clocks, k);
        ghost var mid := layout.slotOfSession;
        ReceiveNext(reading);
        ExtendsTransitive(desks, mid, layout.slotOfSession);
        k := k + 1;
      }
      assert all[..k] == all && clocks[..k] == clocks;
    }

    method ReceiveNext(reading: Readings)
      requires Valid() && queue != []
      modifies this, layout
      ensures Valid() && queue == old(queue)[1..]
      ensures State() == HandleMessage(old(State()), old(queue)[0], reading.now, reading.despawnAt)
      ensures Extends(old(layout.slotOfSession), layout.slotOfSession)
    {
      var m := queue[0];
      queue := queue[1..];
      Receive(m, reading.now, reading.despawnAt);
    }

    /** Drops the ghosts whose fade is over and frees exactly their desks. */
    method SweepGhosts(now: int)
      requires Valid()
      modifies this, layout
      ensures Valid() && queue == old(queue)
      ensures State() == UpdateGhosts(old(State()), now)
      ensures Extends(layout.slotOfSession, old(layout.slotOfSession))
      ensures forall s :: s in layout.slotOfSession <==> s in old(agents) || Fades(old(State()), s, now)
    {
      GhostSweepKeepsTidy(State(), now);
      var any := RetireGhosts(now);
      if any { SyncLayout(); }
    }

    method RetireGhosts(now: int) returns (any: bool)
      modifies this`ghosts
      ensures State() == UpdateGhosts(old(State()), now)
      ensures !any ==> State() == old(State())
    {
      var finished := set s | s in ghosts && Expired(ghosts[s], now);
      any := finished != {};
      ghosts := ghosts - finished;
      assert !any ==> ghosts == old(ghosts);
    }
  }
}
