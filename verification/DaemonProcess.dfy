/** The daemon's objects, proved against the step system of module Broadcast
    (daemon/broadcaster.py, daemon/main.py, daemon/reaper.py). Which writes fail is up to the environment. */
module DaemonProcess {
  import opened Schema
  import opened StateMachine
  import opened Registry
  import opened DeskLayout
  import opened Broadcast

  /** One connection's stream, as the messages written to it. */
  class StreamWriter {
    var sent: seq<Message>

    constructor ()
      ensures sent == []
    {
      sent := [];
    }
  }

  /** `Written` to all targets but those in `todo`. */
  function WrittenBut<Cid>(
    sent: map<Cid, seq<Message>>, targets: set<Cid>, todo: set<Cid>, m: Message): map<Cid, seq<Message>>
  {
    map c | c in sent :: if c in targets && c !in todo then sent[c] + [m] else sent[c]
  }

  lemma WriteOneMore<Cid>(sent: map<Cid, seq<Message>>, targets: set<Cid>, todo: set<Cid>, m: Message, c: Cid)
    requires c in sent && c in todo
    ensures WrittenBut(sent, targets, todo, m)[c] == sent[c]
    ensures WrittenBut(sent, targets, todo - {c}, m) ==
              if c in targets then WrittenBut(sent, targets, todo, m)[c := sent[c] + [m]]
              else WrittenBut(sent, targets, todo, m)
  {
  }

  /** The failing writes of a series of broadcasts, as a list. */
  function Failures<Cid>(n: nat, fails: nat -> set<Cid>): seq<set<Cid>> {
    seq(n, i requires 0 <= i < n => fails(i))
  }

  class Broadcaster {
    var clients: set<StreamWriter>
    ghost var streams: map<StreamWriter, seq<Message>>  // every connection ever accepted

    ghost predicate Tracked()
      reads this, streams.Keys
    {
      clients <= streams.Keys && forall w :: w in streams ==> w.sent == streams[w]
    }

    constructor ()
      ensures Tracked() && clients == {} && streams == map[]
    {
      clients, streams := {}, map[];
    }

    /** A write either appends the whole frame or reports a dead socket. */
    method Write(w: StreamWriter, m: Message, alive: bool) returns (ok: bool)
      requires Tracked() && w in streams
      modifies this`streams, w
      ensures Tracked() && ok == alive
      ensures streams == if alive then old(streams)[w := old(streams)[w] + [m]] else old(streams)
    {
      if alive {
        w.sent := w.sent + [m];
        streams := streams[w := w.sent];
      }
      return alive;
    }

    /** To each client once, in any order; the ones whose write failed are dropped afterwards. */
    method Send(m: Message, fails: set<StreamWriter>)
      requires Tracked()
      modifies this, streams.Keys
      ensures Tracked() && clients == old(clients) - fails
      ensures streams == Written(old(streams), old(clients) - fails, m)
    {
      ghost var before := streams;
      var dead: set<StreamWriter> := {};
      var todo := clients;
      assert streams == WrittenBut(before, clients - fails, todo, m);
      while todo != {}
        invariant todo <= clients == old(clients) && Tracked() && streams.Keys == before.Keys
        invariant streams == WrittenBut(before, clients - fails, todo, m)
        invariant forall w :: w in dead <==> w in clients && w in fails && w !in todo
        decreases todo
      {
        var w :| w in todo;
        WriteOneMore(before, clients - fails, todo, m, w);
        var ok := Write(w, m, w !in fails);
        if !ok { dead := dead + {w}; }
        todo := todo - {w};
      }
      clients := clients - dead;
    }

    /** The broadcast entry points do nothing when nobody is connected, which comes to the same. */
    method Broadcast(m: Message, fails: set<StreamWriter>)
      requires Tracked()
      modifies this, streams.Keys
      ensures Tracked() && clients == old(clients) - fails && streams.Keys == old(streams.Keys)
      ensures streams == Written(old(streams), old(clients) - fails, m)
    {
      if clients == {} {
        assert clients - fails == {} && Written(streams, {}, m) == streams;
        return;
      }
      Send(m, fails);
    }

    /** A new connection is registered before its greeting is written, and stays so if the write fails. */
    method HandleClient(w: StreamWriter, greeting: Message, written: bool)
      requires Tracked() && w !in streams && w.sent == []
      modifies this, w
      ensures Tracked() && clients == old(clients) + {w}
      ensures streams == old(streams)[w := if written then [greeting] else []]
    {
      streams := streams[w := []];
      clients := clients + {w};
      var _ := Write(w, greeting, written);
      assert [] + [greeting] == [greeting];
    }

    /** The reaper's removals, one broadcast each; `fails(k)` are the writes that fail for the k-th. */
    method SendRemovals(order: seq<string>, fails: nat -> set<StreamWriter>, ghost d: Daemon<AgentRecord, StreamWriter>)
      requires Tracked() && d.clients == clients && d.sent == streams
      modifies this, streams.Keys
      ensures Tracked()
      ensures clients == DeliverAll(d, Removals(order), Failures(|order|, fails)).clients
      ensures streams == DeliverAll(d, Removals(order), Failures(|order|, fails)).sent
    {
      ghost var all := Failures(|order|, fails);
      var k := 0;
      while k < |order|
        invariant 0 <= k <= |order|
        invariant Tracked() && streams.Keys == d.sent.Keys
        invariant clients == DeliverAll(d, Removals(order)[..k], all[..k]).clients
        invariant streams == DeliverAll(d, Removals(order)[..k], all[..k]).sent
      {
        RemovalsOneMore(d, order, all, k);
        assert all[k] == fails(k);
        Broadcast(Remove(order[k]), fails(k));
        k := k + 1;
      }
      assert Removals(order)[..k] == Removals(order) && all[..k] == all;
    }
  }

  /** What `on_event` schedules for the outcome of an event. */
  function Diffs(sid: string, record: AgentRecord?, op: Op): seq<Task<AgentRecord>> {
    if op == OpNoop then [] else [Diff(sid, record)]
  }

  function Diff(sid: string, record: AgentRecord?): Task<AgentRecord> {
    if record == null then PendingRemove(sid) else var r: AgentRecord := record; PendingUpsert(sid, r)
  }

  lemma EventIsScheduled(d: Daemon<AgentRecord, StreamWriter>, store: Store<AgentRecord>, e: HookEvent, now: int,
                         files: Files, record: AgentRecord?, op: Op)
    requires Ready(d) && WellFormed(store) && op == OpFor(e.sessionId in d.store.agents, e)
    requires record == null <==> op == OpRemove
    requires record != null ==> e.sessionId in store.agents && store.agents[e.sessionId] == record
    requires e.sessionId in d.store.agents ==> store == KnownEvent(d.store, e, now, files)
    requires e.sessionId !in d.store.agents && record != null ==>
               record !in d.store.heap && store == NewEvent(d.store, e, now, files, record)
    requires e.sessionId !in d.store.agents && record == null ==> store == d.store
    ensures var d' := d.(store := store, pending := d.pending + Diffs(e.sessionId, record, op));
            && Ready(d')
            && (e.sessionId in d.store.agents ==> d' == EventScheduled(d, e, now, files, d.store.agents[e.sessionId]))
            && (e.sessionId !in d.store.agents && record != null ==> d' == EventScheduled(d, e, now, files, record))
            && (e.sessionId !in d.store.agents && record == null ==>
                  d' == d.(pending := d.pending + [PendingRemove(e.sessionId)]))
  {
    if e.sessionId in d.store.agents {
      EventKeepsReady(d, e, now, files, d.store.agents[e.sessionId]);
    } else if record != null {
      EventKeepsReady(d, e, now, files, record);
    }
  }

  class DaemonProcess {
    const registry: SessionRegistry
    const broadcaster: Broadcaster
    var pending: seq<Task<AgentRecord>>  // broadcast coroutines created but not yet started

    ghost function View(): Daemon<AgentRecord, StreamWriter>
      reads this, registry, broadcaster
    {
      Daemon(registry.State(), pending, broadcaster.clients, broadcaster.streams)
    }

    ghost predicate Valid()
      reads this, registry, registry.heap.Keys, broadcaster, broadcaster.streams.Keys
    {
      registry.Tracked() && broadcaster.Tracked() && Ready(View())
    }

    /** Cold start: the live sessions found on disk, nothing pending, nobody connected. */
    constructor (files: seq<FileEntry>, now: int)
      ensures Valid() && Initial(View()) && Values(View().store) == Seeded(files, now)
      ensures fresh(registry) && fresh(broadcaster) && fresh(registry.heap.Keys)
    {
      registry := new SessionRegistry();
      broadcaster := new Broadcaster();
      pending := [];
      new;
      registry.ColdStart(files, now);
    }

    /** One datagram: the registry changes at once, the broadcast is only scheduled. */
    method OnEvent(e: HookEvent, now: int, files: Files) returns (record: AgentRecord?)
      requires Valid()
      modifies this, registry, registry.heap.Keys
      ensures Valid() && fresh(registry.heap.Keys - old(registry.heap.Keys))
      ensures e.sessionId in old(View()).store.agents ==>
                View() == EventScheduled(old(View()), e, now, files, old(View()).store.agents[e.sessionId])
      ensures e.sessionId !in old(View()).store.agents && record != null ==>
                record !in old(View()).store.heap && View() == EventScheduled(old(View()), e, now, files, record)
      ensures e.sessionId !in old(View()).store.agents && record == null ==>
                View() == old(View()).(pending := old(pending) + [PendingRemove(e.sessionId)])
    {
      ghost var d := View();
      var op;
      record, op := ApplyToRegistry(e, now, files);
      ghost var store := registry.State();
      if op != OpNoop {
        Schedule(Diff(e.sessionId, record));
      }
      assert View() == d.(store := store, pending := d.pending + Diffs(e.sessionId, record, op));
      EventIsScheduled(d, store, e, now, files, record, op);
    }

    method Schedule(task: Task<AgentRecord>)
      requires registry.Tracked() && broadcaster.Tracked()
      modifies this
      ensures registry.Tracked() && broadcaster.Tracked()
      ensures View() == old(View()).(pending := old(pending) + [task])
    {
      pending := pending + [task];
    }

    /** The registry's part of an event; the connections are not involved. */
    method ApplyToRegistry(e: HookEvent, now: int, files: Files) returns (record: AgentRecord?, op: Op)
      requires Valid()
      modifies registry, registry.heap.Keys
      ensures registry.Valid() && broadcaster.Tracked() && fresh(registry.heap.Keys - old(registry.heap.Keys))
      ensures View() == old(View()).(store := registry.State())
      ensures op == OpFor(e.sessionId in old(View()).store.agents, e)
      ensures record == null <==> op == OpRemove
      ensures record != null ==> e.sessionId in View().store.agents && View().store.agents[e.sessionId] == record
      ensures e.sessionId in old(View()).store.agents ==> View().store == KnownEvent(old(View()).store, e, now, files)
      ensures e.sessionId !in old(View()).store.agents && record != null ==>
                record !in old(View()).store.heap && View().store == NewEvent(old(View()).store, e, now, files, record)
      ensures e.sessionId !in old(View()).store.agents && record == null ==> View().store == old(View()).store
    {
      record, op := registry.ApplyEvent(e, now, files);
    }

    /** The oldest pending broadcast runs, its message built from the record as it is now. */
    method RunNext(fails: set<StreamWriter>)
      requires Valid() && pending != []
      modifies this, broadcaster, broadcaster.streams.Keys
      ensures Valid() && View() == After(old(View()), RunTask(fails))
    {
      ghost var d := View();
      var message := MakeDiff(pending[0]);
      pending := pending[1..];
      broadcaster.Broadcast(message, fails);
      StepKeepsReady(d, RunTask(fails));
    }

    /** The message for a task, from the record as it is at this moment. */
    method MakeDiff(task: Task<AgentRecord>) returns (m: Message)
      requires Valid() && task in pending
      ensures Serialisable(registry.heap, task) && m == Serialise(registry.heap, task)
    {
      assert Serialisable(View().store.heap, task);
      match task
      case PendingUpsert(sid, r) => m := Upsert(sid, r.Value().ToWire());
      case PendingRemove(sid) => m := Remove(sid);
    }

    method SendSnapshot(fails: set<StreamWriter>)
      requires Valid()
      modifies broadcaster, broadcaster.streams.Keys
      ensures Valid() && View() == After(old(View()), Tick(fails))
    {
      var message := CurrentSnapshot();
      broadcaster.Broadcast(message, fails);
    }

    method CurrentSnapshot() returns (m: Message)
      requires Valid()
      ensures m == SnapshotOf(registry.State())
    {
      var wires := map sid | sid in registry.agents :: registry.agents[sid].Value().ToWire();
      ghost var s := registry.State();
      assert forall sid :: sid in s.agents ==> wires[sid] == s.heap[s.agents[sid]].ToWire();
      m := Snapshot(wires);
    }

    /** A new connection, greeted with a snapshot of the moment. */
    method Accept(w: StreamWriter, written: bool)
      requires Valid() && w !in broadcaster.streams && w.sent == []
      modifies broadcaster, w
      ensures Valid() && View() == After(old(View()), Connect(w, written))
      ensures broadcaster.clients == old(broadcaster.clients) + {w}
    {
      var greeting := CurrentSnapshot();
      broadcaster.HandleClient(w, greeting, written);
    }

    method Disconnect(w: StreamWriter)
      requires Valid()
      modifies broadcaster
      ensures Valid() && View() == After(old(View()), Drop(w))
    {
      broadcaster.clients := broadcaster.clients - {w};
    }

    /** One reaper iteration: identities retried, the dead removed, each removal broadcast directly,
        ahead of whatever is pending. `fails(k)` are the writes that fail for the k-th removal. */
    method ReaperIteration(files: Files, alive: set<string>, fails: nat -> set<StreamWriter>)
      returns (dead: seq<string>)
      requires Valid()
      modifies registry, registry.heap.Keys, broadcaster, broadcaster.streams.Keys
      ensures Valid() && Possible(old(View()), Sweep(files, alive, dead, Failures(|dead|, fails)))
      ensures View() == After(old(View()), Sweep(files, alive, dead, Failures(|dead|, fails)))
    {
      ghost var d := View();
      dead := SweepRegistry(files, alive);
      AnnounceRemovals(dead, fails);
      ghost var s: DaemonStep<AgentRecord, StreamWriter> := Sweep(files, alive, dead, Failures(|dead|, fails));
      SweepIsReady(d, s);
    }

    method AnnounceRemovals(dead: seq<string>, fails: nat -> set<StreamWriter>)
      requires Valid()
      modifies broadcaster, broadcaster.streams.Keys
      ensures Valid() && View() == DeliverAll(old(View()), Removals(dead), Failures(|dead|, fails))
    {
      ghost var d := View();
      broadcaster.SendRemovals(dead, fails, d);
      DeliverAllKeeps(d, Removals(dead), Failures(|dead|, fails));
    }

    method SweepRegistry(files: Files, alive: set<string>) returns (dead: seq<string>)
      requires Valid()
      modifies registry, registry.heap.Keys
      ensures Valid() && View() == old(View()).(store := SweptStore(old(View()).store, files, alive))
      ensures Enumerates(dead, Reaped(old(View()).store, files, alive))
      ensures registry.heap.Keys == old(registry.heap.Keys)
    {
      ghost var d := View();
      registry.ResolvePendingIdentities(files);
      dead := registry.ReapDead(alive);
      SweepEffect(d.store, files, alive);
      SweepKeepsReady(d, files, alive);
      assert registry.State() == SweptStore(d.store, files, alive);
    }
  }

  lemma RemovalsOneMore<Ref, Cid>(d: Daemon<Ref, Cid>, order: seq<string>, fails: seq<set<Cid>>, k: nat)
    requires |fails| == |order| && k < |order|
    ensures DeliverAll(d, Removals(order)[..k + 1], fails[..k + 1])
            == Deliver(DeliverAll(d, Removals(order)[..k], fails[..k]), Remove(order[k]), fails[k])
  {
    assert Removals(order)[..k + 1][..k] == Removals(order)[..k] && fails[..k + 1][..k] == fails[..k];
  }
}
