/** A concrete message codec, showing that the hypotheses the framing and agreement theorems place on
    JSON can be met by all daemon messages. Like JSON it is self-delimiting and never emits a newline. */
module WireCodec {
  import opened Schema
  import opened Ipc

  // ---- messages as numbers; `k` is whatever follows ----

  function CharCodes(s: string): seq<nat> {
    seq(|s|, i requires 0 <= i < |s| => s[i] as nat)
  }

  function StringThen(s: string, k: seq<nat>): seq<nat> { [|s|] + CharCodes(s) + k }

  function IntThen(x: int, k: seq<nat>): seq<nat> { if x < 0 then [1, -x] + k else [0, x] + k }

  function PidThen(p: Option<int>, k: seq<nat>): seq<nat> {
    match p case None => [0] + k case Some(x) => [1] + IntThen(x, k)
  }

  function StateThen(s: AgentState, k: seq<nat>): seq<nat> {
    [match s case Idle => 0 case Working => 1 case Asking => 2 case Error => 3] + k
  }

  function WireThen(w: Wire, k: seq<nat>): seq<nat> {
    StringThen(w.sessionId, StringThen(w.projectName, StringThen(w.cwd, PidThen(w.pid, StringThen(w.entrypoint,
      StateThen(w.state, StringThen(w.actionLabel, IntThen(w.stateSince, k))))))))
  }

  ghost function AgentsThen(m: map<string, Wire>, k: seq<nat>): seq<nat>
    decreases |m.Keys|
  {
    if m == map[] then [0] + k
    else
      var sid :| sid in m;
      assert (m - {sid}).Keys == m.Keys - {sid};
      [1] + StringThen(sid, WireThen(m[sid], AgentsThen(m - {sid}, k)))
  }

  ghost function Numbers(m: Message): seq<nat> {
    match m
    case Snapshot(agents) => [0] + AgentsThen(agents, [])
    case Upsert(sid, agent) => [1] + StringThen(sid, WireThen(agent, []))
    case Remove(sid) => [2] + StringThen(sid, [])
    case ConnStatus(c) => [3, if c then 1 else 0]
  }

  // ---- numbers as bytes: tally marks ended by commas ----

  const TALLY: byte := 105
  const COMMA: byte := 44

  function Tally(n: nat): bytes { seq(n, _ => TALLY) }

  function Spell(ns: seq<nat>): bytes {
    if ns == [] then [] else Tally(ns[0]) + [COMMA] + Spell(ns[1..])
  }

  ghost function Encode(m: Message): bytes { Spell(Numbers(m)) }

  ghost function Decode(b: bytes): Option<Message> {
    if exists m :: Encode(m) == b then
      var m :| Encode(m) == b;
      Some(m)
    else None
  }

  ghost function MessageCodec(): Codec<Message> {
    Codec(m => Encode(m), b => Decode(b))
  }

  // ---- injectivity ----

  lemma CutFront(x: nat, k: seq<nat>, y: nat, l: seq<nat>)
    requires [x] + k == [y] + l
    ensures x == y && k == l
  {
    assert ([x] + k)[0] == ([y] + l)[0];
    assert ([x] + k)[1..] == k && ([y] + l)[1..] == l;
  }

  lemma StringInjective(s: string, k: seq<nat>, t: string, l: seq<nat>)
    requires StringThen(s, k) == StringThen(t, l)
    ensures s == t && k == l
  {
    var a, b := StringThen(s, k), StringThen(t, l);
    assert a[0] == b[0];
    forall i | 0 <= i < |s| ensures s[i] == t[i] {
      assert a[i + 1] == s[i] as nat && b[i + 1] == t[i] as nat;
    }
    assert a[|s| + 1..] == k && b[|s| + 1..] == l;
  }

  lemma IntInjective(x: int, k: seq<nat>, y: int, l: seq<nat>)
    requires IntThen(x, k) == IntThen(y, l)
    ensures x == y && k == l
  {
    var a, b := IntThen(x, k), IntThen(y, l);
    assert a[0] == b[0] && a[1] == b[1] && a[2..] == k && b[2..] == l;
  }

  lemma PidInjective(p: Option<int>, k: seq<nat>, q: Option<int>, l: seq<nat>)
    requires PidThen(p, k) == PidThen(q, l)
    ensures p == q && k == l
  {
    CutFront(if p.None? then 0 else 1, if p.None? then k else IntThen(p.value, k),
             if q.None? then 0 else 1, if q.None? then l else IntThen(q.value, l));
    if p.Some? { IntInjective(p.value, k, q.value, l); }
  }

  lemma StateInjective(s: AgentState, k: seq<nat>, t: AgentState, l: seq<nat>)
    requires StateThen(s, k) == StateThen(t, l)
    ensures s == t && k == l
  {
    assert StateThen(s, k)[0] == StateThen(t, l)[0];
    assert StateThen(s, k)[1..] == k && StateThen(t, l)[1..] == l;
  }

  lemma WireInjective(w: Wire, k: seq<nat>, v: Wire, l: seq<nat>)
    requires WireThen(w, k) == WireThen(v, l)
    ensures w == v && k == l
  {
    var k7, l7 := IntThen(w.stateSince, k), IntThen(v.stateSince, l);
    var k6, l6 := StringThen(w.actionLabel, k7), StringThen(v.actionLabel, l7);
    var k5, l5 := StateThen(w.state, k6), StateThen(v.state, l6);
    var k4, l4 := StringThen(w.entrypoint, k5), StringThen(v.entrypoint, l5);
    var k3, l3 := PidThen(w.pid, k4), PidThen(v.pid, l4);
    var k2, l2 := StringThen(w.cwd, k3), StringThen(v.cwd, l3);
    var k1, l1 := StringThen(w.projectName, k2), StringThen(v.projectName, l2);
    StringInjective(w.sessionId, k1, v.sessionId, l1);
    StringInjective(w.projectName, k2, v.projectName, l2);
    StringInjective(w.cwd, k3, v.cwd, l3);
    PidInjective(w.pid, k4, v.pid, l4);
    StringInjective(w.entrypoint, k5, v.entrypoint, l5);
    StateInjective(w.state, k6, v.state, l6);
    StringInjective(w.actionLabel, k7, v.actionLabel, l7);
    IntInjective(w.stateSince, k, v.stateSince, l);
  }

  lemma PutBack<K, V>(m: map<K, V>, k: K)
    requires k in m
    ensures (m - {k})[k := m[k]] == m
  {
  }

  /** The first session listed, and what follows it. */
  lemma AgentsUnfold(m: map<string, Wire>, k: seq<nat>) returns (sid: string)
    requires m != map[]
    ensures sid in m && AgentsThen(m, k) == [1] + StringThen(sid, WireThen(m[sid], AgentsThen(m - {sid}, k)))
    ensures (m - {sid}).Keys < m.Keys
  {
    sid :| sid in m && AgentsThen(m, k) == [1] + StringThen(sid, WireThen(m[sid], AgentsThen(m - {sid}, k)));
  }

  lemma {:induction false} AgentsInjective(m: map<string, Wire>, k: seq<nat>, n: map<string, Wire>, l: seq<nat>)
    requires AgentsThen(m, k) == AgentsThen(n, l)
    ensures m == n && k == l
    decreases m.Keys
  {
    assert AgentsThen(m, k)[0] == AgentsThen(n, l)[0];
    if m == map[] {
      CutFront(0, k, 0, l);
    } else {
      var s := AgentsUnfold(m, k);
      var t := AgentsUnfold(n, l);
      var k1, l1 := WireThen(m[s], AgentsThen(m - {s}, k)), WireThen(n[t], AgentsThen(n - {t}, l));
      CutFront(1, StringThen(s, k1), 1, StringThen(t, l1));
      StringInjective(s, k1, t, l1);
      WireInjective(m[s], AgentsThen(m - {s}, k), n[t], AgentsThen(n - {t}, l));
      AgentsInjective(m - {s}, k, n - {t}, l);
      PutBack(m, s);
      PutBack(n, s);
    }
  }

  lemma NumbersInjective(m: Message, n: Message)
    requires Numbers(m) == Numbers(n)
    ensures m == n
  {
    assert Numbers(m)[0] == Numbers(n)[0];
    match m
    case Snapshot(a) =>
      CutFront(0, AgentsThen(a, []), 0, AgentsThen(n.agents, []));
      AgentsInjective(a, [], n.agents, []);
    case Upsert(s, w) =>
      CutFront(1, StringThen(s, WireThen(w, [])), 1, StringThen(n.sid, WireThen(n.agent, [])));
      StringInjective(s, WireThen(w, []), n.sid, WireThen(n.agent, []));
      WireInjective(w, [], n.agent, []);
    case Remove(s) =>
      CutFront(2, StringThen(s, []), 2, StringThen(n.sid, []));
      StringInjective(s, [], n.sid, []);
    case ConnStatus(_) => assert Numbers(m)[1] == Numbers(n)[1];
  }

  lemma TallyInjective(m: nat, k: bytes, n: nat, l: bytes)
    requires Tally(m) + [COMMA] + k == Tally(n) + [COMMA] + l
    ensures m == n && k == l
  {
    var a, b := Tally(m) + [COMMA] + k, Tally(n) + [COMMA] + l;
    assert a[m] == COMMA && b[n] == COMMA;
    assert forall i :: 0 <= i < m ==> a[i] == TALLY;
    assert forall i :: 0 <= i < n ==> b[i] == TALLY;
    assert !(m < n) && !(n < m);
    assert a[m + 1..] == k && b[n + 1..] == l;
  }

  lemma {:induction false} SpellInjective(a: seq<nat>, b: seq<nat>)
    requires Spell(a) == Spell(b)
    ensures a == b
  {
    if a != [] && b != [] {
      TallyInjective(a[0], Spell(a[1..]), b[0], Spell(b[1..]));
      SpellInjective(a[1..], b[1..]);
      assert a == [a[0]] + a[1..] && b == [b[0]] + b[1..];
    } else {
      assert a != [] ==> |Spell(a)| > 0;
      assert b != [] ==> |Spell(b)| > 0;
    }
  }

  lemma {:induction false} SpellUsesMarksOnly(ns: seq<nat>)
    ensures forall i :: 0 <= i < |Spell(ns)| ==> Spell(ns)[i] == TALLY || Spell(ns)[i] == COMMA
  {
    if ns != [] { SpellUsesMarksOnly(ns[1..]); }
  }

  /** The hypotheses of the framing theorems are satisfiable for every daemon message. */
  lemma MessageCodecIsFaithful()
    ensures Faithful(MessageCodec())
  {
    var c := MessageCodec();
    forall m: Message
      ensures NEWLINE !in c.encode(m) && !Blank(c.encode(m)) && c.decode(c.encode(m)) == Some(m)
    {
      SpellUsesMarksOnly(Numbers(m));
      assert |Numbers(m)| > 0;
      assert |Encode(m)| > 0 && !IsSpace(Encode(m)[0]);
      var n := Decode(Encode(m)).value;
      SpellInjective(Numbers(m), Numbers(n));
      NumbersInjective(m, n);
    }
  }
}
