/** Merging the observer hooks into a settings file (installer/install_hooks.py). Settings are taken
    in the shape the merge expects; any other shape makes the original raise. */
module Installer {
  import opened Schema
  import opened SeqLemmas

  function HookMarker(): string { "claude-vo-emit" }

  datatype Json =
    | JNull | JBool(b: bool) | JNumber(text: string) | JString(s: string)
    | JArray(items: seq<Json>) | JObject(fields: map<string, Json>)

  /** A hook entry: the text of its command, if it has one, and its other attributes. */
  datatype Entry = Entry(command: Option<string>, attrs: map<string, Json>)

  /** A matcher group: its hook list, if it has one, and its other attributes. */
  datatype Group = Group(hooks: Option<seq<Entry>>, attrs: map<string, Json>)

  type Hooks = map<string, seq<Group>>

  datatype Settings = Settings(hooks: Option<Hooks>, other: map<string, Json>)

  predicate OccursAt(text: string, part: string, i: int) {
    0 <= i <= |text| - |part| && text[i..i + |part|] == part
  }

  predicate Contains(text: string, part: string) {
    exists i :: 0 <= i <= |text| && OccursAt(text, part, i)
  }

  lemma ContainsIffSurrounded(text: string, part: string)
    ensures Contains(text, part) <==> exists before, after :: text == before + part + after
  {
    if Contains(text, part) {
      var i :| 0 <= i <= |text| && OccursAt(text, part, i);
      assert text == text[..i] + part + text[i + |part|..];
    }
    if before, after :| text == before + part + after {
      assert OccursAt(text, part, |before|);
    }
  }

  /** An entry counts as ours iff the marker stands anywhere in its command. */
  lemma MarkedMeans(h: Entry)
    ensures IsOurs(h) <==>
              && h.command.Some?
              && exists before, after :: h.command.value == before + "claude-vo-emit" + after
  {
    if h.command.Some? { ContainsIffSurrounded(h.command.value, "claude-vo-emit"); }
  }

  predicate IsOurs(h: Entry) {
    h.command.Some? && Contains(h.command.value, HookMarker())
  }

  // ---- stripping ----

  function Foreign(hs: seq<Entry>): seq<Entry> {
    if hs == [] then []
    else Foreign(hs[..|hs| - 1]) + if IsOurs(hs[|hs| - 1]) then [] else [hs[|hs| - 1]]
  }

  function HooksOf(g: Group): seq<Entry> {
    if g.hooks.Some? then g.hooks.value else []
  }

  function Kept(g: Group): seq<Group> {
    if Foreign(HooksOf(g)) == [] then [] else [g.(hooks := Some(Foreign(HooksOf(g))))]
  }

  function StripOurs(gs: seq<Group>): seq<Group> {
    if gs == [] then [] else StripOurs(gs[..|gs| - 1]) + Kept(gs[|gs| - 1])
  }

  function OurGroup(path: string): Group {
    Group(Some([Entry(Some(path), map["type" := JString("command"), "async" := JBool(true)])]), map[])
  }

  // ---- merging ----

  function Targets(): set<string> { set e | e in TargetHookEvents() }

  function GroupsFor(hooks: Hooks, event: string): seq<Group> {
    if event in hooks then hooks[event] else []
  }

  function NewGroups(gs: seq<Group>, path: string, install: bool): seq<Group> {
    StripOurs(gs) + if install then [OurGroup(path)] else []
  }

  /** The hook map once the events in `done` have been updated. */
  function Updated(hooks: Hooks, done: set<string>, path: string, install: bool): Hooks {
    map e | e in hooks.Keys + done && (e in done ==> NewGroups(GroupsFor(hooks, e), path, install) != []) ::
      if e in done then NewGroups(GroupsFor(hooks, e), path, install) else hooks[e]
  }

  function HookMap(s: Settings): Hooks {
    if s.hooks.Some? then s.hooks.value else map[]
  }

  function Build(s: Settings, path: string, install: bool): Settings {
    var hooks := Updated(HookMap(s), Targets(), path, install);
    Settings(if hooks == map[] then None else Some(hooks), s.other)
  }

  // ---- the merge, step by step ----

  method StripOursFrom(groups: seq<Group>) returns (kept: seq<Group>)
    ensures kept == StripOurs(groups)
  {
    kept := [];
    for i := 0 to |groups|
      invariant kept == StripOurs(groups[..i])
    {
      var group := groups[i];
      var remaining := Foreign(HooksOf(group));
      if remaining != [] {
        var newGroup := group.(hooks := Some(remaining));
        kept := kept + [newGroup];
      }
      assert groups[..i + 1][..i] == groups[..i];
    }
    assert groups[..|groups|] == groups;
  }

  lemma TargetsAreDistinct()
    ensures forall i, j :: 0 <= i < j < |TargetHookEvents()| ==> TargetHookEvents()[i] != TargetHookEvents()[j]
  {
  }

  lemma UpdatedAt(hooks: Hooks, done: set<string>, path: string, install: bool, e: string)
    ensures var groups := if e in done then NewGroups(GroupsFor(hooks, e), path, install) else GroupsFor(hooks, e);
            var updated := Updated(hooks, done, path, install);
            && (e in updated <==> if e in done then groups != [] else e in hooks)
            && GroupsFor(updated, e) == groups
  {
  }

  lemma HooksMatch(a: Hooks, b: Hooks)
    requires forall e :: (e in a <==> e in b) && GroupsFor(a, e) == GroupsFor(b, e)
    ensures a == b
  {
    forall e | e in a ensures e in b && a[e] == b[e] {
      assert GroupsFor(a, e) == GroupsFor(b, e);
    }
    assert a.Keys == b.Keys;
  }

  lemma UpdateOneMore(hooks: Hooks, done: set<string>, event: string, path: string, install: bool)
    requires event !in done
    ensures var before := Updated(hooks, done, path, install);
            var groups := NewGroups(GroupsFor(hooks, event), path, install);
            && GroupsFor(before, event) == GroupsFor(hooks, event)
            && Updated(hooks, done + {event}, path, install)
               == if groups != [] then before[event := groups] else before - {event}
  {
    var before, after := Updated(hooks, done, path, install), Updated(hooks, done + {event}, path, install);
    var groups := NewGroups(GroupsFor(hooks, event), path, install);
    var expected := if groups != [] then before[event := groups] else before - {event};
    forall e ensures (e in after <==> e in expected) && GroupsFor(after, e) == GroupsFor(expected, e) {
      UpdatedAt(hooks, done, path, install, e);
      UpdatedAt(hooks, done + {event}, path, install, e);
    }
    HooksMatch(after, expected);
    UpdatedAt(hooks, done, path, install, event);
  }

  method BuildUpdatedSettings(settings: Settings, path: string, install: bool) returns (updated: Settings)
    ensures updated == Build(settings, path, install)
  {
    var hooks := if settings.hooks.Some? then settings.hooks.value else map[];
    ghost var start, done: set<string> := hooks, {};
    var events := TargetHookEvents();
    TargetsAreDistinct();
    assert hooks == Updated(start, {}, path, install);
    for i := 0 to |events|
      invariant done == set k | 0 <= k < i :: events[k]
      invariant hooks == Updated(start, done, path, install)
    {
      var event := events[i];
      UpdateOneMore(start, done, event, path, install);
      var groups := StripOursFrom(if event in hooks then hooks[event] else []);
      if install { groups := groups + [OurGroup(path)]; }
      assert groups == NewGroups(GroupsFor(start, event), path, install);
      assert event !in hooks ==> hooks - {event} == hooks;
      if groups != [] {
        hooks := hooks[event := groups];
      } else if event in hooks {
        hooks := hooks - {event};
      }
      assert (set k | 0 <= k < i + 1 :: events[k]) == (set k | 0 <= k < i :: events[k]) + {events[i]};
      done := done + {event};
    }
    assert done == Targets();
    updated := Settings(if hooks == map[] then None else Some(hooks), settings.other);
  }

  // ---- laws of stripping ----

  lemma {:induction false} ForeignConcat(a: seq<Entry>, b: seq<Entry>)
    ensures Foreign(a + b) == Foreign(a) + Foreign(b)
  {
    if b == [] {
      assert a + b == a;
    } else {
      assert (a + b)[..|a + b| - 1] == a + b[..|b| - 1];
      ForeignConcat(a, b[..|b| - 1]);
    }
  }

  lemma {:induction false} ForeignHoldsNoneOfOurs(hs: seq<Entry>)
    ensures forall i :: 0 <= i < |Foreign(hs)| ==> !IsOurs(Foreign(hs)[i])
    ensures |Foreign(hs)| <= |hs|
    ensures Foreign(hs) == hs <==> forall i :: 0 <= i < |hs| ==> !IsOurs(hs[i])
  {
    if hs != [] {
      var p, h := hs[..|hs| - 1], hs[|hs| - 1];
      ForeignHoldsNoneOfOurs(p);
      assert hs == p + [h];
      if IsOurs(h) {
        assert |Foreign(hs)| < |hs|;
      } else {
        assert Foreign(hs) == hs <==> Foreign(p) == p;
        assert (forall i :: 0 <= i < |hs| ==> !IsOurs(hs[i])) <==> forall i :: 0 <= i < |p| ==> !IsOurs(p[i]);
      }
    }
  }

  lemma KeptIsStable(g: Group)
    ensures StripOurs(Kept(g)) == Kept(g)
  {
    ForeignHoldsNoneOfOurs(HooksOf(g));
    ForeignHoldsNoneOfOurs(Foreign(HooksOf(g)));
    if Kept(g) != [] {
      var k := Kept(g)[0];
      assert Kept(g)[..0] == [] && StripOurs(Kept(g)) == StripOurs([]) + Kept(k);
    }
  }

  lemma {:induction false} StripConcat(a: seq<Group>, b: seq<Group>)
    ensures StripOurs(a + b) == StripOurs(a) + StripOurs(b)
  {
    if b == [] {
      assert a + b == a;
    } else {
      assert (a + b)[..|a + b| - 1] == a + b[..|b| - 1];
      StripConcat(a, b[..|b| - 1]);
    }
  }

  lemma {:induction false} StripIsStable(gs: seq<Group>)
    ensures StripOurs(StripOurs(gs)) == StripOurs(gs)
  {
    if gs != [] {
      StripIsStable(gs[..|gs| - 1]);
      KeptIsStable(gs[|gs| - 1]);
      StripConcat(StripOurs(gs[..|gs| - 1]), Kept(gs[|gs| - 1]));
    }
  }

  /** Our own group is recognised again exactly if the emitter path holds the marker. */
  lemma OurGroupIsStripped(path: string)
    ensures StripOurs([OurGroup(path)]) == if Contains(path, HookMarker()) then [] else [OurGroup(path)]
  {
    var g := OurGroup(path);
    var h := g.hooks.value[0];
    assert [g][..0] == [] && [h][..0] == [];
    assert HooksOf(g) == [h];
    assert Foreign([h]) == if IsOurs(h) then [] else [h];
    assert Kept(g) == if IsOurs(h) then [] else [g];
    assert StripOurs([g]) == [] + Kept(g);
  }

  lemma NewGroupsStripped(gs: seq<Group>, path: string, install: bool)
    ensures StripOurs(NewGroups(gs, path, install)) ==
              if install && !Contains(path, HookMarker()) then StripOurs(gs) + [OurGroup(path)] else StripOurs(gs)
  {
    StripIsStable(gs);
    assert StripOurs(gs) + [] == StripOurs(gs);
    if install {
      StripConcat(StripOurs(gs), [OurGroup(path)]);
      OurGroupIsStripped(path);
    }
  }

  // ---- laws of installing ----

  /** The latest install or uninstall wins outright: whatever was installed before, by a marked path,
      leaves no trace in it. Idempotence, upgrade and uninstall-after-install are its instances. */
  lemma LatestBuildWins(s: Settings, p1: string, i1: bool, p2: string, i2: bool)
    requires i1 ==> Contains(p1, HookMarker())
    ensures Build(Build(s, p1, i1), p2, i2) == Build(s, p2, i2)
  {
    var h0, h1 := HookMap(s), HookMap(Build(s, p1, i1));
    forall e | e in Targets() ensures StripOurs(GroupsFor(h1, e)) == StripOurs(GroupsFor(h0, e)) {
      NewGroupsStripped(GroupsFor(h0, e), p1, i1);
      assert GroupsFor(h1, e) == NewGroups(GroupsFor(h0, e), p1, i1);
    }
    SameStrippedSameUpdate(h0, h1, p2, i2);
  }

  lemma SameStrippedSameUpdate(h0: Hooks, h1: Hooks, path: string, install: bool)
    requires forall e :: e in Targets() ==> StripOurs(GroupsFor(h1, e)) == StripOurs(GroupsFor(h0, e))
    requires forall e :: e !in Targets() ==> (e in h1 <==> e in h0) && (e in h0 ==> h1[e] == h0[e])
    ensures Updated(h1, Targets(), path, install) == Updated(h0, Targets(), path, install)
  {
    var u0, u1 := Updated(h0, Targets(), path, install), Updated(h1, Targets(), path, install);
    forall e ensures (e in u1 <==> e in u0) && (e in u0 ==> u1[e] == u0[e]) {
      if e in Targets() {
        assert NewGroups(GroupsFor(h1, e), path, install) == NewGroups(GroupsFor(h0, e), path, install);
      }
    }
  }

  /** Installing twice with one path changes nothing the second time exactly if the path holds the marker. */
  lemma InstallIsIdempotentIffMarked(s: Settings, path: string)
    ensures Build(Build(s, path, true), path, true) == Build(s, path, true) <==> Contains(path, HookMarker())
  {
    if Contains(path, HookMarker()) {
      LatestBuildWins(s, path, true, path, true);
    } else {
      var e := TargetHookEvents()[0];
      assert e in Targets();
      InstallWritesOurGroup(s, path, e);
      var s1 := Build(s, path, true);
      var g1 := GroupsFor(HookMap(s1), e);
      InstallWritesOurGroup(s1, path, e);
      NewGroupsStripped(GroupsFor(HookMap(s), e), path, true);
      assert |GroupsFor(HookMap(Build(s1, path, true)), e)| == |g1| + 1;
    }
  }

  lemma InstallWritesOurGroup(s: Settings, path: string, e: string)
    requires e in Targets()
    ensures e in HookMap(Build(s, path, true))
    ensures HookMap(Build(s, path, true))[e] == StripOurs(GroupsFor(HookMap(s), e)) + [OurGroup(path)]
  {
    var hooks := Updated(HookMap(s), Targets(), path, true);
    assert e in hooks;
    assert hooks != map[];
  }

  ghost predicate CleanGroup(g: Group) {
    g.hooks.Some? && g.hooks.value != [] && forall i :: 0 <= i < |g.hooks.value| ==> !IsOurs(g.hooks.value[i])
  }

  ghost predicate AllClean(gs: seq<Group>) {
    forall i :: 0 <= i < |gs| ==> CleanGroup(gs[i])
  }

  lemma AllCleanSnoc(gs: seq<Group>, g: Group)
    ensures AllClean(gs + [g]) <==> AllClean(gs) && CleanGroup(g)
  {
    if AllClean(gs + [g]) {
      forall i | 0 <= i < |gs| ensures CleanGroup(gs[i]) { assert (gs + [g])[i] == gs[i]; }
      assert (gs + [g])[|gs|] == g;
    }
  }

  /** No marked entry, no empty group and no empty list among the target events, and no empty hook map. */
  ghost predicate Clean(s: Settings) {
    s.hooks.Some? ==>
      && s.hooks.value != map[]
      && forall e :: e in s.hooks.value && e in Targets() ==>
           s.hooks.value[e] != [] && AllClean(s.hooks.value[e])
  }

  lemma KeptUnchangedIffClean(g: Group)
    ensures Kept(g) == [g] <==> CleanGroup(g)
    ensures |Kept(g)| <= 1
  {
    ForeignHoldsNoneOfOurs(HooksOf(g));
  }

  lemma {:induction false} StripNeverGrows(gs: seq<Group>)
    ensures |StripOurs(gs)| <= |gs|
  {
    if gs != [] {
      StripNeverGrows(gs[..|gs| - 1]);
      KeptUnchangedIffClean(gs[|gs| - 1]);
    }
  }

  lemma {:induction false} StripUnchangedIffClean(gs: seq<Group>)
    ensures StripOurs(gs) == gs <==> AllClean(gs)
  {
    if gs != [] {
      var p, g := gs[..|gs| - 1], gs[|gs| - 1];
      StripUnchangedIffClean(p);
      KeptUnchangedIffClean(g);
      StripNeverGrows(p);
      assert gs == p + [g];
      SplitsEvenly(StripOurs(p), Kept(g), p, [g]);
      AllCleanSnoc(p, g);
    }
  }

  /** Uninstalling leaves settings as they are exactly if they are clean. */
  lemma UninstallIsIdentityIffClean(s: Settings, path: string)
    ensures Build(s, path, false) == s <==> Clean(s)
  {
    var h := HookMap(s);
    var hooks := Updated(h, Targets(), path, false);
    forall e | e in h && e in Targets()
      ensures e in hooks && hooks[e] == h[e] <==>
                h[e] != [] && AllClean(h[e])
    {
      StripUnchangedIffClean(h[e]);
      assert NewGroups(h[e], path, false) == StripOurs(h[e]);
    }
    forall e | e !in h ensures e !in hooks {
      assert StripOurs([]) == [] && NewGroups([], path, false) == [];
    }
    if Clean(s) {
      assert hooks == h;
    }
  }

  lemma UninstallIsClean(s: Settings, q: string)
    ensures Clean(Build(s, q, false))
  {
    LatestBuildWins(s, q, false, q, false);
    UninstallIsIdentityIffClean(Build(s, q, false), q);
  }

  lemma BuildAt(s: Settings, path: string, install: bool, e: string)
    requires e in Targets()
    ensures GroupsFor(HookMap(Build(s, path, install)), e) == NewGroups(GroupsFor(HookMap(s), e), path, install)
  {
    UpdatedAt(HookMap(s), Targets(), path, install, e);
  }

  lemma UnmarkedGroupSurvives(gs: seq<Group>, p: string, q: string)
    requires AllClean(gs) && !Contains(p, HookMarker())
    ensures NewGroups(NewGroups(gs, p, true), q, false) == gs + [OurGroup(p)]
  {
    NewGroupsStripped(gs, p, true);
    StripUnchangedIffClean(gs);
    assert gs + [OurGroup(p)] + [] == gs + [OurGroup(p)];
  }

  /** What an install under an unmarked path wrote, an uninstall does not find. */
  lemma UnmarkedGroupStays(s: Settings, p: string, q: string)
    requires Clean(s) && !Contains(p, HookMarker())
    ensures Build(Build(s, p, true), q, false) != s
  {
    var e := TargetHookEvents()[0];
    var gs := GroupsFor(HookMap(s), e);
    assert e in Targets() && AllClean(gs);
    BuildAt(s, p, true, e);
    BuildAt(Build(s, p, true), q, false, e);
    UnmarkedGroupSurvives(gs, p, q);
    assert |gs + [OurGroup(p)]| == |gs| + 1;
  }

  /** Round trip: uninstalling after an install restores the settings exactly if they were clean and the
      install was under a marked path. */
  lemma RoundTripIffClean(s: Settings, p: string, q: string)
    ensures Build(Build(s, p, true), q, false) == s <==> Clean(s) && Contains(p, HookMarker())
  {
    if Contains(p, HookMarker()) {
      LatestBuildWins(s, p, true, q, false);
      UninstallIsIdentityIffClean(s, q);
    } else if Clean(s) {
      UnmarkedGroupStays(s, p, q);
    } else {
      UninstallIsClean(Build(s, p, true), q);
    }
  }

  // ---- conservation ----

  /** Somebody else's hook entry, with the attributes of the group it sits in. */
  datatype Tagged = Tagged(attrs: map<string, Json>, entry: Entry)

  function ForeignIn(attrs: map<string, Json>, hs: seq<Entry>): seq<Tagged> {
    if hs == [] then []
    else (if IsOurs(hs[0]) then [] else [Tagged(attrs, hs[0])]) + ForeignIn(attrs, hs[1..])
  }

  function ForeignEntries(gs: seq<Group>): seq<Tagged> {
    if gs == [] then [] else ForeignEntries(gs[..|gs| - 1]) + ForeignIn(gs[|gs| - 1].attrs, HooksOf(gs[|gs| - 1]))
  }

  lemma {:induction false} ForeignInConcat(attrs: map<string, Json>, a: seq<Entry>, b: seq<Entry>)
    ensures ForeignIn(attrs, a + b) == ForeignIn(attrs, a) + ForeignIn(attrs, b)
  {
    if a == [] {
      assert a + b == b;
    } else {
      assert (a + b)[1..] == a[1..] + b;
      ForeignInConcat(attrs, a[1..], b);
    }
  }

  lemma {:induction false} ForeignInSurvives(attrs: map<string, Json>, hs: seq<Entry>)
    ensures ForeignIn(attrs, Foreign(hs)) == ForeignIn(attrs, hs)
  {
    if hs != [] {
      var p, h := hs[..|hs| - 1], hs[|hs| - 1];
      ForeignInSurvives(attrs, p);
      ForeignInConcat(attrs, p, [h]);
      assert hs == p + [h];
      ForeignInConcat(attrs, Foreign(p), if IsOurs(h) then [] else [h]);
      assert [h][1..] == [];
    }
  }

  lemma {:induction false} ForeignEntriesConcat(a: seq<Group>, b: seq<Group>)
    ensures ForeignEntries(a + b) == ForeignEntries(a) + ForeignEntries(b)
  {
    if b == [] {
      assert a + b == a;
    } else {
      assert (a + b)[..|a + b| - 1] == a + b[..|b| - 1];
      ForeignEntriesConcat(a, b[..|b| - 1]);
      ConcatAssoc(ForeignEntries(a), ForeignEntries(b[..|b| - 1]), ForeignIn(b[|b| - 1].attrs, HooksOf(b[|b| - 1])));
    }
  }

  lemma ForeignEntriesOfOne(g: Group)
    ensures ForeignEntries([g]) == ForeignIn(g.attrs, HooksOf(g))
  {
    assert [g][..0] == [];
    assert ForeignEntries([g]) == ForeignEntries([]) + ForeignIn(g.attrs, HooksOf(g));
  }

  lemma {:induction false} StripKeepsForeignEntries(gs: seq<Group>)
    ensures ForeignEntries(StripOurs(gs)) == ForeignEntries(gs)
  {
    if gs != [] {
      var p, g := gs[..|gs| - 1], gs[|gs| - 1];
      StripKeepsForeignEntries(p);
      ForeignEntriesConcat(StripOurs(p), Kept(g));
      ForeignInSurvives(g.attrs, HooksOf(g));
      if Kept(g) != [] {
        ForeignEntriesOfOne(Kept(g)[0]);
        assert Kept(g) == [Kept(g)[0]];
      }
    }
  }

  /** Nobody else's entry is lost, altered, reordered or regrouped under other attributes, for any event
      and any settings; only an install under an unmarked path adds one, its own, at the end. Events that
      are not targets, present or not, and all other top-level keys are untouched. */
  lemma BuildConservesForeignEntries(s: Settings, path: string, install: bool, event: string)
    ensures var before, after := HookMap(s), HookMap(Build(s, path, install));
            && ForeignEntries(GroupsFor(after, event))
               == ForeignEntries(GroupsFor(before, event))
                  + (if event in Targets() && install then ForeignEntries([OurGroup(path)]) else [])
            && (event !in Targets() ==>
                  (event in after <==> event in before) && GroupsFor(after, event) == GroupsFor(before, event))
    ensures ForeignEntries([OurGroup(path)])
            == if Contains(path, HookMarker()) then [] else [Tagged(map[], HooksOf(OurGroup(path))[0])]
    ensures Build(s, path, install).other == s.other
  {
    var gs := GroupsFor(HookMap(s), event);
    var g := OurGroup(path);
    ForeignEntriesOfOne(g);
    assert HooksOf(g)[1..] == [];
    if event in Targets() {
      StripKeepsForeignEntries(gs);
      assert GroupsFor(HookMap(Build(s, path, install)), event) == NewGroups(gs, path, install);
      ForeignEntriesConcat(StripOurs(gs), if install then [g] else []);
    }
  }

  ghost predicate NoneOfOurs(gs: seq<Group>) {
    forall i, j :: 0 <= i < |gs| && 0 <= j < |HooksOf(gs[i])| ==> !IsOurs(HooksOf(gs[i])[j])
  }

  lemma {:induction false} StrippedHoldNoneOfOurs(gs: seq<Group>)
    ensures NoneOfOurs(StripOurs(gs))
  {
    if gs != [] {
      StrippedHoldNoneOfOurs(gs[..|gs| - 1]);
      ForeignHoldsNoneOfOurs(HooksOf(gs[|gs| - 1]));
    }
  }

  /** After an install every target event ends in our group, which holds one entry, and no group before
      it holds a marked one; after an uninstall no target event holds any. */
  lemma BuildLeavesOneMarkedEntry(s: Settings, path: string, install: bool, event: string)
    requires event in Targets()
    ensures var gs := GroupsFor(HookMap(Build(s, path, install)), event);
            var entry := Entry(Some(path), map["type" := JString("command"), "async" := JBool(true)]);
            && (if install then |gs| > 0 && gs[|gs| - 1] == Group(Some([entry]), map[]) && NoneOfOurs(gs[..|gs| - 1])
                else NoneOfOurs(gs))
            && (IsOurs(entry) <==> Contains(path, "claude-vo-emit"))
  {
    var before := StripOurs(GroupsFor(HookMap(s), event));
    StrippedHoldNoneOfOurs(GroupsFor(HookMap(s), event));
    var gs := GroupsFor(HookMap(Build(s, path, install)), event);
    assert gs == NewGroups(GroupsFor(HookMap(s), event), path, install);
    if install {
      assert gs[..|gs| - 1] == before;
    } else {
      assert gs == before;
    }
  }

  // ---- the command ----

  datatype FileContent = Missing | Invalid | Parsed(settings: Settings)

  datatype Outcome = Refused | UpToDate | WouldChange(preview: Settings) | Changed

  function Existing(f: FileContent): Settings {
    if f.Parsed? then f.settings else Settings(None, map[])
  }

  /** What a command leaves behind: the settings file, and the backups made of it, oldest first. */
  datatype RunResult = RunResult(outcome: Outcome, content: FileContent, backups: seq<FileContent>)

  function RunCommand(
    f: FileContent, backups: seq<FileContent>, path: string, dryRun: bool, uninstall: bool): RunResult
  {
    var updated := Build(Existing(f), path, !uninstall);
    if f.Invalid? then RunResult(Refused, f, backups)
    else if updated == Existing(f) then RunResult(UpToDate, f, backups)
    else if dryRun then RunResult(WouldChange(updated), f, backups)
    else RunResult(Changed, Parsed(updated), backups + if f.Missing? then [] else [f])
  }

  /** What a command does, for every file, path and flag: an invalid file is refused; a dry run, and a run
      that has nothing to change, leave everything as it was; any other replaces the file by the merged
      settings and backs up the old one if there was one. */
  lemma RunByCases(f: FileContent, backups: seq<FileContent>, path: string, dryRun: bool, uninstall: bool)
    ensures var existing := if f.Parsed? then f.settings else Settings(None, map[]);
            var merged := Build(existing, path, !uninstall);
            var r := RunCommand(f, backups, path, dryRun, uninstall);
            && (r.outcome == Refused <==> f == Invalid)
            && (r.outcome == UpToDate <==> f != Invalid && merged == existing)
            && (r.outcome == Changed <==> f != Invalid && merged != existing && !dryRun)
            && (f != Invalid && merged != existing && dryRun ==> r.outcome == WouldChange(merged))
            && (r.outcome != Changed ==> r.content == f && r.backups == backups)
            && (r.outcome == Changed ==>
                  && r.content == Parsed(merged) && r.content != f
                  && r.backups == if f == Missing then backups else backups + [f])
  {
    assert backups + [] == backups;
  }

  /** Running the same command again at once writes and backs up nothing, exactly if it uninstalls or its
      path holds the marker; otherwise every run adds one more group and one more backup. */
  lemma RepeatedRunIsUpToDateIffMarked(f: FileContent, backups: seq<FileContent>, path: string, uninstall: bool)
    requires !f.Invalid?
    ensures var first := RunCommand(f, backups, path, false, uninstall);
            var second := RunCommand(first.content, first.backups, path, false, uninstall);
            && (second == first.(outcome := UpToDate) <==> uninstall || Contains(path, HookMarker()))
            && (second.outcome == Changed <==> !uninstall && !Contains(path, HookMarker()))
  {
    var s := Existing(f);
    if uninstall || Contains(path, HookMarker()) {
      LatestBuildWins(s, path, !uninstall, path, !uninstall);
    } else {
      UnmarkedInstallNeverSettles(s, path);
      UnmarkedInstallNeverSettles(Build(s, path, true), path);
    }
  }

  lemma UnmarkedInstallNeverSettles(s: Settings, path: string)
    requires !Contains(path, HookMarker())
    ensures Build(s, path, true) != s
  {
    InstallIsIdempotentIffMarked(s, path);
  }

  class SettingsFile {
    var content: FileContent
    var backups: seq<FileContent>

    constructor (content: FileContent)
      ensures this.content == content && backups == []
    {
      this.content, backups := content, [];
    }

    method Run(path: string, dryRun: bool, uninstall: bool) returns (outcome: Outcome)
      modifies this
      ensures RunResult(outcome, content, backups) == RunCommand(old(content), old(backups), path, dryRun, uninstall)
      ensures dryRun || outcome != Changed ==> content == old(content) && backups == old(backups)
      ensures outcome == Changed ==>
                backups == if old(content) == Missing then old(backups) else old(backups) + [old(content)]
    {
      if content.Invalid? { return Refused; }
      var existing := if content.Parsed? then content.settings else Settings(None, map[]);
      var updated := BuildUpdatedSettings(existing, path, !uninstall);
      if updated == existing { return UpToDate; }
      if dryRun { return WouldChange(updated); }
      backups := backups + if content.Missing? then [] else [content];
      content := Parsed(updated);
      return Changed;
    }
  }
}
