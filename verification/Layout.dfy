/** Desk slots and desk geometry (frontend/layout.py). */
module DeskLayout {
  import opened Schema

  const DESK_MAX_WIDTH := 320
  const DESK_HEIGHT := 200
  const DESK_MARGIN := 28
  const DESK_MIN_GAP := 4

  // ---- slots ----

  datatype Slots = Slots(slotOf: map<string, nat>, free: seq<nat>, next: nat, rows: nat)

  const EMPTY := Slots(map[], [], 0, 1)

  function Max(a: int, b: int): int { if a < b then b else a }

  function Assign(st: Slots, sid: string): Slots {
    if sid in st.slotOf then st
    else if st.free != [] then st.(slotOf := st.slotOf[sid := st.free[0]], free := st.free[1..])
    else st.(slotOf := st.slotOf[sid := st.next], next := st.next + 1)
  }

  function Release(st: Slots, sid: string): Slots {
    if sid in st.slotOf then st.(slotOf := st.slotOf - {sid}, free := st.free + [st.slotOf[sid]]) else st
  }

  function AssignAll(st: Slots, order: seq<string>): Slots {
    if order == [] then st else Assign(AssignAll(st, order[..|order| - 1]), order[|order| - 1])
  }

  function ReleaseAll(st: Slots, order: seq<string>): Slots {
    if order == [] then st else Release(ReleaseAll(st, order[..|order| - 1]), order[|order| - 1])
  }

  function RecomputeGrid(st: Slots): Slots {
    st.(rows := Max(1, st.next))
  }

  ghost predicate Enumerates(order: seq<string>, ids: set<string>) {
    && (forall sid :: sid in order <==> sid in ids)
    && forall i, j :: 0 <= i < j < |order| ==> order[i] != order[j]
  }

  lemma EnumeratesOneMore(order: seq<string>, ids: set<string>, todo: set<string>, sid: string)
    requires sid in todo && todo <= ids && Enumerates(order, ids - todo)
    ensures Enumerates(order + [sid], ids - (todo - {sid}))
    ensures (order + [sid])[..|order + [sid]| - 1] == order
  {
  }

  ghost predicate SyncedVia(st: Slots, st': Slots, ids: set<string>, gone: seq<string>, added: seq<string>) {
    && Enumerates(gone, st.slotOf.Keys - ids)
    && Enumerates(added, ids - st.slotOf.Keys)
    && st' == RecomputeGrid(AssignAll(ReleaseAll(st, gone), added))
  }

  /** `st'` is a possible outcome of syncing `st` to `ids`: sets are iterated in an arbitrary order. */
  ghost predicate SyncedTo(st: Slots, st': Slots, ids: set<string>) {
    exists gone, added :: SyncedVia(st, st', ids, gone, added)
  }

  ghost predicate Taken(st: Slots, k: nat) {
    exists a :: a in st.slotOf && st.slotOf[a] == k
  }

  /** Occupied and free slots are duplicate-free, disjoint, and together exactly 0..next-1. */
  ghost predicate Partition(st: Slots) {
    && (forall a, b :: a in st.slotOf && b in st.slotOf && a != b ==> st.slotOf[a] != st.slotOf[b])
    && (forall i, j :: 0 <= i < j < |st.free| ==> st.free[i] != st.free[j])
    && (forall a :: a in st.slotOf ==> st.slotOf[a] < st.next && st.slotOf[a] !in st.free)
    && (forall k :: k in st.free ==> k < st.next)
    && (forall k: nat :: k < st.next ==> k in st.free || Taken(st, k))
    && |st.slotOf.Keys| + |st.free| == st.next
  }

  lemma ReuseKeepsOwners(st: Slots, sid: string)
    requires Partition(st) && sid !in st.slotOf && st.free != []
    ensures var st' := Assign(st, sid);
            && (forall a, b :: a in st'.slotOf && b in st'.slotOf && a != b ==> st'.slotOf[a] != st'.slotOf[b])
            && (forall a :: a in st'.slotOf ==> st'.slotOf[a] < st'.next && st'.slotOf[a] !in st'.free)
            && |st'.slotOf.Keys| + |st'.free| == st'.next
  {
    FreeTail(st.free);
    assert st.free[0] in st.free;
    assert Assign(st, sid).slotOf.Keys == st.slotOf.Keys + {sid};
  }

  lemma ReuseKeepsCover(st: Slots, sid: string, k: nat)
    requires Partition(st) && sid !in st.slotOf && st.free != [] && k < st.next
    ensures k in st.free[1..] || Taken(Assign(st, sid), k)
  {
    var st' := Assign(st, sid);
    FreeTail(st.free);
    if k == st.free[0] {
      assert st'.slotOf[sid] == k;
    } else if k !in st.free {
      assert Taken(st, k);
      var a :| a in st.slotOf && st.slotOf[a] == k;
      assert st'.slotOf[a] == k;
    }
  }

  lemma ReuseKeepsPartition(st: Slots, sid: string)
    requires Partition(st) && sid !in st.slotOf && st.free != []
    ensures Partition(Assign(st, sid))
  {
    var st' := Assign(st, sid);
    FreeTail(st.free);
    ReuseKeepsOwners(st, sid);
    forall k: nat | k < st'.next ensures k in st'.free || Taken(st', k) { ReuseKeepsCover(st, sid, k); }
  }

  lemma FreeTail(free: seq<nat>)
    requires free != [] && forall i, j :: 0 <= i < j < |free| ==> free[i] != free[j]
    ensures forall k :: k in free[1..] <==> k in free && k != free[0]
    ensures forall i, j :: 0 <= i < j < |free[1..]| ==> free[1..][i] != free[1..][j]
  {
    assert free == [free[0]] + free[1..];
  }

  lemma GrowKeepsPartition(st: Slots, sid: string)
    requires Partition(st) && sid !in st.slotOf && st.free == []
    ensures Partition(Assign(st, sid))
  {
    var st' := Assign(st, sid);
    forall k: nat | k < st'.next ensures Taken(st', k) {
      if k == st.next {
        assert st'.slotOf[sid] == k;
      } else {
        assert Taken(st, k);
        var a :| a in st.slotOf && st.slotOf[a] == k;
        assert st'.slotOf[a] == k;
      }
    }
  }

  lemma AssignKeepsPartition(st: Slots, sid: string)
    requires Partition(st)
    ensures Partition(Assign(st, sid))
  {
    if sid !in st.slotOf {
      if st.free != [] { ReuseKeepsPartition(st, sid); } else { GrowKeepsPartition(st, sid); }
    }
  }

  lemma ReleaseKeepsPartition(st: Slots, sid: string)
    requires Partition(st)
    ensures Partition(Release(st, sid))
  {
    if sid in st.slotOf {
      var st' := Release(st, sid);
      assert st.slotOf == st'.slotOf[sid := st.slotOf[sid]];
      assert forall k :: k in st'.free <==> k in st.free || k == st.slotOf[sid];
      forall k: nat | k < st'.next && k !in st'.free ensures Taken(st', k) {
        assert Taken(st, k);
        var a :| a in st.slotOf && st.slotOf[a] == k;
        assert st'.slotOf[a] == k;
      }
    }
  }

  lemma {:induction false} RunsKeepPartition(st: Slots, gone: seq<string>, added: seq<string>)
    requires Partition(st)
    ensures Partition(AssignAll(ReleaseAll(st, gone), added))
    decreases |gone| + |added|
  {
    if added != [] {
      RunsKeepPartition(st, gone, added[..|added| - 1]);
      AssignKeepsPartition(AssignAll(ReleaseAll(st, gone), added[..|added| - 1]), added[|added| - 1]);
    } else if gone != [] {
      RunsKeepPartition(st, gone[..|gone| - 1], []);
      ReleaseKeepsPartition(ReleaseAll(st, gone[..|gone| - 1]), gone[|gone| - 1]);
    }
  }

  lemma {:induction false} ReleaseAllEffect(st: Slots, order: seq<string>)
    ensures var st' := ReleaseAll(st, order);
            && st'.next == st.next
            && (forall sid :: sid in st'.slotOf <==> sid in st.slotOf && sid !in order)
            && (forall sid :: sid in st'.slotOf ==> st'.slotOf[sid] == st.slotOf[sid])
  {
    if order != [] { ReleaseAllEffect(st, order[..|order| - 1]); }
  }

  lemma {:induction false} AssignAllEffect(st: Slots, order: seq<string>)
    ensures var st' := AssignAll(st, order);
            && st'.next >= st.next
            && (st'.next > st.next ==> st'.free == [])
            && (forall sid :: sid in st'.slotOf <==> sid in st.slotOf || sid in order)
            && (forall sid :: sid in st.slotOf ==> st'.slotOf[sid] == st.slotOf[sid])
  {
    if order != [] { AssignAllEffect(st, order[..|order| - 1]); }
  }

  lemma GridKeepsPartition(st: Slots)
    requires Partition(st)
    ensures Partition(RecomputeGrid(st))
  {
    assert forall k: nat :: Taken(st, k) ==> Taken(RecomputeGrid(st), k);
  }

  lemma SyncMovesNobody(st: Slots, st': Slots, ids: set<string>, gone: seq<string>, added: seq<string>)
    requires SyncedVia(st, st', ids, gone, added)
    ensures st'.slotOf.Keys == ids
    ensures forall sid :: sid in ids && sid in st.slotOf ==> st'.slotOf[sid] == st.slotOf[sid]
    ensures st'.next >= st.next && (st'.next > st.next ==> st'.free == [])
    ensures st'.rows == Max(1, st'.next)
  {
    ReleaseAllEffect(st, gone);
    AssignAllEffect(ReleaseAll(st, gone), added);
  }

  /** One sync, under any iteration order: exactly the given sessions hold slots, those that already
      had one keep it, and capacity grows only as far as the session count forces it to. */
  lemma SyncEffect(st: Slots, st': Slots, ids: set<string>)
    requires Partition(st) && SyncedTo(st, st', ids)
    ensures Partition(st')
    ensures st'.slotOf.Keys == ids
    ensures forall sid :: sid in ids && sid in st.slotOf ==> st'.slotOf[sid] == st.slotOf[sid]
    ensures st'.next == Max(st.next, |ids|)
    ensures st'.rows == Max(1, st'.next)
  {
    var gone, added :| SyncedVia(st, st', ids, gone, added);
    SyncMovesNobody(st, st', ids, gone, added);
    RunsKeepPartition(st, gone, added);
    GridKeepsPartition(AssignAll(ReleaseAll(st, gone), added));
  }

  // ---- the order of reuse ----

  /** The slots waiting to be reused once `gone` have been released in turn. */
  function Waiting(st: Slots, gone: seq<string>): seq<nat>
    requires forall i :: 0 <= i < |gone| ==> gone[i] in st.slotOf
  {
    st.free + seq(|gone|, i requires 0 <= i < |gone| => st.slotOf[gone[i]])
  }

  lemma {:induction false} ReleasedSlotsWait(st: Slots, gone: seq<string>)
    requires forall i :: 0 <= i < |gone| ==> gone[i] in st.slotOf
    requires forall i, j :: 0 <= i < j < |gone| ==> gone[i] != gone[j]
    ensures ReleaseAll(st, gone).free == Waiting(st, gone) && ReleaseAll(st, gone).next == st.next
    ensures forall sid :: sid in ReleaseAll(st, gone).slotOf <==> sid in st.slotOf && sid !in gone
    ensures forall sid :: sid in ReleaseAll(st, gone).slotOf ==> ReleaseAll(st, gone).slotOf[sid] == st.slotOf[sid]
  {
    ReleaseAllEffect(st, gone);
    if gone != [] {
      var n := |gone| - 1;
      ReleasedSlotsWait(st, gone[..n]);
      assert gone[n] !in gone[..n];
      assert Waiting(st, gone) == Waiting(st, gone[..n]) + [st.slotOf[gone[n]]];
    }
  }

  /** The k-th newcomer's slot: the k-th that waits, or a new one when none is left waiting. */
  function SlotOfNewcomer(st: Slots, k: nat): nat {
    if k < |st.free| then st.free[k] else st.next + (k - |st.free|)
  }

  lemma TakeFirst(free: seq<nat>, n: nat)
    requires n < |free|
    ensures free[n..] != [] && free[n..][0] == free[n] && free[n..][1..] == free[n + 1..]
  {
  }

  /** What is left to wait, and how far new slots have been taken. */
  lemma {:induction false} WaitingAfter(st: Slots, added: seq<string>)
    requires forall i :: 0 <= i < |added| ==> added[i] !in st.slotOf
    requires forall i, j :: 0 <= i < j < |added| ==> added[i] != added[j]
    ensures forall sid :: sid in AssignAll(st, added).slotOf <==> sid in st.slotOf || sid in added
    ensures |added| <= |st.free| ==>
              AssignAll(st, added).free == st.free[|added|..] && AssignAll(st, added).next == st.next
    ensures |added| >= |st.free| ==>
              AssignAll(st, added).free == [] && AssignAll(st, added).next == st.next + (|added| - |st.free|)
  {
    AssignAllEffect(st, added);
    if added != [] {
      var n := |added| - 1;
      WaitingAfter(st, added[..n]);
      assert added[n] !in added[..n];
      if n < |st.free| { TakeFirst(st.free, n); }
    }
  }

  lemma {:induction false} NewcomerTakesWaitingSlot(st: Slots, added: seq<string>, k: nat)
    requires forall i :: 0 <= i < |added| ==> added[i] !in st.slotOf
    requires forall i, j :: 0 <= i < j < |added| ==> added[i] != added[j]
    requires k < |added|
    ensures added[k] in AssignAll(st, added).slotOf
    ensures AssignAll(st, added).slotOf[added[k]] == SlotOfNewcomer(st, k)
  {
    var n := |added| - 1;
    WaitingAfter(st, added[..n]);
    if k < n {
      NewcomerTakesWaitingSlot(st, added[..n], k);
      assert added[..n][k] == added[k] && added[k] != added[n];
    } else {
      assert added[n] !in added[..n];
    }
  }

  /** First freed, first reused: slots go to the newcomers of a sync in the order in which they were freed,
      in earlier syncs and then in this one; only then are new slots taken. */
  lemma SlotsAreReusedInOrder(st: Slots, st': Slots, ids: set<string>, gone: seq<string>, added: seq<string>)
    requires SyncedVia(st, st', ids, gone, added)
    ensures forall i :: 0 <= i < |gone| ==> gone[i] in st.slotOf
    ensures forall k :: 0 <= k < |added| ==>
              && added[k] in st'.slotOf
              && st'.slotOf[added[k]] == if k < |Waiting(st, gone)| then Waiting(st, gone)[k]
                                         else st.next + (k - |Waiting(st, gone)|)
  {
    forall i | 0 <= i < |gone| ensures gone[i] in st.slotOf { assert gone[i] in gone; }
    ReleasedSlotsWait(st, gone);
    forall k | 0 <= k < |added| ensures added[k] !in ReleaseAll(st, gone).slotOf { assert added[k] in added; }
    forall k | 0 <= k < |added|
      ensures var st1 := ReleaseAll(st, gone);
              && added[k] in AssignAll(st1, added).slotOf
              && AssignAll(st1, added).slotOf[added[k]] == SlotOfNewcomer(st1, k)
    {
      NewcomerTakesWaitingSlot(ReleaseAll(st, gone), added, k);
    }
  }

  // ---- runs of syncs ----

  /** `sts` are the states a layout goes through when synced to each of `calls` in turn. */
  ghost predicate SyncRun(sts: seq<Slots>, calls: seq<set<string>>) {
    |sts| == |calls| + 1 && forall i :: 0 <= i < |calls| ==> SyncedTo(sts[i], sts[i + 1], calls[i])
  }

  function Peak(calls: seq<set<string>>): nat {
    if calls == [] then 0 else Max(Peak(calls[..|calls| - 1]), |calls[|calls| - 1]|)
  }

  lemma {:induction false} PeakIsLargest(calls: seq<set<string>>)
    ensures forall i :: 0 <= i < |calls| ==> |calls[i]| <= Peak(calls)
    ensures calls != [] ==> exists i :: 0 <= i < |calls| && |calls[i]| == Peak(calls)
    ensures calls == [] ==> Peak(calls) == 0
  {
    if calls != [] {
      var p := calls[..|calls| - 1];
      PeakIsLargest(p);
      forall i | 0 <= i < |calls| ensures |calls[i]| <= Peak(calls) {
        if i < |p| { assert p[i] == calls[i]; }
      }
      if p != [] && Peak(p) >= |calls[|calls| - 1]| {
        var i :| 0 <= i < |p| && |p[i]| == Peak(p);
        assert |calls[i]| == Peak(calls);
      } else {
        assert |calls[|calls| - 1]| == Peak(calls);
      }
    }
  }

  lemma PeakOneMore(calls: seq<set<string>>, i: nat)
    requires i < |calls|
    ensures Peak(calls[..i + 1]) == Max(Peak(calls[..i]), |calls[i]|)
  {
    assert calls[..i + 1][..i] == calls[..i];
  }

  /** Over any run from the empty layout, at every point of it, slots are partitioned and capacity is
      exactly the largest number of sessions shown at once so far. */
  lemma {:induction false} RunKeepsPartitionAndPeak(sts: seq<Slots>, calls: seq<set<string>>, i: nat)
    requires SyncRun(sts, calls) && sts[0] == EMPTY && i <= |calls|
    ensures Partition(sts[i]) && sts[i].next == Peak(calls[..i]) && sts[i].rows == Max(1, sts[i].next)
  {
    if i > 0 {
      RunKeepsPartitionAndPeak(sts, calls, i - 1);
      SyncEffect(sts[i - 1], sts[i], calls[i - 1]);
      PeakOneMore(calls, i - 1);
    }
  }

  lemma {:induction false} SlotIsStable(sts: seq<Slots>, calls: seq<set<string>>, i: nat, sid: string)
    requires SyncRun(sts, calls) && Partition(sts[0]) && sts[0].rows == Max(1, sts[0].next) && i <= |calls|
    requires sid in sts[0].slotOf && forall k :: 0 <= k < i ==> sid in calls[k]
    ensures Partition(sts[i]) && sts[i].rows == Max(1, sts[i].next) && sts[i].next >= sts[0].next
    ensures sid in sts[i].slotOf && sts[i].slotOf[sid] == sts[0].slotOf[sid]
    ensures (forall k :: 0 <= k < i ==> |calls[k]| <= sts[0].next) ==> sts[i].next == sts[0].next
  {
    if i > 0 {
      SlotIsStable(sts, calls, i - 1, sid);
      SyncEffect(sts[i - 1], sts[i], calls[i - 1]);
    }
  }

  /** A session shown throughout a run keeps its slot whatever else comes and goes; and as long as the
      run stays within the capacity it started with, its rectangle does not change at all. */
  lemma DeskIsStable(sts: seq<Slots>, calls: seq<set<string>>, i: nat, sid: string, w: int, h: int)
    requires SyncRun(sts, calls) && Partition(sts[0]) && sts[0].rows == Max(1, sts[0].next) && i <= |calls|
    requires sid in sts[0].slotOf && forall k :: 0 <= k < i ==> sid in calls[k]
    ensures Partition(sts[i]) && sts[i].rows == Max(1, sts[i].next) && sts[i].next >= sts[0].next
    ensures sid in sts[i].slotOf && sts[i].slotOf[sid] == sts[0].slotOf[sid]
    ensures (forall k :: 0 <= k < i ==> |calls[k]| <= sts[0].next) ==>
              sts[i].next == sts[0].next && DeskRect(sts[i], sid, w, h) == DeskRect(sts[0], sid, w, h)
  {
    SlotIsStable(sts, calls, i, sid);
  }

  // ---- geometry ----

  datatype Rect = Rect(x: int, y: int, width: int, height: int)

  /** Python's int(): truncation toward zero. */
  function Trunc(x: real): int {
    if x >= 0.0 then x.Floor else -((-x).Floor)
  }

  function MaxR(a: real, b: real): real { if a < b then b else a }
  function MinR(a: real, b: real): real { if b < a then b else a }

  function Pitch(rows: nat, h: int): real
    requires rows > 0
  {
    MaxR((DESK_HEIGHT + DESK_MIN_GAP) as real,
         MinR((DESK_HEIGHT + DESK_MARGIN) as real, h as real / rows as real))
  }

  function RowTop(slot: nat, rows: nat, h: int): real
    requires rows > 0
  {
    var pitch := Pitch(rows, h);
    MaxR(0.0, (h as real - pitch * rows as real) / 2.0) + slot as real * pitch + (pitch - DESK_HEIGHT as real) / 2.0
  }

  function CellWidth(w: int): int { if DESK_MAX_WIDTH < w then DESK_MAX_WIDTH else w }

  function DeskLeft(w: int): real {
    (w - CellWidth(w)) as real / 2.0 + DESK_MARGIN as real / 2.0
  }

  function DeskRect(st: Slots, sid: string, w: int, h: int): Option<Rect> {
    if sid !in st.slotOf || st.rows == 0 then None
    else Some(Rect(Trunc(DeskLeft(w)), Trunc(RowTop(st.slotOf[sid], st.rows, h)),
                   CellWidth(w) - DESK_MARGIN, DESK_HEIGHT))
  }

  lemma MulMono(a: real, b: real, c: real)
    requires a <= b && c >= 0.0
    ensures a * c <= b * c
  {
  }

  /** Row `s` of `r`, each `p` tall: it starts and ends inside the column. */
  lemma RowSpan(s: real, r: real, p: real, before: real, column: real)
    requires 0.0 <= s && s + 1.0 <= r && p >= 0.0 && before == s * p && column == p * r
    ensures 0.0 <= before && before + p <= column
  {
    MulMono(0.0, s, p);
    MulMono(s + 1.0, r, p);
    assert (s + 1.0) * p == s * p + p;
  }

  lemma MulStrict(a: real, b: real, c: real)
    requires a < b && c > 0.0
    ensures a * c < b * c
  {
  }

  lemma Compare(a: real, b: real, c: real)
    requires c > 0.0
    ensures a * c <= b * c <==> a <= b
  {
    if a <= b { MulMono(a, b, c); } else { MulStrict(b, a, c); }
  }

  lemma DivMul(a: real, b: real)
    requires b != 0.0
    ensures a / b * b == a
  {
  }

  /** Sharing out `h` among `r` rows gives each at least `least` exactly when `least * r` fits. */
  lemma Share(h: real, r: real, least: real)
    requires r > 0.0
    ensures h / r * r == h && (least * r <= h <==> least <= h / r)
  {
    DivMul(h, r);
    Compare(least, h / r, r);
  }

  lemma PitchRange(rows: nat, h: int)
    requires rows > 0
    ensures (DESK_HEIGHT + DESK_MIN_GAP) as real <= Pitch(rows, h) <= (DESK_HEIGHT + DESK_MARGIN) as real
  {
  }

  /** The minimum gap, in whole pixels, times the number of rows. */
  lemma LeastColumn(rows: nat) returns (least: real, r: real)
    ensures least == (DESK_HEIGHT + DESK_MIN_GAP) as real && r == rows as real
    ensures least * r == (rows * (DESK_HEIGHT + DESK_MIN_GAP)) as real
  {
    least, r := (DESK_HEIGHT + DESK_MIN_GAP) as real, rows as real;
  }

  lemma PitchFromShare(rows: nat, h: int, avail: real)
    requires rows > 0 && avail == h as real / rows as real
    ensures (DESK_HEIGHT + DESK_MIN_GAP) as real <= avail ==> Pitch(rows, h) <= avail
    ensures (DESK_HEIGHT + DESK_MIN_GAP) as real > avail ==> Pitch(rows, h) == (DESK_HEIGHT + DESK_MIN_GAP) as real
  {
  }

  lemma PitchWhenRoomy(rows: nat, h: int)
    requires rows > 0 && rows * (DESK_HEIGHT + DESK_MIN_GAP) <= h
    ensures Pitch(rows, h) * rows as real <= h as real
  {
    var least, r := LeastColumn(rows);
    Share(h as real, r, least);
    PitchFromShare(rows, h, h as real / r);
    MulMono(Pitch(rows, h), h as real / r, r);
  }

  lemma PitchWhenTight(rows: nat, h: int)
    requires rows > 0 && rows * (DESK_HEIGHT + DESK_MIN_GAP) > h
    ensures Pitch(rows, h) == (DESK_HEIGHT + DESK_MIN_GAP) as real
  {
    var least, r := LeastColumn(rows);
    Share(h as real, r, least);
    PitchFromShare(rows, h, h as real / r);
  }

  /** A row's top, taken apart: space above the column, the rows before it, half the spare pitch. */
  lemma RowTopParts(slot: nat, rows: nat, h: int) returns (above: real, before: real, p: real, column: real)
    requires rows > 0
    ensures p == Pitch(rows, h) && before == slot as real * p && column == p * rows as real
    ensures above == MaxR(0.0, (h as real - column) / 2.0) && 204.0 <= p <= 228.0
    ensures RowTop(slot, rows, h) == above + before + (p - 200.0) / 2.0
  {
    p := Pitch(rows, h);
    column := p * rows as real;
    above, before := MaxR(0.0, (h as real - column) / 2.0), slot as real * p;
  }

  lemma RowTopsGrow(i: nat, j: nat, rows: nat, h: int)
    requires i < j && rows > 0
    ensures 0.0 <= RowTop(i, rows, h)
    ensures RowTop(j, rows, h) - RowTop(i, rows, h) >= Pitch(rows, h)
  {
    PitchRange(rows, h);
    var above, before, p, column := RowTopParts(i, rows, h);
    var above', before', p', column' := RowTopParts(j, rows, h);
    RowSpan(i as real, j as real, p, before, before');
  }

  /** Truncated to pixels, rows still lie at least DESK_MIN_GAP apart, in slot order. */
  lemma RowsStayApart(i: nat, j: nat, rows: nat, h: int)
    requires i < j && rows > 0
    ensures Trunc(RowTop(i, rows, h)) >= 0
    ensures Trunc(RowTop(j, rows, h)) >= Trunc(RowTop(i, rows, h)) + DESK_HEIGHT + DESK_MIN_GAP
  {
    RowTopsGrow(i, j, rows, h);
    PitchRange(rows, h);
  }

  /** In every reachable layout the desks of distinct sessions never come closer than DESK_MIN_GAP. */
  lemma DesksNeverOverlap(st: Slots, a: string, b: string, w: int, h: int)
    requires Partition(st) && st.rows == Max(1, st.next) && a in st.slotOf && b in st.slotOf && a != b
    ensures var ra, rb := DeskRect(st, a, w, h).value, DeskRect(st, b, w, h).value;
            && (ra.y + ra.height + DESK_MIN_GAP <= rb.y || rb.y + rb.height + DESK_MIN_GAP <= ra.y)
            && (ra.y < rb.y <==> st.slotOf[a] < st.slotOf[b])
            && ra.x == rb.x && ra.width == rb.width && ra.height == rb.height == DESK_HEIGHT
  {
    if st.slotOf[a] < st.slotOf[b] {
      RowsStayApart(st.slotOf[a], st.slotOf[b], st.rows, h);
    } else {
      RowsStayApart(st.slotOf[b], st.slotOf[a], st.rows, h);
    }
  }

  // ---- exactly where a desk stands ----

  lemma PitchWhenSpacious(rows: nat, h: int)
    requires rows > 0 && rows * (DESK_HEIGHT + DESK_MARGIN) <= h
    ensures Pitch(rows, h) == (DESK_HEIGHT + DESK_MARGIN) as real
  {
    var most, r := (DESK_HEIGHT + DESK_MARGIN) as real, rows as real;
    assert most * r == (rows * (DESK_HEIGHT + DESK_MARGIN)) as real;
    Share(h as real, r, most);
  }

  lemma PitchWhenBetween(rows: nat, h: int)
    requires rows > 0 && rows * (DESK_HEIGHT + DESK_MIN_GAP) <= h < rows * (DESK_HEIGHT + DESK_MARGIN)
    ensures Pitch(rows, h) * rows as real == h as real
  {
    var most, r := (DESK_HEIGHT + DESK_MARGIN) as real, rows as real;
    assert most * r == (rows * (DESK_HEIGHT + DESK_MARGIN)) as real;
    Share(h as real, r, most);
    var least, r' := LeastColumn(rows);
    Share(h as real, r, least);
  }

  /** Rows have the full margin between them and are centred when the window has room for that; when it has
      room for the minimum gap only, they share it out evenly; else they hang from the top at the minimum gap. */
  lemma RowTopByRoom(slot: nat, rows: nat, h: int)
    requires rows > 0
    ensures rows * 228 <= h ==> RowTop(slot, rows, h) == (h - rows * 228) as real / 2.0 + (slot * 228 + 14) as real
    ensures rows * 204 <= h < rows * 228 ==>
              (RowTop(slot, rows, h) + 100.0) * rows as real == (slot as real + 0.5) * h as real
    ensures h < rows * 204 ==> RowTop(slot, rows, h) == (slot * 204 + 2) as real
  {
    if rows * 228 <= h {
      SpaciousRowTop(slot, rows, h);
    } else if rows * 204 <= h {
      SharedRowTop(slot, rows, h);
    } else {
      var above, before, p, column := RowTopParts(slot, rows, h);
      PitchWhenTight(rows, h);
      assert before == (slot * 204) as real && column == (rows * 204) as real;
    }
  }

  lemma SpaciousRowTop(slot: nat, rows: nat, h: int)
    requires rows > 0 && rows * 228 <= h
    ensures RowTop(slot, rows, h) == (h - rows * 228) as real / 2.0 + (slot * 228 + 14) as real
  {
    var above, before, p, column := RowTopParts(slot, rows, h);
    PitchWhenSpacious(rows, h);
    assert before == (slot * 228) as real && column == (rows * 228) as real;
  }

  lemma SharedRowTop(slot: nat, rows: nat, h: int)
    requires rows > 0 && rows * 204 <= h < rows * 228
    ensures (RowTop(slot, rows, h) + 100.0) * rows as real == (slot as real + 0.5) * h as real
  {
    var above, before, p, column := RowTopParts(slot, rows, h);
    PitchWhenBetween(rows, h);
    assert RowTop(slot, rows, h) == before + (p - 200.0) / 2.0;
    SharedRow(slot as real, rows as real, p, before, h as real);
  }

  lemma SharedRow(s: real, r: real, p: real, before: real, h: real)
    requires p * r == h && before == s * p
    ensures (before + (p - 200.0) / 2.0 + 100.0) * r == (s + 0.5) * h
  {
    assert before + (p - 200.0) / 2.0 + 100.0 == (s + 0.5) * p;
    assert (s + 0.5) * p * r == (s + 0.5) * (p * r);
  }

  /** Columns are centred, at most 320 wide with their margin, and every desk of a session is `RowTop` down. */
  lemma DeskByWindow(st: Slots, sid: string, w: int, h: int)
    requires st.rows > 0
    ensures DeskRect(st, sid, w, h).Some? <==> sid in st.slotOf
    ensures sid in st.slotOf ==>
              var r := DeskRect(st, sid, w, h).value;
              && r.height == 200 && r.y == Trunc(RowTop(st.slotOf[sid], st.rows, h))
              && (w <= 320 ==> r.x == 14 && r.width == w - 28)
              && (w > 320 ==> r.width == 292 && (r.x == w - (r.x + r.width) || r.x + 1 == w - (r.x + r.width)))
  {
    if w <= 320 {
      assert DeskLeft(w) == 14.0;
    } else {
      assert DeskLeft(w) == (w - 292) as real / 2.0;
    }
  }

  ghost predicate RowFits(slot: nat, rows: nat, h: int)
    requires rows > 0
  {
    0 <= Trunc(RowTop(slot, rows, h)) && Trunc(RowTop(slot, rows, h)) + DESK_HEIGHT <= h
  }

  lemma RowsFitWhenTheyCan(slot: nat, rows: nat, h: int)
    requires slot < rows && rows * (DESK_HEIGHT + DESK_MIN_GAP) <= h
    ensures RowFits(slot, rows, h)
  {
    PitchRange(rows, h);
    PitchWhenRoomy(rows, h);
    var above, before, p, column := RowTopParts(slot, rows, h);
    RowSpan(slot as real, rows as real, p, before, column);
    var top := RowTop(slot, rows, h);
    assert before + p <= column <= h as real;
    assert above == (h as real - column) / 2.0;
    assert 0.0 <= top && top + 200.0 <= h as real;
    assert Trunc(top) as real <= top;
  }

  lemma TightRowTop(slot: nat, rows: nat, h: int)
    requires slot < rows && rows * (DESK_HEIGHT + DESK_MIN_GAP) > h
    ensures Trunc(RowTop(slot, rows, h)) == slot * (DESK_HEIGHT + DESK_MIN_GAP) + DESK_MIN_GAP / 2
  {
    PitchWhenTight(rows, h);
    var least := (DESK_HEIGHT + DESK_MIN_GAP) as real;
    assert least * rows as real == (rows * (DESK_HEIGHT + DESK_MIN_GAP)) as real;
    assert slot as real * least == (slot * (DESK_HEIGHT + DESK_MIN_GAP)) as real;
  }

  /** The column fits the window's height exactly when the rows fit at the minimum gap, less the
      half gap below the last desk. */
  lemma ColumnFitsExactly(rows: nat, h: int)
    requires rows > 0
    ensures (forall slot: nat :: slot < rows ==> RowFits(slot, rows, h))
            <==> rows * (DESK_HEIGHT + DESK_MIN_GAP) - DESK_MIN_GAP / 2 <= h
  {
    if rows * (DESK_HEIGHT + DESK_MIN_GAP) <= h {
      forall slot: nat | slot < rows ensures RowFits(slot, rows, h) { RowsFitWhenTheyCan(slot, rows, h); }
    } else {
      forall slot: nat | slot < rows
        ensures RowFits(slot, rows, h) <==> (slot + 1) * (DESK_HEIGHT + DESK_MIN_GAP) - DESK_MIN_GAP / 2 <= h
      {
        TightRowTop(slot, rows, h);
      }
      assert RowFits(rows - 1, rows, h) <==> rows * (DESK_HEIGHT + DESK_MIN_GAP) - DESK_MIN_GAP / 2 <= h;
    }
  }

  /** Horizontally every desk is inside any window at least DESK_MARGIN wide, and nowhere else. */
  lemma DeskFitsWidthExactly(w: int)
    ensures 0 <= Trunc(DeskLeft(w)) <= Trunc(DeskLeft(w)) + CellWidth(w) - DESK_MARGIN <= w <==> DESK_MARGIN <= w
  {
    assert DeskLeft(w) - 1.0 < Trunc(DeskLeft(w)) as real <= DeskLeft(w);
  }

  // ---- the layout object ----

  class Layout {
    var slotOfSession: map<string, nat>
    var freeSlots: seq<nat>
    var nextSlot: nat
    var rows: nat

    ghost function State(): Slots
      reads this
    {
      Slots(slotOfSession, freeSlots, nextSlot, rows)
    }

    ghost predicate Valid()
      reads this
    {
      Partition(State()) && rows == Max(1, nextSlot)
    }

    constructor ()
      ensures Valid() && State() == EMPTY
    {
      slotOfSession, freeSlots, nextSlot, rows := map[], [], 0, 1;
    }

    method AssignSlot(sid: string)
      modifies this
      ensures State() == Assign(old(State()), sid)
    {
      if sid in slotOfSession { return; }
      var slot;
      if freeSlots != [] {
        slot, freeSlots := freeSlots[0], freeSlots[1..];
      } else {
        slot := nextSlot;
        nextSlot := nextSlot + 1;
      }
      slotOfSession := slotOfSession[sid := slot];
    }

    method ReleaseSlot(sid: string)
      modifies this
      ensures State() == Release(old(State()), sid)
    {
      if sid in slotOfSession {
        var slot := slotOfSession[sid];
        slotOfSession := slotOfSession - {sid};
        freeSlots := freeSlots + [slot];
      }
    }

    /** `order` is the order in which the set happens to be iterated. */
    method ReleaseEach(ids: set<string>) returns (ghost order: seq<string>)
      modifies this
      ensures Enumerates(order, ids) && State() == ReleaseAll(old(State()), order)
    {
      order := [];
      var todo := ids;
      while todo != {}
        invariant todo <= ids && Enumerates(order, ids - todo)
        invariant State() == ReleaseAll(old(State()), order)
        decreases todo
      {
        var sid :| sid in todo;
        ReleaseSlot(sid);
        EnumeratesOneMore(order, ids, todo, sid);
        order, todo := order + [sid], todo - {sid};
      }
    }

    method AssignEach(ids: set<string>) returns (ghost order: seq<string>)
      modifies this
      ensures Enumerates(order, ids) && State() == AssignAll(old(State()), order)
    {
      order := [];
      var todo := ids;
      while todo != {}
        invariant todo <= ids && Enumerates(order, ids - todo)
        invariant State() == AssignAll(old(State()), order)
        decreases todo
      {
        var sid :| sid in todo;
        AssignSlot(sid);
        EnumeratesOneMore(order, ids, todo, sid);
        order, todo := order + [sid], todo - {sid};
      }
    }

    method Sync(sessionIds: set<string>)
      requires Valid()
      modifies this
      ensures SyncedTo(old(State()), State(), sessionIds)
      ensures Valid() && slotOfSession.Keys == sessionIds
      ensures forall sid :: sid in sessionIds && sid in old(slotOfSession) ==>
                slotOfSession[sid] == old(slotOfSession)[sid]
      ensures nextSlot == Max(old(nextSlot), |sessionIds|)
    {
      var current := slotOfSession.Keys;
      ghost var gone := ReleaseEach(current - sessionIds);
      ghost var added := AssignEach(sessionIds - current);
      rows := Max(1, nextSlot);
      assert SyncedVia(old(State()), State(), sessionIds, gone, added);
      SyncEffect(old(State()), State(), sessionIds);
    }

    method Desk(sid: string, w: int, h: int) returns (rect: Option<Rect>)
      requires rows >= 1  // _recompute_grid keeps it so
      ensures rect == DeskRect(State(), sid, w, h)
      ensures rect.Some? <==> sid in slotOfSession
    {
      if sid !in slotOfSession { return None; }
      var slot := slotOfSession[sid];
      var cellW := if DESK_MAX_WIDTH < w then DESK_MAX_WIDTH else w;
      var idealPitch := (DESK_HEIGHT + DESK_MARGIN) as real;
      var availablePitch := h as real / rows as real;
      var pitch := MaxR((DESK_HEIGHT + DESK_MIN_GAP) as real, MinR(idealPitch, availablePitch));
      var gap := pitch - DESK_HEIGHT as real;
      var totalH := pitch * rows as real;
      var yOffset := MaxR(0.0, (h as real - totalH) / 2.0);
      var x := (w - cellW) as real / 2.0 + DESK_MARGIN as real / 2.0;
      var y := yOffset + slot as real * pitch + gap / 2.0;
      assert y == RowTop(slot, rows, h) && x == DeskLeft(w);
      return Some(Rect(Trunc(x), Trunc(y), cellW - DESK_MARGIN, DESK_HEIGHT));
    }
  }
}
