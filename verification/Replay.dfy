/** Rebuilding the order store from the entries of a log. */
module Replay {
  import opened Engine
  import opened Orders
  import opened Wal
  import opened Words

  datatype Store = Store(orders: seq<Order>, nextId: uint32)

  predicate Addressable(st: Store) {
    |st.orders| < TWO_32
  }

  // Orders logged as pending were handed to the broker, so they come back acknowledged.
  function Acked(s: Status): Status {
    if s == NEW || s == PENDING_NEW then ACKNOWLEDGED else s
  }

  // The effect of an entry on the slot it names.
  function OwnStep(o: Order, e: Entry): Order {
    if e.kind == ENTRY_NEW_ORDER then
      var p := DecodeOrder(e.data, o);
      p.(status := Acked(p.status))
    else if e.kind == ENTRY_CANCEL then o.(status := CANCELLED)
    else if e.kind == ENTRY_FILL then o.(status := FILLED)
    else o
  }

  lemma DecodeKeepsUnstored(data: bytes, o: Order)
    ensures SameUnstored(DecodeOrder(data, o), o)
  {
    hide GetLE, Wrap32, Wrap64;
  }

  lemma StepKeepsUnstored(o: Order, e: Entry)
    ensures SameUnstored(OwnStep(o, e), o)
  {
    DecodeKeepsUnstored(e.data, o);
    hide DecodeOrder;
  }

  function ReplayEntry(st: Store, e: Entry): (t: Store)
    requires Addressable(st)
    ensures |t.orders| == |st.orders|
  {
    var i := e.orderIdx;
    if i >= |st.orders| then st
    else
      Store(st.orders[i := OwnStep(st.orders[i], e)],
            if e.kind == ENTRY_NEW_ORDER && st.nextId <= i then i + 1 else st.nextId)
  }

  lemma EntryKeepsLinks(st: Store, e: Entry)
    requires Addressable(st) && LinksInRange(st.orders)
    ensures LinksInRange(ReplayEntry(st, e).orders)
  {
    if e.orderIdx < |st.orders| {
      StepKeepsUnstored(st.orders[e.orderIdx], e);
      hide OwnStep;
    }
  }

  function ReplayAll(st: Store, es: seq<Entry>): (t: Store)
    requires Addressable(st)
    ensures |t.orders| == |st.orders|
    decreases |es|
  {
    if es == [] then st else ReplayEntry(ReplayAll(st, es[..|es| - 1]), es[|es| - 1])
  }

  lemma {:induction false} ReplayInTwoParts(st: Store, a: seq<Entry>, b: seq<Entry>)
    requires Addressable(st)
    ensures ReplayAll(st, a + b) == ReplayAll(ReplayAll(st, a), b)
    decreases |b|
  {
    if b == [] {
      assert a + b == a;
    } else {
      ReplayInTwoParts(st, a, b[..|b| - 1]);
      assert (a + b)[..|a + b| - 1] == a + b[..|b| - 1];
    }
  }

  // ----- One slot -----

  // The entries of one slot, applied to that slot alone.
  function OwnReplay(o: Order, i: nat, es: seq<Entry>): Order
    decreases |es|
  {
    if es == [] then o
    else
      var p, e := OwnReplay(o, i, es[..|es| - 1]), es[|es| - 1];
      if e.orderIdx == i then OwnStep(p, e) else p
  }

  lemma {:induction false} ReplayIsSlotLocal(st: Store, es: seq<Entry>, i: nat)
    requires Addressable(st) && i < |st.orders|
    ensures ReplayAll(st, es).orders[i] == OwnReplay(st.orders[i], i, es)
    decreases |es|
  {
    if es != [] {
      ReplayIsSlotLocal(st, es[..|es| - 1], i);
      hide OwnStep;
    }
  }

  predicate IsImage(e: Entry, i: nat) {
    e.orderIdx == i && e.kind == ENTRY_NEW_ORDER && |e.data| >= PAYLOAD_SIZE
  }

  predicate SetsStatus(e: Entry, i: nat) {
    IsImage(e, i) || (e.orderIdx == i && (e.kind == ENTRY_CANCEL || e.kind == ENTRY_FILL))
  }

  function StatusSet(e: Entry): Status
    requires SetsStatus(e, e.orderIdx)
  {
    if e.kind == ENTRY_CANCEL then CANCELLED
    else if e.kind == ENTRY_FILL then FILLED
    else Acked(e.data[7])
  }

  // Positions of the last complete order image and of the last entry that sets the status.
  function LastImage(i: nat, es: seq<Entry>): (k: int)
    ensures -1 <= k < |es|
    ensures k >= 0 ==> IsImage(es[k], i)
    ensures forall m :: k < m < |es| ==> !IsImage(es[m], i)
    decreases |es|
  {
    if es == [] then -1
    else if IsImage(es[|es| - 1], i) then |es| - 1
    else LastImage(i, es[..|es| - 1])
  }

  function LastStatus(i: nat, es: seq<Entry>): (k: int)
    ensures -1 <= k < |es|
    ensures k >= 0 ==> SetsStatus(es[k], i)
    ensures forall m :: k < m < |es| ==> !SetsStatus(es[m], i)
    decreases |es|
  {
    if es == [] then -1
    else if SetsStatus(es[|es| - 1], i) then |es| - 1
    else LastStatus(i, es[..|es| - 1])
  }

  predicate NamesNewOrder(i: nat, es: seq<Entry>) {
    exists k :: 0 <= k < |es| && es[k].orderIdx == i && es[k].kind == ENTRY_NEW_ORDER
  }

  // The slot after replay, from the last image and the last status-setting entry only.
  function Outcome(o: Order, i: nat, es: seq<Entry>): Order {
    var k, j := LastImage(i, es), LastStatus(i, es);
    var p := if k >= 0 then DecodeOrder(es[k].data, o) else o;
    p.(status :=
      if j >= 0 then StatusSet(es[j]) else if NamesNewOrder(i, es) then Acked(o.status) else o.status)
  }

  lemma NamesInFront(i: nat, es: seq<Entry>)
    requires es != []
    ensures NamesNewOrder(i, es) <==>
      (NamesNewOrder(i, es[..|es| - 1])
       || (es[|es| - 1].orderIdx == i && es[|es| - 1].kind == ENTRY_NEW_ORDER))
  {
    var front := es[..|es| - 1];
    if NamesNewOrder(i, front) {
      var k :| 0 <= k < |front| && front[k].orderIdx == i && front[k].kind == ENTRY_NEW_ORDER;
      assert es[k] == front[k];
    }
    if NamesNewOrder(i, es) {
      var k :| 0 <= k < |es| && es[k].orderIdx == i && es[k].kind == ENTRY_NEW_ORDER;
      if k < |front| { assert front[k] == es[k]; }
    }
  }

  lemma {:induction false} LastSettersWin(o: Order, i: nat, es: seq<Entry>)
    ensures OwnReplay(o, i, es) == Outcome(o, i, es)
    decreases |es|
  {
    if es != [] {
      var front, e := es[..|es| - 1], es[|es| - 1];
      LastSettersWin(o, i, front);
      NamesInFront(i, es);
      hide NamesNewOrder;
      if IsImage(e, i) {
        DecodeOverwrites(e.data, Outcome(o, i, front), o, front, i);
      }
    }
  }

  // By the codes of the source: the last entry that tells a status decides it, a new order (1) by
  // the status byte of its image, where new (1) and pending (2) become acknowledged (3), a cancel
  // (2) as cancelled (7) and a fill (3) as filled (5).
  lemma ReplayedStatus(o: Order, i: nat, es: seq<Entry>, j: nat)
    requires j < |es| && es[j].orderIdx == i
    requires es[j].kind == 2 || es[j].kind == 3 || (es[j].kind == 1 && |es[j].data| >= 44)
    requires forall m :: j < m < |es| && es[m].orderIdx == i ==>
      es[m].kind == 0 || es[m].kind > 3 || (es[m].kind == 1 && |es[m].data| < 44)
    ensures OwnReplay(o, i, es).status ==
      if es[j].kind == 2 then 7 else if es[j].kind == 3 then 5
      else if es[j].data[7] == 1 || es[j].data[7] == 2 then 3 else es[j].data[7]
  {
    LastSettersWin(o, i, es);
    assert SetsStatus(es[j], i);
    var k := LastStatus(i, es);
    assert k >= j;
    assert SetsStatus(es[k], i);
    assert k == j;
    hide OwnReplay, LastStatus, LastImage, DecodeOrder, NamesNewOrder;
  }

  // A full image leaves nothing of what earlier images stored.
  lemma DecodeOverwrites(data: bytes, p: Order, o: Order, es: seq<Entry>, i: nat)
    requires |data| >= PAYLOAD_SIZE && p == Outcome(o, i, es)
    ensures DecodeOrder(data, p) == DecodeOrder(data, o)
  {
    hide GetLE, Wrap32, Wrap64, NamesNewOrder;
  }

  lemma OutcomeIsStable(o: Order, i: nat, es: seq<Entry>)
    ensures Outcome(Outcome(o, i, es), i, es) == Outcome(o, i, es)
  {
    hide GetLE, Wrap32, Wrap64, NamesNewOrder;
  }

  // ----- The next id -----

  predicate InRangeImage(st: Store, e: Entry) {
    e.kind == ENTRY_NEW_ORDER && e.orderIdx < |st.orders|
  }

  // The next id ends above every order the log holds, and no higher than it has to be.
  lemma {:induction false} NextIdIsAboveTheLog(st: Store, es: seq<Entry>)
    requires Addressable(st)
    ensures var n := ReplayAll(st, es).nextId;
      && st.nextId <= n
      && (forall k :: 0 <= k < |es| && InRangeImage(st, es[k]) ==> es[k].orderIdx < n)
      && (n == st.nextId || exists k :: 0 <= k < |es| && InRangeImage(st, es[k]) && n == es[k].orderIdx + 1)
    decreases |es|
  {
    if es != [] {
      var front, e := es[..|es| - 1], es[|es| - 1];
      NextIdIsAboveTheLog(st, front);
      var n, n' := ReplayAll(st, front).nextId, ReplayAll(st, es).nextId;
      hide OwnStep, ReplayAll;
      assert es[|es| - 1] == e;
      if n' == n && n != st.nextId {
        var k :| 0 <= k < |front| && InRangeImage(st, front[k]) && n == front[k].orderIdx + 1;
        assert es[k] == front[k];
      }
      forall k | 0 <= k < |es| && InRangeImage(st, es[k])
        ensures es[k].orderIdx < n'
      {
        if k < |front| { assert front[k] == es[k]; }
      }
    }
  }

  // ----- Whole stores -----

  // Replaying a log a second time changes nothing, whatever the log holds.
  lemma ReplayIsIdempotent(st: Store, es: seq<Entry>)
    requires Addressable(st)
    ensures ReplayAll(st, es + es) == ReplayAll(st, es)
  {
    var once := ReplayAll(st, es);
    var twice := ReplayAll(once, es);
    ReplayInTwoParts(st, es, es);
    forall i | 0 <= i < |st.orders|
      ensures twice.orders[i] == once.orders[i]
    {
      ReplayIsSlotLocal(st, es, i);
      ReplayIsSlotLocal(once, es, i);
      LastSettersWin(st.orders[i], i, es);
      LastSettersWin(once.orders[i], i, es);
      OutcomeIsStable(st.orders[i], i, es);
    }
    NextIdIsAboveTheLog(st, es);
    NextIdIsAboveTheLog(once, es);
    hide ReplayAll;
    assert twice.orders == once.orders;
  }

  // A slot no entry names is untouched.
  lemma {:induction false} UnnamedSlotIsUntouched(o: Order, i: nat, es: seq<Entry>)
    requires forall k :: 0 <= k < |es| ==> es[k].orderIdx != i
    ensures OwnReplay(o, i, es) == o
    decreases |es|
  {
    if es != [] { UnnamedSlotIsUntouched(o, i, es[..|es| - 1]); }
  }

  // The fields an order was submitted with.
  predicate SameSubmission(o: Order, p: Order) {
    o.id == p.id && o.side == p.side && o.ordType == p.ordType && o.tif == p.tif && SameTerms(o, p)
  }

  // The entry that carries an order, followed by anything but another image for its slot,
  // gives the order back with a live or final status.
  lemma LoggedOrderComesBack(target: Order, i: nat, es: seq<Entry>, k: nat, o: Order)
    requires k < |es| && IsImage(es[k], i) && es[k].data == EncodeOrder(o) && o.status == NEW
    requires forall m :: k < m < |es| ==> !IsImage(es[m], i)
    ensures var r := OwnReplay(target, i, es);
      && SameSubmission(r, o) && SameUnstored(r, target)
      && r.status in {ACKNOWLEDGED, CANCELLED, FILLED}
  {
    LastSettersWin(target, i, es);
    assert LastImage(i, es) == k;
    PayloadRoundTrip(o, target);
    var j := LastStatus(i, es);
    assert j >= k;
    PayloadLayout(o);
    hide EncodeOrder, DecodeOrder, NamesNewOrder, OwnReplay, LastImage, LastStatus;
    if j > k { assert !IsImage(es[j], i); }
  }
}
