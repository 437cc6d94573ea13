/** When replaying the log gives back what the live engine holds. */
module Simulation {
  import opened Conservation
  import opened Engine
  import opened Ids
  import opened Lifecycle
  import opened Orders
  import opened Pipeline
  import opened Replay
  import opened Runs
  import opened Wal
  import opened Words

  ghost predicate HasNew(trace: seq<Effect>, i: nat) {
    exists k :: NewAt(trace, k) && IdAt(trace, k) == i
  }

  // The slot as replaying the log of the trace would rebuild it.
  function Rebuilt(cfg: Config, trace: seq<Effect>, i: nat): Order
    requires i < cfg.maxOrders
  {
    ReplayAll(FreshStore(cfg), LogOf(trace)).orders[i]
  }

  // A logged order is live with the stored fields that replay gives; any other slot is empty or
  // rejected, and replay leaves it blank.
  ghost predicate AgreesAt(cfg: Config, s: State, i: nat)
    requires i < cfg.maxOrders == |s.orders|
  {
    var o, r := s.orders[i], Rebuilt(cfg, s.trace, i);
    if HasNew(s.trace, i) then
      SameStored(r, o) && (o.status == ACKNOWLEDGED || o.status == CANCELLED || o.status == FILLED)
    else
      r == NO_ORDER && (o.status == EMPTY || o.status == REJECTED)
  }

  ghost predicate Agrees(cfg: Config, s: State)
    requires Shape(cfg, s)
  {
    forall i :: 0 <= i < cfg.maxOrders ==> AgreesAt(cfg, s, i)
  }

  ghost predicate Unnamed(trace: seq<Effect>, i: nat) {
    forall k :: 0 <= k < |trace| && trace[k].Logged? ==> trace[k].entry.orderIdx != i
  }

  // Submissions reach blank slots and fills reach logged orders.
  ghost predicate Plausible(s: State, ev: Event)
    requires InRange(s, ev)
  {
    && (ev.kind == SubmitOrder ==> s.orders[ev.orderIdx].status == EMPTY && Unnamed(s.trace, ev.orderIdx))
    && (ev.kind == FillOrder ==> HasNew(s.trace, ev.orderIdx))
  }

  predicate LegCancels(orders: seq<Order>, i: uint32) {
    0 < i < |orders| && IsCancellable(orders[i].status)
  }

  // The branches whose outcome the log does not tell: a submission the broker refuses, a cancel
  // that takes a leg with it, a replace that changes the terms, and a fill that leaves the
  // order incomplete. Orders never get legs (OrdersStayUnlinked in EngineLogs), and replaces are
  // never published, but the handlers have the branches.
  predicate Faithful(cfg: Config, s: State, ev: Event, env: Env)
    requires InRange(s, ev)
  {
    match ev.kind
    case SubmitOrder => RiskRejects(cfg, s, ev.qty) || !cfg.hasBroker || env.accepts
    case CancelOrder =>
      var o := s.orders[ev.orderIdx];
      var own := s.orders[ev.orderIdx := WithStatus(o, CANCELLED)];
      || !IsCancellable(o.status) || (cfg.hasBroker && !env.accepts)
      || (!LegCancels(own, o.linked1) && !LegCancels(own, o.linked2))
    case ReplaceOrder =>
      var o := s.orders[ev.orderIdx];
      || (o.status != ACKNOWLEDGED && o.status != PARTIAL_FILL)
      || ((ev.qty <= 0 || ev.qty == o.qty) && (ev.price <= 0 || ev.price == o.price))
    case FillOrder =>
      var o := s.orders[ev.orderIdx];
      Wrap32(o.filledQty + ev.qty) >= o.qty
    case KillSwitch => true
  }

  // ----- One more effect -----

  lemma RebuiltAfter(cfg: Config, trace: seq<Effect>, x: Effect, i: nat)
    requires i < cfg.maxOrders
    ensures Rebuilt(cfg, trace + [x], i) ==
      if x.Logged? && x.entry.orderIdx == i then OwnStep(Rebuilt(cfg, trace, i), x.entry)
      else Rebuilt(cfg, trace, i)
  {
    assert (trace + [x])[..|trace|] == trace;
    var es := LogOf(trace);
    if x.Logged? {
      assert (es + [x.entry])[..|es|] == es;
      hide OwnStep, LogOf;
    }
  }

  lemma HasNewAfter(trace: seq<Effect>, x: Effect, i: nat)
    ensures HasNew(trace + [x], i) <==>
      HasNew(trace, i) || (x.Logged? && x.entry.kind == ENTRY_NEW_ORDER && x.entry.orderIdx == i)
  {
    NewAtPrefix(trace, [x]);
    var u := trace + [x];
    if HasNew(trace, i) {
      var k :| NewAt(trace, k) && IdAt(trace, k) == i;
      assert NewAt(u, k) && IdAt(u, k) == i;
    }
    if x.Logged? && x.entry.kind == ENTRY_NEW_ORDER && x.entry.orderIdx == i {
      assert NewAt(u, |trace|) && IdAt(u, |trace|) == i;
    }
    if HasNew(u, i) {
      var k :| NewAt(u, k) && IdAt(u, k) == i;
      if k < |trace| { assert NewAt(trace, k) && IdAt(trace, k) == i; }
    }
  }

  // A slot that neither the event nor the log touches keeps agreeing or disagreeing.
  lemma UntouchedSlot(cfg: Config, s: State, t: State, x: Effect, i: nat)
    requires i < cfg.maxOrders == |s.orders| == |t.orders| && t.orders[i] == s.orders[i]
    requires t.trace == s.trace + [x] && (x.Logged? ==> x.entry.orderIdx != i)
    ensures AgreesAt(cfg, t, i) <==> AgreesAt(cfg, s, i)
  {
    RebuiltAfter(cfg, s.trace, x, i);
    HasNewAfter(s.trace, x, i);
    hide Rebuilt, HasNew, SameStored;
  }

  lemma SameSlot(cfg: Config, s: State, t: State, i: nat)
    requires i < cfg.maxOrders == |s.orders| == |t.orders| && t.orders[i] == s.orders[i] && t.trace == s.trace
    ensures AgreesAt(cfg, t, i) <==> AgreesAt(cfg, s, i)
  {
    hide Rebuilt, HasNew, SameStored;
  }

  lemma UnnamedHasNoNew(trace: seq<Effect>, i: nat)
    requires Unnamed(trace, i)
    ensures !HasNew(trace, i)
  {
  }

  // ----- Submit -----

  lemma SubmitSlot(cfg: Config, s: State, ev: Event, env: Env)
    requires cfg.hasWal && Shape(cfg, s) && ev.kind == SubmitOrder && ev.orderIdx < |s.orders|
    requires AgreesAt(cfg, s, ev.orderIdx) && Plausible(s, ev)
    ensures AgreesAt(cfg, ProcessSubmit(cfg, s, ev, env), ev.orderIdx) <==> Faithful(cfg, s, ev, env)
  {
    var i := ev.orderIdx;
    var o := Built(s.orders[i], ev);
    var t := ProcessSubmit(cfg, s, ev, env);
    UnnamedHasNoNew(s.trace, i);
    if RiskRejects(cfg, s, o.qty) {
      hide Rebuilt, HasNew, RiskRejects;
    } else {
      var record := Logged(NewOrderEntry(ev, o));
      var logged := s.trace + [record];
      RebuiltAfter(cfg, s.trace, record, i);
      HasNewAfter(s.trace, record, i);
      RebuiltAfter(cfg, logged, Sent(Pending(o, env.now)), i);
      HasNewAfter(logged, Sent(Pending(o, env.now)), i);
      PayloadRoundTrip(o, NO_ORDER);
      hide Rebuilt, HasNew, RiskRejects, DecodeOrder, EncodeOrder;
      assert Rebuilt(cfg, t.trace, i) == OwnStep(NO_ORDER, NewOrderEntry(ev, o));
    }
  }

  lemma SubmitElsewhere(cfg: Config, s: State, ev: Event, env: Env, i: nat)
    requires cfg.hasWal && Shape(cfg, s) && ev.orderIdx < |s.orders|
    requires i < |s.orders| && i != ev.orderIdx && AgreesAt(cfg, s, i)
    ensures AgreesAt(cfg, ProcessSubmit(cfg, s, ev, env), i)
  {
    var o := Built(s.orders[ev.orderIdx], ev);
    var t := ProcessSubmit(cfg, s, ev, env);
    hide AgreesAt, EncodeOrder, Built;
    if RiskRejects(cfg, s, o.qty) {
      SameSlot(cfg, s, t, i);
    } else {
      var record := Logged(NewOrderEntry(ev, o));
      var mid := t.(trace := s.trace + [record]);
      UntouchedSlot(cfg, s, mid, record, i);
      if cfg.hasBroker {
        UntouchedSlot(cfg, mid, t, Sent(Pending(o, env.now)), i);
      }
    }
  }

  // ----- Cancel -----

  lemma CancelSlot(cfg: Config, s: State, ev: Event, env: Env)
    requires cfg.hasWal && Shape(cfg, s) && ev.orderIdx < |s.orders| && AgreesAt(cfg, s, ev.orderIdx)
    ensures AgreesAt(cfg, ProcessCancel(cfg, s, ev, env), ev.orderIdx)
  {
    var i := ev.orderIdx;
    var o := s.orders[i];
    var record := Logged(Entry(ENTRY_CANCEL, i, env.later, []));
    RebuiltAfter(cfg, s.trace, record, i);
    HasNewAfter(s.trace, record, i);
    hide Rebuilt, HasNew;
    if IsCancellable(o.status) {
      assert o.status == ACKNOWLEDGED;
      if !(cfg.hasBroker && !env.accepts) {
        var own := s.orders[i := WithStatus(o, CANCELLED)];
        LegKeepsCancelled(own, o.linked1, i);
        LegKeepsCancelled(CancelLinked(own, o.linked1), o.linked2, i);
        hide CancelLinked;
      }
    }
  }

  lemma LegKeepsCancelled(orders: seq<Order>, leg: uint32, i: nat)
    requires (leg == 0 || leg < |orders|) && i < |orders| && orders[i].status == CANCELLED
    ensures CancelLinked(orders, leg)[i] == orders[i]
  {
  }

  // Slots other than the cancelled one agree exactly when no leg was cancelled with it.
  lemma CancelElsewhere(cfg: Config, s: State, ev: Event, env: Env, i: nat)
    requires cfg.hasWal && Shape(cfg, s) && ev.orderIdx < |s.orders|
    requires i < |s.orders| && i != ev.orderIdx && AgreesAt(cfg, s, i)
    requires IsCancellable(s.orders[ev.orderIdx].status) && !(cfg.hasBroker && !env.accepts)
    ensures var o := s.orders[ev.orderIdx];
      var own := s.orders[ev.orderIdx := WithStatus(o, CANCELLED)];
      AgreesAt(cfg, ProcessCancel(cfg, s, ev, env), i) <==>
        !((o.linked1 == i || o.linked2 == i) && LegCancels(own, i))
  {
    var o := s.orders[ev.orderIdx];
    var t := ProcessCancel(cfg, s, ev, env);
    var record := Logged(Entry(ENTRY_CANCEL, ev.orderIdx, env.later, []));
    var mid := s.(trace := t.trace);
    UntouchedSlot(cfg, s, mid, record, i);
    hide Rebuilt, HasNew;
    if t.orders[i] == s.orders[i] {
      SameSlot(cfg, mid, t, i);
    } else {
      assert t.orders[i].status == CANCELLED && s.orders[i].status != CANCELLED;
    }
  }

  lemma CancelAgreesIff(cfg: Config, s: State, ev: Event, env: Env)
    requires cfg.hasWal && Shape(cfg, s) && Agrees(cfg, s) && ev.kind == CancelOrder && ev.orderIdx < |s.orders|
    ensures Shape(cfg, ProcessCancel(cfg, s, ev, env))
    ensures Agrees(cfg, ProcessCancel(cfg, s, ev, env)) <==> Faithful(cfg, s, ev, env)
  {
    var t := ProcessCancel(cfg, s, ev, env);
    CancelKeepsShape(cfg, s, ev, env);
    CancelSlot(cfg, s, ev, env);
    var o := s.orders[ev.orderIdx];
    var own := s.orders[ev.orderIdx := WithStatus(o, CANCELLED)];
    if IsCancellable(o.status) && !(cfg.hasBroker && !env.accepts) {
      forall i | 0 <= i < cfg.maxOrders && i != ev.orderIdx
        ensures AgreesAt(cfg, t, i) <==> !((o.linked1 == i || o.linked2 == i) && LegCancels(own, i))
      {
        CancelElsewhere(cfg, s, ev, env, i);
      }
      hide AgreesAt, ProcessCancel, LinksInRange;
      assert !LegCancels(own, ev.orderIdx);
      if LegCancels(own, o.linked1) { assert !AgreesAt(cfg, t, o.linked1); }
      if LegCancels(own, o.linked2) { assert !AgreesAt(cfg, t, o.linked2); }
    } else {
      forall i | 0 <= i < cfg.maxOrders && i != ev.orderIdx
        ensures AgreesAt(cfg, t, i)
      {
        SameSlot(cfg, s, t, i);
      }
      hide AgreesAt;
    }
  }

  // ----- Replace and fill -----

  lemma ReplaceSlot(cfg: Config, s: State, ev: Event, env: Env)
    requires Shape(cfg, s) && ev.kind == ReplaceOrder && ev.orderIdx < |s.orders|
    requires AgreesAt(cfg, s, ev.orderIdx)
    ensures AgreesAt(cfg, ProcessReplace(s, ev), ev.orderIdx) <==> Faithful(cfg, s, ev, env)
  {
    hide Rebuilt, HasNew;
  }

  lemma FilledAgreesIff(r: Order, o: Order, qty: int32, px: int64, now: int64)
    requires SameStored(r, o)
    ensures var p := Filled(o, qty, px, now);
      SameStored(WithStatus(r, FILLED), p) && (p.status == ACKNOWLEDGED || p.status == CANCELLED || p.status == FILLED)
      <==> Wrap32(o.filledQty + qty) >= o.qty
  {
    hide NewAverage, Wrap32;
  }

  lemma FillOutcome(cfg: Config, s: State, ev: Event, env: Env)
    requires cfg.hasWal && Shape(cfg, s) && ev.orderIdx < |s.orders|
    ensures var i, t := ev.orderIdx, ProcessFill(cfg, s, ev, env);
      && |t.orders| == |s.orders| && t.orders[i] == Filled(s.orders[i], ev.qty, ev.price, env.now)
      && t.trace == s.trace + [Logged(Entry(ENTRY_FILL, i, env.later, []))]
  {
    hide Filled, HashSymbol, Moved, LinksInRange;
  }

  lemma FillSlot(cfg: Config, s: State, ev: Event, env: Env)
    requires cfg.hasWal && Shape(cfg, s) && ev.kind == FillOrder && ev.orderIdx < |s.orders|
    requires AgreesAt(cfg, s, ev.orderIdx) && HasNew(s.trace, ev.orderIdx)
    ensures AgreesAt(cfg, ProcessFill(cfg, s, ev, env), ev.orderIdx) <==> Faithful(cfg, s, ev, env)
  {
    hide ProcessFill, Filled, Rebuilt, HasNew, LinksInRange, SameStored, Wrap32, HashSymbol, DecodeOrder;
    var i := ev.orderIdx;
    var record := Logged(Entry(ENTRY_FILL, i, env.later, []));
    FillOutcome(cfg, s, ev, env);
    RebuiltAfter(cfg, s.trace, record, i);
    HasNewAfter(s.trace, record, i);
    FilledAgreesIff(Rebuilt(cfg, s.trace, i), s.orders[i], ev.qty, ev.price, env.now);
  }

  lemma FillElsewhere(cfg: Config, s: State, ev: Event, env: Env, i: nat)
    requires cfg.hasWal && Shape(cfg, s) && ev.orderIdx < |s.orders|
    requires i < |s.orders| && i != ev.orderIdx && AgreesAt(cfg, s, i)
    ensures AgreesAt(cfg, ProcessFill(cfg, s, ev, env), i)
  {
    hide AgreesAt, NewAverage, HashSymbol, Wrap32, Moved;
    UntouchedSlot(cfg, s, ProcessFill(cfg, s, ev, env), Logged(Entry(ENTRY_FILL, ev.orderIdx, env.later, [])), i);
  }

  // ----- One event -----

  // When the log agrees with the engine before an event, it agrees after it exactly when the
  // event takes none of the branches the log does not record.
  lemma ReplayFollowsIff(cfg: Config, s: State, ev: Event, env: Env)
    requires cfg.hasWal && Shape(cfg, s) && InRange(s, ev) && Agrees(cfg, s) && Plausible(s, ev)
    ensures Shape(cfg, Process(cfg, s, ev, env))
    ensures Agrees(cfg, Process(cfg, s, ev, env)) <==> Faithful(cfg, s, ev, env)
  {
    ProcessKeepsShape(cfg, s, ev, env);
    var t := Process(cfg, s, ev, env);
    match ev.kind
    case SubmitOrder =>
      SubmitSlot(cfg, s, ev, env);
      forall i | 0 <= i < cfg.maxOrders && i != ev.orderIdx
        ensures AgreesAt(cfg, t, i)
      {
        SubmitElsewhere(cfg, s, ev, env, i);
      }
      hide AgreesAt, ProcessSubmit, Faithful, LinksInRange;
    case CancelOrder => CancelAgreesIff(cfg, s, ev, env);
    case ReplaceOrder =>
      ReplaceSlot(cfg, s, ev, env);
      forall i | 0 <= i < cfg.maxOrders && i != ev.orderIdx
        ensures AgreesAt(cfg, t, i)
      {
        SameSlot(cfg, s, t, i);
      }
      hide AgreesAt, ProcessReplace, Faithful, LinksInRange;
    case FillOrder =>
      FillSlot(cfg, s, ev, env);
      forall i | 0 <= i < cfg.maxOrders && i != ev.orderIdx
        ensures AgreesAt(cfg, t, i)
      {
        FillElsewhere(cfg, s, ev, env, i);
      }
      hide AgreesAt, ProcessFill, Faithful, LinksInRange;
    case KillSwitch =>
      forall i | 0 <= i < cfg.maxOrders
        ensures AgreesAt(cfg, t, i)
      {
        SameSlot(cfg, s, t, i);
      }
      hide AgreesAt, LinksInRange;
  }

  // ----- Runs -----

  ghost predicate UnusedAreUnnamed(w: World) {
    forall i :: 0 <= i < |w.eng.orders| && Unused(w, i) ==> Unnamed(w.eng.trace, i)
  }

  // An order image that replays to a live or final status.
  predicate GoodImage(e: Entry) {
    && e.kind == ENTRY_NEW_ORDER && |e.data| >= PAYLOAD_SIZE
    && (Acked(e.data[7]) == ACKNOWLEDGED || Acked(e.data[7]) == CANCELLED || Acked(e.data[7]) == FILLED)
  }

  // A log the engine can have written: its order images are good, and cancels and fills name
  // orders it holds.
  ghost predicate Grounded(cfg: Config, trace: seq<Effect>) {
    forall k :: 0 <= k < |trace| && trace[k].Logged? && trace[k].entry.orderIdx < cfg.maxOrders ==>
      && HasNew(trace, trace[k].entry.orderIdx)
      && (trace[k].entry.kind == ENTRY_NEW_ORDER ==> GoodImage(trace[k].entry))
  }

  ghost predicate InStep(cfg: Config, b: nat, w: World) {
    && Inv(cfg, b, w) && UnusedAreEmpty(w) && UnusedAreUnnamed(w)
    && Grounded(cfg, w.eng.trace) && Agrees(cfg, w.eng)
  }

  // Every event processed is faithful; the turn a crash cuts short may be anything.
  predicate FaithfulRun(cfg: Config, ws: seq<World>, acts: seq<Action>)
    requires |ws| == |acts| + 1
  {
    forall k :: 0 <= k < |acts| && acts[k].EventTurn? && ws[k].queue != [] && InRange(ws[k].eng, ws[k].queue[0]) ==>
      Faithful(cfg, ws[k].eng, ws[k].queue[0], acts[k].env)
  }

  lemma HeadIsPlausible(cfg: Config, b: nat, w: World)
    requires InStep(cfg, b, w) && w.queue != []
    ensures InRange(w.eng, w.queue[0]) && Plausible(w.eng, w.queue[0])
  {
    var ev := w.queue[0];
    if ev.kind == SubmitOrder {
      assert SubmitAt(w, 0);
      assert Unused(w, ev.orderIdx);
    } else if ev.kind == FillOrder {
      SentHasNew(cfg, b, w.eng.trace, ev.orderIdx);
    }
    hide Agrees;
  }

  lemma SentHasNew(cfg: Config, b: nat, trace: seq<Effect>, id: uint32)
    requires TraceOk(cfg, b, trace) && WasSent(trace, id)
    ensures HasNew(trace, id)
  {
    var k :| 0 <= k < |trace| && trace[k].Sent? && trace[k].order.id == id;
    assert RecordOf(trace[k - 1], trace[k].order);
    assert NewAt(trace, k - 1) && IdAt(trace, k - 1) == id;
  }

  // The only slot an event can name in the log is its own, and a cancel names it only when it
  // is not empty.
  lemma NamesOwnSlot(cfg: Config, s: State, ev: Event, env: Env, i: nat)
    requires Shape(cfg, s) && InRange(s, ev) && Unnamed(s.trace, i) && i < |s.orders|
    requires s.orders[i].status == EMPTY
    requires ev.orderIdx == i ==> ev.kind != SubmitOrder && ev.kind != FillOrder
    ensures Unnamed(Process(cfg, s, ev, env).trace, i)
  {
    hide NewAverage, HashSymbol, Settled, CancelLinked, EncodeOrder, RiskRejects, LinksInRange;
  }

  lemma StepKeepsUnnamed(cfg: Config, b: nat, w: World, a: Action)
    requires InStep(cfg, b, w) && Enabled(cfg, w, a) && !a.CrashAndRestart?
    ensures UnusedAreUnnamed(Step(cfg, w, a))
  {
    var v := Step(cfg, w, a);
    forall i | 0 <= i < |v.eng.orders| && Unused(v, i)
      ensures Unnamed(v.eng.trace, i)
    {
      UnusedShrinks(cfg, b, w, a, i);
      if a.EventTurn? && w.queue != [] {
        ProcessKeepsShape(cfg, w.eng, w.queue[0], a.env);
        if w.queue[0].kind == FillOrder { SentIsUsed(cfg, b, w, w.queue[0].orderIdx); }
        if w.queue[0].kind == SubmitOrder { assert SubmitAt(w, 0); }
        hide Inv, Unused, Process, Agrees, Unnamed;
        NamesOwnSlot(cfg, w.eng, w.queue[0], a.env, i);
      }
      hide Inv, Unused, Process, Agrees, Unnamed;
    }
  }

  // ----- The log stays grounded -----

  lemma GroundedAfter(cfg: Config, trace: seq<Effect>, x: Effect)
    requires Grounded(cfg, trace)
    requires x.Logged? ==> GoodImage(x.entry) || (x.entry.kind != ENTRY_NEW_ORDER && HasNew(trace, x.entry.orderIdx))
    ensures Grounded(cfg, trace + [x])
  {
    var u := trace + [x];
    forall k | 0 <= k < |u| && u[k].Logged? && u[k].entry.orderIdx < cfg.maxOrders
      ensures HasNew(u, u[k].entry.orderIdx)
      ensures u[k].entry.kind == ENTRY_NEW_ORDER ==> GoodImage(u[k].entry)
    {
      HasNewAfter(trace, x, u[k].entry.orderIdx);
      hide HasNew;
      if k < |trace| { assert u[k] == trace[k]; }
    }
  }

  lemma NewImageIsGood(ev: Event, o: Order)
    requires o.status == NEW
    ensures GoodImage(NewOrderEntry(ev, o))
  {
    PayloadLayout(o);
    hide EncodeOrder;
  }

  // An order that is neither empty nor rejected has a new-order record.
  ghost predicate LiveIsLogged(s: State) {
    forall i :: 0 <= i < |s.orders| ==> LiveAt(s, i)
  }

  ghost predicate LiveAt(s: State, i: nat)
    requires i < |s.orders|
  {
    s.orders[i].status != EMPTY && s.orders[i].status != REJECTED ==> HasNew(s.trace, i)
  }

  lemma AgreementIsLive(cfg: Config, s: State)
    requires Shape(cfg, s) && Agrees(cfg, s)
    ensures LiveIsLogged(s)
  {
    forall i | 0 <= i < |s.orders|
      ensures LiveAt(s, i)
    {
      assert AgreesAt(cfg, s, i);
      hide HasNew, Rebuilt, SameStored;
    }
  }

  ghost predicate FillsLogged(s: State, ev: Event) {
    ev.kind == FillOrder ==> HasNew(s.trace, ev.orderIdx)
  }

  lemma RecordIsGrounded(cfg: Config, s: State, ev: Event, env: Env)
    requires cfg.hasWal && Shape(cfg, s) && InRange(s, ev) && LiveIsLogged(s) && FillsLogged(s, ev)
    requires |Process(cfg, s, ev, env).trace| > |s.trace|
    ensures var x := Process(cfg, s, ev, env).trace[|s.trace|];
      x.Logged? && (GoodImage(x.entry) || (x.entry.kind != ENTRY_NEW_ORDER && HasNew(s.trace, x.entry.orderIdx)))
  {
    assert ev.kind != KillSwitch ==> LiveAt(s, ev.orderIdx);
    if ev.kind == SubmitOrder { NewImageIsGood(ev, Built(s.orders[ev.orderIdx], ev)); }
    hide HasNew, GoodImage, NewAverage, HashSymbol, Settled, CancelLinked, EncodeOrder, RiskRejects, LinksInRange;
  }

  // The effects of one event, and any first part of them.
  lemma TurnStaysGrounded(cfg: Config, s: State, ev: Event, env: Env, cut: nat)
    requires cfg.hasWal && Shape(cfg, s) && InRange(s, ev) && LiveIsLogged(s) && FillsLogged(s, ev)
    requires Grounded(cfg, s.trace) && |s.trace| <= cut <= |Process(cfg, s, ev, env).trace|
    ensures Grounded(cfg, Process(cfg, s, ev, env).trace[..cut])
  {
    hide Grounded, LiveIsLogged, FillsLogged, LinksInRange;
    TraceGrowth(cfg, s, ev, env);
    var t, n := Process(cfg, s, ev, env).trace, |s.trace|;
    if cut > n { RecordIsGrounded(cfg, s, ev, env); }
    hide Process, GoodImage, HasNew;
    assert t[..n] == s.trace;
    if cut > n {
      assert t[..n + 1] == s.trace + [t[n]];
      GroundedAfter(cfg, s.trace, t[n]);
    }
    if cut > n + 1 {
      assert t[..n + 2] == t[..n + 1] + [t[n + 1]];
      GroundedAfter(cfg, t[..n + 1], t[n + 1]);
    }
  }

  lemma HasNewLonger(trace: seq<Effect>, more: seq<Effect>, i: nat)
    requires HasNew(trace, i)
    ensures HasNew(trace + more, i)
  {
    NewAtPrefix(trace, more);
    var k :| NewAt(trace, k) && IdAt(trace, k) == i;
    assert NewAt(trace + more, k) && IdAt(trace + more, k) == i;
  }

  // A slot that an event makes live was logged before, or is logged by the event.
  lemma EventMakesLive(cfg: Config, s: State, ev: Event, env: Env, i: nat)
    requires cfg.hasWal && Shape(cfg, s) && InRange(s, ev) && i < |s.orders|
    requires ev.kind == FillOrder ==> HasNew(s.trace, ev.orderIdx)
    ensures |Process(cfg, s, ev, env).orders| == |s.orders|
    ensures var o, t := Process(cfg, s, ev, env).orders[i], Process(cfg, s, ev, env).trace;
      o.status != EMPTY && o.status != REJECTED ==>
        || (s.orders[i].status != EMPTY && s.orders[i].status != REJECTED)
        || HasNew(s.trace, i)
        || (|t| > |s.trace| && NewAt(t, |s.trace|) && IdAt(t, |s.trace|) == i)
  {
    hide HasNew, NewAverage, HashSymbol, Settled, EncodeOrder, RiskRejects, LinksInRange;
  }

  lemma EventKeepsLive(cfg: Config, s: State, ev: Event, env: Env)
    requires cfg.hasWal && Shape(cfg, s) && InRange(s, ev) && LiveIsLogged(s) && FillsLogged(s, ev)
    ensures LiveIsLogged(Process(cfg, s, ev, env))
  {
    hide LinksInRange;
    var t := Process(cfg, s, ev, env);
    TraceGrowth(cfg, s, ev, env);
    assert s.trace + t.trace[|s.trace|..] == t.trace;
    forall i | 0 <= i < |t.orders|
      ensures LiveAt(t, i)
    {
      EventMakesLive(cfg, s, ev, env, if i < |s.orders| then i else 0);
      hide Process, HasNew;
      assert LiveAt(s, i);
      if HasNew(s.trace, i) { HasNewLonger(s.trace, t.trace[|s.trace|..], i); }
      if NewAt(t.trace, |s.trace|) && IdAt(t.trace, |s.trace|) == i { NewIsHad(t.trace, |s.trace|); }
    }
  }

  lemma NewIsHad(trace: seq<Effect>, k: nat)
    requires NewAt(trace, k)
    ensures HasNew(trace, IdAt(trace, k))
  {
  }

  // ----- Restart -----

  lemma {:induction false} LogNames(trace: seq<Effect>, i: nat)
    requires Unnamed(trace, i)
    ensures forall p :: 0 <= p < |LogOf(trace)| ==> LogOf(trace)[p].orderIdx != i
    decreases |trace|
  {
    if trace != [] { LogNames(trace[..|trace| - 1], i); }
  }

  lemma NotNewIsUnnamed(cfg: Config, trace: seq<Effect>, i: nat)
    requires Grounded(cfg, trace) && i < cfg.maxOrders && !HasNew(trace, i)
    ensures Unnamed(trace, i)
  {
    hide HasNew;
  }

  // Replaying a good image, and then anything, leaves a live or final status.
  lemma GoodImageComesBack(o: Order, i: nat, es: seq<Entry>, k: nat)
    requires k < |es| && es[k].orderIdx == i && GoodImage(es[k])
    requires forall p :: 0 <= p < |es| && es[p].orderIdx == i && es[p].kind == ENTRY_NEW_ORDER ==> GoodImage(es[p])
    ensures var s := OwnReplay(o, i, es).status; s == ACKNOWLEDGED || s == CANCELLED || s == FILLED
  {
    LastSettersWin(o, i, es);
    var j := LastStatus(i, es);
    assert SetsStatus(es[k], i) && j >= k;
    hide OwnReplay, LastStatus, LastImage, DecodeOrder, NamesNewOrder;
    assert SetsStatus(es[j], i);
  }

  lemma RecoveredSlotAgrees(cfg: Config, trace: seq<Effect>, i: nat)
    requires Grounded(cfg, trace) && i < cfg.maxOrders
    ensures AgreesAt(cfg, Recovered(cfg, trace), i)
    ensures !HasNew(trace, i) ==> Recovered(cfg, trace).orders[i].status == EMPTY
  {
    var es := LogOf(trace);
    ReplayIsSlotLocal(FreshStore(cfg), es, i);
    hide ReplayAll;
    if HasNew(trace, i) {
      var k :| NewAt(trace, k) && IdAt(trace, k) == i;
      LogHolds(trace, k);
      var p :| 0 <= p < |es| && es[p] == trace[k].entry;
      forall q | 0 <= q < |es| && es[q].orderIdx == i && es[q].kind == ENTRY_NEW_ORDER
        ensures GoodImage(es[q])
      {
        var m := LogComesFrom(trace, q);
        hide GoodImage, HasNew;
      }
      hide LogOf, OwnReplay, HasNew;
      GoodImageComesBack(NO_ORDER, i, es, p);
    } else {
      NotNewIsUnnamed(cfg, trace, i);
      LogNames(trace, i);
      UnnamedSlotIsUntouched(NO_ORDER, i, es);
    }
  }

  // A restart rebuilds the engine from the log, and so agrees with it.
  lemma RecoveryIsInStep(cfg: Config, b: nat, trace: seq<Effect>)
    requires cfg.hasWal && TraceOk(cfg, b, trace) && Grounded(cfg, trace)
    ensures InStep(cfg, b, World(Recovered(cfg, trace), []))
  {
    var w := World(Recovered(cfg, trace), []);
    RecoveryKeepsInv(cfg, b, trace);
    forall i | 0 <= i < cfg.maxOrders
      ensures AgreesAt(cfg, w.eng, i)
      ensures Unused(w, i) ==> Unnamed(trace, i) && w.eng.orders[i].status == EMPTY
    {
      RecoveredSlotAgrees(cfg, trace, i);
      if Unused(w, i) {
        UnusedIsNotNew(cfg, b, w, i);
        NotNewIsUnnamed(cfg, trace, i);
      }
      hide AgreesAt, Unused, Unnamed, Recovered, Grounded, HasNew, Inv, TraceOk;
    }
    hide AgreesAt, Unused, Unnamed, Grounded, Inv, TraceOk, ReplayAll;
  }

  lemma UnusedIsNotNew(cfg: Config, b: nat, w: World, i: nat)
    requires Inv(cfg, b, w) && w.queue == [] && i < cfg.maxOrders && Unused(w, i)
    ensures !HasNew(w.eng.trace, i)
  {
    hide TraceOk, QueueOk, LinksInRange;
  }

  lemma TurnKeepsGrounded(cfg: Config, b: nat, w: World, env: Env, cut: nat)
    requires InStep(cfg, b, w) && Ready(cfg, w) && |w.eng.trace| <= cut <= |Turn(cfg, w, env).eng.trace|
    ensures Grounded(cfg, Turn(cfg, w, env).eng.trace[..cut])
  {
    if w.queue != [] {
      HeadIsPlausible(cfg, b, w);
      AgreementIsLive(cfg, w.eng);
      TurnStaysGrounded(cfg, w.eng, w.queue[0], env, cut);
      hide Process, Grounded, Agrees, Plausible;
    } else {
      assert w.eng.trace[..cut] == w.eng.trace;
    }
  }

  lemma RestartStaysInStep(cfg: Config, b: nat, w: World, a: Action)
    requires InStep(cfg, b, w) && Enabled(cfg, w, a) && a.CrashAndRestart?
    ensures InStep(cfg, b, Step(cfg, w, a))
  {
    TurnKeepsGrounded(cfg, b, w, a.env, a.cut);
    TurnKeepsInv(cfg, b, w, a.env);
    var t := Turn(cfg, w, a.env).eng.trace;
    hide Turn, Grounded, Agrees, UnusedAreEmpty, UnusedAreUnnamed, Recovered;
    TracePrefixOk(cfg, b, t, a.cut);
    RecoveryIsInStep(cfg, b, t[..a.cut]);
  }

  lemma SameEngineAgrees(cfg: Config, s: State, t: State)
    requires Shape(cfg, s) && Agrees(cfg, s) && t.orders == s.orders && t.trace == s.trace && Shape(cfg, t)
    ensures Agrees(cfg, t)
  {
    forall i | 0 <= i < cfg.maxOrders
      ensures AgreesAt(cfg, t, i)
    {
      SameSlot(cfg, s, t, i);
    }
    hide AgreesAt;
  }

  lemma TurnAgrees(cfg: Config, b: nat, w: World, env: Env)
    requires InStep(cfg, b, w) && w.queue != [] && Ready(cfg, w) && Faithful(cfg, w.eng, w.queue[0], env)
    ensures var v := Turn(cfg, w, env);
      Shape(cfg, v.eng) && Agrees(cfg, v.eng) && Grounded(cfg, v.eng.trace)
  {
    var v := Turn(cfg, w, env);
    HeadIsPlausible(cfg, b, w);
    TraceGrowth(cfg, w.eng, w.queue[0], env);
    hide Process, TraceOk, QueueOk, IdsOk, UnusedAreEmpty, UnusedAreUnnamed, Agrees, Plausible, Faithful, Grounded;
    TurnKeepsGrounded(cfg, b, w, env, |v.eng.trace|);
    assert v.eng.trace[..|v.eng.trace|] == v.eng.trace;
    ReplayFollowsIff(cfg, w.eng, w.queue[0], env);
  }

  lemma StepStaysInStep(cfg: Config, b: nat, w: World, a: Action)
    requires InStep(cfg, b, w) && Enabled(cfg, w, a) && !a.CrashAndRestart?
    requires a.EventTurn? && w.queue != [] ==> Faithful(cfg, w.eng, w.queue[0], a.env)
    ensures InStep(cfg, b, Step(cfg, w, a))
  {
    StepKeepsInv(cfg, b, w, a);
    StepKeepsEmpty(cfg, b, w, a);
    StepKeepsUnnamed(cfg, b, w, a);
    hide Process, TraceOk, QueueOk, IdsOk, UnusedAreEmpty, UnusedAreUnnamed, Agrees, Faithful, Grounded, LinksInRange;
    if a.EventTurn? && w.queue != [] {
      TurnAgrees(cfg, b, w, a.env);
    } else {
      SameEngineAgrees(cfg, w.eng, Step(cfg, w, a).eng);
    }
  }

  lemma {:induction false} RunStaysInStep(cfg: Config, b: nat, ws: seq<World>, acts: seq<Action>, n: nat)
    requires IsRun(cfg, ws, acts) && InStep(cfg, b, ws[0]) && n < |ws| && FaithfulRun(cfg, ws, acts)
    ensures InStep(cfg, b, ws[n])
    decreases n
  {
    if n > 0 {
      RunStaysInStep(cfg, b, ws, acts, n - 1);
      var w, a := ws[n - 1], acts[n - 1];
      assert Enabled(cfg, w, a) && ws[n] == Step(cfg, w, a);
      if a.EventTurn? && w.queue != [] { HeadIsPlausible(cfg, b, w); }
      hide InStep, Step, Faithful;
      if a.CrashAndRestart? {
        RestartStaysInStep(cfg, b, w, a);
      } else {
        StepStaysInStep(cfg, b, w, a);
      }
    }
  }

  // In a run of faithful events, from any log the engine can have written and over any number
  // of restarts, replaying the log at any point gives every logged order its live stored fields
  // and status, and the slots not in the log are exactly the empty and risk-rejected ones.
  lemma ReplaySimulatesEngine(cfg: Config, es: seq<Entry>, ws: seq<World>, acts: seq<Action>, n: nat)
    requires cfg.hasWal && AllFit(es) && Grounded(cfg, Past(es))
    requires IsRun(cfg, ws, acts) && ws[0] == Opened(cfg, es) && n < |ws| && FaithfulRun(cfg, ws, acts)
    ensures InStep(cfg, |es|, ws[n])
  {
    hide InStep, IsRun, FaithfulRun, Grounded, TraceOk;
    OpenedTraceOk(cfg, es);
    RecoveryIsInStep(cfg, |es|, Past(es));
    RunStaysInStep(cfg, |es|, ws, acts, n);
  }
}
