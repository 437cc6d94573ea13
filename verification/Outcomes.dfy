/**
 * What every turn of a run does to the order it is for, by the status and record codes of the
 * source: statuses are 0 empty, 1 new, 2 pending, 3 acknowledged, 4 partly filled, 5 filled,
 * 7 cancelled, 8 rejected and 9 held; records are 1 new order, 2 cancel and 3 fill.
 */
module Outcomes {
  import opened Averages
  import opened Conservation
  import opened Engine
  import opened EngineLogs
  import opened Guarantees
  import opened Orders
  import opened Pipeline
  import opened Replay
  import opened Runs
  import opened Simulation
  import opened Wal
  import opened Words

  predicate Live(st: Status) {
    st == 3 || st == 4
  }

  predicate AtRest(orders: seq<Order>) {
    forall i :: 0 <= i < |orders| ==>
      var st := orders[i].status; st == 0 || Live(st) || st == 5 || st == 7 || st == 8
  }

  predicate CanBeCancelled(st: Status) {
    st == 1 || st == 2 || Live(st) || st == 9
  }

  predicate BrokerRefuses(cfg: Config, env: Env) {
    cfg.hasBroker && !env.accepts
  }

  function Records(cfg: Config, kind: byte, i: uint32, time: int64): seq<Effect> {
    if cfg.hasWal then [Logged(Entry(kind, i, time, []))] else []
  }

  // ----- One event, in any state -----

  // A leg, unless it is slot 0, goes with the order it hangs on.
  predicate GoesAlong(o: Order, j: nat, leg: Order) {
    j != 0 && (o.linked1 == j || o.linked2 == j) && CanBeCancelled(leg.status)
  }

  lemma CancelOutcome(cfg: Config, s: State, ev: Event, env: Env)
    requires Shape(cfg, s) && ev.orderIdx < |s.orders|
    ensures var i, t := ev.orderIdx, ProcessCancel(cfg, s, ev, env);
      var o := s.orders[i];
      && t == s.(orders := t.orders, trace := t.trace) && |t.orders| == |s.orders|
      && (!CanBeCancelled(o.status) ==> t == s)
      && (CanBeCancelled(o.status) && BrokerRefuses(cfg, env) ==> t == s.(orders := s.orders[i := o.(status := 3)]))
      && (CanBeCancelled(o.status) && !BrokerRefuses(cfg, env) ==>
           && t.trace == s.trace + Records(cfg, 2, i, env.later)
           && t.orders[i] == o.(status := 7)
           && forall j :: 0 <= j < |s.orders| && j != i ==>
                t.orders[j] == if GoesAlong(o, j, s.orders[j]) then s.orders[j].(status := 7) else s.orders[j])
  {
    CancelKeepsShape(cfg, s, ev, env);
    var i := ev.orderIdx;
    var o := s.orders[i];
    assert IsCancellable(o.status) <==> CanBeCancelled(o.status);
    if IsCancellable(o.status) && !BrokerRefuses(cfg, env) {
      var own := s.orders[i := o.(status := 7)];
      var t := ProcessCancel(cfg, s, ev, env);
      forall j | 0 <= j < |s.orders|
        ensures t.orders[j] ==
          if j == i then o.(status := 7)
          else if GoesAlong(o, j, s.orders[j]) then s.orders[j].(status := 7) else s.orders[j]
      {
        LegOutcome(own, o.linked1, j);
        LegOutcome(CancelLinked(own, o.linked1), o.linked2, j);
        hide CancelLinked;
      }
    }
    hide CancelLinked, LinksInRange;
  }

  lemma LegOutcome(orders: seq<Order>, leg: uint32, j: nat)
    requires (leg == 0 || leg < |orders|) && j < |orders|
    ensures CancelLinked(orders, leg)[j] ==
      if leg != 0 && j == leg && CanBeCancelled(orders[j].status) then orders[j].(status := 7) else orders[j]
  {
  }

  // The order a submission turns a blank slot into.
  function Placed(ev: Event, st: Status, sentAt: int64): Order {
    Order(ev.orderIdx, ev.symbol, ev.strategy, ev.side, ev.ordType, ev.tif, st, ev.qty, 0, ev.price,
      ev.stopPrice, ev.trailType, Wrap32(ev.trailVal), 0, 0, 0, 0, ev.timestamp, sentAt, 0)
  }

  lemma SubmitOutcome(cfg: Config, s: State, ev: Event, env: Env)
    requires ev.kind == SubmitOrder && ev.orderIdx < |s.orders| && s.orders[ev.orderIdx] == NO_ORDER
    ensures var i, t := ev.orderIdx, ProcessSubmit(cfg, s, ev, env);
      && (!Passes(cfg, s, ev) ==> t == s.(orders := s.orders[i := Placed(ev, 8, 0)]))
      && (Passes(cfg, s, ev) ==>
           var st := if BrokerRefuses(cfg, env) then 8 else 3;
           t == s.(
             orders := s.orders[i := Placed(ev, st, env.now)],
             trace := s.trace
               + (if cfg.hasWal then [Logged(Entry(1, i, ev.timestamp, EncodeOrder(Placed(ev, 1, 0))))] else [])
               + (if cfg.hasBroker then [Sent(Placed(ev, 2, env.now))] else [])))
  {
    hide EncodeOrder, Wrap32, Wrap64;
  }

  // The filled quantity grows as a 32-bit word, the order is complete exactly when it reaches
  // the quantity and partly filled otherwise, and the position of its symbol moves: up for the
  // sides 1 and 4, buy and cover, and down for any other.
  predicate FilledBy(s: State, t: State, ev: Event, env: Env) {
    && ev.orderIdx < |s.orders| == |t.orders| && |s.positions| == |t.positions| == 4096
    && var i := ev.orderIdx;
       var o, p, h := s.orders[i], t.orders[i], HashSymbol(s.orders[i].symbol);
       && p.filledQty == Wrap32(o.filledQty + ev.qty)
       && (p.status == 5 <==> p.filledQty >= o.qty) && (p.status == 4 <==> p.filledQty < o.qty)
       && (p.filledQty <= 0 ==> p.filledAvgPx == o.filledAvgPx)
       && p == o.(
            filledQty := p.filledQty, filledAvgPx := p.filledAvgPx, lastFillPx := ev.price, status := p.status,
            filledAt := if p.filledQty >= o.qty then env.now else o.filledAt)
       && t.orders == s.orders[i := p]
       && var moved := t.positions[h].qty;
       && moved == Wrap32(
            if o.side == 1 || o.side == 4 then s.positions[h].qty + ev.qty else s.positions[h].qty - ev.qty)
       && t.positions == s.positions[h := Position(o.symbol, moved, Wrap64(moved * ev.price))]
       && t == s.(orders := t.orders, positions := t.positions, trace := t.trace)
  }

  lemma FillOutcome(cfg: Config, s: State, ev: Event, env: Env)
    requires Shape(cfg, s) && ev.orderIdx < |s.orders|
    ensures FilledBy(s, ProcessFill(cfg, s, ev, env), ev, env)
    ensures ProcessFill(cfg, s, ev, env).trace == s.trace + Records(cfg, 3, ev.orderIdx, env.later)
  {
    hide Filled, Moved, Wrap32, Wrap64, HashSymbol, LinksInRange;
    var o := s.orders[ev.orderIdx];
    OrderFilled(o, ev.qty, ev.price, env.now);
    PositionMoved(s.positions[HashSymbol(o.symbol)], o, ev.qty, ev.price);
  }

  lemma OrderFilled(o: Order, qty: int32, px: int64, now: int64)
    ensures var p := Filled(o, qty, px, now);
      && p.filledQty == Wrap32(o.filledQty + qty)
      && (p.status == 5 <==> p.filledQty >= o.qty) && (p.status == 4 <==> p.filledQty < o.qty)
      && (p.filledQty <= 0 ==> p.filledAvgPx == o.filledAvgPx)
      && p == o.(
           filledQty := p.filledQty, filledAvgPx := p.filledAvgPx, lastFillPx := px, status := p.status,
           filledAt := if p.filledQty >= o.qty then now else o.filledAt)
  {
    if Wrap32(o.filledQty + qty) <= 0 { AverageKept(o, qty, px); }
    hide NewAverage, Wrap32;
  }

  lemma PositionMoved(p: Position, o: Order, qty: int32, px: int64)
    ensures var moved := Moved(p, o, qty, px).qty;
      && moved == Wrap32(if o.side == 1 || o.side == 4 then p.qty + qty else p.qty - qty)
      && Moved(p, o, qty, px) == Position(o.symbol, moved, Wrap64(moved * px))
  {
    hide Wrap32, Wrap64;
  }

  lemma AverageKept(o: Order, qty: int32, px: int64)
    requires Wrap32(o.filledQty + qty) <= 0
    ensures NewAverage(o.filledQty, o.filledAvgPx, qty, px) == o.filledAvgPx
  {
  }

  lemma ReplaceOutcome(s: State, ev: Event)
    requires ev.orderIdx < |s.orders|
    ensures var i := ev.orderIdx; var o := s.orders[i];
      ProcessReplace(s, ev) ==
        if Live(o.status) then
          s.(orders := s.orders[i := o.(
            qty := if ev.qty > 0 then ev.qty else o.qty, price := if ev.price > 0 then ev.price else o.price)])
        else s
  {
  }

  // ----- What holds at every point of a run -----

  // A run of the engine from a log it can have written.
  ghost predicate EngineRun(cfg: Config, es: seq<Entry>, ws: seq<World>, acts: seq<Action>) {
    && cfg.hasWal && AllFit(es) && Grounded(cfg, Past(es))
    && IsRun(cfg, ws, acts) && ws[0] == Opened(cfg, es)
  }

  // Slots that no processed submission has reached are blank.
  ghost predicate UnusedAreBlank(w: World) {
    forall i :: 0 <= i < |w.eng.orders| && Unused(w, i) ==> w.eng.orders[i] == NO_ORDER
  }

  ghost predicate Sound(cfg: Config, b: nat, w: World) {
    Backed(cfg, b, w) && Unlinked(w.eng.orders) && AtRest(w.eng.orders) && UnusedAreBlank(w)
  }

  // Without legs an event touches no order but its own.
  lemma TouchesOwnSlot(cfg: Config, s: State, ev: Event, env: Env, i: nat)
    requires Shape(cfg, s) && InRange(s, ev) && Unlinked(s.orders) && i < |s.orders|
    requires ev.kind == KillSwitch || ev.orderIdx != i
    ensures |Process(cfg, s, ev, env).orders| == |s.orders|
    ensures Process(cfg, s, ev, env).orders[i] == s.orders[i]
  {
    if ev.kind == CancelOrder {
      CancelOutcome(cfg, s, ev, env);
      hide ProcessCancel;
      assert !GoesAlong(s.orders[ev.orderIdx], i, s.orders[i]);
    }
    hide EncodeOrder, RiskRejects, HashSymbol, Filled, LinksInRange;
  }

  lemma OwnSlotAtRest(cfg: Config, s: State, ev: Event, env: Env)
    requires Shape(cfg, s) && InRange(s, ev) && ev.kind != KillSwitch && AtRest(s.orders)
    ensures ev.orderIdx < |Process(cfg, s, ev, env).orders|
    ensures AtRest([Process(cfg, s, ev, env).orders[ev.orderIdx]])
  {
    if ev.kind == CancelOrder {
      CancelOutcome(cfg, s, ev, env);
      hide ProcessCancel;
    }
    assert AtRest([s.orders[ev.orderIdx]]);
    hide EncodeOrder, RiskRejects, HashSymbol, NewAverage, LinksInRange, Wrap32, Wrap64;
  }

  lemma EventKeepsAtRest(cfg: Config, s: State, ev: Event, env: Env)
    requires Shape(cfg, s) && InRange(s, ev) && Unlinked(s.orders) && AtRest(s.orders)
    ensures AtRest(Process(cfg, s, ev, env).orders)
  {
    ProcessKeepsShape(cfg, s, ev, env);
    var t := Process(cfg, s, ev, env);
    if ev.kind != KillSwitch { OwnSlotAtRest(cfg, s, ev, env); }
    hide Process, LinksInRange, Unlinked;
    forall i | 0 <= i < |t.orders|
      ensures AtRest([t.orders[i]])
    {
      if ev.kind == KillSwitch || i != ev.orderIdx {
        TouchesOwnSlot(cfg, s, ev, env, i);
        assert AtRest([s.orders[i]]);
      }
    }
    assert forall i :: 0 <= i < |t.orders| ==> [t.orders[i]][0] == t.orders[i];
  }

  lemma RecoveredIsSound(cfg: Config, b: nat, trace: seq<Effect>)
    requires cfg.hasWal && TraceOk(cfg, b, trace) && Grounded(cfg, trace)
    ensures Sound(cfg, b, World(Recovered(cfg, trace), []))
  {
    var w := World(Recovered(cfg, trace), []);
    RecoveryIsBacked(cfg, b, trace);
    RecoveredIsUnlinked(cfg, trace);
    RecoveryKeepsInv(cfg, b, trace);
    hide Backed, Unlinked, TraceOk, Grounded;
    assert w.eng.trace == trace;
    forall i | 0 <= i < |w.eng.orders|
      ensures AtRest([w.eng.orders[i]])
      ensures Unused(w, i) ==> w.eng.orders[i] == NO_ORDER
    {
      InvSize(cfg, b, w);
      RecoveredSlotAgrees(cfg, trace, i);
      if Unused(w, i) { UnusedIsNotNew(cfg, b, w, i); }
      hide Unused, HasNew, Inv, ReplayAll, LogOf, SameStored;
    }
    hide Recovered, Unused, Inv;
    assert forall i :: 0 <= i < |w.eng.orders| ==> [w.eng.orders[i]][0] == w.eng.orders[i];
  }

  lemma InvSize(cfg: Config, b: nat, w: World)
    requires Inv(cfg, b, w)
    ensures |w.eng.orders| == cfg.maxOrders
  {
  }

  lemma TurnKeepsBlank(cfg: Config, b: nat, w: World, env: Env, i: nat)
    requires Sound(cfg, b, w) && w.queue != [] && Ready(cfg, w)
    requires i < |w.eng.orders| && Unused(Turn(cfg, w, env), i)
    ensures |Turn(cfg, w, env).eng.orders| == |w.eng.orders|
    ensures Turn(cfg, w, env).eng.orders[i] == NO_ORDER
  {
    var ev := w.queue[0];
    UnusedShrinks(cfg, b, w, EventTurn(env), i);
    ProcessKeepsShape(cfg, w.eng, ev, env);
    if ev.kind == SubmitOrder { assert SubmitAt(w, 0); }
    if ev.kind == FillOrder { FilledIsUsed(cfg, b, w); }
    hide Unused, Inv, Backed, AtRest;
    assert w.eng.orders[i] == NO_ORDER;
    if ev.kind == KillSwitch || ev.orderIdx != i {
      TouchesOwnSlot(cfg, w.eng, ev, env, i);
      hide Process;
    } else {
      assert ev.kind == CancelOrder || ev.kind == ReplaceOrder;
    }
    hide UnusedAreBlank, Unlinked, LinksInRange;
  }

  lemma TurnKeepsSound(cfg: Config, b: nat, w: World, env: Env)
    requires Sound(cfg, b, w) && Enabled(cfg, w, EventTurn(env)) && w.queue != []
    ensures Sound(cfg, b, Turn(cfg, w, env))
  {
    hide Backed, AtRest, Unlinked, Unused, InRange, Process, LinksInRange;
    TurnOf(cfg, w, env);
    var v := Turn(cfg, w, env);
    StepKeepsBacked(cfg, b, w, EventTurn(env));
    EventLinksNothing(cfg, w.eng, w.queue[0], env);
    EventKeepsAtRest(cfg, w.eng, w.queue[0], env);
    forall i | 0 <= i < |v.eng.orders| && Unused(v, i)
      ensures v.eng.orders[i] == NO_ORDER
    {
      TurnKeepsBlank(cfg, b, w, env, i);
    }
  }

  lemma TurnOf(cfg: Config, w: World, env: Env)
    requires Enabled(cfg, w, EventTurn(env)) && w.queue != []
    ensures Shape(cfg, w.eng) && InRange(w.eng, w.queue[0])
    ensures Turn(cfg, w, env) == World(Process(cfg, w.eng, w.queue[0], env), w.queue[1..])
    ensures Step(cfg, w, EventTurn(env)) == Turn(cfg, w, env)
    ensures |Turn(cfg, w, env).eng.orders| == |w.eng.orders|
  {
    ProcessKeepsShape(cfg, w.eng, w.queue[0], env);
    hide Process, LinksInRange;
  }

  lemma PlainStepKeepsSound(cfg: Config, b: nat, w: World, a: Action)
    requires Sound(cfg, b, w) && Enabled(cfg, w, a) && !a.CrashAndRestart? && (a.EventTurn? ==> w.queue == [])
    ensures Sound(cfg, b, Step(cfg, w, a))
  {
    hide Backed, Inv, AtRest, Unlinked, Unused, Step, Enabled;
    StepKeepsBacked(cfg, b, w, a);
    PlainStepKeepsOrders(cfg, w, a);
    BackedIsInv(cfg, b, w);
    var v := Step(cfg, w, a);
    forall i | 0 <= i < |v.eng.orders| && Unused(v, i)
      ensures v.eng.orders[i] == NO_ORDER
    {
      UnusedShrinks(cfg, b, w, a, i);
    }
  }

  lemma BackedIsInv(cfg: Config, b: nat, w: World)
    requires Backed(cfg, b, w)
    ensures Inv(cfg, b, w) && Grounded(cfg, w.eng.trace) && TraceOk(cfg, b, w.eng.trace)
  {
    hide Grounded, TraceOk;
  }

  lemma StepKeepsSound(cfg: Config, b: nat, w: World, a: Action)
    requires Sound(cfg, b, w) && Enabled(cfg, w, a)
    ensures Sound(cfg, b, Step(cfg, w, a))
  {
    if a.CrashAndRestart? {
      StepKeepsBacked(cfg, b, w, a);
      BackedIsInv(cfg, b, Step(cfg, w, a));
      hide Backed, Inv, Sound, Turn, TraceOk, Grounded;
      var trace := Turn(cfg, w, a.env).eng.trace[..a.cut];
      assert Step(cfg, w, a) == World(Recovered(cfg, trace), []);
      assert Step(cfg, w, a).eng.trace == trace;
      RecoveredIsSound(cfg, b, trace);
    } else if a.EventTurn? && w.queue != [] {
      TurnKeepsSound(cfg, b, w, a.env);
    } else {
      PlainStepKeepsSound(cfg, b, w, a);
    }
  }

  // At every point every order has one of six statuses and no legs, and every slot that no
  // processed submission has reached is blank.
  lemma {:induction false} RunIsSound(cfg: Config, es: seq<Entry>, ws: seq<World>, acts: seq<Action>, n: nat)
    requires EngineRun(cfg, es, ws, acts) && n < |ws|
    ensures Sound(cfg, |es|, ws[n])
    decreases n
  {
    hide Sound, Step, Enabled, Grounded, TraceOk;
    if n == 0 {
      OpenedTraceOk(cfg, es);
      RecoveredIsSound(cfg, |es|, Past(es));
    } else {
      RunIsSound(cfg, es, ws, acts, n - 1);
      StepKeepsSound(cfg, |es|, ws[n - 1], acts[n - 1]);
    }
  }

  // ----- Every turn of a run -----

  // Step n of the run consumes an event of this kind.
  predicate TurnFor(ws: seq<World>, acts: seq<Action>, n: nat, kind: EventKind)
    requires n < |acts| < |ws|
  {
    acts[n].EventTurn? && ws[n].queue != [] && ws[n].queue[0].kind == kind
  }

  lemma TurnInRun(cfg: Config, es: seq<Entry>, ws: seq<World>, acts: seq<Action>, n: nat)
    requires EngineRun(cfg, es, ws, acts) && n < |acts| && acts[n].EventTurn? && ws[n].queue != []
    ensures Shape(cfg, ws[n].eng) && InRange(ws[n].eng, ws[n].queue[0])
    ensures ws[n + 1] == World(Process(cfg, ws[n].eng, ws[n].queue[0], acts[n].env), ws[n].queue[1..])
    ensures Sound(cfg, |es|, ws[n])
  {
    RunIsSound(cfg, es, ws, acts, n);
    assert Enabled(cfg, ws[n], acts[n]) && ws[n + 1] == Step(cfg, ws[n], acts[n]);
    hide Sound, Process, Grounded;
  }

  lemma HeadIsBlank(cfg: Config, b: nat, w: World)
    requires Sound(cfg, b, w) && w.queue != [] && w.queue[0].kind == SubmitOrder && w.queue[0].orderIdx < |w.eng.orders|
    ensures w.eng.orders[w.queue[0].orderIdx] == NO_ORDER
  {
    assert SubmitAt(w, 0);
    assert Unused(w, w.queue[0].orderIdx);
    hide Backed, Unlinked, AtRest;
  }

  lemma SlotIsAtRest(orders: seq<Order>, i: nat)
    requires AtRest(orders) && i < |orders|
    ensures CanBeCancelled(orders[i].status) <==> Live(orders[i].status)
    ensures !Live(orders[i].status) ==> orders[i].status in {0, 5, 7, 8}
  {
  }

  // A submission makes its slot the order of the call, and nothing else: rejected exactly when a
  // risk check fails or the broker refuses it, and acknowledged otherwise. It is logged exactly
  // when the checks pass, and handed to the broker after that.
  lemma SubmitOverRun(cfg: Config, es: seq<Entry>, ws: seq<World>, acts: seq<Action>, n: nat)
    requires EngineRun(cfg, es, ws, acts) && n < |acts| && TurnFor(ws, acts, n, SubmitOrder)
    ensures var ev, env, s, t := ws[n].queue[0], acts[n].env, ws[n].eng, ws[n + 1].eng; var i := ev.orderIdx;
      var passes := ev.qty <= cfg.maxOrderSize && !s.kill && s.dailyPnl >= Wrap64(-(cfg.maxDailyLoss as int));
      && i < |s.orders| == |t.orders|
      && s.orders[i] == NO_ORDER
      && (t.orders[i].status == 8 <==> !passes || (cfg.hasBroker && !env.accepts))
      && (t.orders[i].status == 3 <==> passes && (cfg.hasBroker ==> env.accepts))
      && t == s.(
           orders := s.orders[i := Placed(ev, t.orders[i].status, if passes then env.now else 0)],
           trace := s.trace + if !passes then [] else
             [Logged(Entry(1, i, ev.timestamp, EncodeOrder(Placed(ev, 1, 0))))]
             + if cfg.hasBroker then [Sent(Placed(ev, 2, env.now))] else [])
  {
    TurnInRun(cfg, es, ws, acts, n);
    hide Sound, EngineRun, Process;
    HeadIsBlank(cfg, |es|, ws[n]);
    SubmitOutcome(cfg, ws[n].eng, ws[n].queue[0], acts[n].env);
    SubmitIsProcessed(cfg, ws[n].eng, ws[n].queue[0], acts[n].env);
    hide ProcessSubmit, EncodeOrder, Wrap32, Wrap64;
    var s, t := ws[n].eng, ws[n + 1].eng;
    if !Passes(cfg, s, ws[n].queue[0]) { assert t.trace == s.trace + []; }
  }

  lemma SubmitIsProcessed(cfg: Config, s: State, ev: Event, env: Env)
    requires Shape(cfg, s) && InRange(s, ev) && ev.kind == SubmitOrder
    ensures Process(cfg, s, ev, env) == ProcessSubmit(cfg, s, ev, env)
  {
    hide ProcessSubmit;
  }

  // A cancel that no broker refuses leaves the slot cancelled and a cancel record at the end of
  // the trace exactly when the order was acknowledged or partly filled. A refused one leaves such
  // an order acknowledged. Every other order stays as it is, and so do the other slots.
  lemma CancelOverRun(cfg: Config, es: seq<Entry>, ws: seq<World>, acts: seq<Action>, n: nat)
    requires EngineRun(cfg, es, ws, acts) && n < |acts| && TurnFor(ws, acts, n, CancelOrder)
    ensures var env, i, s, t := acts[n].env, ws[n].queue[0].orderIdx, ws[n].eng, ws[n + 1].eng;
      && i < |s.orders| == |t.orders|
      && s.orders[i].status in {0, 3, 4, 5, 7, 8}
      && (!(cfg.hasBroker && !env.accepts) ==>
           (t.orders[i].status == 7 && t.trace == s.trace + [Logged(Entry(2, i, env.later, []))]
            <==> s.orders[i].status in {3, 4}))
      && t ==
           if s.orders[i].status in {0, 5, 7, 8} then s
           else if cfg.hasBroker && !env.accepts then s.(orders := s.orders[i := s.orders[i].(status := 3)])
           else s.(
             orders := s.orders[i := s.orders[i].(status := 7)],
             trace := s.trace + [Logged(Entry(2, i, env.later, []))])
  {
    TurnInRun(cfg, es, ws, acts, n);
    var ev, s, t := ws[n].queue[0], ws[n].eng, ws[n + 1].eng;
    SlotIsAtRest(s.orders, ev.orderIdx);
    CancelOutcome(cfg, s, ev, acts[n].env);
    NothingGoesAlong(s.orders, ev.orderIdx);
    hide Backed, UnusedAreBlank, ProcessCancel, AtRest, Unlinked, LinksInRange, GoesAlong, CanBeCancelled;
    if Live(s.orders[ev.orderIdx].status) && !BrokerRefuses(cfg, acts[n].env) {
      assert t.orders == s.orders[ev.orderIdx := s.orders[ev.orderIdx].(status := 7)];
    }
  }

  lemma NothingGoesAlong(orders: seq<Order>, i: nat)
    requires Unlinked(orders) && i < |orders|
    ensures forall j :: 0 <= j < |orders| ==> !GoesAlong(orders[i], j, orders[j])
  {
  }

  // A fill does what it should to its order and to the position of its symbol, and to nothing
  // else, and is logged.
  lemma FillOverRun(cfg: Config, es: seq<Entry>, ws: seq<World>, acts: seq<Action>, n: nat)
    requires EngineRun(cfg, es, ws, acts) && n < |acts| && TurnFor(ws, acts, n, FillOrder)
    ensures FilledBy(ws[n].eng, ws[n + 1].eng, ws[n].queue[0], acts[n].env)
    ensures ws[n + 1].eng.trace ==
      ws[n].eng.trace + [Logged(Entry(3, ws[n].queue[0].orderIdx, acts[n].env.later, []))]
  {
    TurnInRun(cfg, es, ws, acts, n);
    hide Sound, ProcessFill, FilledBy, LinksInRange;
    FillOutcome(cfg, ws[n].eng, ws[n].queue[0], acts[n].env);
  }

  // A replace changes positive terms of acknowledged and partly filled orders.
  lemma ReplaceOverRun(cfg: Config, es: seq<Entry>, ws: seq<World>, acts: seq<Action>, n: nat)
    requires EngineRun(cfg, es, ws, acts) && n < |acts| && TurnFor(ws, acts, n, ReplaceOrder)
    ensures var ev, s, t := ws[n].queue[0], ws[n].eng, ws[n + 1].eng; var i := ev.orderIdx;
      && i < |s.orders|
      && t == if s.orders[i].status !in {3, 4} then s else s.(orders := s.orders[i := s.orders[i].(
           qty := if ev.qty > 0 then ev.qty else s.orders[i].qty,
           price := if ev.price > 0 then ev.price else s.orders[i].price)])
  {
    TurnInRun(cfg, es, ws, acts, n);
    ReplaceOutcome(ws[n].eng, ws[n].queue[0]);
    hide Sound, ProcessReplace, LinksInRange;
  }

  // A kill-switch event turns the switch on, and an empty queue changes nothing.
  lemma SwitchOverRun(cfg: Config, es: seq<Entry>, ws: seq<World>, acts: seq<Action>, n: nat)
    requires EngineRun(cfg, es, ws, acts) && n < |acts| && acts[n].EventTurn?
    ensures ws[n].queue == [] ==> ws[n + 1] == ws[n]
    ensures TurnFor(ws, acts, n, KillSwitch) ==> ws[n + 1].eng == ws[n].eng.(kill := true)
  {
    if ws[n].queue != [] { TurnInRun(cfg, es, ws, acts, n); }
    hide Sound, Grounded;
  }

  // ----- Partly filled orders -----

  // The quantity the last replace since the last fill gave the order, or zero if none did.
  function QtySince(ws: seq<World>, acts: seq<Action>, i: nat, n: nat): int32
    requires n <= |acts| < |ws|
    decreases n
  {
    if n == 0 || acts[n - 1].CrashAndRestart? then 0
    else if !acts[n - 1].EventTurn? || ws[n - 1].queue == [] then QtySince(ws, acts, i, n - 1)
    else
      var ev := ws[n - 1].queue[0];
      if ev.kind == KillSwitch || ev.orderIdx != i || ev.kind == CancelOrder then QtySince(ws, acts, i, n - 1)
      else if ev.kind == ReplaceOrder then (if ev.qty > 0 then ev.qty else QtySince(ws, acts, i, n - 1))
      else 0
  }

  predicate PartOk(o: Order, filledBefore: bool, given: int32) {
    o.status == 4 ==> filledBefore && if given > 0 then o.qty == given else o.filledQty < o.qty
  }

  lemma RecoveredIsNotPart(cfg: Config, trace: seq<Effect>, i: nat)
    requires Grounded(cfg, trace) && i < cfg.maxOrders
    ensures Recovered(cfg, trace).orders[i].status != 4
  {
    RecoveredSlotAgrees(cfg, trace, i);
    hide Recovered, HasNew, Rebuilt, SameStored, Grounded;
  }

  lemma TurnKeepsPart(cfg: Config, es: seq<Entry>, ws: seq<World>, acts: seq<Action>, i: nat, n: nat)
    requires EngineRun(cfg, es, ws, acts) && n < |acts| && acts[n].EventTurn? && ws[n].queue != []
    requires i < |ws[n].eng.orders|
    requires PartOk(ws[n].eng.orders[i], FillsSince(ws, acts, i, n) != [], QtySince(ws, acts, i, n))
    ensures i < |ws[n + 1].eng.orders|
    ensures PartOk(ws[n + 1].eng.orders[i], FillsSince(ws, acts, i, n + 1) != [], QtySince(ws, acts, i, n + 1))
  {
    TurnInRun(cfg, es, ws, acts, n);
    var s, ev := ws[n].eng, ws[n].queue[0];
    ProcessKeepsShape(cfg, s, ev, acts[n].env);
    if ev.kind == KillSwitch || ev.orderIdx != i {
      hide Process, EngineRun, Backed, AtRest, LinksInRange;
      TouchesOwnSlot(cfg, s, ev, acts[n].env, i);
    } else {
      hide Process, EngineRun, Sound, LinksInRange;
      match ev.kind
      case SubmitOrder => SubmitOverRun(cfg, es, ws, acts, n);
      case CancelOrder => CancelOverRun(cfg, es, ws, acts, n);
      case ReplaceOrder => ReplaceOverRun(cfg, es, ws, acts, n);
      case FillOrder => FillOverRun(cfg, es, ws, acts, n);
    }
  }

  lemma StepKeepsPart(cfg: Config, es: seq<Entry>, ws: seq<World>, acts: seq<Action>, i: nat, n: nat)
    requires EngineRun(cfg, es, ws, acts) && n < |acts|
    requires i < |ws[n].eng.orders| == |ws[n + 1].eng.orders| == cfg.maxOrders
    requires PartOk(ws[n].eng.orders[i], FillsSince(ws, acts, i, n) != [], QtySince(ws, acts, i, n))
    ensures PartOk(ws[n + 1].eng.orders[i], FillsSince(ws, acts, i, n + 1) != [], QtySince(ws, acts, i, n + 1))
  {
    assert Enabled(cfg, ws[n], acts[n]) && ws[n + 1] == Step(cfg, ws[n], acts[n]);
    hide EngineRun, Step, Enabled;
    if acts[n].EventTurn? && ws[n].queue != [] {
      TurnKeepsPart(cfg, es, ws, acts, i, n);
    } else if acts[n].CrashAndRestart? {
      RestartedIsNotPart(cfg, es, ws, acts, i, n);
    } else {
      PlainStepKeepsOrders(cfg, ws[n], acts[n]);
    }
  }

  lemma RestartedIsNotPart(cfg: Config, es: seq<Entry>, ws: seq<World>, acts: seq<Action>, i: nat, n: nat)
    requires EngineRun(cfg, es, ws, acts) && n < |acts| && acts[n].CrashAndRestart? && i < cfg.maxOrders
    ensures i < |ws[n + 1].eng.orders| && ws[n + 1].eng.orders[i].status != 4
  {
    RunIsSound(cfg, es, ws, acts, n + 1);
    BackedIsInv(cfg, |es|, ws[n + 1]);
    var trace := Turn(cfg, ws[n], acts[n].env).eng.trace[..acts[n].cut];
    assert Enabled(cfg, ws[n], acts[n]) && ws[n + 1] == World(Recovered(cfg, trace), []);
    hide Sound, Inv, Grounded, Turn;
    RecoveredIsNotPart(cfg, trace, i);
  }

  // In every state of every run an order is partly filled only if a fill for it was processed
  // since the engine started, and since its submission; and then its filled quantity is below its
  // quantity exactly if no replace since the last fill gave it a positive quantity, or the last
  // one that did gave it more than was filled.
  lemma {:induction false} PartlyFilledOverRun(
    cfg: Config, es: seq<Entry>, ws: seq<World>, acts: seq<Action>, i: nat, n: nat)
    requires EngineRun(cfg, es, ws, acts) && n < |ws| && i < cfg.maxOrders
    ensures |ws[n].eng.orders| == cfg.maxOrders
    ensures PartOk(ws[n].eng.orders[i], FillsSince(ws, acts, i, n) != [], QtySince(ws, acts, i, n))
    ensures var o, given := ws[n].eng.orders[i], QtySince(ws, acts, i, n);
      o.status == 4 ==>
        && FillsSince(ws, acts, i, n) != []
        && (o.filledQty < o.qty <==> given == 0 || o.filledQty < given)
    decreases n
  {
    QtySinceIsPositive(ws, acts, i, n);
    RunIsSound(cfg, es, ws, acts, n);
    BackedIsInv(cfg, |es|, ws[n]);
    if n == 0 {
      hide Sound, Grounded;
      RecoveredIsNotPart(cfg, Past(es), i);
      hide Recovered, Inv;
    } else {
      hide Sound, Grounded, EngineRun, QtySince, FillsSince;
      PartlyFilledOverRun(cfg, es, ws, acts, i, n - 1);
      StepKeepsPart(cfg, es, ws, acts, i, n - 1);
    }
  }

  lemma {:induction false} QtySinceIsPositive(ws: seq<World>, acts: seq<Action>, i: nat, n: nat)
    requires n <= |acts| < |ws|
    ensures QtySince(ws, acts, i, n) >= 0
    decreases n
  {
    if n > 0 { QtySinceIsPositive(ws, acts, i, n - 1); }
  }

  // So "partly filled" does not mean that something is left to fill: a replace that takes the
  // quantity down to what is filled, or below, does not change the status.
  lemma ReplaceUndercuts(cfg: Config, w: World, i: uint32, qty: int32, now: int64, env: Env)
    requires Ready(cfg, w) && w.queue == [] && i < |w.eng.orders|
    requires w.eng.orders[i].status == 4 && 0 < qty <= w.eng.orders[i].filledQty
    ensures var ev := PlainEvent(ReplaceOrder, i, now, qty, 0);
      && Enabled(cfg, w, PublishOther(ev)) && Enabled(cfg, Step(cfg, w, PublishOther(ev)), EventTurn(env))
      && var v := Step(cfg, Step(cfg, w, PublishOther(ev)), EventTurn(env));
      && |v.eng.orders| == |w.eng.orders|
      && v.eng.orders[i].status == 4 && v.eng.orders[i].filledQty >= v.eng.orders[i].qty
  {
    hide LinksInRange;
    var ev := PlainEvent(ReplaceOrder, i, now, qty, 0);
    assert (w.queue + [ev])[0] == ev;
    assert InRange(w.eng, ev);
  }
}
