/** The life of an order over a run of one process, from an engine opened on an empty log. */
module Lifecycle {
  import opened Conservation
  import opened Engine
  import opened Orders
  import opened Pipeline
  import opened Runs
  import opened Words

  predicate AtBoundary(s: Status) {
    s == EMPTY || s == ACKNOWLEDGED || s == PARTIAL_FILL || s == FILLED || s == CANCELLED || s == REJECTED
  }

  predicate SlotOk(o: Order) {
    AtBoundary(o.status) && (o.status == FILLED ==> o.filledQty >= o.qty)
  }

  predicate AllSlotsOk(s: State) {
    forall i :: 0 <= i < |s.orders| ==> SlotOk(s.orders[i])
  }

  // The 32-bit filled quantity does not wrap.
  predicate FillFits(s: State, ev: Event) {
    ev.kind == FillOrder && ev.orderIdx < |s.orders| ==> s.orders[ev.orderIdx].filledQty + ev.qty < TWO_31
  }

  predicate Expected(s: State, ev: Event) {
    && (ev.kind == SubmitOrder && ev.orderIdx < |s.orders| ==> s.orders[ev.orderIdx].status == EMPTY)
    && (ev.kind == FillOrder ==> ev.qty > 0)
    && FillFits(s, ev)
  }

  // What one event may do to a slot: the status stays at a boundary value, complete orders stay
  // complete, cancelled and rejected orders change only by a fill, and fills accumulate.
  predicate SlotStep(o: Order, p: Order, filledHere: bool) {
    && SlotOk(p)
    && (o.status == FILLED ==> p.status == FILLED)
    && ((o.status == CANCELLED || o.status == REJECTED) && p.status != o.status ==> filledHere)
    && o.filledQty <= p.filledQty
  }

  lemma EventKeepsLifecycle(cfg: Config, s: State, ev: Event, env: Env, i: nat)
    requires Shape(cfg, s) && InRange(s, ev) && AllSlotsOk(s) && Expected(s, ev) && i < |s.orders|
    ensures |Process(cfg, s, ev, env).orders| == |s.orders|
    ensures SlotStep(s.orders[i], Process(cfg, s, ev, env).orders[i], ev.kind == FillOrder && ev.orderIdx == i)
  {
    hide NewAverage, HashSymbol, EncodeOrder, RiskRejects, Wrap64, LinksInRange;
    assert SlotOk(s.orders[i]);
    match ev.kind
    case SubmitOrder => hide Wrap32;
    case CancelOrder => CancelKeepsSlot(cfg, s, ev, env, i); hide ProcessCancel, Wrap32;
    case ReplaceOrder => hide Wrap32;
    case FillOrder => hide AllSlotsOk;
    case KillSwitch =>
  }

  // A leg is cancelled or left alone.
  lemma LegSlot(orders: seq<Order>, leg: uint32, i: nat)
    requires (leg == 0 || leg < |orders|) && i < |orders|
    ensures var p := CancelLinked(orders, leg)[i];
      p == orders[i] || (IsCancellable(orders[i].status) && p == WithStatus(orders[i], CANCELLED))
  {
    hide IsCancellable;
  }

  lemma CancelKeepsSlot(cfg: Config, s: State, ev: Event, env: Env, i: nat)
    requires Shape(cfg, s) && ev.orderIdx < |s.orders| && i < |s.orders| && SlotOk(s.orders[i])
    ensures |ProcessCancel(cfg, s, ev, env).orders| == |s.orders|
    ensures SlotStep(s.orders[i], ProcessCancel(cfg, s, ev, env).orders[i], false)
  {
    var o := s.orders[ev.orderIdx];
    var own := s.orders[ev.orderIdx := WithStatus(o, CANCELLED)];
    LegSlot(own, o.linked1, i);
    LegSlot(CancelLinked(own, o.linked1), o.linked2, i);
    hide CancelLinked, AppendLog, LinksInRange;
  }

  // A further fill keeps a complete order complete exactly when the filled quantity does not wrap
  // around its 32-bit word, or wraps and is still not below a negative order quantity.
  lemma CompleteStaysCompleteIff(o: Order, qty: int32, px: int64, now: int64)
    requires o.qty <= o.filledQty && qty > 0
    ensures Filled(o, qty, px, now).status == FILLED <==>
      o.filledQty + qty < TWO_31 || o.filledQty + qty - TWO_32 >= o.qty
  {
    hide NewAverage;
  }

  // ----- Unused slots -----

  ghost predicate UnusedAreEmpty(w: World) {
    forall i :: 0 <= i < |w.eng.orders| && Unused(w, i) ==> w.eng.orders[i].status == EMPTY
  }

  // An empty slot changes status only when its submission or a fill for it is processed.
  lemma EmptyStaysEmpty(cfg: Config, s: State, ev: Event, env: Env, i: nat)
    requires Shape(cfg, s) && InRange(s, ev) && i < |s.orders| && s.orders[i].status == EMPTY
    requires ev.orderIdx == i ==> ev.kind != SubmitOrder && ev.kind != FillOrder
    ensures |Process(cfg, s, ev, env).orders| == |s.orders|
    ensures Process(cfg, s, ev, env).orders[i].status == EMPTY
  {
    hide NewAverage, HashSymbol, EncodeOrder, RiskRejects, Wrap64, LinksInRange;
  }

  lemma StepKeepsEmpty(cfg: Config, b: nat, w: World, a: Action)
    requires Inv(cfg, b, w) && UnusedAreEmpty(w) && Enabled(cfg, w, a) && !a.CrashAndRestart?
    ensures UnusedAreEmpty(Step(cfg, w, a))
  {
    var v := Step(cfg, w, a);
    forall i | 0 <= i < |v.eng.orders| && Unused(v, i)
      ensures v.eng.orders[i].status == EMPTY
    {
      UnusedShrinks(cfg, b, w, a, i);
      if a.EventTurn? && w.queue != [] {
        ProcessKeepsShape(cfg, w.eng, w.queue[0], a.env);
        if w.queue[0].kind == FillOrder { SentIsUsed(cfg, b, w, w.queue[0].orderIdx); }
        if w.queue[0].kind == SubmitOrder { assert SubmitAt(w, 0); }
        hide Inv, Unused, Process;
        EmptyStaysEmpty(cfg, w.eng, w.queue[0], a.env, i);
      }
      hide Inv, Unused, Process;
    }
  }

  // ----- Runs -----

  ghost predicate Alive(cfg: Config, w: World) {
    Inv(cfg, 0, w) && UnusedAreEmpty(w) && AllSlotsOk(w.eng)
  }

  // No restart, and every fill processed fits.
  predicate Orderly(ws: seq<World>, acts: seq<Action>)
    requires |ws| == |acts| + 1
  {
    forall k :: 0 <= k < |acts| ==>
      && !acts[k].CrashAndRestart?
      && (acts[k].EventTurn? && ws[k].queue != [] ==> FillFits(ws[k].eng, ws[k].queue[0]))
  }

  lemma HeadIsExpected(cfg: Config, w: World)
    requires Alive(cfg, w) && w.queue != [] && FillFits(w.eng, w.queue[0])
    ensures InRange(w.eng, w.queue[0]) && Expected(w.eng, w.queue[0])
  {
    if w.queue[0].kind == SubmitOrder {
      assert SubmitAt(w, 0);
      assert Unused(w, w.queue[0].orderIdx);
    }
  }

  lemma AliveStep(cfg: Config, w: World, a: Action, i: nat)
    requires Alive(cfg, w) && Enabled(cfg, w, a) && !a.CrashAndRestart? && i < |w.eng.orders|
    requires a.EventTurn? && w.queue != [] ==> FillFits(w.eng, w.queue[0])
    ensures |Step(cfg, w, a).eng.orders| == |w.eng.orders|
    ensures SlotStep(w.eng.orders[i], Step(cfg, w, a).eng.orders[i],
      a.EventTurn? && w.queue != [] && w.queue[0].kind == FillOrder && w.queue[0].orderIdx == i)
  {
    if a.EventTurn? && w.queue != [] {
      HeadIsExpected(cfg, w);
      EventKeepsLifecycle(cfg, w.eng, w.queue[0], a.env, i);
    }
    hide Process, Inv, UnusedAreEmpty;
  }

  lemma StepKeepsAlive(cfg: Config, w: World, a: Action)
    requires Alive(cfg, w) && Enabled(cfg, w, a) && !a.CrashAndRestart?
    requires a.EventTurn? && w.queue != [] ==> FillFits(w.eng, w.queue[0])
    ensures Alive(cfg, Step(cfg, w, a))
  {
    StepKeepsInv(cfg, 0, w, a);
    StepKeepsEmpty(cfg, 0, w, a);
    var v := Step(cfg, w, a);
    if a.EventTurn? && w.queue != [] {
      ProcessKeepsShape(cfg, w.eng, w.queue[0], a.env);
    }
    forall i | 0 <= i < |v.eng.orders|
      ensures SlotOk(v.eng.orders[i])
    {
      if i < |w.eng.orders| { AliveStep(cfg, w, a, i); }
      hide Step, Inv, UnusedAreEmpty;
    }
  }

  lemma OpensAlive(cfg: Config)
    requires cfg.hasWal
    ensures Alive(cfg, Opened(cfg, []))
  {
    OpeningEstablishesInv(cfg, []);
    assert Past([]) == [];
    assert Opened(cfg, []).eng.orders == Fresh(cfg).orders;
    hide Inv;
  }

  lemma {:induction false} RunStaysAlive(cfg: Config, ws: seq<World>, acts: seq<Action>, n: nat)
    requires IsRun(cfg, ws, acts) && Alive(cfg, ws[0]) && Orderly(ws, acts) && n < |ws|
    ensures Alive(cfg, ws[n])
    decreases n
  {
    hide Alive, Step, Enabled;
    if n > 0 {
      RunStaysAlive(cfg, ws, acts, n - 1);
      StepKeepsAlive(cfg, ws[n - 1], acts[n - 1]);
    }
  }

  lemma AliveSlot(cfg: Config, w: World, i: nat)
    requires Alive(cfg, w) && i < cfg.maxOrders
    ensures |w.eng.orders| == cfg.maxOrders && SlotOk(w.eng.orders[i])
  {
    hide SlotOk, TraceOk, QueueOk, IdsOk, LinksInRange, UnusedAreEmpty;
  }

  // Between any two points of the run a complete order stays complete and filled quantities do
  // not shrink; at every point each status is a boundary value and complete means filled.
  lemma {:induction false} LifecycleOverRun(
    cfg: Config, ws: seq<World>, acts: seq<Action>, j: nat, k: nat, i: nat)
    requires IsRun(cfg, ws, acts) && Alive(cfg, ws[0]) && Orderly(ws, acts)
    requires j <= k < |ws| && i < cfg.maxOrders
    ensures |ws[j].eng.orders| == |ws[k].eng.orders| == cfg.maxOrders
    ensures var o, p := ws[j].eng.orders[i], ws[k].eng.orders[i];
      && SlotOk(p) && (o.status == FILLED ==> p.status == FILLED) && o.filledQty <= p.filledQty
    decreases k
  {
    hide Step, Alive, Enabled, Opened, SlotOk, FillFits;
    RunStaysAlive(cfg, ws, acts, k);
    AliveSlot(cfg, ws[k], i);
    if j < k {
      LifecycleOverRun(cfg, ws, acts, j, k - 1, i);
      RunStaysAlive(cfg, ws, acts, k - 1);
      AliveStep(cfg, ws[k - 1], acts[k - 1], i);
    }
  }

  // At each point of the run, a cancelled or rejected order changes status only when a fill for
  // it is processed.
  lemma ClosedOrdersReopenOnlyByFill(cfg: Config, ws: seq<World>, acts: seq<Action>, k: nat, i: nat)
    requires IsRun(cfg, ws, acts) && Alive(cfg, ws[0]) && Orderly(ws, acts)
    requires k < |acts| && i < cfg.maxOrders
    ensures |ws[k].eng.orders| == |ws[k + 1].eng.orders| == cfg.maxOrders
    ensures var o, p := ws[k].eng.orders[i], ws[k + 1].eng.orders[i];
      (o.status == CANCELLED || o.status == REJECTED) && p.status != o.status ==>
        && acts[k].EventTurn? && ws[k].queue != []
        && ws[k].queue[0].kind == FillOrder && ws[k].queue[0].orderIdx == i
  {
    hide Step, Alive, Enabled, Opened, SlotOk, FillFits;
    RunStaysAlive(cfg, ws, acts, k);
    AliveSlot(cfg, ws[k], i);
    AliveStep(cfg, ws[k], acts[k], i);
  }
}
