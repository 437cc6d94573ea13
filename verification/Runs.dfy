/**
 * Whole runs of the engine with its queue, across any number of crashes and restarts: identifiers,
 * the order of log records and broker calls, and recovery of every order sent.
 */
module Runs {
  import opened Engine
  import opened Orders
  import opened Pipeline
  import opened Replay
  import opened Wal
  import opened Words

  datatype Action =
    | CallSubmit(ev: Event, now: int64)
    | CallCancel(idx: uint32, now: int64)
    | ReportFill(idx: uint32, qty: int32, price: int64)
    | PublishOther(ev: Event)          // replace requests and kill-switch events
    | SetKill(active: bool)
    | SetPnl(pnl: int64)
    | EventTurn(env: Env)
    | CrashAndRestart(env: Env, cut: nat)
    | IdTaken                              // by a submission that the ring turned away
    | SubmissionQueued(ev: Event, now: int64)
    | EventQueued(ev: Event)

  // ----- Restart -----

  function FreshStore(cfg: Config): Store {
    Store(Fresh(cfg).orders, 1)
  }

  // The engine after it opens a log and replays it.
  function Recovered(cfg: Config, trace: seq<Effect>): State {
    var st := ReplayAll(FreshStore(cfg), LogOf(trace));
    State(st.orders, Fresh(cfg).positions, st.nextId, false, 0, trace)
  }

  function Past(es: seq<Entry>): seq<Effect> {
    seq(|es|, i requires 0 <= i < |es| => Logged(es[i]))
  }

  function Opened(cfg: Config, es: seq<Entry>): World {
    World(Recovered(cfg, Past(es)), [])
  }

  // ----- Steps -----

  predicate WasSent(trace: seq<Effect>, id: uint32) {
    exists k :: 0 <= k < |trace| && trace[k].Sent? && trace[k].order.id == id
  }

  predicate Ready(cfg: Config, w: World) {
    Shape(cfg, w.eng) && (w.queue != [] ==> InRange(w.eng, w.queue[0]))
  }

  // What the environment may do. The last three are calls whose look at the kill switch or at
  // the room in the ring lies further back. Ids are handed out until the 32-bit counter comes round to
  // zero, cancels name a slot of the store, fills name an order that went to the broker, and a
  // crash falls between two effects of the event in hand.
  predicate Enabled(cfg: Config, w: World, a: Action) {
    && Ready(cfg, w)
    && match a
       case CallSubmit(_, _) => w.eng.nextId != 0
       case CallCancel(idx, _) => idx < cfg.maxOrders
       case ReportFill(idx, qty, _) => qty > 0 && WasSent(w.eng.trace, idx)
       case PublishOther(ev) =>
         ev.kind == KillSwitch || (ev.kind == ReplaceOrder && ev.orderIdx < cfg.maxOrders)
       case SetKill(_) => true
       case SetPnl(_) => true
       case EventTurn(_) => true
       case CrashAndRestart(env, cut) => |w.eng.trace| <= cut <= |Turn(cfg, w, env).eng.trace|
       case IdTaken => w.eng.nextId != 0
       case SubmissionQueued(_, _) => 1 <= w.eng.nextId < cfg.maxOrders
       case EventQueued(ev) =>
         && InRange(w.eng, ev) && ev.kind != SubmitOrder
         && (ev.kind == FillOrder ==> ev.qty > 0 && WasSent(w.eng.trace, ev.orderIdx))
  }

  function Step(cfg: Config, w: World, a: Action): World
    requires Enabled(cfg, w, a)
  {
    match a
    case CallSubmit(ev, now) => Pipeline.Submit(cfg, w, ev, now).0
    case CallCancel(idx, now) => RequestCancel(w, idx, now)
    case ReportFill(idx, qty, price) => InjectFill(w, idx, qty, price)
    case PublishOther(ev) => Publish(w, ev)
    case SetKill(active) => w.(eng := w.eng.(kill := active))
    case SetPnl(pnl) => w.(eng := w.eng.(dailyPnl := pnl))
    case EventTurn(env) => Turn(cfg, w, env)
    case CrashAndRestart(env, cut) => World(Recovered(cfg, Turn(cfg, w, env).eng.trace[..cut]), [])
    case IdTaken => CounterMoved(w)
    case SubmissionQueued(ev, now) => Append(CounterMoved(w), SubmitEvent(ev, w.eng.nextId, now))
    case EventQueued(ev) => Append(w, ev)
  }

  ghost predicate IsRun(cfg: Config, ws: seq<World>, acts: seq<Action>) {
    && |ws| == |acts| + 1
    && forall k :: 0 <= k < |acts| ==> Enabled(cfg, ws[k], acts[k]) && ws[k + 1] == Step(cfg, ws[k], acts[k])
  }

  // ----- The invariant -----

  function Bound(nextId: uint32): int {
    if nextId == 0 then TWO_32 else nextId
  }

  predicate NewAt(trace: seq<Effect>, k: int) {
    0 <= k < |trace| && trace[k].Logged? && trace[k].entry.kind == ENTRY_NEW_ORDER
  }

  function IdAt(trace: seq<Effect>, k: int): uint32
    requires NewAt(trace, k)
  {
    trace[k].entry.orderIdx
  }

  // The record written for an order before it is sent.
  predicate RecordOf(x: Effect, o: Order) {
    && x.Logged? && x.entry.kind == ENTRY_NEW_ORDER && x.entry.orderIdx == o.id
    && x.entry.timestamp == o.createdAt && x.entry.data == EncodeOrder(WithStatus(o, NEW))
  }

  // Beyond the first b entries: every new-order record is a full image for a usable slot, ids
  // strictly increase, and every broker call comes right after the record of its order.
  ghost predicate TraceOk(cfg: Config, b: nat, trace: seq<Effect>) {
    && b <= |trace|
    && (forall k :: 0 <= k < b ==> trace[k].Logged?)
    && (forall k :: 0 <= k < |trace| && trace[k].Logged? ==> Fits(trace[k].entry))
    && (forall k :: b <= k && NewAt(trace, k) ==>
          1 <= IdAt(trace, k) < cfg.maxOrders && |trace[k].entry.data| == PAYLOAD_SIZE)
    && (forall j, k | j < k && b <= k && NewAt(trace, j) && NewAt(trace, k) ::
          IdAt(trace, j) < cfg.maxOrders ==> IdAt(trace, j) < IdAt(trace, k))
    && (forall k :: 0 <= k < |trace| && trace[k].Sent? ==>
          k > b && RecordOf(trace[k - 1], trace[k].order) && trace[k].order.qty <= cfg.maxOrderSize)
  }

  predicate SubmitAt(w: World, k: int) {
    0 <= k < |w.queue| && w.queue[k].kind == SubmitOrder
  }

  // Queued submissions carry fresh ids in increasing order.
  ghost predicate QueueOk(cfg: Config, w: World) {
    && (forall k :: 0 <= k < |w.queue| ==> InRange(w.eng, w.queue[k]))
    && (forall k :: SubmitAt(w, k) ==> 1 <= w.queue[k].orderIdx < Bound(w.eng.nextId))
    && (forall j, k :: j < k && SubmitAt(w, j) && SubmitAt(w, k) ==>
          w.queue[j].orderIdx < w.queue[k].orderIdx)
    && (forall k :: 0 <= k < |w.queue| && w.queue[k].kind == FillOrder ==>
          WasSent(w.eng.trace, w.queue[k].orderIdx) && w.queue[k].qty > 0)
  }

  // Logged ids are below the counter and below every queued submission.
  ghost predicate IdsOk(cfg: Config, w: World) {
    && (forall k :: NewAt(w.eng.trace, k) && IdAt(w.eng.trace, k) < cfg.maxOrders ==>
          IdAt(w.eng.trace, k) < Bound(w.eng.nextId))
    && (forall k, q :: NewAt(w.eng.trace, k) && IdAt(w.eng.trace, k) < cfg.maxOrders && SubmitAt(w, q) ==>
          IdAt(w.eng.trace, k) < w.queue[q].orderIdx)
  }

  ghost predicate Inv(cfg: Config, b: nat, w: World) {
    cfg.hasWal && Shape(cfg, w.eng) && TraceOk(cfg, b, w.eng.trace) && QueueOk(cfg, w) && IdsOk(cfg, w)
  }

  // ----- Adding to the trace -----

  lemma TraceGrowsByOther(cfg: Config, b: nat, trace: seq<Effect>, e: Entry)
    requires TraceOk(cfg, b, trace) && e.kind != ENTRY_NEW_ORDER && Fits(e)
    ensures TraceOk(cfg, b, trace + [Logged(e)])
  {
    NewAtPrefix(trace, [Logged(e)]);
    hide RecordOf;
  }

  lemma TraceGrowsByOrder(cfg: Config, b: nat, trace: seq<Effect>, x: Effect)
    requires TraceOk(cfg, b, trace) && x.Logged? && x.entry.kind == ENTRY_NEW_ORDER
    requires 1 <= x.entry.orderIdx < cfg.maxOrders && |x.entry.data| == PAYLOAD_SIZE
    requires forall k :: NewAt(trace, k) && IdAt(trace, k) < cfg.maxOrders ==> IdAt(trace, k) < x.entry.orderIdx
    ensures TraceOk(cfg, b, trace + [x])
  {
    NewAtPrefix(trace, [x]);
    hide RecordOf;
  }

  lemma TraceGrowsBySend(cfg: Config, b: nat, trace: seq<Effect>, x: Effect)
    requires TraceOk(cfg, b, trace) && x.Sent? && |trace| > b
    requires RecordOf(trace[|trace| - 1], x.order) && x.order.qty <= cfg.maxOrderSize
    ensures TraceOk(cfg, b, trace + [x])
  {
    NewAtPrefix(trace, [x]);
    hide RecordOf;
  }

  lemma NewAtPrefix(trace: seq<Effect>, more: seq<Effect>)
    ensures forall k :: k < |trace| ==> (NewAt(trace + more, k) <==> NewAt(trace, k))
    ensures forall k :: NewAt(trace, k) ==> IdAt(trace + more, k) == IdAt(trace, k)
  {
  }

  lemma TracePrefixOk(cfg: Config, b: nat, trace: seq<Effect>, cut: nat)
    requires TraceOk(cfg, b, trace) && b <= cut <= |trace|
    ensures TraceOk(cfg, b, trace[..cut])
  {
    assert trace[..cut] + trace[cut..] == trace;
    NewAtPrefix(trace[..cut], trace[cut..]);
    hide RecordOf;
  }

  lemma SentStaysSent(trace: seq<Effect>, more: seq<Effect>, id: uint32)
    requires WasSent(trace, id)
    ensures WasSent(trace + more, id)
  {
    var k :| 0 <= k < |trace| && trace[k].Sent? && trace[k].order.id == id;
    assert (trace + more)[k] == trace[k];
  }

  // ----- Steps keep the invariant -----

  lemma AppendKeepsInv(cfg: Config, b: nat, w: World, ev: Event)
    requires Inv(cfg, b, w) && InRange(w.eng, ev) && ev.kind != SubmitOrder
    requires ev.kind == FillOrder ==> WasSent(w.eng.trace, ev.orderIdx) && ev.qty > 0
    ensures Inv(cfg, b, Append(w, ev))
  {
    hide TraceOk, Shape, NewAt, WasSent;
    var v := Append(w, ev);
    assert forall k :: SubmitAt(v, k) ==> SubmitAt(w, k) && v.queue[k] == w.queue[k];
  }

  lemma CounterMovedKeepsInv(cfg: Config, b: nat, w: World)
    requires Inv(cfg, b, w) && w.eng.nextId != 0
    ensures Inv(cfg, b, CounterMoved(w))
  {
    hide TraceOk, NewAt, WasSent;
    assert forall k :: SubmitAt(CounterMoved(w), k) <==> SubmitAt(w, k);
  }

  // A submission that takes the counter and goes to the back of the queue.
  lemma AcceptKeepsInv(cfg: Config, b: nat, w: World, ev: Event, now: int64)
    requires Inv(cfg, b, w) && 1 <= w.eng.nextId < cfg.maxOrders
    ensures Inv(cfg, b, Append(CounterMoved(w), SubmitEvent(ev, w.eng.nextId, now)))
  {
    hide TraceOk, NewAt, WasSent;
    var v := Append(CounterMoved(w), SubmitEvent(ev, w.eng.nextId, now));
    assert forall k :: SubmitAt(v, k) && k < |w.queue| ==> SubmitAt(w, k) && v.queue[k] == w.queue[k];
  }

  // Dropping the front event.
  lemma PopKeepsQueue(cfg: Config, w: World)
    requires QueueOk(cfg, w) && w.queue != []
    ensures QueueOk(cfg, w.(queue := w.queue[1..]))
    ensures IdsOk(cfg, w) ==> IdsOk(cfg, w.(queue := w.queue[1..]))
    ensures SubmitAt(w, 0) ==> forall q :: SubmitAt(w.(queue := w.queue[1..]), q) ==>
      w.queue[0].orderIdx < w.queue[1..][q].orderIdx
  {
    hide NewAt, WasSent;
    var v := w.(queue := w.queue[1..]);
    assert forall k :: SubmitAt(v, k) ==> SubmitAt(w, k + 1) && v.queue[k] == w.queue[k + 1];
  }

  // A different engine with the same counter and the same sent orders.
  lemma QueueSurvives(cfg: Config, w: World, eng: State)
    requires QueueOk(cfg, w) && |eng.orders| == |w.eng.orders| && eng.nextId == w.eng.nextId
    requires w.eng.trace <= eng.trace
    ensures QueueOk(cfg, w.(eng := eng))
  {
    hide Bound;
    var v := w.(eng := eng);
    assert forall k :: SubmitAt(v, k) <==> SubmitAt(w, k);
    forall k | 0 <= k < |v.queue| && v.queue[k].kind == FillOrder
      ensures WasSent(eng.trace, v.queue[k].orderIdx)
    {
      SentStaysSent(w.eng.trace, eng.trace[|w.eng.trace|..], v.queue[k].orderIdx);
      assert w.eng.trace + eng.trace[|w.eng.trace|..] == eng.trace;
    }
    hide WasSent;
  }

  lemma EncodingIgnoresProgress(o: Order, now: int64)
    requires o.status == NEW
    ensures EncodeOrder(WithStatus(Pending(o, now), NEW)) == EncodeOrder(o)
  {
    hide PutLE;
  }

  // The trace after a submission that passes the risk checks.
  lemma SubmissionExtendsTrace(cfg: Config, b: nat, s: State, ev: Event, env: Env)
    requires cfg.hasWal && TraceOk(cfg, b, s.trace)
    requires 1 <= ev.orderIdx < cfg.maxOrders == |s.orders|
    requires forall k :: NewAt(s.trace, k) && IdAt(s.trace, k) < cfg.maxOrders ==> IdAt(s.trace, k) < ev.orderIdx
    ensures TraceOk(cfg, b, ProcessSubmit(cfg, s, ev, env).trace)
  {
    if !RiskRejects(cfg, s, ev.qty) {
      var o := Built(s.orders[ev.orderIdx], ev);
      var record := Logged(NewOrderEntry(ev, o));
      TraceGrowsByOrder(cfg, b, s.trace, record);
      if cfg.hasBroker {
        EncodingIgnoresProgress(o, env.now);
        assert RecordOf(record, Pending(o, env.now)) by { hide EncodeOrder; }
        hide RecordOf, EncodeOrder;
        TraceGrowsBySend(cfg, b, s.trace + [record], Sent(Pending(o, env.now)));
      }
    }
  }

  lemma ProcessExtendsTrace(cfg: Config, b: nat, w: World, env: Env)
    requires Inv(cfg, b, w) && w.queue != []
    ensures TraceOk(cfg, b, Process(cfg, w.eng, w.queue[0], env).trace)
  {
    var s, ev := w.eng, w.queue[0];
    match ev.kind
    case SubmitOrder =>
      assert SubmitAt(w, 0);
      SubmissionExtendsTrace(cfg, b, s, ev, env);
    case CancelOrder =>
      TraceGrowsByOther(cfg, b, s.trace, Entry(ENTRY_CANCEL, ev.orderIdx, env.later, []));
      hide TraceOk;
    case ReplaceOrder => hide TraceOk;
    case FillOrder =>
      TraceGrowsByOther(cfg, b, s.trace, Entry(ENTRY_FILL, ev.orderIdx, env.later, []));
      hide TraceOk;
    case KillSwitch => hide TraceOk;
  }

  // New records in the trace of one event: only that of the submission in hand.
  lemma NewRecordsOfEvent(cfg: Config, s: State, ev: Event, env: Env, k: int)
    requires Shape(cfg, s) && InRange(s, ev)
    requires NewAt(Process(cfg, s, ev, env).trace, k)
    ensures k < |s.trace| ==> NewAt(s.trace, k) && IdAt(Process(cfg, s, ev, env).trace, k) == IdAt(s.trace, k)
    ensures k >= |s.trace| ==> ev.kind == SubmitOrder && IdAt(Process(cfg, s, ev, env).trace, k) == ev.orderIdx
  {
    TraceGrowth(cfg, s, ev, env);
    hide NewAverage, HashSymbol, Settled, CancelLinked, EncodeOrder, RiskRejects, LinksInRange;
  }

  lemma TurnKeepsIds(cfg: Config, b: nat, w: World, env: Env)
    requires Inv(cfg, b, w) && w.queue != []
    ensures IdsOk(cfg, Turn(cfg, w, env))
  {
    var v := Turn(cfg, w, env);
    var popped := w.(queue := w.queue[1..]);
    PopKeepsQueue(cfg, w);
    hide Process, TraceOk, QueueOk;
    assert v.eng.nextId == w.eng.nextId by { CounterIsKept(cfg, w.eng, w.queue[0], env); }
    forall k | NewAt(v.eng.trace, k) && IdAt(v.eng.trace, k) < cfg.maxOrders
      ensures IdAt(v.eng.trace, k) < Bound(v.eng.nextId)
      ensures forall q :: SubmitAt(v, q) ==> IdAt(v.eng.trace, k) < v.queue[q].orderIdx
    {
      NewRecordsOfEvent(cfg, w.eng, w.queue[0], env, k);
      assert forall q :: SubmitAt(v, q) <==> SubmitAt(popped, q);
      if k >= |w.eng.trace| { HeadBelowBound(cfg, w); }
    }
  }

  lemma HeadBelowBound(cfg: Config, w: World)
    requires QueueOk(cfg, w) && w.queue != [] && w.queue[0].kind == SubmitOrder
    ensures SubmitAt(w, 0) && w.queue[0].orderIdx < Bound(w.eng.nextId)
  {
  }

  lemma CounterIsKept(cfg: Config, s: State, ev: Event, env: Env)
    requires Shape(cfg, s) && InRange(s, ev)
    ensures Process(cfg, s, ev, env).nextId == s.nextId
  {
    hide NewAverage, HashSymbol, Settled, CancelLinked, EncodeOrder, RiskRejects, LinksInRange;
  }

  lemma TurnKeepsInv(cfg: Config, b: nat, w: World, env: Env)
    requires Inv(cfg, b, w)
    ensures Ready(cfg, w) && Inv(cfg, b, Turn(cfg, w, env))
  {
    if w.queue != [] {
      var ev := w.queue[0];
      assert InRange(w.eng, ev);
      ProcessKeepsShape(cfg, w.eng, ev, env);
      ProcessExtendsTrace(cfg, b, w, env);
      TurnKeepsIds(cfg, b, w, env);
      PopKeepsQueue(cfg, w);
      CounterIsKept(cfg, w.eng, ev, env);
      TraceGrowth(cfg, w.eng, ev, env);
      hide Process, TraceOk, IdsOk;
      QueueSurvives(cfg, w.(queue := w.queue[1..]), Process(cfg, w.eng, ev, env));
      hide QueueOk;
    }
  }

  // ----- Restart keeps the invariant -----

  lemma {:induction false} ReplayKeepsLinks(st: Store, es: seq<Entry>)
    requires Addressable(st) && LinksInRange(st.orders)
    ensures LinksInRange(ReplayAll(st, es).orders)
    decreases |es|
  {
    if es != [] {
      ReplayKeepsLinks(st, es[..|es| - 1]);
      EntryKeepsLinks(ReplayAll(st, es[..|es| - 1]), es[|es| - 1]);
      hide LinksInRange, ReplayEntry;
    }
  }

  lemma {:induction false} LogHolds(trace: seq<Effect>, k: nat)
    requires k < |trace| && trace[k].Logged?
    ensures trace[k].entry in LogOf(trace)
    decreases |trace|
  {
    if k < |trace| - 1 { LogHolds(trace[..|trace| - 1], k); }
  }

  lemma RecoveryKeepsInv(cfg: Config, b: nat, trace: seq<Effect>)
    requires cfg.hasWal && TraceOk(cfg, b, trace)
    ensures Inv(cfg, b, World(Recovered(cfg, trace), []))
  {
    var w := World(Recovered(cfg, trace), []);
    var st, es := FreshStore(cfg), LogOf(trace);
    NextIdIsAboveTheLog(st, es);
    ReplayKeepsLinks(st, es);
    hide TraceOk, ReplayAll, LogOf, LinksInRange;
    forall k | NewAt(trace, k) && IdAt(trace, k) < cfg.maxOrders
      ensures IdAt(trace, k) < Bound(w.eng.nextId)
    {
      LogHolds(trace, k);
      var p :| 0 <= p < |es| && es[p] == trace[k].entry;
      assert InRangeImage(st, es[p]);
    }
  }

  lemma OpeningEstablishesInv(cfg: Config, es: seq<Entry>)
    requires cfg.hasWal && AllFit(es)
    ensures Inv(cfg, |es|, Opened(cfg, es))
  {
    RecoveryKeepsInv(cfg, |es|, Past(es));
  }

  lemma OpenedTraceOk(cfg: Config, es: seq<Entry>)
    requires cfg.hasWal && AllFit(es)
    ensures TraceOk(cfg, |es|, Past(es))
  {
    OpeningEstablishesInv(cfg, es);
  }

  // ----- Runs -----

  lemma StepKeepsInv(cfg: Config, b: nat, w: World, a: Action)
    requires Inv(cfg, b, w) && Enabled(cfg, w, a)
    ensures Inv(cfg, b, Step(cfg, w, a))
  {
    match a
    case CallSubmit(ev, now) =>
      CounterMovedKeepsInv(cfg, b, w);
      if w.eng.nextId < cfg.maxOrders { AcceptKeepsInv(cfg, b, w, ev, now); }
    case CallCancel(idx, now) => AppendKeepsInv(cfg, b, w, PlainEvent(CancelOrder, idx, now, 0, 0));
    case ReportFill(idx, qty, price) =>
      SentIsInRange(cfg, b, w.eng.trace, idx);
      AppendKeepsInv(cfg, b, w, PlainEvent(FillOrder, idx, 0, qty, price));
    case PublishOther(ev) => AppendKeepsInv(cfg, b, w, ev);
    case SetKill(active) => SameEngineIds(cfg, b, w, w.eng.(kill := active));
    case SetPnl(pnl) => SameEngineIds(cfg, b, w, w.eng.(dailyPnl := pnl));
    case EventTurn(env) => TurnKeepsInv(cfg, b, w, env);
    case CrashAndRestart(env, cut) =>
      TurnKeepsInv(cfg, b, w, env);
      TracePrefixOk(cfg, b, Turn(cfg, w, env).eng.trace, cut);
      RecoveryKeepsInv(cfg, b, Turn(cfg, w, env).eng.trace[..cut]);
    case IdTaken => CounterMovedKeepsInv(cfg, b, w);
    case SubmissionQueued(ev, now) => AcceptKeepsInv(cfg, b, w, ev, now);
    case EventQueued(ev) => AppendKeepsInv(cfg, b, w, ev);
  }

  lemma SameEngineIds(cfg: Config, b: nat, w: World, eng: State)
    requires Inv(cfg, b, w) && eng.orders == w.eng.orders && eng.positions == w.eng.positions
    requires eng.nextId == w.eng.nextId && eng.trace == w.eng.trace
    ensures Inv(cfg, b, w.(eng := eng))
  {
    QueueSurvives(cfg, w, eng);
    hide TraceOk, QueueOk;
    assert forall k :: SubmitAt(w.(eng := eng), k) <==> SubmitAt(w, k);
  }

  lemma SentIsInRange(cfg: Config, b: nat, trace: seq<Effect>, id: uint32)
    requires TraceOk(cfg, b, trace) && WasSent(trace, id)
    ensures 1 <= id < cfg.maxOrders
  {
    var k :| 0 <= k < |trace| && trace[k].Sent? && trace[k].order.id == id;
    assert RecordOf(trace[k - 1], trace[k].order);
    assert NewAt(trace, k - 1);
  }

  lemma {:induction false} RunKeepsInv(cfg: Config, b: nat, ws: seq<World>, acts: seq<Action>, k: nat)
    requires IsRun(cfg, ws, acts) && Inv(cfg, b, ws[0]) && k < |ws|
    ensures Inv(cfg, b, ws[k])
    decreases k
  {
    if k > 0 {
      RunKeepsInv(cfg, b, ws, acts, k - 1);
      hide Inv;
      StepKeepsInv(cfg, b, ws[k - 1], acts[k - 1]);
    }
  }
}
