/**
 * The engine as a state machine on values: what each event does to the order store, the
 * position table and the ordered trace of external effects (records appended to the log and
 * orders handed to the broker). The broker's answer and the clock are inputs.
 */
module Engine {
  import opened Arith
  import opened Orders
  import opened Wal
  import opened Words

  datatype Config = Config(
    maxOrders: uint32, maxOrderSize: int32, maxDailyLoss: int64, hasWal: bool, hasBroker: bool)

  datatype Position = Position(symbol: Name, qty: int32, value: int64)

  const FLAT: Position := Position(NO_NAME, 0, 0)

  datatype Effect = Logged(entry: Entry) | Sent(order: Order)

  datatype State = State(
    orders: seq<Order>, positions: seq<Position>, nextId: uint32,
    kill: bool, dailyPnl: int64, trace: seq<Effect>)

  // The broker's answer to the call this event makes, and two readings of the clock.
  datatype Env = Env(accepts: bool, now: int64, later: int64)

  predicate LinksInRange(orders: seq<Order>) {
    forall i :: 0 <= i < |orders| ==>
      orders[i].linked1 <= |orders| - 1 && orders[i].linked2 <= |orders| - 1
  }

  predicate Shape(cfg: Config, s: State) {
    |s.orders| == cfg.maxOrders && |s.positions| == POSITION_SLOTS && LinksInRange(s.orders)
  }

  // Handlers index the order array directly.
  predicate InRange(s: State, ev: Event) {
    ev.kind == KillSwitch || ev.orderIdx < |s.orders|
  }

  function Fresh(cfg: Config): (s: State)
    ensures Shape(cfg, s)
  {
    State(seq(cfg.maxOrders, i => NO_ORDER), seq(POSITION_SLOTS, i => FLAT), 1, false, 0, [])
  }

  // ----- The log and broker views of a trace -----

  function LogOf(trace: seq<Effect>): seq<Entry>
    decreases |trace|
  {
    if trace == [] then []
    else
      var front, last := LogOf(trace[..|trace| - 1]), trace[|trace| - 1];
      if last.Logged? then front + [last.entry] else front
  }

  function SentBy(trace: seq<Effect>): seq<Order>
    decreases |trace|
  {
    if trace == [] then []
    else
      var front, last := SentBy(trace[..|trace| - 1]), trace[|trace| - 1];
      if last.Sent? then front + [last.order] else front
  }

  function AppendLog(cfg: Config, trace: seq<Effect>, e: Entry): seq<Effect> {
    if cfg.hasWal then trace + [Logged(e)] else trace
  }

  // ----- Submit -----

  function WithStatus(o: Order, status: Status): Order {
    o.(status := status)
  }

  function Pending(o: Order, now: int64): Order {
    o.(status := PENDING_NEW, submittedAt := now)
  }

  function Built(o: Order, ev: Event): Order {
    o.(id := ev.orderIdx, symbol := ev.symbol, strategy := ev.strategy, side := ev.side,
       ordType := ev.ordType, tif := ev.tif, qty := ev.qty, price := ev.price,
       stopPrice := ev.stopPrice, trailType := ev.trailType, trailValue := Wrap32(ev.trailVal),
       status := NEW, createdAt := ev.timestamp)
  }

  predicate RiskRejects(cfg: Config, s: State, qty: int32) {
    qty > cfg.maxOrderSize || s.kill || s.dailyPnl < Wrap64(-(cfg.maxDailyLoss as int))
  }

  function NewOrderEntry(ev: Event, o: Order): Entry {
    Entry(ENTRY_NEW_ORDER, ev.orderIdx, ev.timestamp, EncodeOrder(o))
  }

  function ProcessSubmit(cfg: Config, s: State, ev: Event, env: Env): State
    requires ev.orderIdx < |s.orders|
  {
    var idx := ev.orderIdx;
    var o := Built(s.orders[idx], ev);
    if RiskRejects(cfg, s, o.qty) then
      s.(orders := s.orders[idx := WithStatus(o, REJECTED)])
    else
      var logged := AppendLog(cfg, s.trace, NewOrderEntry(ev, o));
      var pending := Pending(o, env.now);
      if cfg.hasBroker then
        s.(orders := s.orders[idx := WithStatus(pending, if env.accepts then ACKNOWLEDGED else REJECTED)],
           trace := logged + [Sent(pending)])
      else
        s.(orders := s.orders[idx := WithStatus(pending, ACKNOWLEDGED)], trace := logged)
  }

  // ----- Cancel -----

  function CancelLinked(orders: seq<Order>, i: uint32): (r: seq<Order>)
    requires i == 0 || i < |orders|
    ensures |r| == |orders| && (LinksInRange(orders) ==> LinksInRange(r))
  {
    if i != 0 && IsCancellable(orders[i].status) then orders[i := WithStatus(orders[i], CANCELLED)]
    else orders
  }

  function ProcessCancel(cfg: Config, s: State, ev: Event, env: Env): State
    requires ev.orderIdx < |s.orders| && LinksInRange(s.orders)
  {
    var idx := ev.orderIdx;
    var o := s.orders[idx];
    if !IsCancellable(o.status) then s
    else if cfg.hasBroker && !env.accepts then
      s.(orders := s.orders[idx := WithStatus(o, ACKNOWLEDGED)])
    else
      var own := s.orders[idx := WithStatus(o, CANCELLED)];
      s.(orders := CancelLinked(CancelLinked(own, o.linked1), o.linked2),
         trace := AppendLog(cfg, s.trace, Entry(ENTRY_CANCEL, idx, env.later, [])))
  }

  // ----- Replace -----

  function ProcessReplace(s: State, ev: Event): State
    requires ev.orderIdx < |s.orders|
  {
    var idx := ev.orderIdx;
    var o := s.orders[idx];
    if o.status != ACKNOWLEDGED && o.status != PARTIAL_FILL then s
    else
      s.(orders := s.orders[idx :=
        o.(qty := if ev.qty > 0 then ev.qty else o.qty,
           price := if ev.price > 0 then ev.price else o.price)])
  }

  // ----- Fill -----

  lemma QuotientShrinks(a: int, b: int)
    requires b > 0
    ensures a >= 0 ==> 0 <= TruncDiv(a, b) <= a
    ensures a <= 0 ==> a <= TruncDiv(a, b) <= 0
  {
    if a >= 0 { QuotientBound(a, b); }
    if a <= 0 { QuotientBound(-a, b); }
  }

  // The average price after a fill, in 32- and 64-bit arithmetic with truncating division.
  function NewAverage(filledQty: int32, avgPx: int64, qty: int32, px: int64): int64 {
    var total := Wrap64(Wrap64(filledQty * avgPx) + Wrap64(qty * px));
    var filled := Wrap32(filledQty + qty);
    if filled > 0 then
      QuotientShrinks(total, filled);
      TruncDiv(total, filled)
    else avgPx
  }

  function WithFill(o: Order, filledQty: int32, avgPx: int64, px: int64): Order {
    o.(filledQty := filledQty, filledAvgPx := avgPx, lastFillPx := px)
  }

  // The status after a fill: complete once the filled quantity reaches the order quantity.
  function Settled(o: Order, now: int64): Order {
    if o.filledQty >= o.qty then o.(status := FILLED, filledAt := now) else o.(status := PARTIAL_FILL)
  }

  function Filled(o: Order, qty: int32, px: int64, now: int64): Order {
    Settled(WithFill(o, Wrap32(o.filledQty + qty), NewAverage(o.filledQty, o.filledAvgPx, qty, px), px), now)
  }

  // +1 for the sides that add to a position, -1 for those that reduce it.
  function Sign(side: Side): int {
    if side == SIDE_BUY || side == SIDE_COVER then 1 else -1
  }

  function Moved(p: Position, o: Order, qty: int32, px: int64): Position {
    var q := Wrap32(p.qty + Sign(o.side) * qty);
    Position(o.symbol, q, Wrap64(q * px))
  }

  function ProcessFill(cfg: Config, s: State, ev: Event, env: Env): State
    requires ev.orderIdx < |s.orders| && |s.positions| == POSITION_SLOTS
  {
    var idx := ev.orderIdx;
    var o := s.orders[idx];
    var h := HashSymbol(o.symbol);
    s.(orders := s.orders[idx := Filled(o, ev.qty, ev.price, env.now)],
       positions := s.positions[h := Moved(s.positions[h], o, ev.qty, ev.price)],
       trace := AppendLog(cfg, s.trace, Entry(ENTRY_FILL, idx, env.later, [])))
  }

  // ----- Dispatch -----

  function Process(cfg: Config, s: State, ev: Event, env: Env): State
    requires Shape(cfg, s) && InRange(s, ev)
  {
    match ev.kind
    case SubmitOrder => ProcessSubmit(cfg, s, ev, env)
    case CancelOrder => ProcessCancel(cfg, s, ev, env)
    case ReplaceOrder => ProcessReplace(s, ev)
    case FillOrder => ProcessFill(cfg, s, ev, env)
    case KillSwitch => s.(kill := true)
  }

  lemma SubmitKeepsShape(cfg: Config, s: State, ev: Event, env: Env)
    requires Shape(cfg, s) && ev.orderIdx < |s.orders|
    ensures Shape(cfg, ProcessSubmit(cfg, s, ev, env))
  {
    hide Wrap32, Wrap64, AppendLog, EncodeOrder;
  }

  lemma FillKeepsShape(cfg: Config, s: State, ev: Event, env: Env)
    requires Shape(cfg, s) && ev.orderIdx < |s.orders|
    ensures Shape(cfg, ProcessFill(cfg, s, ev, env))
  {
    hide Wrap32, Wrap64, AppendLog, NewAverage, HashSymbol;
  }

  lemma CancelKeepsShape(cfg: Config, s: State, ev: Event, env: Env)
    requires Shape(cfg, s) && ev.orderIdx < |s.orders|
    ensures Shape(cfg, ProcessCancel(cfg, s, ev, env))
  {
    hide AppendLog, CancelLinked, IsCancellable;
  }

  lemma ProcessKeepsShape(cfg: Config, s: State, ev: Event, env: Env)
    requires Shape(cfg, s) && InRange(s, ev)
    ensures Shape(cfg, Process(cfg, s, ev, env))
  {
    match ev.kind
    case SubmitOrder => SubmitKeepsShape(cfg, s, ev, env);
    case CancelOrder => CancelKeepsShape(cfg, s, ev, env);
    case ReplaceOrder =>
    case FillOrder => FillKeepsShape(cfg, s, ev, env);
    case KillSwitch =>
  }

  // The trace only grows, and by at most one record followed by at most one broker call.
  lemma TraceGrowth(cfg: Config, s: State, ev: Event, env: Env)
    requires Shape(cfg, s) && InRange(s, ev)
    ensures var t := Process(cfg, s, ev, env).trace;
      && s.trace <= t && |t| <= |s.trace| + 2
      && (forall k :: |s.trace| < k < |t| ==> t[k].Sent?)
  {
  }

  // Handlers never look at the trace: what came before it only stays in front.
  lemma TraceIsOnlyExtended(cfg: Config, s: State, ev: Event, env: Env, past: seq<Effect>)
    requires Shape(cfg, s) && InRange(s, ev)
    ensures var t := Process(cfg, s, ev, env);
      Process(cfg, s.(trace := past + s.trace), ev, env) == t.(trace := past + t.trace)
  {
    hide NewAverage, HashSymbol, EncodeOrder, Wrap32, Wrap64, LinksInRange, CancelLinked;
    var a, b := Process(cfg, s.(trace := past + s.trace), ev, env), Process(cfg, s, ev, env);
    assert a.trace == past + b.trace;
  }
}
