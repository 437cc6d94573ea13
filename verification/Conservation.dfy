/**
 * Position conservation: each slot of the position table holds the signed sum of the filled
 * quantities of the orders whose symbol hashes to it, as a 32-bit word.
 */
module Conservation {
  import opened Arith
  import opened Engine
  import opened Orders
  import opened Pipeline
  import opened Replay
  import opened Runs
  import opened Wal
  import opened Words

  // What was bought: the filled quantities of the orders of a slot whose side is buy or cover,
  // codes 1 and 4. What was sold: those of any other side.
  function BoughtBy(o: Order, h: nat): int {
    if HashSymbol(o.symbol) == h && (o.side == 1 || o.side == 4) then o.filledQty else 0
  }

  function SoldBy(o: Order, h: nat): int {
    if HashSymbol(o.symbol) == h && o.side != 1 && o.side != 4 then o.filledQty else 0
  }

  function Bought(orders: seq<Order>, h: nat): int
    decreases |orders|
  {
    if orders == [] then 0 else Bought(orders[..|orders| - 1], h) + BoughtBy(orders[|orders| - 1], h)
  }

  function Sold(orders: seq<Order>, h: nat): int
    decreases |orders|
  {
    if orders == [] then 0 else Sold(orders[..|orders| - 1], h) + SoldBy(orders[|orders| - 1], h)
  }

  function NetFilled(orders: seq<Order>, h: nat): int {
    Bought(orders, h) - Sold(orders, h)
  }

  predicate Conserved(s: State) {
    && |s.positions| == POSITION_SLOTS
    && forall h :: 0 <= h < POSITION_SLOTS ==>
         s.positions[h].qty == Wrap32(Bought(s.orders, h) - Sold(s.orders, h))
  }

  function Contribution(o: Order, h: nat): int {
    BoughtBy(o, h) - SoldBy(o, h)
  }

  // An order contributes to its slot what the handler adds to or takes off the position for it.
  lemma ContributionIsSigned(o: Order, h: nat)
    ensures Contribution(o, h) == if HashSymbol(o.symbol) == h then Sign(o.side) * o.filledQty else 0
  {
    hide HashSymbol;
  }

  lemma {:induction false} NetAfterUpdate(orders: seq<Order>, i: nat, o: Order, h: nat)
    requires i < |orders|
    ensures NetFilled(orders[i := o], h) ==
            NetFilled(orders, h) + Contribution(o, h) - Contribution(orders[i], h)
    decreases |orders|
  {
    hide BoughtBy, SoldBy;
    var n := |orders| - 1;
    if i == n {
      assert orders[i := o][..n] == orders[..n];
    } else {
      assert orders[i := o][..n] == orders[..n][i := o];
      NetAfterUpdate(orders[..n], i, o, h);
    }
  }

  predicate Unfilled(orders: seq<Order>) {
    forall i :: 0 <= i < |orders| ==> orders[i].filledQty == 0
  }

  lemma {:induction false} NetOfUnfilled(orders: seq<Order>, h: nat)
    requires Unfilled(orders)
    ensures NetFilled(orders, h) == 0
    decreases |orders|
  {
    hide HashSymbol;
    if orders != [] { NetOfUnfilled(orders[..|orders| - 1], h); }
  }

  // A slot whose order contributes as before leaves every net unchanged.
  lemma SameNet(orders: seq<Order>, i: nat, o: Order)
    requires i < |orders|
    requires (o.symbol == orders[i].symbol && o.side == orders[i].side && o.filledQty == orders[i].filledQty)
          || (o.filledQty == 0 && orders[i].filledQty == 0)
    ensures forall h :: NetFilled(orders[i := o], h) == NetFilled(orders, h)
  {
    forall h: nat
      ensures NetFilled(orders[i := o], h) == NetFilled(orders, h)
    {
      NetAfterUpdate(orders, i, o, h);
      ContributionIsSigned(o, h);
      ContributionIsSigned(orders[i], h);
      hide NetFilled, Contribution, HashSymbol;
    }
  }

  lemma SameNetsConserve(s: State, t: State)
    requires Conserved(s) && t.positions == s.positions
    requires forall h :: NetFilled(t.orders, h) == NetFilled(s.orders, h)
    ensures Conserved(t)
  {
    hide Bought, Sold, Wrap32;
    forall h | 0 <= h < POSITION_SLOTS
      ensures t.positions[h].qty == Wrap32(Bought(t.orders, h) - Sold(t.orders, h))
    {
      assert NetFilled(t.orders, h) == NetFilled(s.orders, h);
    }
  }

  // Words that differ from their sums by whole multiples of 2^32 agree after wrapping.
  lemma SameWord(x: int, y: int, a: int, c: int)
    requires a % TWO_32 == 0 && c % TWO_32 == 0 && (x - y == a - c || x - y == a + c)
    ensures Wrap32(x) == Wrap32(y)
  {
    Wrap32Congruent(x, y);
    hide Wrap32;
    var k, m := a / TWO_32, c / TWO_32;
    assert a == TWO_32 * k && c == TWO_32 * m;
    DivisionIs(a - c, TWO_32, k - m, 0);
    DivisionIs(a + c, TWO_32, k + m, 0);
  }

  // A fill moves the net of the order's slot and the position by the same amount modulo 2^32.
  lemma FillMovesBoth(net: int, filled: int32, qty: int32, side: Side)
    ensures Wrap32(Wrap32(net) + Sign(side) * qty) ==
            Wrap32(net + Sign(side) * Wrap32(filled + qty) - Sign(side) * filled)
  {
    var a, c: int := Wrap32(net) - net, Wrap32(filled + qty) - (filled + qty);
    assert a % TWO_32 == 0 && c % TWO_32 == 0;
    hide Wrap32;
    if Sign(side) == 1 {
      SameWord(Wrap32(net) + qty, net + Wrap32(filled + qty) - filled, a, c);
    } else {
      SameWord(Wrap32(net) - qty, net - Wrap32(filled + qty) + filled, a, c);
    }
  }

  lemma FillSlotNet(orders: seq<Order>, i: nat, p: Order, qty: int32, h: nat)
    requires i < |orders| && p.symbol == orders[i].symbol && p.side == orders[i].side
    requires p.filledQty == Wrap32(orders[i].filledQty + qty)
    ensures Wrap32(NetFilled(orders[i := p], h)) ==
      if HashSymbol(p.symbol) == h then Wrap32(Wrap32(NetFilled(orders, h)) + Sign(p.side) * qty)
      else Wrap32(NetFilled(orders, h))
  {
    hide HashSymbol, NetFilled, Contribution, Wrap32, Sign;
    NetAfterUpdate(orders, i, p, h);
    ContributionIsSigned(p, h);
    ContributionIsSigned(orders[i], h);
    if HashSymbol(p.symbol) == h {
      FillMovesBoth(NetFilled(orders, h), orders[i].filledQty, qty, p.side);
    }
  }

  lemma FillConserves(cfg: Config, s: State, ev: Event, env: Env)
    requires Conserved(s) && ev.orderIdx < |s.orders|
    ensures Conserved(ProcessFill(cfg, s, ev, env))
  {
    hide HashSymbol, Bought, Sold, Wrap32, Wrap64, Sign, NewAverage, AppendLog;
    var i, t := ev.orderIdx, ProcessFill(cfg, s, ev, env);
    var p := Filled(s.orders[i], ev.qty, ev.price, env.now);
    forall h | 0 <= h < POSITION_SLOTS
      ensures t.positions[h].qty == Wrap32(NetFilled(t.orders, h))
    {
      FillSlotNet(s.orders, i, p, ev.qty, h);
    }
  }

  lemma CancelConserves(cfg: Config, s: State, ev: Event, env: Env)
    requires Shape(cfg, s) && Conserved(s) && ev.orderIdx < |s.orders|
    ensures Conserved(ProcessCancel(cfg, s, ev, env))
  {
    var i := ev.orderIdx;
    var o := s.orders[i];
    SameNet(s.orders, i, WithStatus(o, ACKNOWLEDGED));
    SameNet(s.orders, i, WithStatus(o, CANCELLED));
    var own := s.orders[i := WithStatus(o, CANCELLED)];
    LegKeepsNet(own, o.linked1);
    LegKeepsNet(CancelLinked(own, o.linked1), o.linked2);
    hide Conserved, NetFilled, CancelLinked, WithStatus;
    SameNetsConserve(s, ProcessCancel(cfg, s, ev, env));
  }

  lemma LegKeepsNet(orders: seq<Order>, i: uint32)
    requires i == 0 || i < |orders|
    ensures forall h :: NetFilled(CancelLinked(orders, i), h) == NetFilled(orders, h)
  {
    if i != 0 && IsCancellable(orders[i].status) {
      SameNet(orders, i, WithStatus(orders[i], CANCELLED));
    }
    hide Bought, Sold;
  }

  lemma SubmitConserves(cfg: Config, s: State, ev: Event, env: Env)
    requires Conserved(s) && ev.orderIdx < |s.orders| && s.orders[ev.orderIdx].filledQty == 0
    ensures Conserved(ProcessSubmit(cfg, s, ev, env))
  {
    var t := ProcessSubmit(cfg, s, ev, env);
    SameNet(s.orders, ev.orderIdx, t.orders[ev.orderIdx]);
    assert t.orders == s.orders[ev.orderIdx := t.orders[ev.orderIdx]];
    hide Conserved, NetFilled, ProcessSubmit;
    SameNetsConserve(s, t);
  }

  lemma ReplaceConserves(s: State, ev: Event)
    requires Conserved(s) && ev.orderIdx < |s.orders|
    ensures Conserved(ProcessReplace(s, ev))
  {
    var t := ProcessReplace(s, ev);
    SameNet(s.orders, ev.orderIdx, t.orders[ev.orderIdx]);
    assert t.orders == s.orders[ev.orderIdx := t.orders[ev.orderIdx]];
    hide Conserved, NetFilled, ProcessReplace;
    SameNetsConserve(s, t);
  }

  // Slots that no processed submission has reached hold no fills.
  ghost predicate Unused(w: World, i: nat) {
    i >= Bound(w.eng.nextId) || exists k :: SubmitAt(w, k) && w.queue[k].orderIdx == i
  }

  ghost predicate UnusedAreUnfilled(w: World) {
    forall i :: 0 <= i < |w.eng.orders| && Unused(w, i) ==> w.eng.orders[i].filledQty == 0
  }

  ghost predicate Balanced(cfg: Config, b: nat, w: World) {
    Inv(cfg, b, w) && UnusedAreUnfilled(w) && Conserved(w.eng)
  }

  // An order that was sent is in use.
  lemma SentIsUsed(cfg: Config, b: nat, w: World, id: uint32)
    requires Inv(cfg, b, w) && WasSent(w.eng.trace, id)
    ensures id < cfg.maxOrders && !Unused(w, id)
  {
    SentIsInRange(cfg, b, w.eng.trace, id);
    var k :| 0 <= k < |w.eng.trace| && w.eng.trace[k].Sent? && w.eng.trace[k].order.id == id;
    assert RecordOf(w.eng.trace[k - 1], w.eng.trace[k].order);
    assert NewAt(w.eng.trace, k - 1) && IdAt(w.eng.trace, k - 1) == id;
  }

  // Outside a restart, slots only leave the unused set, and a processed submission leaves it.
  lemma UnusedShrinks(cfg: Config, b: nat, w: World, a: Action, i: nat)
    requires Inv(cfg, b, w) && Enabled(cfg, w, a) && !a.CrashAndRestart? && Unused(Step(cfg, w, a), i)
    ensures Unused(w, i)
    ensures a.EventTurn? && SubmitAt(w, 0) ==> i != w.queue[0].orderIdx
  {
    var v := Step(cfg, w, a);
    if a.EventTurn? && w.queue != [] {
      CounterIsKept(cfg, w.eng, w.queue[0], a.env);
      hide Process, IdsOk, TraceOk;
      if i < Bound(v.eng.nextId) {
        var k :| SubmitAt(v, k) && v.queue[k].orderIdx == i;
        assert SubmitAt(w, k + 1) && w.queue[k + 1].orderIdx == i;
      }
    } else {
      hide Process, Inv;
      if i < Bound(v.eng.nextId) {
        var k :| SubmitAt(v, k) && v.queue[k].orderIdx == i;
        if k < |w.queue| { assert SubmitAt(w, k) && w.queue[k].orderIdx == i; }
      }
    }
  }

  // The filled quantity of a slot changes only by a fill event for it.
  lemma OnlyFillsFill(cfg: Config, s: State, ev: Event, env: Env, i: nat)
    requires Shape(cfg, s) && InRange(s, ev) && i < |s.orders|
    ensures |Process(cfg, s, ev, env).orders| == |s.orders|
    ensures !(ev.kind == FillOrder && ev.orderIdx == i) ==>
      Process(cfg, s, ev, env).orders[i].filledQty == s.orders[i].filledQty
  {
    hide NewAverage, HashSymbol, Settled, EncodeOrder, RiskRejects, LinksInRange, IsCancellable;
  }

  lemma TurnKeepsUnfilled(cfg: Config, b: nat, w: World, env: Env)
    requires Balanced(cfg, b, w) && w.queue != [] && Enabled(cfg, w, EventTurn(env))
    ensures UnusedAreUnfilled(Turn(cfg, w, env))
  {
    var v, ev := Turn(cfg, w, env), w.queue[0];
    forall i | 0 <= i < |v.eng.orders| && Unused(v, i)
      ensures v.eng.orders[i].filledQty == 0
    {
      OnlyFillsFill(cfg, w.eng, ev, env, i);
      UnusedShrinks(cfg, b, w, EventTurn(env), i);
      if ev.kind == FillOrder { SentIsUsed(cfg, b, w, ev.orderIdx); }
      hide Process, Unused, Inv, Conserved;
    }
  }

  lemma EventConserves(cfg: Config, b: nat, w: World, env: Env)
    requires Balanced(cfg, b, w) && w.queue != []
    ensures InRange(w.eng, w.queue[0]) && Conserved(Process(cfg, w.eng, w.queue[0], env))
  {
    var s, ev := w.eng, w.queue[0];
    match ev.kind
    case SubmitOrder =>
      assert SubmitAt(w, 0);
      assert Unused(w, ev.orderIdx);
      SubmitConserves(cfg, s, ev, env);
    case CancelOrder => CancelConserves(cfg, s, ev, env);
    case ReplaceOrder => ReplaceConserves(s, ev);
    case FillOrder => FillConserves(cfg, s, ev, env);
    case KillSwitch => hide Bought, Sold;
  }

  lemma {:induction false} ReplayFillsNothing(st: Store, es: seq<Entry>)
    requires Addressable(st) && Unfilled(st.orders)
    ensures Unfilled(ReplayAll(st, es).orders)
    decreases |es|
  {
    if es != [] {
      ReplayFillsNothing(st, es[..|es| - 1]);
      var t, e := ReplayAll(st, es[..|es| - 1]), es[|es| - 1];
      if e.orderIdx < |t.orders| { StepKeepsUnstored(t.orders[e.orderIdx], e); }
      hide OwnStep;
    }
  }

  lemma UnfilledConserves(s: State)
    requires |s.positions| == POSITION_SLOTS && forall h :: 0 <= h < POSITION_SLOTS ==> s.positions[h] == FLAT
    requires Unfilled(s.orders)
    ensures Conserved(s)
  {
    hide Bought, Sold;
    forall h | 0 <= h < POSITION_SLOTS
      ensures s.positions[h].qty == Wrap32(Bought(s.orders, h) - Sold(s.orders, h))
    {
      NetOfUnfilled(s.orders, h);
    }
  }

  lemma RecoveredHoldsNoFills(cfg: Config, trace: seq<Effect>)
    ensures Unfilled(Recovered(cfg, trace).orders)
  {
    ReplayFillsNothing(FreshStore(cfg), LogOf(trace));
    hide ReplayAll, LogOf;
  }

  lemma RecoveryIsBalanced(cfg: Config, b: nat, trace: seq<Effect>)
    requires cfg.hasWal && TraceOk(cfg, b, trace)
    ensures Balanced(cfg, b, World(Recovered(cfg, trace), []))
  {
    hide ReplayAll, LogOf, Inv, TraceOk, Conserved;
    RecoveryKeepsInv(cfg, b, trace);
    RecoveredHoldsNoFills(cfg, trace);
    UnfilledConserves(Recovered(cfg, trace));
  }

  lemma TurnKeepsBalance(cfg: Config, b: nat, w: World, env: Env)
    requires Balanced(cfg, b, w) && Enabled(cfg, w, EventTurn(env)) && w.queue != []
    ensures Balanced(cfg, b, Turn(cfg, w, env))
  {
    TurnKeepsInv(cfg, b, w, env);
    TurnKeepsUnfilled(cfg, b, w, env);
    EventConserves(cfg, b, w, env);
    hide Process, Inv, Conserved, UnusedAreUnfilled, Shape, InRange;
  }

  lemma RestartKeepsBalance(cfg: Config, b: nat, w: World, a: Action)
    requires a.CrashAndRestart? && Inv(cfg, b, w) && Enabled(cfg, w, a)
    ensures Balanced(cfg, b, Step(cfg, w, a))
  {
    TurnKeepsInv(cfg, b, w, a.env);
    hide Balanced, Turn, Recovered, TraceOk;
    TracePrefixOk(cfg, b, Turn(cfg, w, a.env).eng.trace, a.cut);
    RecoveryIsBalanced(cfg, b, Turn(cfg, w, a.env).eng.trace[..a.cut]);
    hide Inv;
  }

  // The other steps touch neither orders nor positions.
  lemma PlainStepKeepsOrders(cfg: Config, w: World, a: Action)
    requires Enabled(cfg, w, a) && !a.CrashAndRestart? && (a.EventTurn? ==> w.queue == [])
    ensures Step(cfg, w, a).eng.orders == w.eng.orders && Step(cfg, w, a).eng.positions == w.eng.positions
  {
    hide Process, Ready;
  }

  lemma SameConserves(s: State, t: State)
    requires Conserved(s) && t.orders == s.orders && t.positions == s.positions
    ensures Conserved(t)
  {
    hide Bought, Sold, Wrap32;
  }

  lemma PlainStepKeepsBalance(cfg: Config, b: nat, w: World, a: Action)
    requires Balanced(cfg, b, w) && Enabled(cfg, w, a) && !a.CrashAndRestart? && (a.EventTurn? ==> w.queue == [])
    ensures Balanced(cfg, b, Step(cfg, w, a))
  {
    hide Inv, Unused, Conserved, Step, Enabled;
    StepKeepsInv(cfg, b, w, a);
    PlainStepKeepsOrders(cfg, w, a);
    var v := Step(cfg, w, a);
    SameConserves(w.eng, v.eng);
    forall i | 0 <= i < |v.eng.orders| && Unused(v, i)
      ensures v.eng.orders[i].filledQty == 0
    {
      UnusedShrinks(cfg, b, w, a, i);
    }
  }

  lemma StepKeepsBalance(cfg: Config, b: nat, w: World, a: Action)
    requires Balanced(cfg, b, w) && Enabled(cfg, w, a)
    ensures Balanced(cfg, b, Step(cfg, w, a))
  {
    hide Inv, Conserved, UnusedAreUnfilled, Turn, Ready;
    if a.EventTurn? && w.queue != [] {
      TurnKeepsBalance(cfg, b, w, a.env);
    } else if a.CrashAndRestart? {
      RestartKeepsBalance(cfg, b, w, a);
    } else {
      PlainStepKeepsBalance(cfg, b, w, a);
    }
  }

  lemma {:induction false} RunKeepsBalance(cfg: Config, b: nat, ws: seq<World>, acts: seq<Action>, n: nat)
    requires IsRun(cfg, ws, acts) && Balanced(cfg, b, ws[0]) && n < |ws|
    ensures Balanced(cfg, b, ws[n])
    decreases n
  {
    hide Balanced, Step, Enabled;
    if n > 0 {
      RunKeepsBalance(cfg, b, ws, acts, n - 1);
      StepKeepsBalance(cfg, b, ws[n - 1], acts[n - 1]);
    }
  }

  // In every state of every run from a well-formed log, restarts included, every position slot
  // balances.
  lemma PositionsBalance(cfg: Config, es: seq<Entry>, ws: seq<World>, acts: seq<Action>, n: nat)
    requires cfg.hasWal && AllFit(es) && IsRun(cfg, ws, acts) && ws[0] == Opened(cfg, es) && n < |ws|
    ensures Balanced(cfg, |es|, ws[n])
  {
    OpeningEstablishesInv(cfg, es);
    RecoveryIsBalanced(cfg, |es|, Past(es));
    hide Balanced, IsRun;
    RunKeepsBalance(cfg, |es|, ws, acts, n);
  }
}
