/** What the logs and the orders of every run look like, whatever branches its turns take. */
module EngineLogs {
  import opened Engine
  import opened Ids
  import opened Lifecycle
  import opened Orders
  import opened Pipeline
  import opened Replay
  import opened Runs
  import opened Simulation
  import opened Wal

  // ----- Every run is grounded -----

  ghost predicate Backed(cfg: Config, b: nat, w: World) {
    Inv(cfg, b, w) && Grounded(cfg, w.eng.trace) && LiveIsLogged(w.eng)
  }

  lemma BackedHead(cfg: Config, b: nat, w: World)
    requires Backed(cfg, b, w) && w.queue != []
    ensures InRange(w.eng, w.queue[0]) && FillsLogged(w.eng, w.queue[0])
  {
    if w.queue[0].kind == FillOrder { SentHasNew(cfg, b, w.eng.trace, w.queue[0].orderIdx); }
    hide Grounded, LiveIsLogged, HasNew;
  }

  lemma RecoveryIsBacked(cfg: Config, b: nat, trace: seq<Effect>)
    requires cfg.hasWal && TraceOk(cfg, b, trace) && Grounded(cfg, trace)
    ensures Backed(cfg, b, World(Recovered(cfg, trace), []))
  {
    RecoveryIsInStep(cfg, b, trace);
    hide TraceOk, QueueOk, IdsOk, Recovered, Grounded, UnusedAreEmpty, UnusedAreUnnamed;
    AgreementIsLive(cfg, Recovered(cfg, trace));
  }

  lemma BackedTurn(cfg: Config, b: nat, w: World, env: Env, cut: nat)
    requires Backed(cfg, b, w) && Ready(cfg, w) && |w.eng.trace| <= cut <= |Turn(cfg, w, env).eng.trace|
    ensures Grounded(cfg, Turn(cfg, w, env).eng.trace[..cut]) && LiveIsLogged(Turn(cfg, w, env).eng)
  {
    if w.queue != [] {
      BackedHead(cfg, b, w);
      hide TraceOk, QueueOk, IdsOk, LinksInRange, Process, Grounded, LiveIsLogged, FillsLogged;
      TurnStaysGrounded(cfg, w.eng, w.queue[0], env, cut);
      EventKeepsLive(cfg, w.eng, w.queue[0], env);
    } else {
      assert w.eng.trace[..cut] == w.eng.trace;
    }
  }

  lemma StepKeepsBacked(cfg: Config, b: nat, w: World, a: Action)
    requires Backed(cfg, b, w) && Enabled(cfg, w, a)
    ensures Backed(cfg, b, Step(cfg, w, a))
  {
    StepKeepsInv(cfg, b, w, a);
    if a.EventTurn? {
      var v := Turn(cfg, w, a.env);
      hide Inv, Grounded, LiveIsLogged, Turn;
      TurnExtends(cfg, b, w, a.env);
      BackedTurn(cfg, b, w, a.env, |v.eng.trace|);
      assert v.eng.trace[..|v.eng.trace|] == v.eng.trace;
    } else if a.CrashAndRestart? {
      var t := Turn(cfg, w, a.env).eng.trace;
      BackedTurn(cfg, b, w, a.env, a.cut);
      TurnKeepsInv(cfg, b, w, a.env);
      hide Grounded, LiveIsLogged, Turn, Recovered;
      TracePrefixOk(cfg, b, t, a.cut);
      RecoveryIsBacked(cfg, b, t[..a.cut]);
    } else {
      SameIsLive(w.eng, Step(cfg, w, a).eng);
      hide Inv, Grounded, LiveIsLogged;
    }
  }

  lemma SameIsLive(s: State, t: State)
    requires LiveIsLogged(s) && t.orders == s.orders && t.trace == s.trace
    ensures LiveIsLogged(t)
  {
    hide HasNew;
    forall i | 0 <= i < |t.orders|
      ensures LiveAt(t, i)
    {
      assert LiveAt(s, i);
    }
  }

  lemma TurnExtends(cfg: Config, b: nat, w: World, env: Env)
    requires Backed(cfg, b, w) && Ready(cfg, w)
    ensures |w.eng.trace| <= |Turn(cfg, w, env).eng.trace|
  {
    if w.queue != [] { TraceGrowth(cfg, w.eng, w.queue[0], env); }
    hide Process, Inv, Grounded, LiveIsLogged;
  }

  // Every run from such a log, faithful or not, keeps it one: so the logs of all runs from an
  // empty file are logs that replay agrees with after a restart.
  lemma {:induction false} EveryRunIsGrounded(
    cfg: Config, es: seq<Entry>, ws: seq<World>, acts: seq<Action>, n: nat)
    requires cfg.hasWal && AllFit(es) && Grounded(cfg, Past(es))
    requires IsRun(cfg, ws, acts) && ws[0] == Opened(cfg, es) && n < |ws|
    ensures Backed(cfg, |es|, ws[n])
    decreases n
  {
    if n == 0 {
      OpeningEstablishesInv(cfg, es);
      OpenedTraceOk(cfg, es);
      hide Recovered, Grounded, Inv, TraceOk;
      RecoveryIsBacked(cfg, |es|, Past(es));
    } else {
      EveryRunIsGrounded(cfg, es, ws, acts, n - 1);
      hide Backed, Step, Enabled;
      StepKeepsBacked(cfg, |es|, ws[n - 1], acts[n - 1]);
    }
  }

  // What a grounded trace logged is a grounded log.
  lemma LogOfGrounded(cfg: Config, trace: seq<Effect>)
    requires Grounded(cfg, trace)
    ensures Grounded(cfg, Past(LogOf(trace)))
  {
    var es := LogOf(trace);
    var u := Past(es);
    forall p | 0 <= p < |u| && u[p].entry.orderIdx < cfg.maxOrders
      ensures HasNew(u, u[p].entry.orderIdx)
      ensures u[p].entry.kind == ENTRY_NEW_ORDER ==> GoodImage(u[p].entry)
    {
      var k := LogComesFrom(trace, p);
      assert HasNew(trace, trace[k].entry.orderIdx);
      var m :| NewAt(trace, m) && IdAt(trace, m) == trace[k].entry.orderIdx;
      LogHolds(trace, m);
      var q :| 0 <= q < |es| && es[q] == trace[m].entry;
      assert NewAt(u, q) && IdAt(u, q) == u[p].entry.orderIdx;
      hide GoodImage, LogOf;
    }
  }

  // ----- Legs -----

  predicate Unlinked(orders: seq<Order>) {
    forall i :: 0 <= i < |orders| ==> orders[i].linked1 == 0 && orders[i].linked2 == 0
  }

  lemma {:induction false} ReplayLinksNothing(st: Store, es: seq<Entry>)
    requires Addressable(st) && Unlinked(st.orders)
    ensures Unlinked(ReplayAll(st, es).orders)
    decreases |es|
  {
    if es != [] {
      ReplayLinksNothing(st, es[..|es| - 1]);
      var t, e := ReplayAll(st, es[..|es| - 1]), es[|es| - 1];
      if e.orderIdx < |t.orders| { StepKeepsUnstored(t.orders[e.orderIdx], e); }
      hide OwnStep;
    }
  }

  predicate SameLinks(o: Order, p: Order) {
    p.linked1 == o.linked1 && p.linked2 == o.linked2
  }

  lemma CancelKeepsLinks(cfg: Config, s: State, ev: Event, env: Env, i: nat)
    requires Shape(cfg, s) && ev.orderIdx < |s.orders| && i < |s.orders|
    ensures |ProcessCancel(cfg, s, ev, env).orders| == |s.orders|
    ensures SameLinks(s.orders[i], ProcessCancel(cfg, s, ev, env).orders[i])
  {
    var o := s.orders[ev.orderIdx];
    var own := s.orders[ev.orderIdx := WithStatus(o, CANCELLED)];
    LegSlot(own, o.linked1, i);
    LegSlot(CancelLinked(own, o.linked1), o.linked2, i);
    hide CancelLinked, AppendLog, IsCancellable;
  }

  lemma EventKeepsLinks(cfg: Config, s: State, ev: Event, env: Env, i: nat)
    requires Shape(cfg, s) && InRange(s, ev) && i < |s.orders|
    ensures |Process(cfg, s, ev, env).orders| == |s.orders|
    ensures SameLinks(s.orders[i], Process(cfg, s, ev, env).orders[i])
  {
    if ev.kind == CancelOrder { CancelKeepsLinks(cfg, s, ev, env, i); }
    hide ProcessCancel, NewAverage, HashSymbol, EncodeOrder, RiskRejects, LinksInRange;
  }

  lemma EventLinksNothing(cfg: Config, s: State, ev: Event, env: Env)
    requires Shape(cfg, s) && InRange(s, ev) && Unlinked(s.orders)
    ensures Unlinked(Process(cfg, s, ev, env).orders)
  {
    forall i | 0 <= i < |Process(cfg, s, ev, env).orders|
      ensures Process(cfg, s, ev, env).orders[i].linked1 == 0 && Process(cfg, s, ev, env).orders[i].linked2 == 0
    {
      ProcessKeepsShape(cfg, s, ev, env);
      hide Process, LinksInRange;
      EventKeepsLinks(cfg, s, ev, env, i);
    }
  }

  // No handler links orders, and neither does replay: in every run every order has no legs, and
  // every cancel is faithful.
  lemma {:induction false} OrdersStayUnlinked(
    cfg: Config, es: seq<Entry>, ws: seq<World>, acts: seq<Action>, n: nat)
    requires IsRun(cfg, ws, acts) && ws[0] == Opened(cfg, es) && n < |ws|
    ensures Unlinked(ws[n].eng.orders)
    decreases n
  {
    if n == 0 {
      RecoveredIsUnlinked(cfg, Past(es));
      hide Recovered;
    } else {
      OrdersStayUnlinked(cfg, es, ws, acts, n - 1);
      StepLinksNothing(cfg, ws[n - 1], acts[n - 1]);
      hide Step, Enabled, Unlinked;
    }
  }

  lemma RecoveredIsUnlinked(cfg: Config, trace: seq<Effect>)
    ensures Unlinked(Recovered(cfg, trace).orders)
  {
    ReplayLinksNothing(FreshStore(cfg), LogOf(trace));
    hide ReplayAll, LogOf;
  }

  lemma StepLinksNothing(cfg: Config, w: World, a: Action)
    requires Enabled(cfg, w, a) && Unlinked(w.eng.orders)
    ensures Unlinked(Step(cfg, w, a).eng.orders)
  {
    if a.EventTurn? && w.queue != [] { EventLinksNothing(cfg, w.eng, w.queue[0], a.env); }
    if a.CrashAndRestart? { RecoveredIsUnlinked(cfg, Turn(cfg, w, a.env).eng.trace[..a.cut]); }
    hide Process, Recovered, LinksInRange;
  }

  lemma CancelIsFaithful(cfg: Config, s: State, ev: Event, env: Env)
    requires InRange(s, ev) && ev.kind == CancelOrder && Unlinked(s.orders)
    ensures Faithful(cfg, s, ev, env)
  {
  }
}
