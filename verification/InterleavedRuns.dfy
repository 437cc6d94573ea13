/**
 * Every interleaving of producer, ring and event loop is a run of the engine with its queue, in
 * which a submission and a turn are one step each.
 */
module InterleavedRuns {
  import opened Engine
  import opened Interleaved
  import opened Orders
  import opened Pipeline
  import opened Runs
  import opened Words
  import Ring

  // ----- The engine with its queue -----

  predicate Submitting(s: System) {
    s.call.Publishing? && s.call.ev.kind == SubmitOrder
  }

  // A submission counts from the store that publishes it, and its id as taken from then on.
  function Seen(s: System): State {
    if Submitting(s) then s.eng.(nextId := s.call.ev.orderIdx) else s.eng
  }

  function Unread(ring: Ring.State<Event>): seq<Event> {
    if |ring.consumed| <= |ring.published| then Ring.Queue(ring) else []
  }

  function InHand(hand: Hand): seq<Event> {
    if hand.Empty? then [] else [hand.ev]
  }

  function Abs(s: System): World {
    World(Seen(s), InHand(s.hand) + Unread(s.ring))
  }

  // The switch and the P&L as the handler looked at them, its turn, and both as they are now.
  function TurnActions(s: System, env: Env): seq<Action>
    requires s.hand.Loaded?
  {
    [SetKill(s.hand.kill)] + [SetPnl(s.hand.pnl)] + [EventTurn(env)]
    + [SetKill(s.eng.kill || s.hand.ev.kind == KillSwitch)] + [SetPnl(s.eng.dailyPnl)]
  }

  // The steps of the engine with its queue that a move amounts to.
  function Actions(cfg: Config, s: System, m: Move): seq<Action>
    requires Allowed(cfg, s, m)
  {
    match m
    case TakeId => if s.eng.nextId >= cfg.maxOrders then [IdTaken] else []
    case Produce =>
      if s.ring.producer.Written? then
        [if Submitting(s) then SubmissionQueued(s.call.ev, s.call.ev.timestamp) else EventQueued(s.call.ev)]
      else if Submitting(s) && Ring.ProducerStep(s.ring, s.call.ev).producer == Ring.Ready then [IdTaken]
      else []
    case Act(env) => TurnActions(s, env)
    case Switch(active) => [SetKill(active)]
    case Pnl(pnl) => [SetPnl(pnl)]
    case Crash(env, cut, _) =>
      if s.hand.Loaded? then [SetKill(s.hand.kill)] + [SetPnl(s.hand.pnl)] + [CrashAndRestart(env, cut)]
      else [CrashAndRestart(env, cut)]
    case _ => []
  }

  // ----- Walks -----

  // The actions lead from w to v, and each has the property where it is taken.
  ghost predicate Walk(cfg: Config, w: World, acts: seq<Action>, v: World, q: (World, Action) -> bool)
    decreases |acts|
  {
    if acts == [] then v == w
    else Enabled(cfg, w, acts[0]) && q(w, acts[0]) && Walk(cfg, Step(cfg, w, acts[0]), acts[1..], v, q)
  }

  lemma OneAction(cfg: Config, w: World, a: Action, q: (World, Action) -> bool)
    requires Enabled(cfg, w, a) && q(w, a)
    ensures Walk(cfg, w, [a], Step(cfg, w, a), q)
  {
    hide Enabled, Step;
    assert [a][1..] == [];
  }

  lemma {:induction false} WalkOn(
    cfg: Config, w: World, a: seq<Action>, v: World, b: seq<Action>, u: World, q: (World, Action) -> bool)
    requires Walk(cfg, w, a, v, q) && Walk(cfg, v, b, u, q)
    ensures Walk(cfg, w, a + b, u, q)
    decreases |a|
  {
    hide Enabled, Step;
    if a == [] {
      assert a + b == b;
    } else {
      assert (a + b)[1..] == a[1..] + b;
      WalkOn(cfg, Step(cfg, w, a[0]), a[1..], v, b, u, q);
    }
  }

  ghost predicate HoldsAlong(ws: seq<World>, acts: seq<Action>, q: (World, Action) -> bool)
    requires |ws| == |acts| + 1
  {
    forall k :: 0 <= k < |acts| ==> q(ws[k], acts[k])
  }

  // A walk is a run.
  lemma {:induction false} WalkIsRun(
    cfg: Config, w: World, acts: seq<Action>, v: World, q: (World, Action) -> bool) returns (ws: seq<World>)
    requires Walk(cfg, w, acts, v, q)
    ensures IsRun(cfg, ws, acts) && ws[0] == w && ws[|acts|] == v && HoldsAlong(ws, acts, q)
    decreases |acts|
  {
    hide Enabled, Step;
    if acts == [] {
      ws := [w];
    } else {
      var rest := WalkIsRun(cfg, Step(cfg, w, acts[0]), acts[1..], v, q);
      ws := [w] + rest;
      forall k | 0 <= k < |acts|
        ensures Enabled(cfg, ws[k], acts[k]) && ws[k + 1] == Step(cfg, ws[k], acts[k]) && q(ws[k], acts[k])
      {
        if k > 0 { assert ws[k] == rest[k - 1] && acts[k] == acts[1..][k - 1] && ws[k + 1] == rest[k - 1 + 1]; }
      }
    }
  }

  // The engine with its queue as the handler in hand looked at it.
  function LookedAt(s: System): World {
    if s.hand.Loaded? then Abs(s.(eng := Looked(s))) else Abs(s)
  }

  function TurnOf(cfg: Config, w: World, env: Env): World {
    if Ready(cfg, w) then Turn(cfg, w, env) else w
  }

  // ----- The invariant -----

  predicate EventOk(eng: State, ev: Event) {
    InRange(eng, ev) && (ev.kind == FillOrder ==> WasSent(eng.trace, ev.orderIdx) && ev.qty > 0)
  }

  // The producer publishes what the call in hand is about, and a submission carries the id
  // before the counter.
  predicate CallOk(cfg: Config, s: System) {
    match s.call
    case Idle => s.ring.producer == Ring.Ready
    case Checked(_, _) => s.ring.producer == Ring.Ready
    case Publishing(ev) =>
      && EventOk(s.eng, ev)
      && (ev.kind == SubmitOrder ==> 1 <= ev.orderIdx < cfg.maxOrders && s.eng.nextId == NextId(ev.orderIdx))
      && (match s.ring.producer
          case Ready => true
          case LoadedWrite(e, _) => e == ev
          case LoadedBoth(e, _, _) => e == ev
          case Written(_, e) => e == ev)
  }

  predicate RingOk(s: System) {
    && Ring.Inv(s.ring)
    && (!s.hand.Empty? ==> s.ring.consumer == Ring.Waiting)
  }

  ghost predicate Ok(cfg: Config, b: nat, s: System) {
    RingOk(s) && CallOk(cfg, s) && Inv(cfg, b, Abs(s))
  }

  lemma InvIsReady(cfg: Config, b: nat, w: World)
    requires Inv(cfg, b, w)
    ensures Ready(cfg, w)
  {
    TurnKeepsInv(cfg, b, w, Env(true, 0, 0));
    hide Inv;
  }

  // The event in hand names a slot of the store, so the handler can run.
  lemma OkIsDefined(cfg: Config, b: nat, s: System)
    requires Ok(cfg, b, s)
    ensures Defined(cfg, s)
  {
    InvIsReady(cfg, b, Abs(s));
    assert !s.hand.Empty? ==> Abs(s).queue[0] == s.hand.ev;
    hide Ring.Contents, Ring.ProducerOk, Ring.ConsumerOk, Inv, LinksInRange, WasSent, CallOk, Ring.PowerOfTwo;
  }

  // ----- Turns -----

  // Handlers leave the counter alone and do not look at it.
  lemma HandlersIgnoreCounter(cfg: Config, s: State, ev: Event, env: Env, id: uint32)
    requires Shape(cfg, s) && InRange(s, ev)
    ensures Process(cfg, s.(nextId := id), ev, env) == Process(cfg, s, ev, env).(nextId := id)
  {
    hide NewAverage, HashSymbol, EncodeOrder, Wrap32, Wrap64, LinksInRange, CancelLinked;
  }

  function WithKill(w: World, kill: bool): World {
    w.(eng := w.eng.(kill := kill))
  }

  function WithPnl(w: World, pnl: int64): World {
    w.(eng := w.eng.(dailyPnl := pnl))
  }

  lemma LookedIs(s: System)
    requires s.hand.Loaded?
    ensures LookedAt(s) == WithPnl(WithKill(Abs(s), s.hand.kill), s.hand.pnl)
  {
    hide Unread;
  }

  // The turn that the handler's look decides, then the switch and the P&L of now.
  lemma LookedTurn(cfg: Config, s: System, env: Env)
    requires Allowed(cfg, s, Act(env))
    ensures Ready(cfg, LookedAt(s)) && TurnOf(cfg, LookedAt(s), env).eng.trace == Acted(cfg, s, env).trace
    ensures Abs(Next(cfg, s, Act(env))) ==
      WithPnl(WithKill(TurnOf(cfg, LookedAt(s), env), s.eng.kill || s.hand.ev.kind == KillSwitch), s.eng.dailyPnl)
  {
    hide Ring.Shape, LinksInRange, Unread;
    var w := LookedAt(s);
    assert w.queue[0] == s.hand.ev && w.queue[1..] == Unread(s.ring) == [] + Unread(s.ring);
    if Submitting(s) { HandlersIgnoreCounter(cfg, Looked(s), s.hand.ev, env, s.call.ev.orderIdx); }
    hide Process;
  }

  lemma KillWalk(cfg: Config, b: nat, w: World, kill: bool, q: (World, Action) -> bool)
    requires Inv(cfg, b, w) && q(w, SetKill(kill))
    ensures Walk(cfg, w, [SetKill(kill)], WithKill(w, kill), q) && Inv(cfg, b, WithKill(w, kill))
  {
    InvIsReady(cfg, b, w);
    SameEngineIds(cfg, b, w, w.eng.(kill := kill));
    hide Inv, Ready, Walk;
    OneAction(cfg, w, SetKill(kill), q);
  }

  lemma PnlWalk(cfg: Config, b: nat, w: World, pnl: int64, q: (World, Action) -> bool)
    requires Inv(cfg, b, w) && q(w, SetPnl(pnl))
    ensures Walk(cfg, w, [SetPnl(pnl)], WithPnl(w, pnl), q) && Inv(cfg, b, WithPnl(w, pnl))
  {
    InvIsReady(cfg, b, w);
    SameEngineIds(cfg, b, w, w.eng.(dailyPnl := pnl));
    hide Inv, Ready, Walk;
    OneAction(cfg, w, SetPnl(pnl), q);
  }

  ghost predicate FreeElsewhere(q: (World, Action) -> bool) {
    forall w, a: Action :: !a.EventTurn? && !a.CrashAndRestart? ==> q(w, a)
  }

  lemma LookWalk(cfg: Config, b: nat, s: System, q: (World, Action) -> bool)
    requires s.hand.Loaded? && Inv(cfg, b, Abs(s)) && FreeElsewhere(q)
    ensures Walk(cfg, Abs(s), [SetKill(s.hand.kill)] + [SetPnl(s.hand.pnl)], LookedAt(s), q)
    ensures Inv(cfg, b, LookedAt(s))
  {
    var w := Abs(s);
    var v := WithKill(w, s.hand.kill);
    LookedIs(s);
    hide Inv, Walk, Abs, LookedAt, WithKill, WithPnl;
    KillWalk(cfg, b, w, s.hand.kill, q);
    PnlWalk(cfg, b, v, s.hand.pnl, q);
    WalkOn(cfg, w, [SetKill(s.hand.kill)], v, [SetPnl(s.hand.pnl)], LookedAt(s), q);
  }

  lemma TurnWalk(cfg: Config, b: nat, w: World, env: Env, q: (World, Action) -> bool)
    requires Inv(cfg, b, w) && q(w, EventTurn(env))
    ensures Ready(cfg, w) && Walk(cfg, w, [EventTurn(env)], TurnOf(cfg, w, env), q) && Inv(cfg, b, TurnOf(cfg, w, env))
  {
    TurnKeepsInv(cfg, b, w, env);
    hide Inv, Ready, Walk, Turn;
    OneAction(cfg, w, EventTurn(env), q);
  }

  lemma BackWalk(cfg: Config, b: nat, w: World, kill: bool, pnl: int64, q: (World, Action) -> bool)
    requires Inv(cfg, b, w) && FreeElsewhere(q)
    ensures Walk(cfg, w, [SetKill(kill)] + [SetPnl(pnl)], WithPnl(WithKill(w, kill), pnl), q)
    ensures Inv(cfg, b, WithPnl(WithKill(w, kill), pnl))
  {
    var v := WithKill(w, kill);
    hide Inv, Walk, WithKill, WithPnl;
    KillWalk(cfg, b, w, kill, q);
    PnlWalk(cfg, b, v, pnl, q);
    WalkOn(cfg, w, [SetKill(kill)], v, [SetPnl(pnl)], WithPnl(v, pnl), q);
  }

  lemma ThreeWalks(
    cfg: Config, w: World, a: seq<Action>, v: World, b: seq<Action>, u: World, c: seq<Action>, x: World,
    q: (World, Action) -> bool)
    requires Walk(cfg, w, a, v, q) && Walk(cfg, v, b, u, q) && Walk(cfg, u, c, x, q)
    ensures Walk(cfg, w, a + b + c, x, q)
  {
    hide Walk;
    WalkOn(cfg, w, a, v, b, u, q);
    WalkOn(cfg, w, a + b, u, c, x, q);
  }

  lemma TurnActionsAre(s: System, env: Env)
    requires s.hand.Loaded?
    ensures TurnActions(s, env) ==
      ([SetKill(s.hand.kill)] + [SetPnl(s.hand.pnl)]) + [EventTurn(env)]
      + ([SetKill(s.eng.kill || s.hand.ev.kind == KillSwitch)] + [SetPnl(s.eng.dailyPnl)])
  {
  }

  lemma ActWalk(cfg: Config, b: nat, s: System, env: Env, q: (World, Action) -> bool)
    requires s.hand.Loaded? && Allowed(cfg, s, Act(env)) && Inv(cfg, b, Abs(s))
    requires FreeElsewhere(q) && q(LookedAt(s), EventTurn(env))
    ensures Walk(cfg, Abs(s), TurnActions(s, env), Abs(Next(cfg, s, Act(env))), q)
    ensures Inv(cfg, b, Abs(Next(cfg, s, Act(env))))
  {
    hide *;
    LookedTurn(cfg, s, env);
    TurnActionsAre(s, env);
    LookWalk(cfg, b, s, q);
    TurnWalk(cfg, b, LookedAt(s), env, q);
    var v := TurnOf(cfg, LookedAt(s), env);
    BackWalk(cfg, b, v, s.eng.kill || s.hand.ev.kind == KillSwitch, s.eng.dailyPnl, q);
    ThreeWalks(cfg, Abs(s), [SetKill(s.hand.kill)] + [SetPnl(s.hand.pnl)], LookedAt(s), [EventTurn(env)], v,
      [SetKill(s.eng.kill || s.hand.ev.kind == KillSwitch)] + [SetPnl(s.eng.dailyPnl)],
      Abs(Next(cfg, s, Act(env))), q);
  }

  // ----- Crashes -----

  lemma NothingUnread(ring: Ring.State<Event>)
    requires Ring.Initial(ring)
    ensures Unread(ring) == []
  {
    hide Ring.Shape;
  }

  lemma CrashedIs(cfg: Config, s: System, m: Move)
    requires m.Crash? && Allowed(cfg, s, m)
    ensures Abs(Next(cfg, s, m)) == World(Recovered(cfg, Acted(cfg, s, m.env).trace[..m.cut]), [])
  {
    hide Recovered, Acted, Ring.Shape, Shape, Unread;
    var u := Next(cfg, s, m);
    assert u == System(Recovered(cfg, Acted(cfg, s, m.env).trace[..m.cut]), m.ring, Idle, Empty);
    assert Ring.Initial(m.ring);
    hide Next, Allowed, Abs, Ring.Initial;
    NothingUnread(m.ring);
    AbsOfIdle(u);
  }

  lemma AbsOfIdle(s: System)
    requires s.call.Idle? && s.hand.Empty? && Unread(s.ring) == []
    ensures Abs(s) == World(s.eng, [])
  {
    hide Unread;
  }

  lemma CrashStep(cfg: Config, b: nat, w: World, env: Env, cut: nat, q: (World, Action) -> bool)
    requires Inv(cfg, b, w) && q(w, CrashAndRestart(env, cut))
    requires |w.eng.trace| <= cut <= |TurnOf(cfg, w, env).eng.trace|
    ensures var v := World(Recovered(cfg, TurnOf(cfg, w, env).eng.trace[..cut]), []);
      Walk(cfg, w, [CrashAndRestart(env, cut)], v, q) && Inv(cfg, b, v)
  {
    InvIsReady(cfg, b, w);
    StepKeepsInv(cfg, b, w, CrashAndRestart(env, cut));
    hide Inv, Walk, Ready, Turn, Recovered;
    OneAction(cfg, w, CrashAndRestart(env, cut), q);
  }

  lemma TurnExtendsTrace(cfg: Config, w: World, env: Env)
    requires Ready(cfg, w)
    ensures w.eng.trace <= TurnOf(cfg, w, env).eng.trace
  {
    if w.queue != [] { TraceGrowth(cfg, w.eng, w.queue[0], env); }
    hide Process, Shape;
  }

  // Before its look the handler has done nothing.
  lemma EarlyCrashWalk(cfg: Config, b: nat, s: System, m: Move, q: (World, Action) -> bool)
    requires m.Crash? && !s.hand.Loaded? && Allowed(cfg, s, m) && Inv(cfg, b, Abs(s))
    requires q(LookedAt(s), CrashAndRestart(m.env, m.cut))
    ensures Walk(cfg, Abs(s), [CrashAndRestart(m.env, m.cut)], Abs(Next(cfg, s, m)), q)
    ensures Inv(cfg, b, Abs(Next(cfg, s, m)))
  {
    hide *;
    InvIsReady(cfg, b, Abs(s));
    CrashedIs(cfg, s, m);
    TurnExtendsTrace(cfg, Abs(s), m.env);
    EarlyCut(cfg, s, m);
    assert TurnOf(cfg, Abs(s), m.env).eng.trace[..m.cut] == s.eng.trace;
    CrashStep(cfg, b, Abs(s), m.env, m.cut, q);
  }

  lemma EarlyCut(cfg: Config, s: System, m: Move)
    requires m.Crash? && !s.hand.Loaded? && Allowed(cfg, s, m)
    ensures m.cut == |s.eng.trace| && Acted(cfg, s, m.env).trace[..m.cut] == s.eng.trace
    ensures LookedAt(s) == Abs(s) && Abs(s).eng.trace == s.eng.trace
  {
    hide Ring.Shape, Shape, Unread;
  }

  lemma LookedCut(cfg: Config, s: System, m: Move)
    requires m.Crash? && s.hand.Loaded? && Allowed(cfg, s, m)
    ensures Allowed(cfg, s, Act(m.env)) && LookedAt(s).eng.trace == s.eng.trace
    ensures |s.eng.trace| <= m.cut <= |Acted(cfg, s, m.env).trace|
  {
    hide Ring.Shape, Shape, Unread, Process;
  }

  lemma LateCrashWalk(cfg: Config, b: nat, s: System, m: Move, q: (World, Action) -> bool)
    requires m.Crash? && s.hand.Loaded? && Allowed(cfg, s, m) && Inv(cfg, b, Abs(s))
    requires FreeElsewhere(q) && q(LookedAt(s), CrashAndRestart(m.env, m.cut))
    ensures Walk(cfg, Abs(s), [SetKill(s.hand.kill)] + [SetPnl(s.hand.pnl)] + [CrashAndRestart(m.env, m.cut)],
      Abs(Next(cfg, s, m)), q)
    ensures Inv(cfg, b, Abs(Next(cfg, s, m)))
  {
    hide *;
    CrashedIs(cfg, s, m);
    LookedCut(cfg, s, m);
    LookedTurn(cfg, s, m.env);
    LookWalk(cfg, b, s, q);
    CrashStep(cfg, b, LookedAt(s), m.env, m.cut, q);
    WalkOn(cfg, Abs(s), [SetKill(s.hand.kill)] + [SetPnl(s.hand.pnl)], LookedAt(s),
      [CrashAndRestart(m.env, m.cut)], Abs(Next(cfg, s, m)), q);
  }

  // ----- The other moves -----

  lemma NoWalk(cfg: Config, w: World, q: (World, Action) -> bool)
    ensures Walk(cfg, w, [], w, q)
  {
  }

  lemma StepWalk(cfg: Config, b: nat, w: World, a: Action, v: World, q: (World, Action) -> bool)
    requires Inv(cfg, b, w) && Enabled(cfg, w, a) && v == Step(cfg, w, a) && q(w, a)
    ensures Walk(cfg, w, [a], v, q) && Inv(cfg, b, v)
  {
    StepKeepsInv(cfg, b, w, a);
    hide Inv, Enabled, Step, Walk;
    OneAction(cfg, w, a, q);
  }

  lemma ProducerQueue(ring: Ring.State<Event>, ev: Event)
    requires Ring.Shape(ring) && |ring.consumed| <= |ring.published|
    ensures Unread(Ring.ProducerStep(ring, ev)) ==
      if ring.producer.Written? then Unread(ring) + [ring.producer.event] else Unread(ring)
    ensures ring.producer.Written? ==> Ring.ProducerStep(ring, ev).producer == Ring.Ready
  {
    hide Ring.Slot, Ring.Distance, Ring.PowerOfTwo;
  }

  lemma ConsumerQueue(ring: Ring.State<Event>)
    requires Ring.Inv(ring)
    ensures var taken := if ring.consumer.Taken? then [ring.consumer.event] else [];
      Unread(ring) == taken + Unread(Ring.ConsumerStep(ring))
  {
    hide Ring.Slot, Ring.PowerOfTwo, Ring.Contents, Ring.ProducerOk, Ring.Word;
  }

  // What a step of TryPublish does to the engine with its queue.
  lemma Produced(cfg: Config, s: System)
    requires Allowed(cfg, s, Produce) && CallOk(cfg, s)
    ensures var w, v, counted := Abs(s), Abs(Next(cfg, s, Produce)), CounterMoved(Abs(s));
      if s.ring.producer.Written? then v == Append(if Submitting(s) then counted else w, s.call.ev)
      else if Ring.ProducerStep(s.ring, s.call.ev).producer == Ring.Ready then v == if Submitting(s) then counted else w
      else v == w
  {
    ProducerQueue(s.ring, s.call.ev);
    hide Unread, Ring.ProducerStep, WasSent, Shape, InRange, Ring.Shape;
    assert InHand(s.hand) + (Unread(s.ring) + [s.call.ev]) == InHand(s.hand) + Unread(s.ring) + [s.call.ev];
  }

  lemma CallIsEnabled(cfg: Config, s: System)
    requires s.call.Publishing? && CallOk(cfg, s) && Ready(cfg, Abs(s)) && |s.eng.orders| == cfg.maxOrders
    ensures Submitting(s) ==>
      && Enabled(cfg, Abs(s), IdTaken) && Enabled(cfg, Abs(s), SubmissionQueued(s.call.ev, s.call.ev.timestamp))
      && SubmitEvent(s.call.ev, Abs(s).eng.nextId, s.call.ev.timestamp) == s.call.ev
    ensures !Submitting(s) ==> Enabled(cfg, Abs(s), EventQueued(s.call.ev))
  {
    hide WasSent, Ready, Unread;
  }

  // The one step, if any, that a step of TryPublish amounts to.
  lemma ProduceAction(cfg: Config, s: System)
    requires Allowed(cfg, s, Produce) && CallOk(cfg, s) && Ready(cfg, Abs(s))
    ensures var w, v, acts := Abs(s), Abs(Next(cfg, s, Produce)), Actions(cfg, s, Produce);
      if acts == [] then v == w
      else
        && |acts| == 1 && !acts[0].EventTurn? && !acts[0].CrashAndRestart?
        && Enabled(cfg, w, acts[0]) && v == Step(cfg, w, acts[0])
  {
    hide Abs, Ready, Next, CallOk, Enabled, LinksInRange, Ring.Shape, Ring.ProducerStep, WasSent, CounterMoved, Append;
    Produced(cfg, s);
    CallIsEnabled(cfg, s);
  }

  lemma ProduceWalk(cfg: Config, b: nat, s: System, q: (World, Action) -> bool)
    requires Allowed(cfg, s, Produce) && CallOk(cfg, s) && Inv(cfg, b, Abs(s)) && FreeElsewhere(q)
    ensures Walk(cfg, Abs(s), Actions(cfg, s, Produce), Abs(Next(cfg, s, Produce)), q)
    ensures Inv(cfg, b, Abs(Next(cfg, s, Produce)))
  {
    InvIsReady(cfg, b, Abs(s));
    ProduceAction(cfg, s);
    hide Inv, Walk, Abs, Ready, Next, CallOk, Enabled, Step, Actions, Allowed;
    var w, v, acts := Abs(s), Abs(Next(cfg, s, Produce)), Actions(cfg, s, Produce);
    if acts == [] {
      NoWalk(cfg, w, q);
    } else {
      assert acts == [acts[0]];
      StepWalk(cfg, b, w, acts[0], v, q);
    }
  }

  lemma TakeWalk(cfg: Config, b: nat, s: System, q: (World, Action) -> bool)
    requires Allowed(cfg, s, TakeId) && Inv(cfg, b, Abs(s)) && FreeElsewhere(q)
    ensures Walk(cfg, Abs(s), Actions(cfg, s, TakeId), Abs(Next(cfg, s, TakeId)), q)
    ensures Inv(cfg, b, Abs(Next(cfg, s, TakeId)))
  {
    InvIsReady(cfg, b, Abs(s));
    hide Inv, Walk, Unread, Ready, Shape, Ring.Shape;
    if s.eng.nextId >= cfg.maxOrders {
      StepWalk(cfg, b, Abs(s), IdTaken, Abs(Next(cfg, s, TakeId)), q);
    } else {
      NoWalk(cfg, Abs(s), q);
    }
  }

  lemma ConsumeSame(cfg: Config, s: System)
    requires Allowed(cfg, s, Consume) && Ring.Inv(s.ring)
    ensures Abs(Next(cfg, s, Consume)) == Abs(s)
  {
    ConsumerQueue(s.ring);
    hide Ring.Inv, Unread, Ring.ConsumerStep, Shape, Ring.Shape;
    assert [] + Unread(s.ring) == Unread(s.ring);
  }

  // The walks of the moves that are no turn and no crash.
  lemma PlainWalk(cfg: Config, b: nat, s: System, m: Move, q: (World, Action) -> bool)
    requires !m.Act? && !m.Crash? && !m.Produce? && !m.TakeId? && !m.Consume?
    requires Allowed(cfg, s, m) && Inv(cfg, b, Abs(s)) && FreeElsewhere(q)
    ensures Walk(cfg, Abs(s), Actions(cfg, s, m), Abs(Next(cfg, s, m)), q)
    ensures Inv(cfg, b, Abs(Next(cfg, s, m)))
  {
    if m.Switch? {
      assert Abs(Next(cfg, s, m)) == WithKill(Abs(s), m.active) by { hide Unread, Ring.Shape, Shape; }
      hide Inv, Walk, Abs, Next, Allowed, WithKill;
      KillWalk(cfg, b, Abs(s), m.active, q);
    } else if m.Pnl? {
      assert Abs(Next(cfg, s, m)) == WithPnl(Abs(s), m.pnl) by { hide Unread, Ring.Shape, Shape; }
      hide Inv, Walk, Abs, Next, Allowed, WithPnl;
      PnlWalk(cfg, b, Abs(s), m.pnl, q);
    } else {
      assert Abs(Next(cfg, s, m)) == Abs(s) by { hide Unread, Ring.Shape, Shape, WasSent; }
      hide Inv, Walk, Abs, Next, Allowed;
      NoWalk(cfg, Abs(s), q);
    }
  }

  // The property is one of turns and restarts only, and holds of those of the move.
  ghost predicate Permits(s: System, m: Move, q: (World, Action) -> bool) {
    && FreeElsewhere(q)
    && (m.Act? ==> q(LookedAt(s), EventTurn(m.env)))
    && (m.Crash? ==> q(LookedAt(s), CrashAndRestart(m.env, m.cut)))
  }

  // Every move of producer, ring or event loop is a walk of the engine with its queue.
  lemma MoveIsWalk(cfg: Config, b: nat, s: System, m: Move, q: (World, Action) -> bool)
    requires Ok(cfg, b, s) && Allowed(cfg, s, m) && Permits(s, m, q)
    ensures Walk(cfg, Abs(s), Actions(cfg, s, m), Abs(Next(cfg, s, m)), q)
    ensures Inv(cfg, b, Abs(Next(cfg, s, m)))
  {
    hide Inv, Walk, Abs, Next, Ring.Inv, CallOk, LookedAt, TurnActions, Shape, Ring.Shape, WasSent, FreeElsewhere;
    match m
    case Produce => ProduceWalk(cfg, b, s, q);
    case TakeId => TakeWalk(cfg, b, s, q);
    case Consume => ConsumeSame(cfg, s); NoWalk(cfg, Abs(s), q);
    case Act(env) => ActWalk(cfg, b, s, env, q);
    case Crash(_, _, _) =>
      if s.hand.Loaded? { LateCrashWalk(cfg, b, s, m, q); } else { EarlyCrashWalk(cfg, b, s, m, q); }
    case _ => PlainWalk(cfg, b, s, m, q);
  }

  // ----- The invariant holds -----

  lemma InitialRing(ring: Ring.State<Event>)
    requires Ring.Initial(ring)
    ensures Ring.Inv(ring) && Unread(ring) == []
  {
    NothingUnread(ring);
    Ring.RunKeepsInv(ring, []);
    hide Ring.Inv, Unread, Ring.Shape;
  }

  // An engine that opened a log, with an empty ring, is a start of the system.
  lemma StartIsOk(cfg: Config, b: nat, eng: State, ring: Ring.State<Event>)
    requires Inv(cfg, b, World(eng, [])) && Ring.Initial(ring)
    ensures var s := System(eng, ring, Idle, Empty); Ok(cfg, b, s) && Abs(s) == World(eng, [])
  {
    var s := System(eng, ring, Idle, Empty);
    InitialRing(ring);
    AbsOfIdle(s);
    assert CallOk(cfg, s) by { hide Inv, Ring.Shape; }
    hide Inv, Ring.Inv, Unread, Ring.Shape, Abs, CallOk;
  }

  lemma RingStaysOk(cfg: Config, s: System, m: Move)
    requires Allowed(cfg, s, m) && RingOk(s)
    ensures RingOk(Next(cfg, s, m))
  {
    hide Ring.Inv, Shape, Acted, Recovered, WasSent, Ring.Slot, Ring.Distance, Ring.PowerOfTwo;
    if m.Produce? {
      Ring.ProducerKeepsInv(s.ring, s.call.ev);
    } else if m.Consume? {
      Ring.ConsumerKeepsInv(s.ring);
    } else if m.Crash? {
      InitialRing(m.ring);
    }
  }

  lemma EventStaysOk(eng: State, next: State, ev: Event)
    requires EventOk(eng, ev) && eng.trace <= next.trace && |next.orders| == |eng.orders|
    ensures EventOk(next, ev)
  {
    if ev.kind == FillOrder {
      SentStaysSent(eng.trace, next.trace[|eng.trace|..], ev.orderIdx);
      assert eng.trace + next.trace[|eng.trace|..] == next.trace;
    }
    hide WasSent;
  }

  // The handler touches neither the counter nor what the call in hand is about.
  lemma HandlerKeepsCall(cfg: Config, s: System, env: Env)
    requires Allowed(cfg, s, Act(env)) && CallOk(cfg, s)
    ensures CallOk(cfg, Next(cfg, s, Act(env)))
  {
    var ev := s.hand.ev;
    CounterIsKept(cfg, Looked(s), ev, env);
    TraceGrowth(cfg, Looked(s), ev, env);
    ProcessKeepsShape(cfg, Looked(s), ev, env);
    hide Process, Ring.Shape, LinksInRange, WasSent, EventOk;
    if s.call.Publishing? { EventStaysOk(s.eng, Acted(cfg, s, env), s.call.ev); }
  }

  lemma ProducerKeepsCall(cfg: Config, s: System)
    requires Allowed(cfg, s, Produce) && CallOk(cfg, s)
    ensures CallOk(cfg, Next(cfg, s, Produce))
  {
    hide EventOk, LinksInRange, Ring.Slot, Ring.Distance, Ring.PowerOfTwo;
  }

  lemma ConsumerKeepsProducer(ring: Ring.State<Event>)
    requires Ring.Shape(ring)
    ensures Ring.ConsumerStep(ring).producer == ring.producer
  {
    hide Ring.Shape, Ring.Slot;
  }

  lemma CallStaysOk(cfg: Config, s: System, m: Move)
    requires Allowed(cfg, s, m) && CallOk(cfg, s)
    ensures CallOk(cfg, Next(cfg, s, m))
  {
    hide WasSent, LinksInRange, Ring.Shape, Ring.ProducerStep, Ring.ConsumerStep, Recovered, Acted;
    if m.Produce? {
      ProducerKeepsCall(cfg, s);
    } else if m.Act? {
      HandlerKeepsCall(cfg, s, m.env);
    } else if m.Consume? {
      ConsumerKeepsProducer(s.ring);
    }
  }

  lemma MoveKeepsOk(cfg: Config, b: nat, s: System, m: Move)
    requires Ok(cfg, b, s) && Allowed(cfg, s, m)
    ensures Ok(cfg, b, Next(cfg, s, m))
  {
    AllIsPermitted(s, m);
    MoveIsWalk(cfg, b, s, m, Anything);
    hide RingOk, CallOk, Inv, Allowed, Abs, Next, Actions, Walk;
    RingStaysOk(cfg, s, m);
    CallStaysOk(cfg, s, m);
  }

  predicate Anything(w: World, a: Action) {
    true
  }

  lemma AllIsPermitted(s: System, m: Move)
    ensures Permits(s, m, Anything)
  {
  }

  // ----- Interleavings are runs -----

  ghost predicate Reaches(cfg: Config, w: World, v: World, q: (World, Action) -> bool) {
    exists acts :: Walk(cfg, w, acts, v, q)
  }

  lemma ReachesOn(cfg: Config, w: World, v: World, acts: seq<Action>, u: World, q: (World, Action) -> bool)
    requires Reaches(cfg, w, v, q) && Walk(cfg, v, acts, u, q)
    ensures Reaches(cfg, w, u, q)
  {
    hide Walk;
    var front :| Walk(cfg, w, front, v, q);
    WalkOn(cfg, w, front, v, acts, u, q);
  }

  lemma {:induction false} InterleavingStaysOk(cfg: Config, b: nat, ss: seq<System>, ms: seq<Move>, n: nat)
    requires n < |ss| && Ok(cfg, b, ss[0]) && IsInterleaving(cfg, ss, ms)
    ensures Ok(cfg, b, ss[n])
    decreases n
  {
    hide Ok, Allowed, Next;
    if n > 0 {
      InterleavingStaysOk(cfg, b, ss, ms, n - 1);
      MoveKeepsOk(cfg, b, ss[n - 1], ms[n - 1]);
    }
  }

  // System s is reached from s0 in n moves whose turns and restarts have the property.
  ghost predicate Reached(cfg: Config, s0: System, s: System, q: (World, Action) -> bool, n: nat)
    decreases n
  {
    if n == 0 then s == s0
    else exists r, m :: Reached(cfg, s0, r, q, n - 1) && MovesTo(cfg, r, m, s) && Permits(r, m, q)
  }

  ghost predicate MovesTo(cfg: Config, r: System, m: Move, s: System) {
    Allowed(cfg, r, m) && s == Next(cfg, r, m)
  }

  // Every point of an interleaving is reached.
  lemma {:induction false} InterleavingReaches(cfg: Config, ss: seq<System>, ms: seq<Move>, n: nat)
    requires n < |ss| && IsInterleaving(cfg, ss, ms)
    ensures Reached(cfg, ss[0], ss[n], Anything, n)
    decreases n
  {
    hide Allowed, Next, Permits;
    if n > 0 {
      InterleavingReaches(cfg, ss, ms, n - 1);
      AllIsPermitted(ss[n - 1], ms[n - 1]);
      assert MovesTo(cfg, ss[n - 1], ms[n - 1], ss[n]);
    }
  }

  // Every interleaving is a run of the engine with its queue, whose turns and restarts are those
  // of the interleaving.
  lemma {:induction false} InterleavingIsRun(
    cfg: Config, b: nat, s0: System, s: System, q: (World, Action) -> bool, n: nat)
    requires Ok(cfg, b, s0) && Reached(cfg, s0, s, q, n)
    ensures Ok(cfg, b, s) && Reaches(cfg, Abs(s0), Abs(s), q)
    decreases n
  {
    hide Ok, Allowed, Next, Abs, Walk, Permits, Actions, Reaches;
    if n == 0 {
      Stays(cfg, Abs(s0), q);
    } else {
      var r, m :| Reached(cfg, s0, r, q, n - 1) && MovesTo(cfg, r, m, s) && Permits(r, m, q);
      InterleavingIsRun(cfg, b, s0, r, q, n - 1);
      MoveIsWalk(cfg, b, r, m, q);
      MoveKeepsOk(cfg, b, r, m);
      ReachesOn(cfg, Abs(s0), Abs(r), Actions(cfg, r, m), Abs(s), q);
    }
  }

  lemma Stays(cfg: Config, w: World, q: (World, Action) -> bool)
    ensures Reaches(cfg, w, w, q)
  {
    NoWalk(cfg, w, q);
    hide Walk;
  }

  lemma ReachedByRun(cfg: Config, w: World, v: World, q: (World, Action) -> bool)
    returns (ws: seq<World>, acts: seq<Action>)
    requires Reaches(cfg, w, v, q)
    ensures IsRun(cfg, ws, acts) && ws[0] == w && ws[|acts|] == v && HoldsAlong(ws, acts, q)
  {
    hide Walk, IsRun;
    acts :| Walk(cfg, w, acts, v, q);
    ws := WalkIsRun(cfg, w, acts, v, q);
  }

  // Under every interleaving the handler gets the events in the order they were published: those
  // taken and the unread ones are all that was published, and the one in hand comes first.
  lemma NothingIsLost(cfg: Config, b: nat, s: System)
    requires Ok(cfg, b, s)
    ensures s.ring.published == s.ring.consumed + Unread(s.ring) && Abs(s).queue == InHand(s.hand) + Unread(s.ring)
    ensures |Unread(s.ring)| <= |s.ring.buf|
  {
    hide Inv, CallOk, Ring.ProducerOk, Ring.ConsumerOk, Ring.Index, Ring.Word, Ring.Shape;
  }
}
