/** What is proved of runs, for every interleaving of producer, ring and event loop. */
module EveryInterleaving {
  import opened Conservation
  import opened Engine
  import opened Guarantees
  import opened Interleaved
  import opened InterleavedRuns
  import opened Lifecycle
  import opened Orders
  import opened Pipeline
  import opened Runs
  import opened Simulation
  import Replay
  import Ring

  // ----- Durability -----

  lemma TraceOfOk(cfg: Config, b: nat, s: System)
    requires Ok(cfg, b, s)
    ensures TraceOk(cfg, b, s.eng.trace)
  {
    hide RingOk, CallOk, QueueOk, IdsOk, LinksInRange, Unread;
  }

  // At every point every order handed to the broker is recovered after a crash.
  lemma OkIsDurable(cfg: Config, b: nat, s: System)
    requires Ok(cfg, b, s)
    ensures Durable(cfg, s.eng.trace)
  {
    hide Ok, TraceOk, Durable;
    TraceOfOk(cfg, b, s);
    OrderedTraceIsDurable(cfg, b, s.eng.trace);
  }

  // ----- Positions -----

  lemma RunLength(cfg: Config, ws: seq<World>, acts: seq<Action>)
    requires IsRun(cfg, ws, acts)
    ensures |ws| == |acts| + 1
  {
  }

  lemma SeenIsConserved(s: System)
    requires Conserved(Seen(s))
    ensures Conserved(s.eng)
  {
    hide Bought, Sold, Submitting;
  }

  // Positions balance at every point of every interleaving.
  lemma PositionsAlwaysBalance(cfg: Config, b: nat, s0: System, s: System, n: nat)
    requires Ok(cfg, b, s0) && Balanced(cfg, b, Abs(s0)) && Reached(cfg, s0, s, Anything, n)
    ensures Balanced(cfg, b, Abs(s))
    ensures Conserved(s.eng)
  {
    hide Ok, Balanced, Reached, IsRun, Reaches, Seen, Conserved;
    InterleavingIsRun(cfg, b, s0, s, Anything, n);
    var ws, acts := ReachedByRun(cfg, Abs(s0), Abs(s), Anything);
    RunLength(cfg, ws, acts);
    RunKeepsBalance(cfg, b, ws, acts, |acts|);
    BalancedIsConserved(cfg, b, Abs(s));
    SeenIsConserved(s);
  }

  lemma BalancedIsConserved(cfg: Config, b: nat, w: World)
    requires Balanced(cfg, b, w)
    ensures Conserved(w.eng)
  {
    hide Inv, Conserved, UnusedAreUnfilled;
  }

  // ----- Lifecycle -----

  // No restart, and a fill processed fits.
  predicate OrderlyStep(w: World, a: Action) {
    !a.CrashAndRestart? && (a.EventTurn? && w.queue != [] ==> FillFits(w.eng, w.queue[0]))
  }

  lemma AlongIsOrderly(ws: seq<World>, acts: seq<Action>)
    requires |ws| == |acts| + 1 && HoldsAlong(ws, acts, OrderlyStep)
    ensures Orderly(ws, acts)
  {
    forall k | 0 <= k < |acts|
      ensures OrderlyStep(ws[k], acts[k])
    {
    }
    hide FillFits;
  }

  // From one point of an interleaving to a later one, complete orders stay complete and filled
  // quantities do not shrink; every status is a boundary value and complete means filled.
  lemma LifecycleAlways(cfg: Config, b: nat, s0: System, s: System, n: nat, i: nat)
    requires Ok(cfg, b, s0) && Alive(cfg, Abs(s0)) && Reached(cfg, s0, s, OrderlyStep, n) && i < cfg.maxOrders
    ensures |s0.eng.orders| == |s.eng.orders| == cfg.maxOrders && Alive(cfg, Abs(s))
    ensures var o, p := s0.eng.orders[i], s.eng.orders[i];
      SlotOk(p) && (o.status == FILLED ==> p.status == FILLED) && o.filledQty <= p.filledQty
  {
    SeenOrders(s0);
    SeenOrders(s);
    hide Ok, Alive, Reached, IsRun, Reaches, Abs, SlotOk, Orderly, HoldsAlong;
    InterleavingIsRun(cfg, b, s0, s, OrderlyStep, n);
    var ws, acts := ReachedByRun(cfg, Abs(s0), Abs(s), OrderlyStep);
    RunLength(cfg, ws, acts);
    AlongIsOrderly(ws, acts);
    RunStaysAlive(cfg, ws, acts, |acts|);
    LifecycleOverRun(cfg, ws, acts, 0, |acts|, i);
  }

  lemma SeenOrders(s: System)
    ensures Abs(s).eng.orders == s.eng.orders && Abs(s).eng.trace == s.eng.trace
  {
    hide Unread;
  }

  // ----- Replay -----

  // A turn that takes none of the branches the log does not record.
  ghost function FaithfulStep(cfg: Config): (World, Action) -> bool {
    (w: World, a: Action) =>
      a.EventTurn? && w.queue != [] && InRange(w.eng, w.queue[0]) ==> Faithful(cfg, w.eng, w.queue[0], a.env)
  }

  lemma AlongIsFaithful(cfg: Config, ws: seq<World>, acts: seq<Action>)
    requires |ws| == |acts| + 1 && HoldsAlong(ws, acts, FaithfulStep(cfg))
    ensures FaithfulRun(cfg, ws, acts)
  {
    forall k | 0 <= k < |acts|
      ensures FaithfulStep(cfg)(ws[k], acts[k])
    {
    }
    hide Faithful;
  }

  // At every point of an interleaving of faithful turns, restarts included, the log agrees with
  // the engine.
  lemma ReplayAlwaysAgrees(cfg: Config, b: nat, s0: System, s: System, n: nat)
    requires Ok(cfg, b, s0) && InStep(cfg, b, Abs(s0)) && Reached(cfg, s0, s, FaithfulStep(cfg), n)
    ensures InStep(cfg, b, Abs(s))
  {
    hide Ok, InStep, Reached, IsRun, Reaches, Abs, FaithfulRun, FaithfulStep, HoldsAlong;
    InterleavingIsRun(cfg, b, s0, s, FaithfulStep(cfg), n);
    var ws, acts := ReachedByRun(cfg, Abs(s0), Abs(s), FaithfulStep(cfg));
    RunLength(cfg, ws, acts);
    AlongIsFaithful(cfg, ws, acts);
    RunStaysInStep(cfg, b, ws, acts, |acts|);
  }

  // ----- The risk gate -----

  // Since move i the handler has held what it saw then.
  ghost predicate LookedSince(ss: seq<System>, ms: seq<Move>, i: nat, j: nat)
    requires j < |ss| == |ms| + 1
  {
    && i < j && ms[i].Load? && ss[i].hand.Taken?
    && ss[j].hand == Loaded(ss[i].hand.ev, ss[i].eng.kill, ss[i].eng.dailyPnl)
  }

  lemma LoadedStays(cfg: Config, r: System, m: Move)
    requires Allowed(cfg, r, m) && Next(cfg, r, m).hand.Loaded?
    ensures if m.Load? then r.hand.Taken? && Next(cfg, r, m).hand == Loaded(r.hand.ev, r.eng.kill, r.eng.dailyPnl)
            else r.hand == Next(cfg, r, m).hand
  {
    hide Acted, Recovered, Ring.ProducerStep, Ring.ConsumerStep, Shape, Ring.Shape;
  }

  lemma {:induction false} LookedBefore(cfg: Config, ss: seq<System>, ms: seq<Move>, j: nat) returns (i: nat)
    requires j < |ss| && IsInterleaving(cfg, ss, ms) && ss[0].hand.Empty? && ss[j].hand.Loaded?
    ensures LookedSince(ss, ms, i, j)
    decreases j
  {
    hide Allowed, Next;
    LoadedStays(cfg, ss[j - 1], ms[j - 1]);
    if ms[j - 1].Load? { i := j - 1; } else { i := LookedBefore(cfg, ss, ms, j - 1); }
  }

  // Only the handler, or what a crash leaves of it, adds to the trace.
  lemma MoveSends(cfg: Config, s: System, m: Move)
    requires cfg.hasWal && Allowed(cfg, s, m)
    ensures var t, u := s.eng.trace, Next(cfg, s, m).eng.trace;
      && t <= u
      && forall k :: |t| <= k < |u| && u[k].Sent? ==> InFlight(cfg, s) && Carries(u[k].order, s.hand.ev)
  {
    if s.hand.Loaded? && (m.Act? || m.Crash?) {
      ActGate(cfg, s, m.env);
      SentIsOrderEffect(Acted(cfg, s, m.env).trace);
      hide Acted, InFlight, Carries, Shape, Ring.Shape, OrderEffect, Replay.ReplayAll;
    } else {
      hide Process, Carries, Shape, Ring.Shape, Ring.ProducerStep, Ring.ConsumerStep, Replay.ReplayAll;
    }
  }

  lemma SentIsOrderEffect(t: seq<Effect>)
    ensures forall k :: 0 <= k < |t| && t[k].Sent? ==> OrderEffect(t, k)
  {
  }

  // Every order sent over an interleaving was sent by a handler whose own look, at the switch and
  // the P&L as they were then, passed every risk check, with the terms of the event in hand.
  lemma {:induction false} SentPassedItsLook(cfg: Config, ss: seq<System>, ms: seq<Move>, n: nat, k: nat)
    returns (i: nat, j: nat)
    requires n < |ss| && IsInterleaving(cfg, ss, ms) && cfg.hasWal && ss[0].hand.Empty?
    requires |ss[0].eng.trace| <= k < |ss[n].eng.trace| && ss[n].eng.trace[k].Sent?
    ensures j < n && LookedSince(ss, ms, i, j) && |ss[j].eng.trace| <= k < |ss[j + 1].eng.trace|
    ensures Passes(cfg, ss[i].eng, ss[i].hand.ev) && Carries(ss[n].eng.trace[k].order, ss[i].hand.ev)
    decreases n
  {
    hide Allowed, Next, Carries, InFlight;
    MoveSends(cfg, ss[n - 1], ms[n - 1]);
    if k < |ss[n - 1].eng.trace| {
      i, j := SentPassedItsLook(cfg, ss, ms, n - 1, k);
    } else {
      j := n - 1;
      InFlightPasses(cfg, ss[j]);
      i := LookedBefore(cfg, ss, ms, j);
    }
  }

  lemma InFlightPasses(cfg: Config, s: System)
    requires InFlight(cfg, s)
    ensures s.hand.Loaded? && Passes(cfg, s.eng.(kill := s.hand.kill, dailyPnl := s.hand.pnl), s.hand.ev)
  {
  }

  // ----- A switch that comes too late -----

  lemma OneMove(cfg: Config, s0: System, r: System, m: Move, n: nat) returns (s: System)
    requires Reached(cfg, s0, r, Anything, n) && Allowed(cfg, r, m)
    ensures s == Next(cfg, r, m) && Reached(cfg, s0, s, Anything, n + 1)
  {
    s := Next(cfg, r, m);
    AllIsPermitted(r, m);
    hide Next, Allowed, Permits;
    assert MovesTo(cfg, r, m, s);
  }

  // From any system with a submission in hand that its look would let pass: it looks, the switch
  // goes on, and then it logs the order and hands it to the broker.
  lemma SwitchComesTooLate(cfg: Config, s: System, env: Env) returns (ss: seq<System>, ms: seq<Move>)
    requires cfg.hasWal && cfg.hasBroker && Defined(cfg, s) && s.hand.Taken? && Passes(cfg, s.eng, s.hand.ev)
    ensures ms == [Load, Switch(true), Act(env)] && IsInterleaving(cfg, ss, ms) && ss[0] == s
    ensures ss[2].eng.kill && ss[2].eng.trace == s.eng.trace && ss[3].eng.kill
    ensures var n, t := |s.eng.trace|, ss[3].eng.trace;
      |t| == n + 2 && NewAt(t, n) && t[n + 1].Sent? && Carries(t[n + 1].order, s.hand.ev)
  {
    ms := [Load, Switch(true), Act(env)];
    var s1 := Next(cfg, s, ms[0]);
    var s2 := Next(cfg, s1, ms[1]);
    var s3 := Next(cfg, s2, ms[2]);
    ss := [s, s1, s2, s3];
    assert Looked(s2) == s.eng;
    ActGate(cfg, s2, env);
    GateIsExact(cfg, s.eng, s.hand.ev, env);
    hide Process, Passes, Carries, Shape, Ring.Shape;
  }

  lemma ProduceMove(cfg: Config, s0: System, s: System, n: nat) returns (u: System)
    requires Reached(cfg, s0, s, Anything, n) && Defined(cfg, s) && s.call.Publishing?
    ensures Reached(cfg, s0, u, Anything, n + 1) && Defined(cfg, u)
    ensures var ring := Ring.ProducerStep(s.ring, s.call.ev);
      u == s.(ring := ring, call := if ring.producer == Ring.Ready then Idle else s.call)
  {
    hide Reached, Shape, Ring.PowerOfTwo, Ring.Slot, Ring.Distance;
    u := OneMove(cfg, s0, s, Produce, n);
  }

  lemma PublishMoves(cfg: Config, s0: System, s: System, e: Event, n: nat) returns (u: System)
    requires Reached(cfg, s0, s, Anything, n) && Defined(cfg, s) && s.call == Publishing(e) && Ring.Initial(s.ring)
    ensures Reached(cfg, s0, u, Anything, n + 4) && Defined(cfg, u)
    ensures u.eng == s.eng && u.hand == s.hand && u.call == Idle
    ensures Ring.Inv(u.ring) && u.ring.consumer == Ring.Waiting && u.ring.published == [e] && Ring.Queue(u.ring) == [e]
  {
    Ring.FirstPublish(s.ring, e);
    hide *;
    u := ProduceMove(cfg, s0, s, n);
    u := ProduceMove(cfg, s0, u, n + 1);
    u := ProduceMove(cfg, s0, u, n + 2);
    u := ProduceMove(cfg, s0, u, n + 3);
  }

  lemma ConsumeMove(cfg: Config, s0: System, s: System, n: nat) returns (u: System)
    requires Reached(cfg, s0, s, Anything, n) && Defined(cfg, s) && s.hand == Empty
    requires s.ring.consumer.Taken? ==> InRange(s.eng, s.ring.consumer.event) && |s.ring.consumed| < |s.ring.published|
    ensures Reached(cfg, s0, u, Anything, n + 1) && Defined(cfg, u)
    ensures u == s.(ring := Ring.ConsumerStep(s.ring),
                    hand := if s.ring.consumer.Taken? then Taken(s.ring.consumer.event) else Empty)
  {
    hide Reached, Shape, Ring.PowerOfTwo, Ring.Slot;
    u := OneMove(cfg, s0, s, Consume, n);
  }

  lemma ConsumeMoves(cfg: Config, s0: System, s: System, e: Event, n: nat) returns (u: System)
    requires Reached(cfg, s0, s, Anything, n) && Defined(cfg, s) && s.hand == Empty && InRange(s.eng, e)
    requires Ring.Inv(s.ring) && s.ring.consumer == Ring.Waiting
    requires s.ring.published == [e] && Ring.Queue(s.ring) == [e]
    ensures Reached(cfg, s0, u, Anything, n + 4) && Defined(cfg, u) && u.eng == s.eng && u.hand == Taken(e)
  {
    Ring.FirstConsume(s.ring, e);
    hide *;
    u := ConsumeMove(cfg, s0, s, n);
    u := ConsumeMove(cfg, s0, u, n + 1);
    u := ConsumeMove(cfg, s0, u, n + 2);
    u := ConsumeMove(cfg, s0, u, n + 3);
  }

  lemma SubmitMoves(cfg: Config, ev: Event, ring: Ring.State<Event>) returns (s: System)
    requires cfg.maxOrders > 1 && Ring.Initial(ring)
    ensures Reached(cfg, System(Fresh(cfg), ring, Idle, Empty), s, Anything, 2) && Defined(cfg, s)
    ensures s == System(Fresh(cfg).(nextId := 2), ring, Publishing(SubmitEvent(ev, 1, 0)), Empty)
    ensures InRange(s.eng, SubmitEvent(ev, 1, 0))
  {
    var s0 := System(Fresh(cfg), ring, Idle, Empty);
    assert Reached(cfg, s0, s0, Anything, 0);
    hide Reached, Shape, Ring.PowerOfTwo;
    s := OneMove(cfg, s0, s0, BeginSubmit(ev, 0), 0);
    s := OneMove(cfg, s0, s, TakeId, 1);
  }

  // Such a system is reached from a fresh engine and an empty ring.
  lemma FreshReachesHand(cfg: Config, ev: Event, ring: Ring.State<Event>) returns (s: System, n: nat)
    requires cfg.maxOrders > 1 && Ring.Initial(ring)
    ensures Reached(cfg, System(Fresh(cfg), ring, Idle, Empty), s, Anything, n)
    ensures Defined(cfg, s) && s.hand == Taken(SubmitEvent(ev, 1, 0)) && s.eng == Fresh(cfg).(nextId := 2)
  {
    var s0 := System(Fresh(cfg), ring, Idle, Empty);
    hide *;
    s := SubmitMoves(cfg, ev, ring);
    s := PublishMoves(cfg, s0, s, SubmitEvent(ev, 1, 0), 2);
    s := ConsumeMoves(cfg, s0, s, SubmitEvent(ev, 1, 0), 6);
    n := 10;
  }
}
