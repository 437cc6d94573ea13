/**
 * Producer, ring and event loop step by step: the kill-switch load and the id counter of Submit,
 * every load, store and slot access of the ring, the handler's look at the kill switch, and what
 * it does then; and what the switch can and cannot stop.
 */
module Interleaved {
  import opened Engine
  import opened Guarantees
  import opened Orders
  import opened Pipeline
  import opened Runs
  import opened Words
  import Ring

  // Where the producer is: between calls, past the kill switch, or in TryPublish.
  datatype Call = Idle | Checked(ev: Event, now: int64) | Publishing(ev: Event)

  // Where the event loop is: in TryConsume, with an event taken, or past the handler's look at
  // the kill switch and the P&L.
  datatype Hand = Empty | Taken(ev: Event) | Loaded(ev: Event, kill: bool, pnl: int64)

  datatype System = System(eng: State, ring: Ring.State<Event>, call: Call, hand: Hand)

  datatype Move =
    | BeginSubmit(ev: Event, now: int64)
    | TakeId
    | BeginPublish(ev: Event)          // cancel, fill, replace and kill-switch events
    | Produce                          // one step of TryPublish
    | Consume                          // one step of TryConsume
    | Load                             // the handler looks at the kill switch and the P&L
    | Act(env: Env)                    // and does the rest
    | Switch(active: bool)
    | Pnl(pnl: int64)
    | Crash(env: Env, cut: nat, ring: Ring.State<Event>)

  predicate Defined(cfg: Config, s: System) {
    && Shape(cfg, s.eng) && Ring.Shape(s.ring) && |s.ring.consumed| <= |s.ring.published|
    && (!s.hand.Empty? ==> InRange(s.eng, s.hand.ev))
  }

  // The engine as the handler in hand looked at it.
  function Looked(s: System): State
    requires s.hand.Loaded?
  {
    s.eng.(kill := s.hand.kill, dailyPnl := s.hand.pnl)
  }

  // The engine after the handler, whose own look counts; the switch and the P&L are those of now.
  function Acted(cfg: Config, s: System, env: Env): State
    requires Defined(cfg, s)
  {
    if !s.hand.Loaded? then s.eng
    else
      Process(cfg, Looked(s), s.hand.ev, env)
        .(kill := s.eng.kill || s.hand.ev.kind == KillSwitch, dailyPnl := s.eng.dailyPnl)
  }

  predicate Allowed(cfg: Config, s: System, m: Move) {
    && Defined(cfg, s)
    && match m
       case BeginSubmit(_, _) => s.call.Idle?
       case TakeId => s.call.Checked? && s.eng.nextId != 0
       case BeginPublish(ev) =>
         && s.call.Idle? && InRange(s.eng, ev) && ev.kind != SubmitOrder
         && (ev.kind == FillOrder ==> WasSent(s.eng.trace, ev.orderIdx) && ev.qty > 0)
       case Produce => s.call.Publishing?
       case Consume => s.hand.Empty?
       case Load => s.hand.Taken?
       case Act(_) => s.hand.Loaded?
       case Switch(_) => true
       case Pnl(_) => true
       case Crash(env, cut, ring) =>
         && |s.eng.trace| <= cut <= |Acted(cfg, s, env).trace|
         && Ring.Initial(ring)
  }

  function Next(cfg: Config, s: System, m: Move): System
    requires Allowed(cfg, s, m)
  {
    match m
    case BeginSubmit(ev, now) => s.(call := if s.eng.kill then Idle else Checked(ev, now))
    case TakeId =>
      var id := s.eng.nextId;
      s.(eng := s.eng.(nextId := NextId(id)),
         call := if id >= cfg.maxOrders then Idle else Publishing(SubmitEvent(s.call.ev, id, s.call.now)))
    case BeginPublish(ev) => s.(call := Publishing(ev))
    case Produce =>
      var ring := Ring.ProducerStep(s.ring, s.call.ev);
      s.(ring := ring, call := if ring.producer == Ring.Ready then Idle else s.call)
    case Consume =>
      s.(ring := Ring.ConsumerStep(s.ring),
         hand := if s.ring.consumer.Taken? then Taken(s.ring.consumer.event) else Empty)
    case Load => s.(hand := Loaded(s.hand.ev, s.eng.kill, s.eng.dailyPnl))
    case Act(env) => s.(eng := Acted(cfg, s, env), hand := Empty)
    case Switch(active) => s.(eng := s.eng.(kill := active))
    case Pnl(pnl) => s.(eng := s.eng.(dailyPnl := pnl))
    case Crash(env, cut, ring) => System(Recovered(cfg, Acted(cfg, s, env).trace[..cut]), ring, Idle, Empty)
  }

  ghost predicate IsInterleaving(cfg: Config, ss: seq<System>, ms: seq<Move>) {
    && |ss| == |ms| + 1
    && forall k :: 0 <= k < |ms| ==> Allowed(cfg, ss[k], ms[k]) && ss[k + 1] == Next(cfg, ss[k], ms[k])
  }

  // ----- The kill switch -----

  // The handler in hand has looked, and what it saw passes every risk check.
  predicate InFlight(cfg: Config, s: System) {
    s.hand.Loaded? && Passes(cfg, Looked(s), s.hand.ev)
  }

  // A new-order record or a broker call.
  predicate OrderEffect(t: seq<Effect>, k: int) {
    NewAt(t, k) || (0 <= k < |t| && t[k].Sent?)
  }

  // What the handler adds: nothing of an order unless it is in flight, and then the record and
  // the call of the event in hand.
  lemma ActGate(cfg: Config, s: System, env: Env)
    requires cfg.hasWal && Defined(cfg, s) && s.hand.Loaded?
    ensures var t, u := s.eng.trace, Acted(cfg, s, env).trace;
      && t <= u
      && (InFlight(cfg, s) <==> NewAt(u, |t|))
      && (InFlight(cfg, s) ==> IdAt(u, |t|) == s.hand.ev.orderIdx && |u| == |t| + (if cfg.hasBroker then 2 else 1))
      && (forall k :: |t| <= k < |u| && OrderEffect(u, k) ==>
            InFlight(cfg, s) && (k == |t| || (k == |t| + 1 && u[k].Sent? && Carries(u[k].order, s.hand.ev))))
  {
    GateIsExact(cfg, Looked(s), s.hand.ev, env);
    TraceGrowth(cfg, Looked(s), s.hand.ev, env);
    GateSize(cfg, Looked(s), s.hand.ev, env);
    hide Process, Passes, Carries, Shape, Ring.Shape;
  }

  lemma GateSize(cfg: Config, s: State, ev: Event, env: Env)
    requires cfg.hasWal && Shape(cfg, s) && InRange(s, ev)
    ensures Passes(cfg, s, ev) ==>
      |Process(cfg, s, ev, env).trace| == |s.trace| + (if cfg.hasBroker then 2 else 1)
      && Process(cfg, s, ev, env).trace[|s.trace|].Logged?
      && Process(cfg, s, ev, env).trace[|s.trace|].entry.orderIdx == ev.orderIdx
  {
    hide EncodeOrder, LinksInRange, Wrap64;
  }

  predicate StaysOn(ms: seq<Move>, j: nat, n: nat)
    requires n <= |ms|
  {
    forall i :: j <= i < n ==> !ms[i].Crash? && (ms[i].Switch? ==> ms[i].active)
  }

  predicate HasActed(ms: seq<Move>, j: nat, n: nat)
    requires n <= |ms|
  {
    exists i :: j <= i < n && ms[i].Act?
  }

  // With the switch on, every move leaves it on; only the handler already in flight adds a
  // record or a call of an order, and no other gets in flight.
  lemma MoveWithSwitchOn(cfg: Config, s: System, m: Move)
    requires cfg.hasWal && Allowed(cfg, s, m) && s.eng.kill && !m.Crash? && (m.Switch? ==> m.active)
    ensures var u := Next(cfg, s, m);
      && u.eng.kill && (!m.Act? ==> u.eng.trace == s.eng.trace)
      && (m.Act? ==> u.eng == Acted(cfg, s, m.env))
      && (InFlight(cfg, u) ==> !m.Act? && InFlight(cfg, s) && u.hand == s.hand)
      && (InFlight(cfg, s) && !m.Act? ==> InFlight(cfg, u) && u.hand == s.hand)
  {
    hide Process, Shape, Ring.Shape, Ring.ProducerStep, Ring.ConsumerStep;
  }

  // Beyond the trace of s there is, if one goes through, the record of its event in hand and the
  // call that follows it, and nothing else of an order.
  predicate OneThrough(cfg: Config, s: System, u: seq<Effect>, through: bool)
    requires through ==> s.hand.Loaded?
  {
    var t := s.eng.trace;
    && t <= u
    && (through ==>
          && NewAt(u, |t|) && IdAt(u, |t|) == s.hand.ev.orderIdx
          && (cfg.hasBroker ==> |u| > |t| + 1 && u[|t| + 1].Sent?))
    && (forall k :: |t| <= k < |u| && OrderEffect(u, k) ==>
          through && (k == |t| || (k == |t| + 1 && u[k].Sent? && Carries(u[k].order, s.hand.ev))))
  }

  lemma NothingMoreOfOrders(cfg: Config, s: System, u: seq<Effect>, v: seq<Effect>, through: bool)
    requires through ==> s.hand.Loaded?
    requires OneThrough(cfg, s, u, through) && u <= v
    requires forall k :: |u| <= k < |v| ==> !OrderEffect(v, k)
    ensures OneThrough(cfg, s, v, through)
  {
    hide Carries;
    forall k | |s.eng.trace| <= k < |v| && OrderEffect(v, k)
      ensures through
      ensures k == |s.eng.trace| || (k == |s.eng.trace| + 1 && v[k].Sent? && Carries(v[k].order, s.hand.ev))
    {
      assert k < |u| && u[k] == v[k] && OrderEffect(u, k);
    }
  }

  lemma ActWithSwitchOn(cfg: Config, s: System, env: Env)
    requires cfg.hasWal && Defined(cfg, s) && s.hand.Loaded?
    ensures var t, u := s.eng.trace, Acted(cfg, s, env).trace;
      if InFlight(cfg, s) then OneThrough(cfg, s, u, true)
      else t <= u && forall k :: |t| <= k < |u| ==> !OrderEffect(u, k)
  {
    ActGate(cfg, s, env);
    hide Acted, InFlight, Carries, Shape, Ring.Shape;
  }

  // What has become of the switch since it went on at s.
  ghost predicate SwitchedOn(cfg: Config, s: System, u: System, acted: bool) {
    var flies := InFlight(cfg, s);
    && u.eng.kill && (InFlight(cfg, u) <==> flies && !acted) && (flies && !acted ==> u.hand == s.hand)
    && OneThrough(cfg, s, u.eng.trace, flies && acted) && (flies && !acted ==> u.eng.trace == s.eng.trace)
  }

  lemma MoveStaysSwitchedOn(cfg: Config, s: System, r: System, m: Move, acted: bool)
    requires cfg.hasWal && SwitchedOn(cfg, s, r, acted) && Allowed(cfg, r, m)
    requires !m.Crash? && (m.Switch? ==> m.active)
    ensures SwitchedOn(cfg, s, Next(cfg, r, m), acted || m.Act?)
  {
    MoveWithSwitchOn(cfg, r, m);
    if m.Act? { ActWithSwitchOn(cfg, r, m.env); }
    hide Next, Allowed, Acted, OrderEffect;
    var u := Next(cfg, r, m);
    if m.Act? && !InFlight(cfg, r) {
      hide InFlight;
      NothingMoreOfOrders(cfg, s, r.eng.trace, u.eng.trace, InFlight(cfg, s) && acted);
    } else {
      SameThrough(cfg, s, r, u.eng.trace, InFlight(cfg, s) && acted);
      hide InFlight, OneThrough;
    }
  }

  lemma SameThrough(cfg: Config, s: System, r: System, u: seq<Effect>, through: bool)
    requires through ==> s.hand.Loaded?
    ensures r.eng.trace == s.eng.trace && r.hand == s.hand && r.hand.Loaded? ==>
      (OneThrough(cfg, r, u, true) <==> OneThrough(cfg, s, u, true))
  {
    hide Carries, OrderEffect;
  }

  // Once the switch is on, up to a restart or until it goes off: an order is logged or handed to
  // the broker exactly when it was in flight when the switch went on and its handler has gone
  // on since, so there is at most one.
  lemma {:induction false} SwitchLetsOneThrough(
    cfg: Config, ss: seq<System>, ms: seq<Move>, j: nat, n: nat)
    requires j <= n < |ss| && IsInterleaving(cfg, ss, ms)
    requires cfg.hasWal && ss[j].eng.kill && StaysOn(ms, j, n)
    ensures SwitchedOn(cfg, ss[j], ss[n], HasActed(ms, j, n))
    decreases n
  {
    hide Next, Allowed, SwitchedOn;
    if j == n {
      NothingYet(cfg, ss[j]);
    } else {
      SwitchLetsOneThrough(cfg, ss, ms, j, n - 1);
      MoveStaysSwitchedOn(cfg, ss[j], ss[n - 1], ms[n - 1], HasActed(ms, j, n - 1));
      assert HasActed(ms, j, n) <==> HasActed(ms, j, n - 1) || ms[n - 1].Act?;
    }
  }

  lemma NothingYet(cfg: Config, s: System)
    requires s.eng.kill
    ensures SwitchedOn(cfg, s, s, false)
  {
  }
}
