/** What holds of every run: recovery after a crash, ordering of effects, and the risk gate. */
module Guarantees {
  import opened Engine
  import opened Orders
  import opened Pipeline
  import opened Replay
  import opened Runs
  import opened Wal
  import opened Words

  // ----- Durability -----

  lemma {:induction false} LogOfConcat(a: seq<Effect>, b: seq<Effect>)
    ensures LogOf(a + b) == LogOf(a) + LogOf(b)
    decreases |b|
  {
    if b == [] {
      assert a + b == a;
    } else {
      assert (a + b)[..|a + b| - 1] == a + b[..|b| - 1];
      LogOfConcat(a, b[..|b| - 1]);
    }
  }

  lemma {:induction false} LogOfPast(es: seq<Entry>)
    ensures LogOf(Past(es)) == es
    decreases |es|
  {
    if es != [] {
      assert Past(es)[..|es| - 1] == Past(es[..|es| - 1]);
      LogOfPast(es[..|es| - 1]);
    }
  }

  // A log file that held es and then received the records of a trace.
  lemma FileOfTrace(es: seq<Entry>, trace: seq<Effect>)
    ensures EncodeAll(es) + EncodeAll(LogOf(trace)) == EncodeAll(LogOf(Past(es) + trace))
  {
    LogOfConcat(Past(es), trace);
    LogOfPast(es);
    EncodeConcat(es, LogOf(trace));
  }

  lemma {:induction false} NoImageLogged(trace: seq<Effect>, i: nat)
    requires forall k :: 0 <= k < |trace| && trace[k].Logged? ==> !IsImage(trace[k].entry, i)
    ensures forall p :: 0 <= p < |LogOf(trace)| ==> !IsImage(LogOf(trace)[p], i)
    decreases |trace|
  {
    if trace != [] { NoImageLogged(trace[..|trace| - 1], i); }
  }

  lemma {:induction false} LoggedFits(trace: seq<Effect>)
    requires forall k :: 0 <= k < |trace| && trace[k].Logged? ==> Fits(trace[k].entry)
    ensures AllFit(LogOf(trace))
    decreases |trace|
  {
    if trace != [] { LoggedFits(trace[..|trace| - 1]); }
  }

  // The recovered order is the one submitted, and its status is live or final.
  predicate ComesBack(r: Order, o: Order) {
    SameSubmission(r, o) && r.status in {ACKNOWLEDGED, CANCELLED, FILLED}
  }

  // Replaying the records up to any point after a broker call gives the order of that call.
  lemma SentComesBack(cfg: Config, b: nat, trace: seq<Effect>, k: nat, cut: nat)
    requires TraceOk(cfg, b, trace) && k < cut <= |trace| && trace[k].Sent?
    ensures trace[k].order.id < cfg.maxOrders
    ensures ComesBack(ReplayAll(FreshStore(cfg), LogOf(trace[..cut])).orders[trace[k].order.id], trace[k].order)
  {
    var o := trace[k].order;
    var before, after := trace[..k - 1], trace[k..cut];
    var record := trace[k - 1];
    assert RecordOf(record, o) && NewAt(trace, k - 1);
    assert trace[..cut] == before + [record] + after;
    LogOfConcat(before + [record], after);
    LogOfConcat(before, [record]);
    assert LogOf([record]) == [record.entry];
    forall q | 0 <= q < |after| && after[q].Logged?
      ensures !IsImage(after[q].entry, o.id)
    {
      assert after[q] == trace[k + q];
      assert NewAt(trace, k + q) ==> IdAt(trace, k - 1) < IdAt(trace, k + q);
    }
    NoImageLogged(after, o.id);
    var es, at := LogOf(trace[..cut]), |LogOf(before)|;
    hide LogOf, TraceOk;
    assert es == LogOf(before) + [record.entry] + LogOf(after);
    LoggedOrderComesBack(FreshStore(cfg).orders[o.id], o.id, es, at, WithStatus(o, NEW));
    ReplayIsSlotLocal(FreshStore(cfg), es, o.id);
  }

  ghost predicate TornAfter(es: seq<Entry>, e: Entry, file: bytes) {
    exists p :: 0 <= p < |Record(e)| && file == EncodeAll(es) + Record(e)[..p]
  }

  // What a crash can leave on disk: the records of the effects before it, and possibly a
  // strict prefix of the record being appended.
  ghost predicate CrashImage(trace: seq<Effect>, cut: nat, file: bytes)
    requires cut <= |trace|
  {
    || file == EncodeAll(LogOf(trace[..cut]))
    || (cut < |trace| && trace[cut].Logged? && TornAfter(LogOf(trace[..cut]), trace[cut].entry, file))
  }

  lemma CrashImageReadsBack(trace: seq<Effect>, cut: nat, file: bytes)
    requires cut <= |trace| && CrashImage(trace, cut, file)
    requires forall k :: 0 <= k < |trace| && trace[k].Logged? ==> Fits(trace[k].entry)
    ensures DecodeAll(file) == LogOf(trace[..cut])
  {
    var es := LogOf(trace[..cut]);
    LoggedFits(trace[..cut]);
    hide LogOf, EncodeAll, DecodeAll, Record;
    if file == EncodeAll(es) {
      EncodedIsWellFormed(es);
    } else {
      assert TornAfter(es, trace[cut].entry, file);
      var p :| 0 <= p < |Record(trace[cut].entry)| && file == EncodeAll(es) + Record(trace[cut].entry)[..p];
      TornTailIsDropped(es, trace[cut].entry, p);
    }
  }

  // Whatever is cut off a trace by a crash, every order sent before comes back from the file.
  ghost predicate Durable(cfg: Config, t: seq<Effect>) {
    forall cut, file, k :: 0 <= k < cut <= |t| && CrashImage(t, cut, file) && t[k].Sent? ==>
      && t[k].order.id < cfg.maxOrders
      && ComesBack(ReplayAll(FreshStore(cfg), DecodeAll(file)).orders[t[k].order.id], t[k].order)
  }

  lemma OrderedTraceIsDurable(cfg: Config, b: nat, t: seq<Effect>)
    requires TraceOk(cfg, b, t)
    ensures Durable(cfg, t)
  {
    TraceFits(cfg, b, t);
    forall cut: nat, file, k: nat | k < cut <= |t| && CrashImage(t, cut, file) && t[k].Sent?
      ensures t[k].order.id < cfg.maxOrders
      ensures ComesBack(ReplayAll(FreshStore(cfg), DecodeAll(file)).orders[t[k].order.id], t[k].order)
    {
      hide TraceOk, CrashImage, ReplayAll, DecodeAll, FreshStore, ComesBack;
      CrashImageReadsBack(t, cut, file);
      SentComesBack(cfg, b, t, k, cut);
    }
  }

  lemma TraceFits(cfg: Config, b: nat, t: seq<Effect>)
    requires TraceOk(cfg, b, t)
    ensures forall k :: 0 <= k < |t| && t[k].Logged? ==> Fits(t[k].entry)
  {
  }

  // For every run from a well-formed log, with any number of restarts on files without a torn
  // record, and for every crash then, between effects or inside an append, every order handed to
  // the broker before the crash is recovered by reading the file and replaying it.
  lemma EndToEndDurability(cfg: Config, es: seq<Entry>, ws: seq<World>, acts: seq<Action>, n: nat)
    requires cfg.hasWal && AllFit(es) && IsRun(cfg, ws, acts) && ws[0] == Opened(cfg, es) && n < |ws|
    ensures Durable(cfg, ws[n].eng.trace)
  {
    OpeningEstablishesInv(cfg, es);
    RunKeepsInv(cfg, |es|, ws, acts, n);
    OrderedTraceIsDurable(cfg, |es|, ws[n].eng.trace);
  }

  // ----- Order of effects -----

  // From an empty log, over any number of restarts: new-order records have strictly
  // increasing usable ids, each broker call directly follows the record of its own order, and
  // so broker calls have strictly increasing ids too.
  lemma LoggedThenSentInOrder(cfg: Config, ws: seq<World>, acts: seq<Action>, n: nat)
    requires cfg.hasWal && IsRun(cfg, ws, acts) && ws[0] == Opened(cfg, []) && n < |ws|
    ensures var t := ws[n].eng.trace;
      && (forall k :: NewAt(t, k) ==> 1 <= IdAt(t, k) < cfg.maxOrders)
      && (forall j, k :: j < k && NewAt(t, j) && NewAt(t, k) ==> IdAt(t, j) < IdAt(t, k))
      && (forall k :: 0 <= k < |t| && t[k].Sent? ==> k > 0 && RecordOf(t[k - 1], t[k].order))
      && (forall j, k :: 0 <= j < k < |t| && t[j].Sent? && t[k].Sent? ==> t[j].order.id < t[k].order.id)
  {
    OpeningEstablishesInv(cfg, []);
    RunKeepsInv(cfg, 0, ws, acts, n);
    var t := ws[n].eng.trace;
    forall j, k | 0 <= j < k < |t| && t[j].Sent? && t[k].Sent?
      ensures t[j].order.id < t[k].order.id
    {
      assert RecordOf(t[j - 1], t[j].order) && RecordOf(t[k - 1], t[k].order);
      assert NewAt(t, j - 1) && NewAt(t, k - 1);
    }
  }

  // ----- Risk gate -----

  // The order has the terms of the event that submitted it.
  predicate Carries(o: Order, ev: Event) {
    && o.id == ev.orderIdx && o.symbol == ev.symbol && o.strategy == ev.strategy
    && o.side == ev.side && o.ordType == ev.ordType && o.tif == ev.tif
    && o.qty == ev.qty && o.price == ev.price && o.stopPrice == ev.stopPrice
    && o.createdAt == ev.timestamp
  }

  // What the risk checks look at.
  predicate Passes(cfg: Config, s: State, ev: Event) {
    && ev.kind == SubmitOrder && ev.qty <= cfg.maxOrderSize && !s.kill
    && s.dailyPnl >= Wrap64(-(cfg.maxDailyLoss as int))
  }

  // An event adds a broker call or a new-order record only if it is a submission that every
  // risk check lets through; such a submission always adds them, the record before the call,
  // and the broker gets the terms of the event.
  lemma GateIsExact(cfg: Config, s: State, ev: Event, env: Env)
    requires Shape(cfg, s) && InRange(s, ev) && cfg.hasWal
    ensures var t := Process(cfg, s, ev, env).trace; var n := |s.trace|;
      var passes := Passes(cfg, s, ev);
      && (passes <==> NewAt(t, n))
      && (passes && cfg.hasBroker <==> |t| == n + 2)
      && (|t| == n + 2 ==> t[n + 1].Sent? && Carries(t[n + 1].order, ev) && t[n + 1].order.status == PENDING_NEW)
      && (forall k :: n <= k < |t| && t[k].Sent? ==> passes)
  {
    hide NewAverage, HashSymbol, Settled, CancelLinked, EncodeOrder, LinksInRange, Wrap64;
  }

  // The events of a step that consumes one: a turn, or the turn a crash cuts short.
  predicate Consumes(w: World, a: Action) {
    (a.EventTurn? || a.CrashAndRestart?) && w.queue != []
  }

  lemma StepExtendsTrace(cfg: Config, w: World, a: Action)
    requires cfg.hasWal && Enabled(cfg, w, a)
    ensures var t, u := w.eng.trace, Step(cfg, w, a).eng.trace;
      && t <= u
      && forall k :: |t| <= k < |u| && u[k].Sent? ==>
           Consumes(w, a) && InRange(w.eng, w.queue[0]) && Passes(cfg, w.eng, w.queue[0])
           && Carries(u[k].order, w.queue[0])
  {
    if Consumes(w, a) {
      GateIsExact(cfg, w.eng, w.queue[0], a.env);
      TraceGrowth(cfg, w.eng, w.queue[0], a.env);
      hide Process, Carries, ReplayAll;
    }
  }

  // A queued submission was put there by an accepted call, with the terms of that call.
  ghost predicate Called(cfg: Config, ws: seq<World>, acts: seq<Action>, j: nat, ev: Event)
    requires j <= |acts| <= |ws|
  {
    exists i :: 0 <= i < j && CalledAt(cfg, ws[i], acts[i], ev)
  }

  predicate CalledAt(cfg: Config, w: World, a: Action, ev: Event) {
    && ((a.CallSubmit? && Pipeline.Submit(cfg, w, a.ev, a.now).1 == Accepted(ev.orderIdx))
        || (a.SubmissionQueued? && w.eng.nextId == ev.orderIdx))
    && ev == SubmitEvent(a.ev, ev.orderIdx, a.now)
  }

  lemma StepQueues(cfg: Config, w: World, a: Action, q: nat)
    requires Enabled(cfg, w, a) && SubmitAt(Step(cfg, w, a), q)
    ensures var ev := Step(cfg, w, a).queue[q];
      CalledAt(cfg, w, a, ev) || exists p :: SubmitAt(w, p) && w.queue[p] == ev
  {
    var v := Step(cfg, w, a);
    if a.EventTurn? && w.queue != [] {
      assert SubmitAt(w, q + 1) && w.queue[q + 1] == v.queue[q];
    } else if q < |w.queue| {
      assert a.CrashAndRestart? || (SubmitAt(w, q) && w.queue[q] == v.queue[q]);
    }
    hide Process, Ready, ReplayAll;
  }

  lemma {:induction false} QueuedWasCalled(cfg: Config, ws: seq<World>, acts: seq<Action>, j: nat, q: nat)
    requires IsRun(cfg, ws, acts) && ws[0].queue == [] && j < |ws| && SubmitAt(ws[j], q)
    ensures Called(cfg, ws, acts, j, ws[j].queue[q])
    decreases j
  {
    hide Step, Enabled, CalledAt;
    assert j > 0;
    StepQueues(cfg, ws[j - 1], acts[j - 1], q);
    if !CalledAt(cfg, ws[j - 1], acts[j - 1], ws[j].queue[q]) {
      var p :| SubmitAt(ws[j - 1], p) && ws[j - 1].queue[p] == ws[j].queue[q];
      QueuedWasCalled(cfg, ws, acts, j - 1, p);
    }
  }

  // The step that added effect k consumed an event that passed every risk check in the state it
  // met, has the terms of the order sent, and was published by an accepted call with them.
  ghost predicate SentBehindGate(cfg: Config, ws: seq<World>, acts: seq<Action>, k: nat, o: Order, j: nat)
    requires j < |acts| < |ws|
  {
    && |ws[j].eng.trace| <= k < |ws[j + 1].eng.trace|
    && Consumes(ws[j], acts[j]) && Passes(cfg, ws[j].eng, ws[j].queue[0]) && Carries(o, ws[j].queue[0])
    && Called(cfg, ws, acts, j, ws[j].queue[0])
  }

  lemma {:induction false} GateHoldsOverRun(
    cfg: Config, ws: seq<World>, acts: seq<Action>, n: nat, k: nat) returns (j: nat)
    requires cfg.hasWal && IsRun(cfg, ws, acts) && ws[0].queue == [] && n < |ws|
    requires |ws[0].eng.trace| <= k < |ws[n].eng.trace| && ws[n].eng.trace[k].Sent?
    ensures j < n && SentBehindGate(cfg, ws, acts, k, ws[n].eng.trace[k].order, j)
    decreases n
  {
    hide Step, Enabled, CalledAt, Passes, Carries, InRange;
    StepExtendsTrace(cfg, ws[n - 1], acts[n - 1]);
    if k < |ws[n - 1].eng.trace| {
      j := GateHoldsOverRun(cfg, ws, acts, n - 1, k);
    } else {
      j := n - 1;
      PassesIsSubmit(cfg, ws[j].eng, ws[j].queue[0]);
      assert SubmitAt(ws[j], 0);
      QueuedWasCalled(cfg, ws, acts, j, 0);
    }
  }

  lemma PassesIsSubmit(cfg: Config, s: State, ev: Event)
    requires Passes(cfg, s, ev)
    ensures ev.kind == SubmitOrder
  {
  }

  predicate StaysKilled(acts: seq<Action>, n: nat)
    requires n <= |acts|
  {
    forall m :: 0 <= m < n ==> !acts[m].CrashAndRestart? && (acts[m].SetKill? ==> acts[m].active)
  }

  // In runs, which take a turn as one step: while the kill switch is on nothing is sent and no new
  // order is logged, whatever was published before. A switch set inside a turn comes too late for
  // the order in hand, see SwitchLetsOneThrough in Interleaved.
  lemma {:induction false} KilledEngineSendsNothing(cfg: Config, ws: seq<World>, acts: seq<Action>, n: nat)
    requires cfg.hasWal && IsRun(cfg, ws, acts) && n < |ws| && ws[0].eng.kill && StaysKilled(acts, n)
    ensures ws[n].eng.kill && ws[0].eng.trace <= ws[n].eng.trace
    ensures forall k :: |ws[0].eng.trace| <= k < |ws[n].eng.trace| ==>
      ws[n].eng.trace[k].Logged? && !NewAt(ws[n].eng.trace, k)
    decreases n
  {
    if n > 0 {
      KilledEngineSendsNothing(cfg, ws, acts, n - 1);
      assert Enabled(cfg, ws[n - 1], acts[n - 1]);
      KilledStep(cfg, ws[n - 1], acts[n - 1]);
      hide Step, Enabled;
      var t, u := ws[n - 1].eng.trace, ws[n].eng.trace;
      forall k | |ws[0].eng.trace| <= k < |u|
        ensures u[k].Logged? && !NewAt(u, k)
      {
        if k < |t| { assert u[k] == t[k] && !NewAt(t, k); }
      }
    }
  }

  lemma KilledStep(cfg: Config, w: World, a: Action)
    requires cfg.hasWal && Enabled(cfg, w, a) && w.eng.kill && !a.CrashAndRestart? && (a.SetKill? ==> a.active)
    ensures var v := Step(cfg, w, a);
      && v.eng.kill && w.eng.trace <= v.eng.trace
      && forall k :: |w.eng.trace| <= k < |v.eng.trace| ==> v.eng.trace[k].Logged? && !NewAt(v.eng.trace, k)
  {
    if a.EventTurn? && w.queue != [] {
      GateIsExact(cfg, w.eng, w.queue[0], a.env);
      TraceGrowth(cfg, w.eng, w.queue[0], a.env);
      KillIsKept(cfg, w.eng, w.queue[0], a.env);
      hide Process;
    }
  }

  lemma KillIsKept(cfg: Config, s: State, ev: Event, env: Env)
    requires Shape(cfg, s) && InRange(s, ev) && s.kill
    ensures Process(cfg, s, ev, env).kill
  {
    hide NewAverage, HashSymbol, Settled, CancelLinked, EncodeOrder, RiskRejects, LinksInRange;
  }
}
