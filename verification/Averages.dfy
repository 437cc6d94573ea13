/** The stored average of every order over whole runs. */
module Averages {
  import opened Conservation
  import opened Engine
  import opened Fills
  import opened Orders
  import opened Pipeline
  import opened Replay
  import opened Runs
  import opened Wal
  import opened Words

  // Step k processes a fill for slot i.
  predicate FillsAt(ws: seq<World>, acts: seq<Action>, i: nat, k: nat)
    requires k < |acts| <= |ws|
  {
    && acts[k].EventTurn? && ws[k].queue != []
    && ws[k].queue[0].kind == FillOrder && ws[k].queue[0].orderIdx == i
  }

  // The fills processed for a slot since the run began or the engine was last restarted.
  function FillsSince(ws: seq<World>, acts: seq<Action>, i: nat, n: nat): seq<Fill>
    requires n <= |acts| < |ws|
    decreases n
  {
    if n == 0 || acts[n - 1].CrashAndRestart? then []
    else if FillsAt(ws, acts, i, n - 1) then
      var ev := ws[n - 1].queue[0];
      FillsSince(ws, acts, i, n - 1) + [Fill(ev.qty, ev.price, acts[n - 1].env.now)]
    else FillsSince(ws, acts, i, n - 1)
  }

  predicate SameFill(o: Order, p: Order) {
    o.filledQty == p.filledQty && o.filledAvgPx == p.filledAvgPx && o.lastFillPx == p.lastFillPx
  }

  lemma {:induction false} ReplayFillsNoSlot(o: Order, i: nat, es: seq<Entry>)
    ensures SameFill(OwnReplay(o, i, es), o)
    decreases |es|
  {
    if es != [] {
      ReplayFillsNoSlot(o, i, es[..|es| - 1]);
      StepKeepsUnstored(OwnReplay(o, i, es[..|es| - 1]), es[|es| - 1]);
      hide OwnStep;
    }
  }

  lemma RecoveredIsUnfilled(cfg: Config, trace: seq<Effect>, i: nat)
    requires i < cfg.maxOrders
    ensures SameFill(Recovered(cfg, trace).orders[i], NO_ORDER)
  {
    ReplayIsSlotLocal(FreshStore(cfg), LogOf(trace), i);
    ReplayFillsNoSlot(NO_ORDER, i, LogOf(trace));
    hide ReplayAll, OwnReplay, LogOf;
  }

  // An event other than a fill for the slot leaves its fill fields alone.
  lemma EventKeepsFill(cfg: Config, s: State, ev: Event, env: Env, i: nat)
    requires Shape(cfg, s) && InRange(s, ev) && i < |s.orders|
    ensures |Process(cfg, s, ev, env).orders| == |s.orders|
    ensures !(ev.kind == FillOrder && ev.orderIdx == i) ==> SameFill(Process(cfg, s, ev, env).orders[i], s.orders[i])
    ensures ev.kind == FillOrder && ev.orderIdx == i ==>
      Process(cfg, s, ev, env).orders[i] == Filled(s.orders[i], ev.qty, ev.price, env.now)
  {
    hide Filled, HashSymbol, EncodeOrder, RiskRejects, LinksInRange, IsCancellable;
    if ev.kind == FillOrder { FilledElsewhere(cfg, s, ev, env); }
  }

  lemma FilledElsewhere(cfg: Config, s: State, ev: Event, env: Env)
    requires Shape(cfg, s) && ev.orderIdx < |s.orders|
    ensures ProcessFill(cfg, s, ev, env).orders ==
      s.orders[ev.orderIdx := Filled(s.orders[ev.orderIdx], ev.qty, ev.price, env.now)]
  {
    hide Filled, HashSymbol, LinksInRange;
  }

  lemma OneMoreInSlot(o: Order, p: Order, fs: seq<Fill>, f: Fill)
    requires SameFill(p, FillAll(o, fs))
    ensures SameFill(Filled(p, f.qty, f.px, f.now), FillAll(o, fs + [f]))
  {
    FilledAlike(p, FillAll(o, fs), f);
    hide Filled;
    assert (fs + [f])[..|fs|] == fs;
  }

  lemma FilledAlike(o: Order, p: Order, f: Fill)
    requires SameFill(o, p)
    ensures SameFill(Filled(o, f.qty, f.px, f.now), Filled(p, f.qty, f.px, f.now))
  {
    hide NewAverage, Wrap32;
  }

  lemma StepFillsSlot(cfg: Config, w: World, a: Action, i: nat, fs: seq<Fill>)
    requires Enabled(cfg, w, a) && i < cfg.maxOrders && |w.eng.orders| == cfg.maxOrders
    requires SameFill(w.eng.orders[i], FillAll(NO_ORDER, fs))
    ensures |Step(cfg, w, a).eng.orders| == cfg.maxOrders
    ensures var p := Step(cfg, w, a).eng.orders[i];
      if a.CrashAndRestart? then SameFill(p, NO_ORDER)
      else if FillsAt([w, Step(cfg, w, a)], [a], i, 0) then
        var f := Fill(w.queue[0].qty, w.queue[0].price, a.env.now);
        SameFill(p, FillAll(NO_ORDER, fs + [f]))
      else SameFill(p, FillAll(NO_ORDER, fs))
  {
    hide FillAll, Filled, Process, LinksInRange, ReplayAll;
    if a.EventTurn? && w.queue != [] {
      EventKeepsFill(cfg, w.eng, w.queue[0], a.env, i);
      OneMoreInSlot(NO_ORDER, w.eng.orders[i], fs, Fill(w.queue[0].qty, w.queue[0].price, a.env.now));
    } else if a.CrashAndRestart? {
      RecoveredIsUnfilled(cfg, Turn(cfg, w, a.env).eng.trace[..a.cut], i);
    }
  }

  // In every state of every run the fill fields of every slot are those of the fold over its
  // fills.
  lemma {:induction false} SlotFoldsItsFills(
    cfg: Config, es: seq<Entry>, ws: seq<World>, acts: seq<Action>, i: nat, n: nat)
    requires IsRun(cfg, ws, acts) && ws[0] == Opened(cfg, es) && n < |ws| && i < cfg.maxOrders
    ensures |ws[n].eng.orders| == cfg.maxOrders
    ensures SameFill(ws[n].eng.orders[i], FillAll(NO_ORDER, FillsSince(ws, acts, i, n)))
    decreases n
  {
    if n == 0 {
      RecoveredIsUnfilled(cfg, Past(es), i);
      hide ReplayAll;
    } else {
      SlotFoldsItsFills(cfg, es, ws, acts, i, n - 1);
      StepFillsSlot(cfg, ws[n - 1], acts[n - 1], i, FillsSince(ws, acts, i, n - 1));
      hide Step, Enabled, FillAll, Opened;
    }
  }

  lemma UnusedWasUnused(cfg: Config, b: nat, w: World, a: Action, i: nat)
    requires Inv(cfg, b, w) && Enabled(cfg, w, a) && !a.CrashAndRestart? && Unused(Step(cfg, w, a), i)
    ensures Unused(w, i) && !FillsAt([w], [a], i, 0)
  {
    UnusedShrinks(cfg, b, w, a, i);
    hide Step, Unused;
    if FillsAt([w], [a], i, 0) { FilledIsUsed(cfg, b, w); }
    hide Inv, Enabled;
  }

  lemma FilledIsUsed(cfg: Config, b: nat, w: World)
    requires Inv(cfg, b, w) && w.queue != [] && w.queue[0].kind == FillOrder
    ensures !Unused(w, w.queue[0].orderIdx)
  {
    SentIsUsed(cfg, b, w, w.queue[0].orderIdx);
    hide Inv, Unused;
  }

  // Only sent orders are filled, so the fills of a slot are all since its submission.
  lemma {:induction false} UnusedHasNoFills(
    cfg: Config, b: nat, ws: seq<World>, acts: seq<Action>, i: nat, n: nat)
    requires IsRun(cfg, ws, acts) && Inv(cfg, b, ws[0]) && n < |ws| && Unused(ws[n], i)
    ensures FillsSince(ws, acts, i, n) == []
    decreases n
  {
    hide Step, Enabled, Inv, Unused;
    if n > 0 && !acts[n - 1].CrashAndRestart? {
      RunKeepsInv(cfg, b, ws, acts, n - 1);
      UnusedWasUnused(cfg, b, ws[n - 1], acts[n - 1], i);
      UnusedHasNoFills(cfg, b, ws, acts, i, n - 1);
    }
  }

  lemma FoldTracks(p: Order, fs: seq<Fill>, lo: int, hi: int)
    requires SameFill(p, FillAll(NO_ORDER, fs)) && Bounded(fs, lo, hi)
    ensures Tracks(p, fs, lo, hi)
  {
    StoredAverage(NO_ORDER, fs, lo, hi);
    hide FillAll, Bounded, TotalQty, TotalValue;
  }

  // In every run, while the fills of a slot are bounded, its filled quantity is exact, its stored
  // average lies between the lowest and highest price, and what it loses against the true value
  // is at most (n - 1) * (filled - 1).
  lemma StoredAverageOverRun(
    cfg: Config, es: seq<Entry>, ws: seq<World>, acts: seq<Action>, i: nat, n: nat, lo: int, hi: int)
    requires IsRun(cfg, ws, acts) && ws[0] == Opened(cfg, es) && n < |ws| && i < cfg.maxOrders
    requires Bounded(FillsSince(ws, acts, i, n), lo, hi)
    ensures |ws[n].eng.orders| == cfg.maxOrders
    ensures Tracks(ws[n].eng.orders[i], FillsSince(ws, acts, i, n), lo, hi)
  {
    SlotFoldsItsFills(cfg, es, ws, acts, i, n);
    hide *;
    FoldTracks(ws[n].eng.orders[i], FillsSince(ws, acts, i, n), lo, hi);
  }
}
