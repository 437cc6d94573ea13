/**
 * What becomes of the calls that reach the engine: which events they publish, and that the event
 * loop gets exactly those, in order.
 */
module Calls {
  import opened Averages
  import opened Engine
  import opened Fills
  import opened Orders
  import opened Pipeline
  import opened Runs
  import opened Words

  // The event a call publishes, if the ring has room. The ring has 65536 slots.
  function PublishedBy(cfg: Config, w: World, a: Action): seq<Event> {
    match a
    case CallSubmit(ev, now) =>
      if w.eng.kill || w.eng.nextId >= cfg.maxOrders || |w.queue| >= 65536 then []
      else [ev.(kind := SubmitOrder, orderIdx := w.eng.nextId, timestamp := now)]
    case CallCancel(idx, now) =>
      if |w.queue| >= 65536 then []
      else [Event(CancelOrder, idx, now, NO_NAME, NO_NAME, 0, 0, 0, 0, 0, 0, 0, 0)]
    case ReportFill(idx, qty, price) =>
      if |w.queue| >= 65536 then []
      else [Event(FillOrder, idx, 0, NO_NAME, NO_NAME, 0, 0, 0, qty, price, 0, 0, 0)]
    case PublishOther(ev) => if |w.queue| >= 65536 then [] else [ev]
    case SubmissionQueued(ev, now) => [ev.(kind := SubmitOrder, orderIdx := w.eng.nextId, timestamp := now)]
    case EventQueued(ev) => [ev]
    case SetKill(_) => []
    case SetPnl(_) => []
    case EventTurn(_) => []
    case CrashAndRestart(_, _) => []
    case IdTaken => []
  }

  // A call takes an id exactly when the kill switch is off, and is answered with it exactly when
  // the store and the ring have room as well.
  lemma SubmitIsAnswered(cfg: Config, w: World, ev: Event, now: int64)
    ensures var (v, answer) := Pipeline.Submit(cfg, w, ev, now);
      && (answer.Accepted? <==> !w.eng.kill && w.eng.nextId < cfg.maxOrders && |w.queue| < 65536)
      && (answer.Accepted? ==> answer.id == w.eng.nextId)
      && v.eng == (if w.eng.kill then w.eng else w.eng.(nextId := (w.eng.nextId + 1) % TWO_32))
      && v.queue == w.queue + PublishedBy(cfg, w, CallSubmit(ev, now))
  {
  }

  // Everything published, and everything the event loop consumed, since the run began or the
  // engine was last restarted.
  function Published(cfg: Config, ws: seq<World>, acts: seq<Action>, n: nat): seq<Event>
    requires n <= |acts| < |ws|
    decreases n
  {
    if n == 0 || acts[n - 1].CrashAndRestart? then []
    else Published(cfg, ws, acts, n - 1) + PublishedBy(cfg, ws[n - 1], acts[n - 1])
  }

  function Consumed(ws: seq<World>, acts: seq<Action>, n: nat): seq<Event>
    requires n <= |acts| < |ws|
    decreases n
  {
    if n == 0 || acts[n - 1].CrashAndRestart? then []
    else if acts[n - 1].EventTurn? && ws[n - 1].queue != [] then
      Consumed(ws, acts, n - 1) + [ws[n - 1].queue[0]]
    else Consumed(ws, acts, n - 1)
  }

  lemma StepQueues(cfg: Config, w: World, a: Action)
    requires Enabled(cfg, w, a)
    ensures var v := Step(cfg, w, a);
      if a.CrashAndRestart? then v.queue == []
      else if a.EventTurn? && w.queue != [] then w.queue == [w.queue[0]] + v.queue && PublishedBy(cfg, w, a) == []
      else v.queue == w.queue + PublishedBy(cfg, w, a)
  {
    hide Process, Ready;
  }

  // Nothing is lost, invented, changed or reordered between the calls and the event loop.
  lemma {:induction false} EventsArriveInOrder(cfg: Config, ws: seq<World>, acts: seq<Action>, n: nat)
    requires IsRun(cfg, ws, acts) && ws[0].queue == [] && n < |ws|
    ensures Consumed(ws, acts, n) + ws[n].queue == Published(cfg, ws, acts, n)
    decreases n
  {
    if n > 0 {
      EventsArriveInOrder(cfg, ws, acts, n - 1);
      StepQueues(cfg, ws[n - 1], acts[n - 1]);
      hide Step, Enabled, PublishedBy;
    }
  }

  // ----- Fills -----

  // The quantities and prices of the fills for a slot.
  function FillsFor(evs: seq<Event>, i: nat): seq<(int32, int64)>
    decreases |evs|
  {
    if evs == [] then []
    else
      var front, ev := FillsFor(evs[..|evs| - 1], i), evs[|evs| - 1];
      if ev.kind == FillOrder && ev.orderIdx == i then front + [(ev.qty, ev.price)] else front
  }

  function Trades(fs: seq<Fill>): seq<(int32, int64)> {
    seq(|fs|, k requires 0 <= k < |fs| => (fs[k].qty, fs[k].px))
  }

  lemma {:induction false} FillsOfConcat(a: seq<Event>, b: seq<Event>, i: nat)
    ensures FillsFor(a + b, i) == FillsFor(a, i) + FillsFor(b, i)
    decreases |b|
  {
    if b == [] {
      assert a + b == a;
    } else {
      assert (a + b)[..|a + b| - 1] == a + b[..|b| - 1];
      FillsOfConcat(a, b[..|b| - 1], i);
    }
  }

  lemma OneMoreConsumed(evs: seq<Event>, ev: Event, i: nat)
    ensures FillsFor(evs + [ev], i) ==
      if ev.kind == FillOrder && ev.orderIdx == i then FillsFor(evs, i) + [(ev.qty, ev.price)] else FillsFor(evs, i)
  {
    assert (evs + [ev])[..|evs|] == evs;
  }

  lemma {:induction false} FillsConsumed(ws: seq<World>, acts: seq<Action>, i: nat, n: nat)
    requires n <= |acts| < |ws|
    ensures FillsFor(Consumed(ws, acts, n), i) == Trades(FillsSince(ws, acts, i, n))
    decreases n
  {
    if n > 0 && !acts[n - 1].CrashAndRestart? {
      FillsConsumed(ws, acts, i, n - 1);
      if acts[n - 1].EventTurn? && ws[n - 1].queue != [] {
        OneMoreConsumed(Consumed(ws, acts, n - 1), ws[n - 1].queue[0], i);
      }
      hide FillsFor;
    }
  }

  // The fills processed for an order are those reported for it, in order, up to the ones that
  // still wait in the ring: none is lost, doubled or changed.
  lemma FillsArriveInOrder(cfg: Config, ws: seq<World>, acts: seq<Action>, i: nat, n: nat)
    requires IsRun(cfg, ws, acts) && ws[0].queue == [] && n < |ws|
    ensures Trades(FillsSince(ws, acts, i, n)) + FillsFor(ws[n].queue, i) == FillsFor(Published(cfg, ws, acts, n), i)
  {
    EventsArriveInOrder(cfg, ws, acts, n);
    FillsConsumed(ws, acts, i, n);
    FillsOfConcat(Consumed(ws, acts, n), ws[n].queue, i);
    hide *;
  }
}
