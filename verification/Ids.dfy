/** The ids that submissions are answered with, in one life of the process and across restarts. */
module Ids {
  import opened Arith
  import opened Engine
  import opened Orders
  import opened Pipeline
  import opened Replay
  import opened Runs
  import opened Words

  // The steps in which a submission is answered.
  predicate Submits(a: Action) {
    a.CallSubmit? || a.SubmissionQueued?
  }

  function AnswerTo(cfg: Config, w: World, a: Action): Answer
    requires Submits(a)
  {
    if a.CallSubmit? then Pipeline.Submit(cfg, w, a.ev, a.now).1 else Accepted(w.eng.nextId)
  }

  predicate AcceptedAt(cfg: Config, ws: seq<World>, acts: seq<Action>, k: nat)
    requires |ws| == |acts| + 1
  {
    k < |acts| && Submits(acts[k]) && AnswerTo(cfg, ws[k], acts[k]).Accepted?
  }

  function IdGiven(cfg: Config, ws: seq<World>, acts: seq<Action>, k: nat): uint32
    requires |ws| == |acts| + 1 && AcceptedAt(cfg, ws, acts, k)
  {
    AnswerTo(cfg, ws[k], acts[k]).id
  }

  predicate NoRestart(acts: seq<Action>, j: nat, k: nat)
    requires k <= |acts|
  {
    forall m :: j <= m < k ==> !acts[m].CrashAndRestart?
  }

  // ----- One life of the process -----

  // Steps of a run that goes on after the counter has come round to zero.
  predicate Possible(cfg: Config, w: World, a: Action) {
    Ready(cfg, w) && (a.CallSubmit? || Enabled(cfg, w, a))
  }

  function LongStep(cfg: Config, w: World, a: Action): World
    requires Possible(cfg, w, a)
  {
    if a.CallSubmit? then Pipeline.Submit(cfg, w, a.ev, a.now).0 else Step(cfg, w, a)
  }

  ghost predicate IsLongRun(cfg: Config, ws: seq<World>, acts: seq<Action>) {
    && |ws| == |acts| + 1
    && forall k :: 0 <= k < |acts| ==> Possible(cfg, ws[k], acts[k]) && ws[k + 1] == LongStep(cfg, ws[k], acts[k])
  }

  // A submission that passes the kill switch and so takes an id.
  predicate TakesId(w: World, a: Action) {
    (a.CallSubmit? && !w.eng.kill) || a.SubmissionQueued? || a.IdTaken?
  }

  function Taken(ws: seq<World>, acts: seq<Action>, j: nat, k: nat): nat
    requires j <= k <= |acts| < |ws|
    decreases k
  {
    if j == k then 0 else Taken(ws, acts, j, k - 1) + (if TakesId(ws[k - 1], acts[k - 1]) then 1 else 0)
  }

  lemma NextIsNextRemainder(n: nat)
    ensures NextId(n % TWO_32) == (n + 1) % TWO_32
  {
    var q, r: int := n / TWO_32, n % TWO_32;
    if r + 1 == TWO_32 {
      DivisionIs(n + 1, TWO_32, q + 1, 0);
    } else {
      DivisionIs(n + 1, TWO_32, q, r + 1);
    }
  }

  lemma CounterMovesIff(cfg: Config, w: World, a: Action)
    requires Possible(cfg, w, a) && !a.CrashAndRestart?
    ensures LongStep(cfg, w, a).eng.nextId == if TakesId(w, a) then NextId(w.eng.nextId) else w.eng.nextId
  {
    if a.EventTurn? && w.queue != [] {
      CounterIsKept(cfg, w.eng, w.queue[0], a.env);
      hide Process;
    }
  }

  // In one life the counter is the number of ids taken, modulo 2^32, ahead of where it was.
  lemma {:induction false} CounterCounts(cfg: Config, ws: seq<World>, acts: seq<Action>, j: nat, k: nat)
    requires IsLongRun(cfg, ws, acts) && j <= k < |ws| && NoRestart(acts, j, k)
    ensures ws[k].eng.nextId == (ws[j].eng.nextId + Taken(ws, acts, j, k)) % TWO_32
    decreases k
  {
    hide LongStep, Possible, NextId, TakesId;
    if j < k {
      CounterCounts(cfg, ws, acts, j, k - 1);
      CounterMovesIff(cfg, ws[k - 1], acts[k - 1]);
      NextIsNextRemainder(ws[j].eng.nextId + Taken(ws, acts, j, k - 1));
    }
  }

  lemma SameRemainderIff(s: uint32, n: nat)
    ensures s == (s + n) % TWO_32 <==> n % TWO_32 == 0
  {
  }

  lemma AcceptedIsCounter(cfg: Config, ws: seq<World>, acts: seq<Action>, k: nat)
    requires IsLongRun(cfg, ws, acts) && AcceptedAt(cfg, ws, acts, k)
    ensures k < |acts| < |ws|
    ensures TakesId(ws[k], acts[k]) && IdGiven(cfg, ws, acts, k) == ws[k].eng.nextId < cfg.maxOrders
  {
  }

  // Two calls in one life are answered with the same id exactly when a multiple of 2^32 ids
  // was taken from the first to the second.
  lemma SameIdIff(cfg: Config, ws: seq<World>, acts: seq<Action>, j: nat, k: nat)
    requires IsLongRun(cfg, ws, acts) && j < k
    requires AcceptedAt(cfg, ws, acts, j) && AcceptedAt(cfg, ws, acts, k) && NoRestart(acts, j, k)
    ensures IdGiven(cfg, ws, acts, j) == IdGiven(cfg, ws, acts, k) <==> Taken(ws, acts, j, k) % TWO_32 == 0
    ensures Taken(ws, acts, j, k) > 0
  {
    hide *;
    AcceptedIsCounter(cfg, ws, acts, j);
    AcceptedIsCounter(cfg, ws, acts, k);
    CounterCounts(cfg, ws, acts, j, k);
    SameRemainderIff(ws[j].eng.nextId, Taken(ws, acts, j, k));
    TakenGrows(ws, acts, j, k);
  }

  lemma {:induction false} TakenGrows(ws: seq<World>, acts: seq<Action>, j: nat, k: nat)
    requires j < k <= |acts| < |ws| && TakesId(ws[j], acts[j])
    ensures Taken(ws, acts, j, k) > 0
    decreases k
  {
    hide TakesId;
    if j < k - 1 { TakenGrows(ws, acts, j, k - 1); }
  }

  // The call that takes id number n, counted from zero.
  lemma {:induction false} CallNumber(ws: seq<World>, acts: seq<Action>, n: nat, k: nat) returns (m: nat)
    requires k <= |acts| < |ws| && n < Taken(ws, acts, 0, k)
    ensures m < k && TakesId(ws[m], acts[m]) && Taken(ws, acts, 0, m) == n
    decreases k
  {
    hide TakesId;
    if n < Taken(ws, acts, 0, k - 1) { m := CallNumber(ws, acts, n, k - 1); } else { m := k - 1; }
  }

  lemma {:induction false} TakenAddsUp(ws: seq<World>, acts: seq<Action>, j: nat, k: nat)
    requires j <= k <= |acts| < |ws|
    ensures Taken(ws, acts, 0, k) == Taken(ws, acts, 0, j) + Taken(ws, acts, j, k)
    decreases k
  {
    hide TakesId;
    if j < k { TakenAddsUp(ws, acts, j, k - 1); }
  }

  // From a fresh counter, the ids taken in one life are nonzero and pairwise different exactly
  // while fewer than 2^32 are taken.
  lemma IdsOfOneLifeAreGoodIff(cfg: Config, ws: seq<World>, acts: seq<Action>)
    requires IsLongRun(cfg, ws, acts) && ws[0].eng.nextId == 1 && NoRestart(acts, 0, |acts|)
    ensures (&& (forall k :: 0 <= k < |acts| && TakesId(ws[k], acts[k]) ==> ws[k].eng.nextId != 0)
             && (forall j, k :: 0 <= j < k < |acts| && TakesId(ws[j], acts[j]) && TakesId(ws[k], acts[k]) ==>
                   ws[j].eng.nextId != ws[k].eng.nextId))
        <==> Taken(ws, acts, 0, |acts|) < TWO_32
  {
    hide TakesId, Possible, LongStep;
    if Taken(ws, acts, 0, |acts|) < TWO_32 {
      forall k | 0 <= k < |acts| && TakesId(ws[k], acts[k])
        ensures ws[k].eng.nextId == 1 + Taken(ws, acts, 0, k)
      {
        CounterCounts(cfg, ws, acts, 0, k);
        TakenAddsUp(ws, acts, k, |acts|);
        TakenGrows(ws, acts, k, |acts|);
      }
      forall j, k | 0 <= j < k < |acts| && TakesId(ws[j], acts[j]) && TakesId(ws[k], acts[k])
        ensures Taken(ws, acts, 0, j) < Taken(ws, acts, 0, k)
      {
        TakenAddsUp(ws, acts, j, k);
        TakenGrows(ws, acts, j, k);
      }
    } else {
      var m := CallNumber(ws, acts, TWO_32 - 1, |acts|);
      CounterCounts(cfg, ws, acts, 0, m);
    }
  }

  // ----- Across restarts -----

  // The log holds a new-order record in range at or above an id.
  ghost predicate Remembers(cfg: Config, trace: seq<Effect>, a: uint32) {
    exists k :: NewAt(trace, k) && a <= IdAt(trace, k) < cfg.maxOrders
  }

  lemma {:induction false} LogComesFrom(trace: seq<Effect>, p: nat) returns (k: nat)
    requires p < |LogOf(trace)|
    ensures k < |trace| && trace[k].Logged? && trace[k].entry == LogOf(trace)[p]
    decreases |trace|
  {
    var front := trace[..|trace| - 1];
    if p < |LogOf(front)| { k := LogComesFrom(front, p); } else { k := |trace| - 1; }
  }

  // After a restart the counter is above an id exactly when the log remembers it.
  lemma RecoveredAboveIff(cfg: Config, trace: seq<Effect>, a: uint32)
    requires a >= 1
    ensures a < Recovered(cfg, trace).nextId <==> Remembers(cfg, trace, a)
  {
    var st, es := FreshStore(cfg), LogOf(trace);
    var n := Recovered(cfg, trace).nextId;
    NextIdIsAboveTheLog(st, es);
    hide ReplayAll, LogOf;
    if Remembers(cfg, trace, a) {
      var k :| NewAt(trace, k) && a <= IdAt(trace, k) < cfg.maxOrders;
      LogHolds(trace, k);
      var p :| 0 <= p < |es| && es[p] == trace[k].entry;
      assert InRangeImage(st, es[p]);
    }
    if a < n {
      var p :| 0 <= p < |es| && InRangeImage(st, es[p]) && n == es[p].orderIdx + 1;
      var k := LogComesFrom(trace, p);
      assert NewAt(trace, k) && a <= IdAt(trace, k) < cfg.maxOrders;
    }
  }

  // Every restart from step j to step k finds a log that remembers the id.
  ghost predicate Remembered(cfg: Config, ws: seq<World>, acts: seq<Action>, j: nat, k: nat, a: uint32)
    requires |ws| == |acts| + 1 && k <= |acts|
  {
    forall m :: j <= m < k && acts[m].CrashAndRestart? ==> Remembers(cfg, ws[m + 1].eng.trace, a)
  }

  lemma CounterGrows(cfg: Config, w: World, a: Action)
    requires Enabled(cfg, w, a) && !a.CrashAndRestart?
    ensures Bound(w.eng.nextId) <= Bound(Step(cfg, w, a).eng.nextId)
    ensures Submits(a) && AnswerTo(cfg, w, a).Accepted? ==>
      && AnswerTo(cfg, w, a).id == w.eng.nextId < cfg.maxOrders
      && Bound(Step(cfg, w, a).eng.nextId) == w.eng.nextId + 1
  {
    if a.EventTurn? && w.queue != [] {
      CounterIsKept(cfg, w.eng, w.queue[0], a.env);
      hide Process;
    }
  }

  lemma StepStaysAbove(cfg: Config, w: World, a: Action, id: uint32)
    requires Enabled(cfg, w, a) && 1 <= id < Bound(w.eng.nextId)
    ensures id < Bound(Step(cfg, w, a).eng.nextId) <==>
      (a.CrashAndRestart? ==> Remembers(cfg, Step(cfg, w, a).eng.trace, id))
  {
    if a.CrashAndRestart? {
      var t := Turn(cfg, w, a.env).eng.trace[..a.cut];
      RecoveredAboveIff(cfg, t, id);
      RecoveredIsUsable(cfg, t);
      hide Turn, ReplayAll, Remembers, LogOf;
      assert Step(cfg, w, a).eng == Recovered(cfg, t);
    } else {
      CounterGrows(cfg, w, a);
      hide Step, Enabled, Remembers;
    }
  }

  // The counter stays above an id that was handed out exactly when every restart finds a log
  // that remembers the id.
  lemma {:induction false} StaysAboveIff(
    cfg: Config, ws: seq<World>, acts: seq<Action>, j: nat, k: nat, a: uint32)
    requires IsRun(cfg, ws, acts) && j <= k < |ws| && 1 <= a < Bound(ws[j].eng.nextId)
    ensures (forall n :: j <= n <= k ==> a < Bound(ws[n].eng.nextId)) <==> Remembered(cfg, ws, acts, j, k, a)
    decreases k
  {
    hide Step, Enabled, Bound, Remembers;
    if j < k {
      StaysAboveIff(cfg, ws, acts, j, k - 1, a);
      if a < Bound(ws[k - 1].eng.nextId) { StepStaysAbove(cfg, ws[k - 1], acts[k - 1], a); }
    }
  }

  // Two accepted submissions get different ids, both usable, if every restart between them
  // finds a log that remembers the first.
  lemma AcceptedIdsAreDistinct(cfg: Config, ws: seq<World>, acts: seq<Action>, j: nat, k: nat)
    requires IsRun(cfg, ws, acts) && j < k
    requires AcceptedAt(cfg, ws, acts, j) && AcceptedAt(cfg, ws, acts, k)
    requires Remembered(cfg, ws, acts, j, k, IdGiven(cfg, ws, acts, j))
    ensures 1 <= IdGiven(cfg, ws, acts, j) < IdGiven(cfg, ws, acts, k) < cfg.maxOrders
  {
    assert Enabled(cfg, ws[j], acts[j]) && Enabled(cfg, ws[k], acts[k]);
    CounterGrows(cfg, ws[j], acts[j]);
    CounterGrows(cfg, ws[k], acts[k]);
    hide Step, Remembers;
    StaysAboveIff(cfg, ws, acts, j + 1, k, IdGiven(cfg, ws, acts, j));
  }

  // Some run of one life from w ends with a submission that is answered with the id.
  ghost predicate CanIssue(cfg: Config, w: World, a: uint32) {
    exists vs, more :: Issues(cfg, w, a, vs, more)
  }

  ghost predicate Issues(cfg: Config, w: World, a: uint32, vs: seq<World>, more: seq<Action>) {
    && IsRun(cfg, vs, more) && vs[0] == w && more != [] && NoRestart(more, 0, |more|)
    && AcceptedAt(cfg, vs, more, |more| - 1) && IdGiven(cfg, vs, more, |more| - 1) == a
  }

  lemma {:induction false} IssuedIdsAreAbove(cfg: Config, vs: seq<World>, more: seq<Action>, k: nat)
    requires IsRun(cfg, vs, more) && k < |vs| && NoRestart(more, 0, k)
    ensures Bound(vs[0].eng.nextId) <= Bound(vs[k].eng.nextId)
    decreases k
  {
    hide Step, Enabled, Bound;
    if k > 0 {
      IssuedIdsAreAbove(cfg, vs, more, k - 1);
      CounterGrows(cfg, vs[k - 1], more[k - 1]);
    }
  }

  const CALL: Action := CallSubmit(PlainEvent(SubmitOrder, 0, 0, 0, 0), 0)
  const TURN: Action := EventTurn(Env(true, 0, 0))

  lemma SubmissionKeepsKill(cfg: Config, s: State, ev: Event, env: Env)
    requires Shape(cfg, s) && InRange(s, ev) && ev.kind == SubmitOrder
    ensures Process(cfg, s, ev, env).kill == s.kill
  {
    hide EncodeOrder, RiskRejects, LinksInRange, Built;
  }

  lemma OneMoreCall(cfg: Config, b: nat, w: World)
    requires Inv(cfg, b, w) && w.queue == [] && !w.eng.kill && 1 <= w.eng.nextId < cfg.maxOrders
    ensures Enabled(cfg, w, CALL) && AnswerTo(cfg, w, CALL) == Accepted(w.eng.nextId)
    ensures var v := Step(cfg, w, CALL);
      && Inv(cfg, b, v) && |v.queue| == 1 && v.queue[0].kind == SubmitOrder && !v.eng.kill
      && v.eng.nextId == w.eng.nextId + 1
  {
    AcceptKeepsInv(cfg, b, w, CALL.ev, CALL.now);
    hide TraceOk, QueueOk, IdsOk, LinksInRange;
  }

  // A submission answered with the counter and processed at once.
  lemma OneMoreId(cfg: Config, b: nat, w: World) returns (v: World, u: World)
    requires Inv(cfg, b, w) && w.queue == [] && !w.eng.kill && 1 <= w.eng.nextId < cfg.maxOrders
    ensures Enabled(cfg, w, CALL) && v == Step(cfg, w, CALL) && AnswerTo(cfg, w, CALL) == Accepted(w.eng.nextId)
    ensures Enabled(cfg, v, TURN) && u == Step(cfg, v, TURN) && Inv(cfg, b, u)
    ensures u.queue == [] && !u.eng.kill && u.eng.nextId == w.eng.nextId + 1
  {
    OneMoreCall(cfg, b, w);
    v := Step(cfg, w, CALL);
    TurnKeepsInv(cfg, b, v, TURN.env);
    CounterIsKept(cfg, v.eng, v.queue[0], TURN.env);
    SubmissionKeepsKill(cfg, v.eng, v.queue[0], TURN.env);
    hide Inv, Process, AnswerTo, Shape, Submit;
    u := Step(cfg, v, TURN);
  }

  lemma RunInFront(cfg: Config, w: World, v: World, vs: seq<World>, more: seq<Action>, a: uint32)
    requires Enabled(cfg, w, CALL) && v == Step(cfg, w, CALL)
    requires Enabled(cfg, v, TURN) && vs != [] && vs[0] == Step(cfg, v, TURN)
    requires Issues(cfg, vs[0], a, vs, more)
    ensures Issues(cfg, w, a, [w, v] + vs, [CALL, TURN] + more)
  {
    hide Step, Enabled, AnswerTo;
    var us, acts := [w, v] + vs, [CALL, TURN] + more;
    forall k | 0 <= k < |acts|
      ensures Enabled(cfg, us[k], acts[k]) && us[k + 1] == Step(cfg, us[k], acts[k])
    {
      if k >= 2 { assert us[k] == vs[k - 2] && acts[k] == more[k - 2] && us[k + 1] == vs[k - 2 + 1]; }
    }
    assert us[|acts| - 1] == vs[|more| - 1] && acts[|acts| - 1] == more[|more| - 1];
  }

  // Submitting and processing in turn reaches every id from the counter up.
  lemma {:induction false} ReachId(cfg: Config, b: nat, w: World, a: uint32)
    returns (vs: seq<World>, more: seq<Action>)
    requires Inv(cfg, b, w) && w.queue == [] && !w.eng.kill && 1 <= w.eng.nextId <= a < cfg.maxOrders
    ensures Issues(cfg, w, a, vs, more)
    decreases a - w.eng.nextId
  {
    var v, u := OneMoreId(cfg, b, w);
    hide Step, Enabled, Inv, AnswerTo;
    if w.eng.nextId == a {
      vs, more := [w, v], [CALL];
    } else {
      vs, more := ReachId(cfg, b, u, a);
      RunInFront(cfg, w, v, vs, more, a);
      vs, more := [w, v] + vs, [CALL, TURN] + more;
    }
  }

  // After a restart an id can be handed out, once more or for the first time, exactly when the
  // log at the crash does not remember it.
  lemma IssuedAgainIff(cfg: Config, b: nat, ws: seq<World>, acts: seq<Action>, m: nat, a: uint32)
    requires IsRun(cfg, ws, acts) && Inv(cfg, b, ws[0]) && m < |acts| && acts[m].CrashAndRestart?
    requires 1 <= a < cfg.maxOrders
    ensures CanIssue(cfg, ws[m + 1], a) <==> !Remembers(cfg, ws[m + 1].eng.trace, a)
  {
    var w := ws[m + 1];
    RunKeepsInv(cfg, b, ws, acts, m + 1);
    var t := Turn(cfg, ws[m], acts[m].env).eng.trace[..acts[m].cut];
    assert w == World(Recovered(cfg, t), []);
    RecoveredAboveIff(cfg, t, a);
    RecoveredIsUsable(cfg, t);
    hide Turn, ReplayAll, Remembers, Inv, Step, Enabled;
    if a >= w.eng.nextId {
      var vs, more := ReachId(cfg, b, w, a);
    } else if CanIssue(cfg, w, a) {
      var vs, more :| Issues(cfg, w, a, vs, more);
      IssuedIdsAreAbove(cfg, vs, more, |more| - 1);
    }
  }

  lemma RecoveredIsUsable(cfg: Config, trace: seq<Effect>)
    ensures Recovered(cfg, trace).nextId >= 1 && !Recovered(cfg, trace).kill
  {
    NextIdIsAboveTheLog(FreshStore(cfg), LogOf(trace));
  }

  lemma EmptyLogOpensFresh(cfg: Config)
    requires cfg.hasWal
    ensures Opened(cfg, []) == World(Fresh(cfg), [])
    ensures Recovered(cfg, []) == Fresh(cfg)
  {
    assert Past([]) == [];
  }

  // The order is rejected by the size check: no record, no call.
  lemma RejectedLeavesNothing(cfg: Config, ev: Event, env: Env) returns (v: World, u: World)
    requires cfg.hasWal && cfg.maxOrders > 1 && ev.qty > cfg.maxOrderSize
    ensures var w := World(Fresh(cfg), []); var call := CallSubmit(ev, 0);
      && Enabled(cfg, w, call) && v == Step(cfg, w, call) && AnswerTo(cfg, w, call) == Accepted(1)
      && Enabled(cfg, v, EventTurn(env)) && u == Step(cfg, v, EventTurn(env))
      && u.queue == [] && u.eng.trace == [] && Ready(cfg, u)
  {
    var w := World(Fresh(cfg), []);
    v := Step(cfg, w, CallSubmit(ev, 0));
    u := Step(cfg, v, EventTurn(env));
    ProcessKeepsShape(cfg, v.eng, v.queue[0], env);
    assert RiskRejects(cfg, v.eng, v.queue[0].qty);
    hide RiskRejects, EncodeOrder, LinksInRange, Built;
  }

  // A rejected order leaves no record, so after a restart its id is handed out again: two calls
  // are enough.
  lemma RestartRepeatsId(cfg: Config, ev: Event, env: Env) returns (ws: seq<World>, acts: seq<Action>)
    requires cfg.hasWal && cfg.maxOrders > 1 && ev.qty > cfg.maxOrderSize
    ensures IsRun(cfg, ws, acts) && ws[0] == Opened(cfg, []) && |acts| == 4
    ensures AcceptedAt(cfg, ws, acts, 0) && acts[2].CrashAndRestart? && AcceptedAt(cfg, ws, acts, 3)
    ensures IdGiven(cfg, ws, acts, 0) == IdGiven(cfg, ws, acts, 3) == 1
  {
    var call := CallSubmit(ev, 0);
    EmptyLogOpensFresh(cfg);
    var w := Opened(cfg, []);
    var v, u := RejectedLeavesNothing(cfg, ev, env);
    hide Fresh, Recovered, Process, AnswerTo, Opened;
    acts := [call, EventTurn(env), CrashAndRestart(env, 0), call];
    ws := [w, v, u, w, v];
    assert Step(cfg, u, acts[2]) == w;
  }

  // ----- Processing -----

  // Ids above a processed submission.
  ghost predicate Beyond(w: World, id: uint32) {
    id < Bound(w.eng.nextId) && forall q :: SubmitAt(w, q) ==> id < w.queue[q].orderIdx
  }

  lemma StepStaysBeyond(cfg: Config, w: World, a: Action, id: uint32)
    requires QueueOk(cfg, w) && Enabled(cfg, w, a) && id >= 1 && Beyond(w, id)
    requires a.CrashAndRestart? ==> Remembers(cfg, Step(cfg, w, a).eng.trace, id)
    ensures Beyond(Step(cfg, w, a), id)
  {
    StepStaysAbove(cfg, w, a, id);
    var v := Step(cfg, w, a);
    hide Process, QueueOk, Enabled, Remembers, Recovered;
    forall q | SubmitAt(v, q)
      ensures id < v.queue[q].orderIdx
    {
      if a.EventTurn? && w.queue != [] {
        assert SubmitAt(w, q + 1) && v.queue[q] == w.queue[q + 1];
      } else if q < |w.queue| {
        assert SubmitAt(w, q) && v.queue[q] == w.queue[q];
      }
    }
  }

  lemma {:induction false} RunStaysBeyond(
    cfg: Config, b: nat, ws: seq<World>, acts: seq<Action>, j: nat, k: nat, id: uint32)
    requires IsRun(cfg, ws, acts) && Inv(cfg, b, ws[0]) && j <= k < |ws| && id >= 1
    requires Remembered(cfg, ws, acts, j, k, id) && Beyond(ws[j], id)
    ensures Beyond(ws[k], id)
    decreases k
  {
    hide QueueOk, Beyond, Step, Enabled, Remembers;
    if j < k {
      RunStaysBeyond(cfg, b, ws, acts, j, k - 1, id);
      RunKeepsInv(cfg, b, ws, acts, k - 1);
      StepStaysBeyond(cfg, ws[k - 1], acts[k - 1], id);
    }
  }

  // Submissions are processed in id order, and so each at most once, if every restart between
  // finds a log that remembers the earlier one.
  lemma SubmissionsAreProcessedOnce(
    cfg: Config, b: nat, ws: seq<World>, acts: seq<Action>, j: nat, k: nat)
    requires IsRun(cfg, ws, acts) && Inv(cfg, b, ws[0]) && j < k < |acts|
    requires acts[j].EventTurn? && SubmitAt(ws[j], 0) && acts[k].EventTurn? && SubmitAt(ws[k], 0)
    requires Remembered(cfg, ws, acts, j, k, ws[j].queue[0].orderIdx)
    ensures ws[j].queue[0].orderIdx < ws[k].queue[0].orderIdx
  {
    var w, id := ws[j], ws[j].queue[0].orderIdx;
    RunKeepsInv(cfg, b, ws, acts, j);
    assert Enabled(cfg, w, acts[j]) && ws[j + 1] == Step(cfg, w, acts[j]);
    CounterGrows(cfg, w, acts[j]);
    var v := ws[j + 1];
    assert Beyond(v, id) by {
      hide Process;
      forall q | SubmitAt(v, q)
        ensures id < v.queue[q].orderIdx
      {
        assert SubmitAt(w, q + 1) && v.queue[q] == w.queue[q + 1];
      }
    }
    hide Remembers;
    RunStaysBeyond(cfg, b, ws, acts, j + 1, k, id);
  }
}
