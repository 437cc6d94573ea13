/**
 * The engine object: an order array and a position table updated in place, the ring it consumes
 * and the log it appends to. Every method is tied to the state machine on values.
 */
module OrderEngine {
  import Bits
  import opened Engine
  import opened Orders
  import opened Pipeline
  import opened Wal
  import opened Words
  import Replay
  import Ring

  lemma OneMoreEffect(trace: seq<Effect>, x: Effect)
    ensures LogOf(trace + [x]) == if x.Logged? then LogOf(trace) + [x.entry] else LogOf(trace)
    ensures SentBy(trace + [x]) == if x.Sent? then SentBy(trace) + [x.order] else SentBy(trace)
  {
    assert (trace + [x])[..|trace|] == trace;
  }

  lemma LinksOf(orders: seq<Order>, i: nat)
    requires LinksInRange(orders) && i < |orders|
    ensures orders[i].linked1 < |orders| && orders[i].linked2 < |orders|
  {
  }

  class OrderEngine {
    const cfg: Config
    const orders: array<Order>
    const positions: array<Position>
    const ring: Ring.RingBuffer<Event>
    const wal: Log?
    var nextId: uint32
    var killSwitch: bool
    var dailyPnl: int64
    ghost var trace: seq<Effect>   // records appended and orders sent, in the order it happened
    ghost const base: bytes        // what the log file held before the trace began

    ghost function View(): State
      reads this, orders, positions
    {
      State(orders[..], positions[..], nextId, killSwitch, dailyPnl, trace)
    }

    ghost function Queue(): seq<Event>
      reads ring, ring.buf
      requires ring.Valid()
    {
      Ring.Queue(ring.Snapshot())
    }

    ghost function Whole(): World
      reads this, orders, positions, ring, ring.buf
      requires ring.Valid()
    {
      World(View(), Queue())
    }

    ghost predicate WalOk()
      reads this, wal
    {
      && (wal != null <==> cfg.hasWal)
      && (wal != null ==> wal.Valid() && wal.file == base + EncodeAll(LogOf(trace)))
    }

    ghost predicate RingOk()
      reads ring, ring.buf
    {
      ring.Valid() && ring.buf.Length == RING_SIZE
    }

    ghost predicate Valid()
      reads this, orders, positions, ring, ring.buf, wal
    {
      && Shape(cfg, View()) && RingOk() && WalOk()
      && (orders as object) != ring.buf && (positions as object) != ring.buf
      && (orders as object) != positions
    }

    constructor (cfg: Config, wal: Log?)
      requires (wal != null <==> cfg.hasWal) && (wal != null ==> wal.Valid())
      ensures Valid() && this.cfg == cfg && this.wal == wal
      ensures Whole() == World(Fresh(cfg), [])
      ensures fresh(orders) && fresh(positions) && fresh(ring) && fresh(ring.buf)
      ensures wal != null ==> base == wal.file
    {
      hide Ring.PowerOfTwo, Ring.Inv;
      this.cfg := cfg;
      this.wal := wal;
      orders := new Order[cfg.maxOrders](_ => NO_ORDER);
      positions := new Position[POSITION_SLOTS](_ => FLAT);
      RingSizeOk();
      ring := new Ring.RingBuffer<Event>(RING_SIZE);
      nextId := 1;
      killSwitch := false;
      dailyPnl := 0;
      trace := [];
      base := if wal == null then [] else wal.file;
      new;
      assert EncodeAll(LogOf([])) == [];
      assert orders[..] == Fresh(cfg).orders;
      assert positions[..] == Fresh(cfg).positions;
    }

    // ----- Producer side -----

    method Submit(ev: Event, now: int64) returns (answer: Answer)
      requires Valid()
      modifies this`nextId, ring, ring.buf
      ensures Valid()
      ensures (Whole(), answer) == Pipeline.Submit(cfg, old(Whole()), ev, now)
    {
      hide EncodeAll, LogOf, LinksInRange, SubmitEvent;
      if killSwitch { return Refused; }
      var idx := nextId;
      nextId := NextId(nextId);
      if idx >= cfg.maxOrders { return Refused; }
      var ok := ring.TryPublish(SubmitEvent(ev, idx, now));
      return if ok then Accepted(idx) else Refused;
    }

    method Cancel(idx: uint32, now: int64) returns (ok: bool)
      requires Valid()
      modifies ring, ring.buf
      ensures Valid()
      ensures Whole() == RequestCancel(old(Whole()), idx, now)
      ensures ok <==> |old(Queue())| < RING_SIZE
    {
      hide EncodeAll, LogOf, LinksInRange, PlainEvent;
      ok := ring.TryPublish(PlainEvent(CancelOrder, idx, now, 0, 0));
    }

    method InjectFill(idx: uint32, qty: int32, price: int64)
      requires Valid()
      modifies ring, ring.buf
      ensures Valid()
      ensures Whole() == Pipeline.InjectFill(old(Whole()), idx, qty, price)
    {
      hide EncodeAll, LogOf, LinksInRange, PlainEvent;
      var _ := ring.TryPublish(PlainEvent(FillOrder, idx, 0, qty, price));
    }

    method SetKillSwitch(active: bool)
      requires Valid()
      modifies this`killSwitch
      ensures Valid() && View() == old(View()).(kill := active)
    {
      killSwitch := active;
    }

    // ----- Event loop -----

    method RunOnce(env: Env) returns (ok: bool)
      requires Valid() && (Queue() != [] ==> InRange(View(), Queue()[0]))
      modifies this, orders, positions, ring, wal
      ensures Valid()
      ensures ok <==> old(Queue()) != [] && |ring.published| < TWO_64
      ensures Whole() == if ok then Turn(cfg, old(Whole()), env) else old(Whole())
    {
      hide EncodeAll, LogOf, LinksInRange, Process;
      ghost var before := Whole();
      var ev;
      ok, ev := ring.TryConsume();
      if !ok { return; }
      assert before.queue == [ev] + Queue();
      Dispatch(ev, env);
    }

    method Dispatch(ev: Event, env: Env)
      requires Valid() && InRange(View(), ev)
      modifies this, orders, positions, wal
      ensures Valid()
      ensures View() == Process(cfg, old(View()), ev, env)
    {
      hide EncodeAll, LogOf;
      match ev.kind
      case SubmitOrder => ProcessSubmit(ev, env);
      case CancelOrder => ProcessCancel(ev, env);
      case ReplaceOrder => ProcessReplace(ev);
      case FillOrder => ProcessFill(ev, env);
      case KillSwitch => killSwitch := true;
    }

    method AppendEntry(e: Entry)
      requires WalOk()
      modifies this`trace, wal
      ensures WalOk() && trace == AppendLog(cfg, old(trace), e)
    {
      hide EncodeAll, LogOf, Record, WellFormed, DecodeAll;
      if wal != null {
        wal.Append(e);
        OneMoreEffect(trace, Logged(e));
        EncodeAppend(LogOf(trace), e);
        assert base + EncodeAll(LogOf(trace)) + Record(e) == base + (EncodeAll(LogOf(trace)) + Record(e));
        trace := trace + [Logged(e)];
      }
    }

    // The call that hands the order over; its answer is an input of the handler.
    method SendToBroker(o: Order)
      requires WalOk()
      modifies this`trace
      ensures WalOk() && trace == old(trace) + [Sent(o)]
    {
      OneMoreEffect(trace, Sent(o));
      hide EncodeAll, LogOf;
      trace := trace + [Sent(o)];
    }

    method ProcessSubmit(ev: Event, env: Env)
      requires Valid() && ev.orderIdx < cfg.maxOrders
      modifies this`trace, orders, wal
      ensures Valid()
      ensures View() == Engine.ProcessSubmit(cfg, old(View()), ev, env)
    {
      hide EncodeOrder, EncodeAll, LogOf, RingOk, LinksInRange, Wrap64, Built, WithStatus, Pending;
      SubmitKeepsShape(cfg, View(), ev, env);
      var idx := ev.orderIdx;
      ghost var was := orders[..];
      orders[idx] := Built(orders[idx], ev);
      if orders[idx].qty > cfg.maxOrderSize || killSwitch || dailyPnl < Wrap64(-(cfg.maxDailyLoss as int)) {
        orders[idx] := WithStatus(orders[idx], REJECTED);
        assert orders[..] == was[idx := orders[idx]];
        return;
      }
      var data := WriteOrder(orders[idx]);
      AppendEntry(Entry(ENTRY_NEW_ORDER, idx, ev.timestamp, data));
      orders[idx] := Pending(orders[idx], env.now);
      if cfg.hasBroker {
        SendToBroker(orders[idx]);
        if !env.accepts {
          orders[idx] := WithStatus(orders[idx], REJECTED);
          assert orders[..] == was[idx := orders[idx]];
          return;
        }
      }
      orders[idx] := WithStatus(orders[idx], ACKNOWLEDGED);
      assert orders[..] == was[idx := orders[idx]];
    }

    method CancelLeg(i: uint32)
      requires i == 0 || i < orders.Length
      modifies orders
      ensures orders[..] == CancelLinked(old(orders[..]), i)
    {
      if i != 0 {
        if IsCancellable(orders[i].status) {
          orders[i] := WithStatus(orders[i], CANCELLED);
        }
      }
    }

    method ProcessCancel(ev: Event, env: Env)
      requires Valid() && ev.orderIdx < cfg.maxOrders
      modifies this`trace, orders, wal
      ensures Valid()
      ensures View() == Engine.ProcessCancel(cfg, old(View()), ev, env)
    {
      hide EncodeAll, LogOf, RingOk, CancelLinked, IsCancellable, LinksInRange;
      CancelKeepsShape(cfg, View(), ev, env);
      var idx := ev.orderIdx;
      if !IsCancellable(orders[idx].status) { return; }
      ghost var o := orders[idx];
      orders[idx] := WithStatus(orders[idx], PENDING_CANCEL);
      if cfg.hasBroker && !env.accepts {
        orders[idx] := WithStatus(orders[idx], ACKNOWLEDGED);
        assert orders[..] == old(orders[..])[idx := WithStatus(o, ACKNOWLEDGED)];
        return;
      }
      orders[idx] := WithStatus(orders[idx], CANCELLED);
      assert orders[..] == old(orders[..])[idx := WithStatus(o, CANCELLED)];
      var leg1, leg2 := orders[idx].linked1, orders[idx].linked2;
      LinksOf(old(orders[..]), idx);
      CancelLeg(leg1);
      CancelLeg(leg2);
      AppendEntry(Entry(ENTRY_CANCEL, idx, env.later, []));
    }

    method ProcessReplace(ev: Event)
      requires Valid() && ev.orderIdx < cfg.maxOrders
      modifies orders
      ensures Valid()
      ensures View() == Engine.ProcessReplace(old(View()), ev)
    {
      hide EncodeAll, LogOf, RingOk;
      var idx := ev.orderIdx;
      if orders[idx].status != ACKNOWLEDGED && orders[idx].status != PARTIAL_FILL { return; }
      if ev.qty > 0 {
        orders[idx] := orders[idx].(qty := ev.qty);
      }
      if ev.price > 0 {
        orders[idx] := orders[idx].(price := ev.price);
      }
    }

    method ProcessFill(ev: Event, env: Env)
      requires Valid() && ev.orderIdx < cfg.maxOrders
      modifies this`trace, orders, positions, wal
      ensures Valid()
      ensures View() == Engine.ProcessFill(cfg, old(View()), ev, env)
    {
      hide EncodeAll, LogOf, RingOk, LinksInRange, Wrap32, Wrap64, HashSymbol, Moved, NewAverage, WithFill, Settled;
      FillKeepsShape(cfg, View(), ev, env);
      var idx := ev.orderIdx;
      var o := orders[idx];
      var avg := AveragePrice(o, ev.qty, ev.price);
      orders[idx] := WithFill(o, Wrap32(o.filledQty + ev.qty), avg, ev.price);
      orders[idx] := Settled(orders[idx], env.now);
      assert orders[..] == old(orders[..])[idx := orders[idx]];
      MovePosition(o, ev.qty, ev.price);
      AppendEntry(Entry(ENTRY_FILL, idx, env.later, []));
    }

    method MovePosition(o: Order, qty: int32, px: int64)
      requires positions.Length == POSITION_SLOTS
      modifies positions
      ensures var h := HashSymbol(o.symbol);
        positions[..] == old(positions[..])[h := Moved(old(positions[h]), o, qty, px)]
    {
      hide Wrap32, Wrap64, HashSymbol;
      var h := ComputeHash(o.symbol);
      var pos := positions[h];
      var q := Wrap32(if o.side == SIDE_BUY || o.side == SIDE_COVER then pos.qty + qty else pos.qty - qty);
      positions[h] := Position(o.symbol, q, Wrap64(q * px));
    }

    method AveragePrice(o: Order, qty: int32, px: int64) returns (avg: int64)
      ensures avg == NewAverage(o.filledQty, o.filledAvgPx, qty, px)
    {
      hide Wrap32, Wrap64, TruncDiv;
      var total := Wrap64(Wrap64(o.filledQty * o.filledAvgPx) + Wrap64(qty * px));
      var filled := Wrap32(o.filledQty + qty);
      avg := o.filledAvgPx;
      if filled > 0 {
        QuotientShrinks(total, filled);
        avg := TruncDiv(total, filled);
      }
    }

    // ----- Restart -----

    ghost function Store(): Replay.Store
      reads this, orders
    {
      Replay.Store(orders[..], nextId)
    }

    method ReplayWAL()
      requires Valid()
      modifies this`nextId, orders
      ensures Valid()
      ensures wal == null ==> Store() == old(Store())
      ensures wal != null ==> Store() == Replay.ReplayAll(old(Store()), wal.Entries())
    {
      if wal == null { return; }
      hide RingOk, WalOk, DecodeAll, LinksInRange, Replay.OwnStep;
      var entries := wal.ReadAll();
      for n := 0 to |entries|
        invariant Store() == Replay.ReplayAll(old(Store()), entries[..n])
        invariant LinksInRange(orders[..])
      {
        assert entries[..n + 1][..n] == entries[..n];
        Replay.EntryKeepsLinks(Store(), entries[n]);
        ReplayOne(entries[n]);
      }
      assert entries[..|entries|] == entries;
    }

    method ReplayOne(e: Entry)
      requires orders.Length == cfg.maxOrders
      modifies this`nextId, orders
      ensures Store() == Replay.ReplayEntry(old(Store()), e)
    {
      hide DecodeOrder;
      if e.orderIdx < cfg.maxOrders {
        var i := e.orderIdx;
        if e.kind == ENTRY_NEW_ORDER {
          orders[i] := DecodeOrder(e.data, orders[i]);
          if orders[i].status == NEW || orders[i].status == PENDING_NEW {
            orders[i] := WithStatus(orders[i], ACKNOWLEDGED);
          }
          if nextId <= i { nextId := i + 1; }
        } else if e.kind == ENTRY_CANCEL {
          orders[i] := WithStatus(orders[i], CANCELLED);
        } else if e.kind == ENTRY_FILL {
          orders[i] := WithStatus(orders[i], FILLED);
        }
        assert orders[..] == old(orders[..])[i := Replay.OwnStep(old(orders[i]), e)];
      }
    }
  }

  lemma RingSizeOk()
    ensures Ring.PowerOfTwo(RING_SIZE)
  {
    hide Bits.And;
    assert Bits.Pow2(8) == 256;
    Ring.PowersPass(16);
  }
}
