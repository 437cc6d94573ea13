/**
 * The engine together with its event queue: what producers do when they submit, cancel and
 * report fills, and what one turn of the event loop does.
 */
module Pipeline {
  import opened Engine
  import opened Orders
  import opened Words

  const RING_SIZE: nat := 65536

  datatype World = World(eng: State, queue: seq<Event>)

  datatype Answer = Refused | Accepted(id: uint32)

  function Append(w: World, ev: Event): World {
    w.(queue := w.queue + [ev])
  }

  // Publishing to a full ring does nothing.
  function Publish(w: World, ev: Event): World {
    if |w.queue| < RING_SIZE then Append(w, ev) else w
  }

  // The counter after an id is taken; it is a 32-bit word.
  function NextId(id: uint32): uint32 {
    if id + 1 == TWO_32 then 0 else id + 1
  }

  function CounterMoved(w: World): World {
    w.(eng := w.eng.(nextId := NextId(w.eng.nextId)))
  }

  function SubmitEvent(ev: Event, id: uint32, now: int64): Event {
    ev.(kind := SubmitOrder, orderIdx := id, timestamp := now)
  }

  function Submit(cfg: Config, w: World, ev: Event, now: int64): (World, Answer) {
    if w.eng.kill then (w, Refused)
    else
      var id := w.eng.nextId;
      if id >= cfg.maxOrders || |w.queue| >= RING_SIZE then (CounterMoved(w), Refused)
      else (Append(CounterMoved(w), SubmitEvent(ev, id, now)), Accepted(id))
  }

  function RequestCancel(w: World, idx: uint32, now: int64): World {
    Publish(w, PlainEvent(CancelOrder, idx, now, 0, 0))
  }

  function InjectFill(w: World, idx: uint32, qty: int32, price: int64): World {
    Publish(w, PlainEvent(FillOrder, idx, 0, qty, price))
  }

  // One turn of the event loop.
  function Turn(cfg: Config, w: World, env: Env): World
    requires Shape(cfg, w.eng) && (w.queue != [] ==> InRange(w.eng, w.queue[0]))
  {
    if w.queue == [] then w else World(Process(cfg, w.eng, w.queue[0], env), w.queue[1..])
  }
}
