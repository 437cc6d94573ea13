/**
 * Opening a file that ends inside a record. The log keeps the torn tail and appends behind it;
 * here is what that does to the records appended later.
 */
module Torn {
  import Arith
  import opened Engine
  import opened Ids
  import opened Orders
  import opened Pipeline
  import opened Runs
  import opened Wal
  import opened Words

  // The record the engine writes for an order.
  function ImageOf(o: Order): (e: Entry)
    ensures Fits(e)
  {
    Entry(ENTRY_NEW_ORDER, o.id, o.createdAt, EncodeOrder(WithStatus(o, NEW)))
  }

  lemma EngineWritesImages(ev: Event, o: Order)
    ensures NewOrderEntry(ev, Built(o, ev)) == ImageOf(Built(o, ev))
  {
    hide EncodeOrder;
  }

  // ----- Two records, one over the other -----

  lemma HeaderBytes(e: Entry)
    ensures var r := Record(e);
      && |r| == HEADER_SIZE + |e.data| + CRC_SIZE && r[0] == e.kind && r[1..5] == PutLE(e.orderIdx, 4)
      && r[5..13] == PutLE(e.timestamp, 8) && r[13..15] == PutLE(|e.data|, 2) && r[15..15 + |e.data|] == e.data
  {
    RecordLayout(e, []);
    assert Record(e) + [] == Record(e);
    hide PutLE, Record;
  }

  lemma SameSlice(r: bytes, q: bytes, n: nat, i: nat, j: nat)
    requires n <= |r| && n <= |q| && r[..n] == q[..n] && i <= j <= n
    ensures r[i..j] == q[i..j]
  {
    assert r[..n][i..j] == r[i..j] && q[..n][i..j] == q[i..j];
  }

  // A record's first bytes tell its kind, slot and time.
  lemma HeaderTells(a: Entry, b: Entry, n: nat)
    requires n <= |Record(a)| && n <= |Record(b)| && Record(a)[..n] == Record(b)[..n]
    ensures n >= 1 ==> a.kind == b.kind
    ensures n >= 5 ==> a.orderIdx == b.orderIdx
    ensures n >= 13 ==> a.timestamp == b.timestamp
  {
    HeaderBytes(a);
    HeaderBytes(b);
    hide Record, PutLE, GetLE;
    if n >= 1 { assert Record(a)[0] == Record(a)[..n][0] && Record(b)[0] == Record(b)[..n][0]; }
    if n >= 5 {
      SameSlice(Record(a), Record(b), n, 1, 5);
      Get32(a.orderIdx);
      Get32(b.orderIdx);
    }
    if n >= 13 {
      SameSlice(Record(a), Record(b), n, 5, 13);
      Get64(a.timestamp);
      Get64(b.timestamp);
    }
  }

  // The bytes repeat after k.
  predicate Periodic(r: bytes, k: nat) {
    forall j :: k <= j < |r| ==> r[j] == r[j - k]
  }

  // What the record of an order fixes or holds twice: its kind, length and status, its id and
  // its time.
  predicate Marked(r: bytes) {
    && |r| == 63 && r[0] == 1 && r[13] == 44 && r[14] == 0 && r[22] == 1
    && r[1] == r[15] && r[2] == r[16] && r[3] == r[17] && r[4] == r[18]
    && r[5] == r[51] && r[6] == r[52] && r[7] == r[53] && r[8] == r[54]
    && r[9] == r[55] && r[10] == r[56] && r[11] == r[57] && r[12] == r[58]
  }

  // A field stands in the header and again in the data.
  lemma StandsTwice(r: bytes, d: bytes, w: bytes, i: nat, j: nat, p: nat)
    requires 15 + |d| <= |r| && r[15..15 + |d|] == d && p < |w|
    requires i + |w| <= |r| && j + |w| <= |d| && r[i..i + |w|] == w && d[j..j + |w|] == w
    ensures r[i + p] == r[15 + j + p]
  {
    assert r[i + p] == r[i..i + |w|][p];
    assert r[15 + j + p] == r[15..15 + |d|][j + p];
    assert d[j + p] == d[j..j + |w|][p];
  }

  lemma ImageHoldsIdTwice(o: Order)
    ensures var r := Record(ImageOf(o));
      |r| == 63 && r[1] == r[15] && r[2] == r[16] && r[3] == r[17] && r[4] == r[18]
  {
    var e := ImageOf(o);
    HeaderBytes(e);
    PayloadLayout(WithStatus(o, NEW));
    hide PutLE, Record, EncodeOrder;
    var r, w := Record(e), PutLE(o.id, 4);
    StandsTwice(r, e.data, w, 1, 0, 0);
    StandsTwice(r, e.data, w, 1, 0, 1);
    StandsTwice(r, e.data, w, 1, 0, 2);
    StandsTwice(r, e.data, w, 1, 0, 3);
  }

  lemma ImageHoldsTimeTwice(o: Order)
    ensures var r := Record(ImageOf(o));
      && |r| == 63 && r[5] == r[51] && r[6] == r[52] && r[7] == r[53] && r[8] == r[54]
      && r[9] == r[55] && r[10] == r[56] && r[11] == r[57] && r[12] == r[58]
  {
    var e := ImageOf(o);
    HeaderBytes(e);
    PayloadLayout(WithStatus(o, NEW));
    hide PutLE, Record, EncodeOrder;
    var r, w := Record(e), PutLE(o.createdAt, 8);
    StandsTwice(r, e.data, w, 5, 36, 0);
    StandsTwice(r, e.data, w, 5, 36, 1);
    StandsTwice(r, e.data, w, 5, 36, 2);
    StandsTwice(r, e.data, w, 5, 36, 3);
    StandsTwice(r, e.data, w, 5, 36, 4);
    StandsTwice(r, e.data, w, 5, 36, 5);
    StandsTwice(r, e.data, w, 5, 36, 6);
    StandsTwice(r, e.data, w, 5, 36, 7);
  }

  lemma ImageIsMarked(o: Order)
    ensures Marked(Record(ImageOf(o)))
  {
    var e := ImageOf(o);
    ImageHoldsIdTwice(o);
    ImageHoldsTimeTwice(o);
    HeaderBytes(e);
    PayloadLayout(WithStatus(o, NEW));
    FixedBytes(Record(e), e.data);
    hide PutLE, Record, EncodeOrder;
  }

  lemma FixedBytes(r: bytes, d: bytes)
    requires |r| == 63 && |d| == 44 && r[13..15] == PutLE(44, 2) && r[15..15 + 44] == d
    ensures r[13] == 44 && r[14] == 0 && r[22] == d[7]
  {
    assert PutLE(44, 2) == [44, 0];
    assert r[13] == r[13..15][0] && r[14] == r[13..15][1];
    assert r[22] == r[15..59][7];
  }

  lemma OneBack(r: bytes, k: nat, j: nat)
    requires Periodic(r, k) && k <= j < |r|
    ensures r[j] == r[j - k]
  {
  }

  lemma {:induction false} BackToFront(r: bytes, k: nat, j: nat)
    requires Periodic(r, k) && k > 0 && j < |r|
    ensures r[j] == r[j % k]
    decreases j
  {
    hide Periodic;
    if j >= k {
      OneBack(r, k, j);
      RemainderBack(j, k);
      BackToFront(r, k, j - k);
    }
  }

  lemma RemainderBack(j: nat, k: nat)
    requires 0 < k <= j
    ensures (j - k) % k == j % k
  {
    Arith.Euclid(j, k);
    Arith.Distribute(k, j / k, 1);
    Arith.DivisionIs(j - k, k, j / k - 1, j % k);
  }

  // A piece shorter than the kind, slot and time of a header cannot be put in front of such a
  // record without changing it: the marks would have to coincide.
  lemma NoShortPeriod(r: bytes, k: nat)
    requires Marked(r) && 0 < k < 13
    ensures !Periodic(r, k)
  {
    if Periodic(r, k) {
      hide Periodic;
      BackToFront(r, k, 13);
      BackToFront(r, k, 14);
      BackToFront(r, k, 22);
      BackToFront(r, k, 15);
      BackToFront(r, k, 16);
      BackToFront(r, k, 17);
      if k == 10 {
        BackToFront(r, k, 12);
        BackToFront(r, k, 18);
        BackToFront(r, k, 58);
      } else if k == 11 {
        BackToFront(r, k, 11);
        BackToFront(r, k, 57);
      } else if k == 12 {
        BackToFront(r, k, 52);
        BackToFront(r, k, 54);
        BackToFront(r, k, 56);
      }
    }
  }

  // ----- Appending behind a tail -----

  // The tail is too short to hold kind, slot and time, or tells different ones.
  predicate Foreign(tail: bytes, e: Entry) {
    0 < |tail| && (|tail| < 13 || tail[..13] != Record(e)[..13])
  }

  lemma PrefixRepeats(r: bytes, tail: bytes, n: nat)
    requires r <= tail + r && n <= |r|
    ensures Periodic(r, |tail|)
    ensures n <= |tail| ==> tail[..n] == r[..n]
  {
    var both := tail + r;
    forall j | |tail| <= j < |r|
      ensures r[j] == r[j - |tail|]
    {
      assert both[j] == r[j - |tail|];
    }
    if n <= |tail| { assert both[..n] == tail[..n]; }
  }

  // Behind a tail that is foreign to it the record of an order is never read, whatever else is
  // appended later.
  lemma ImageBehindTailIsLost(es: seq<Entry>, tail: bytes, o: Order, rest: bytes)
    requires AllFit(es) && Foreign(tail, ImageOf(o))
    ensures !(es + [ImageOf(o)] <= DecodeAll(EncodeAll(es) + (tail + Record(ImageOf(o)) + rest)))
  {
    var e := ImageOf(o);
    var r := Record(e);
    ReadBehindTailIff(es, tail, e, rest);
    ImageIsMarked(o);
    hide Record, Marked, ImageOf, DecodeAll, EncodeAll;
    if r <= tail + r {
      PrefixRepeats(r, tail, 13);
      if |tail| < 13 { NoShortPeriod(r, |tail|); }
    }
  }

  predicate SameHeader(a: Entry, b: Entry) {
    a.kind == b.kind && a.orderIdx == b.orderIdx && a.timestamp == b.timestamp
  }

  // The record of an order whose kind, slot or time is not that of the torn record is lost.
  lemma ImageBehindTornRecordIsLost(es: seq<Entry>, a: Entry, k: nat, o: Order, rest: bytes)
    requires AllFit(es) && Fits(a) && 0 < k < |Record(a)|
    requires k >= 13 ==> !SameHeader(a, ImageOf(o))
    ensures !(es + [ImageOf(o)] <= DecodeAll(EncodeAll(es) + (Record(a)[..k] + Record(ImageOf(o)) + rest)))
  {
    hide Record, DecodeAll, EncodeAll, EncodeOrder;
    if k >= 13 && Record(a)[..13] == Record(ImageOf(o))[..13] {
      HeaderTells(a, ImageOf(o), 13);
    }
    assert k >= 13 ==> Record(a)[..k][..13] == Record(a)[..13];
    ImageBehindTailIsLost(es, Record(a)[..k], o, rest);
  }

  // A record of any kind for another slot is lost behind a torn record that names its slot.
  lemma EntryBehindTornRecordIsLost(es: seq<Entry>, a: Entry, k: nat, e: Entry, rest: bytes)
    requires AllFit(es) && Fits(a) && Fits(e) && 5 <= k < |Record(a)| && a.orderIdx != e.orderIdx
    ensures !(es + [e] <= DecodeAll(EncodeAll(es) + (Record(a)[..k] + Record(e) + rest)))
  {
    ReadBehindTailIff(es, Record(a)[..k], e, rest);
    hide Record, DecodeAll, EncodeAll;
    if Record(e) <= Record(a)[..k] + Record(e) {
      assert Record(e)[..5] == (Record(a)[..k] + Record(e))[..5] == Record(a)[..5];
      HeaderTells(a, e, 5);
    }
  }

  lemma TornIsWellFormedIff(es: seq<Entry>, a: Entry, k: nat)
    requires AllFit(es) && Fits(a) && k < |Record(a)|
    ensures WellFormed(EncodeAll(es) + Record(a)[..k]) <==> k == 0
  {
    TornTailIsDropped(es, a, k);
    hide Record, DecodeAll, EncodeAll;
    assert k == 0 ==> EncodeAll(es) + Record(a)[..k] == EncodeAll(es);
  }

  function Numbered(id: uint32): Order {
    NO_ORDER.(id := id)
  }

  lemma SomeOrderIsForeign(tail: bytes) returns (o: Order)
    requires tail != []
    ensures Foreign(tail, ImageOf(o))
  {
    var a, b := Numbered(0), Numbered(1);
    hide Record, EncodeOrder;
    if Foreign(tail, ImageOf(a)) { return a; }
    if Record(ImageOf(a))[..13] == Record(ImageOf(b))[..13] { HeaderTells(ImageOf(a), ImageOf(b), 13); }
    return b;
  }

  // The record of every order survives being appended exactly when the file has no leftover
  // tail: a file with one, which Open accepts, loses orders.
  lemma OrdersSurviveIff(file: bytes)
    ensures WellFormed(file) <==>
            (forall o :: DecodeAll(file + Record(ImageOf(o))) == DecodeAll(file) + [ImageOf(o)])
  {
    hide Record, DecodeAll, EncodeAll, ImageOf;
    if WellFormed(file) {
      forall o
        ensures DecodeAll(file + Record(ImageOf(o))) == DecodeAll(file) + [ImageOf(o)]
      {
        AppendAddsEntry(file, ImageOf(o));
      }
    } else {
      DecodedIsPrefix(file);
      var es := DecodeAll(file);
      var tail := file[|EncodeAll(es)|..];
      var o := SomeOrderIsForeign(tail);
      ImageBehindTailIsLost(es, tail, o, []);
      assert file + Record(ImageOf(o)) == EncodeAll(es) + (tail + Record(ImageOf(o)) + []);
    }
  }

  // ----- A run on a torn file -----

  lemma {:induction false} FirstRecord(trace: seq<Effect>)
    requires trace != [] && trace[0].Logged?
    ensures LogOf(trace) != [] && LogOf(trace)[0] == trace[0].entry
    decreases |trace|
  {
    if |trace| > 1 { FirstRecord(trace[..|trace| - 1]); } else { assert trace[..0] == []; }
  }

  // What the file holds once the effects from number b on are appended to it.
  function Disk(file: bytes, trace: seq<Effect>, b: nat): bytes
    requires b <= |trace|
  {
    file + EncodeAll(LogOf(trace[b..]))
  }

  lemma DiskStarts(file: bytes, trace: seq<Effect>, b: nat) returns (rest: bytes)
    requires b < |trace| && trace[b].Logged?
    ensures Disk(file, trace, b) == file + (Record(trace[b].entry) + rest)
  {
    FirstRecord(trace[b..]);
    var log := LogOf(trace[b..]);
    hide LogOf, Record;
    rest := EncodeAll(log[1..]);
  }

  lemma RecordBeforeCall(cfg: Config, b: nat, w: World)
    requires Inv(cfg, b, w) && |w.eng.trace| > b + 1 && w.eng.trace[b + 1].Sent?
    ensures w.eng.trace[b] == Logged(ImageOf(w.eng.trace[b + 1].order))
  {
    assert RecordOf(w.eng.trace[b], w.eng.trace[b + 1].order);
    hide QueueOk, IdsOk, EncodeOrder, LinksInRange;
  }

  lemma Regroup(a: bytes, b: bytes, c: bytes, d: bytes)
    ensures a + b + (c + d) == a + (b + c + d)
  {
  }

  lemma FirstOrderIsLost(es: seq<Entry>, a: Entry, p: nat, t: seq<Effect>, o: Order)
    requires AllFit(es) && Fits(a) && 0 < p < |Record(a)| && |es| < |t| && t[|es|] == Logged(ImageOf(o))
    requires p >= 13 ==> !SameHeader(a, ImageOf(o))
    ensures !(es + [ImageOf(o)] <= DecodeAll(Disk(EncodeAll(es) + Record(a)[..p], t, |es|)))
  {
    hide Record, DecodeAll, EncodeAll, LogOf, ImageOf, Disk;
    var file := EncodeAll(es) + Record(a)[..p];
    var rest := DiskStarts(file, t, |es|);
    ImageBehindTornRecordIsLost(es, a, p, o, rest);
    Regroup(EncodeAll(es), Record(a)[..p], Record(ImageOf(o)), rest);
  }

  lemma LoggedBeforeCall(cfg: Config, es: seq<Entry>, ws: seq<World>, acts: seq<Action>, n: nat)
    requires cfg.hasWal && AllFit(es) && IsRun(cfg, ws, acts) && n < |ws| && ws[0] == Opened(cfg, es)
    requires |ws[n].eng.trace| > |es| + 1 && ws[n].eng.trace[|es| + 1].Sent?
    ensures ws[n].eng.trace[|es|] == Logged(ImageOf(ws[n].eng.trace[|es| + 1].order))
  {
    hide ImageOf, Inv, Opened, IsRun;
    OpeningEstablishesInv(cfg, es);
    RunKeepsInv(cfg, |es|, ws, acts, n);
    RecordBeforeCall(cfg, |es|, ws[n]);
  }

  // The engine restarts on a file torn in the record of a, where it finds es, and the first
  // thing it then does is to log and send an order of another slot or time: the order is at the
  // broker, and reading the file never gives it behind es.
  lemma TornRestartLosesOrder(
    cfg: Config, es: seq<Entry>, a: Entry, p: nat, ws: seq<World>, acts: seq<Action>, n: nat)
    requires cfg.hasWal && AllFit(es) && Fits(a) && 0 < p < |Record(a)|
    requires IsRun(cfg, ws, acts) && n < |ws| && NoRestart(acts, 0, n)
    requires ws[0] == Opened(cfg, DecodeAll(EncodeAll(es) + Record(a)[..p]))
    requires |ws[n].eng.trace| > |es| + 1 && ws[n].eng.trace[|es| + 1].Sent?
    requires var o := ws[n].eng.trace[|es| + 1].order;
      p >= 13 ==> !SameHeader(a, ImageOf(o))
    ensures var t := ws[n].eng.trace;
      && t[|es|] == Logged(ImageOf(t[|es| + 1].order))
      && !(es + [t[|es|].entry] <= DecodeAll(Disk(EncodeAll(es) + Record(a)[..p], t, |es|)))
  {
    TornTailIsDropped(es, a, p);
    hide *;
    LoggedBeforeCall(cfg, es, ws, acts, n);
    FirstOrderIsLost(es, a, p, ws[n].eng.trace, ws[n].eng.trace[|es| + 1].order);
  }
}
