/**
 * The write-ahead log: record layout, the scanner that stops at the first torn or corrupted
 * record, and the log object over a file seen as a byte sequence.
 */
module Wal {
  import opened Arith
  import opened Bits
  import opened Crc32
  import opened CrcValues
  import opened Words

  const HEADER_SIZE: nat := 15
  const CRC_SIZE: nat := 4

  const ENTRY_NEW_ORDER: byte := 1
  const ENTRY_CANCEL: byte := 2
  const ENTRY_FILL: byte := 3

  datatype Entry = Entry(kind: byte, orderIdx: uint32, timestamp: int64, data: bytes)

  datatype Parsed = Bad | Good(entry: Entry, size: nat)

  // ----- Record layout -----

  function Header(e: Entry): (h: bytes)
    ensures |h| == HEADER_SIZE
  {
    [e.kind] + PutLE(e.orderIdx, 4) + PutLE(e.timestamp, 8) + PutLE(|e.data|, 2)
  }

  function Body(e: Entry): bytes {
    Header(e) + e.data
  }

  function Record(e: Entry): (r: bytes)
    ensures |r| == HEADER_SIZE + |e.data| + CRC_SIZE
  {
    Body(e) + PutLE(Checksum(Body(e)), 4)
  }

  function EncodeAll(es: seq<Entry>): bytes {
    if es == [] then [] else Record(es[0]) + EncodeAll(es[1..])
  }

  // Data whose length the two length bytes can hold.
  predicate Fits(e: Entry) {
    |e.data| < 65536
  }

  predicate AllFit(es: seq<Entry>) {
    forall i :: 0 <= i < |es| ==> Fits(es[i])
  }

  // ----- Scanner -----

  function DataLen(s: bytes): nat
    requires |s| >= HEADER_SIZE
  {
    GetLE(s[13..15])
  }

  function EntryOf(s: bytes): Entry
    requires |s| >= HEADER_SIZE && |s| >= HEADER_SIZE + DataLen(s)
  {
    HeaderFieldsFit(s);
    Entry(s[0], GetLE(s[1..5]), Wrap64(GetLE(s[5..13])), s[HEADER_SIZE..HEADER_SIZE + DataLen(s)])
  }

  lemma HeaderFieldsFit(s: bytes)
    requires |s| >= HEADER_SIZE
    ensures GetLE(s[1..5]) < TWO_32 && GetLE(s[5..13]) < TWO_64 && DataLen(s) < 65536
  {
    Widths();
    PutGet(s[1..5]);
    PutGet(s[5..13]);
    PutGet(s[13..15]);
  }

  // The record at the front of s, unless it is cut short or its checksum does not match.
  function Parse(s: bytes): (p: Parsed)
    ensures p.Good? ==> HEADER_SIZE + CRC_SIZE <= p.size <= |s|
  {
    if |s| < HEADER_SIZE then Bad
    else
      var n := HEADER_SIZE + DataLen(s);
      if |s| < n + CRC_SIZE then Bad
      else if GetLE(s[n..n + CRC_SIZE]) != Checksum(s[..n]) then Bad
      else Good(EntryOf(s), n + CRC_SIZE)
  }

  function DecodeAll(s: bytes): seq<Entry>
    decreases |s|
  {
    match Parse(s)
    case Bad => []
    case Good(e, n) => [e] + DecodeAll(s[n..])
  }

  // ----- One record -----

  // The layout of a record, field by field, in any text that starts with it.
  lemma RecordLayout(e: Entry, rest: bytes)
    ensures var s := Record(e) + rest; var n := HEADER_SIZE + |e.data|;
      && s[0] == e.kind
      && s[1..5] == PutLE(e.orderIdx, 4)
      && s[5..13] == PutLE(e.timestamp, 8)
      && s[13..15] == PutLE(|e.data|, 2)
      && s[15..n] == e.data
      && s[..n] == Body(e)
      && s[n..n + CRC_SIZE] == PutLE(Checksum(Body(e)), 4)
  {
    hide PutLE, Checksum;
  }

  lemma RecordParses(e: Entry, rest: bytes)
    requires Fits(e)
    ensures Parse(Record(e) + rest) == Good(e, |Record(e)|)
  {
    hide PutLE, GetLE, Checksum, Wrap64;
    var s := Record(e) + rest;
    RecordLayout(e, rest);
    Get16(|e.data|);
    Get32(e.orderIdx);
    Get64(e.timestamp);
    Get32(Checksum(Body(e)));
    assert DataLen(s) == |e.data|;
    assert EntryOf(s) == e;
  }

  // The scanner gets a record back exactly when the length fits its two bytes; a longer
  // record is written with its length cut modulo 65536.
  lemma RecordReadsBackIff(e: Entry, rest: bytes)
    ensures Parse(Record(e) + rest) == Good(e, |Record(e)|) <==> Fits(e)
  {
    if Fits(e) {
      RecordParses(e, rest);
    } else if Parse(Record(e) + rest).Good? {
      ParsedIsRecord(Record(e) + rest);
    }
  }

  // Whatever parses is, byte for byte, the record of the entry it parses to.
  lemma ParsedIsRecord(s: bytes)
    requires Parse(s).Good?
    ensures var p := Parse(s); Fits(p.entry) && s[..p.size] == Record(p.entry)
  {
    hide PutLE, GetLE, Checksum, Wrap64;
    var e, n := Parse(s).entry, HEADER_SIZE + DataLen(s);
    HeaderFieldsFit(s);
    PutGet(s[1..5]);
    PutGet(s[5..13]);
    PutGet(s[13..15]);
    PutGet(s[n..n + CRC_SIZE]);
    PutTimestamp(GetLE(s[5..13]));
    assert s[..HEADER_SIZE] == Header(e);
    assert s[..n] == Body(e);
    assert s[..n + CRC_SIZE] == Record(e);
  }

  lemma PutTimestamp(v: nat)
    requires v < TWO_64
    ensures PutLE(Wrap64(v), 8) == PutLE(v, 8)
  {
    Widths();
    PutCongruent(Wrap64(v), v, 8);
  }

  // A record cut anywhere before its end does not parse.
  lemma TornRecordIsBad(e: Entry, k: nat)
    requires Fits(e) && k < |Record(e)|
    ensures Parse(Record(e)[..k]) == Bad
  {
    hide PutLE, GetLE, Checksum;
    if k >= HEADER_SIZE {
      RecordLayout(e, []);
      assert Record(e) + [] == Record(e);
      assert Record(e)[..k][13..15] == Record(e)[13..15];
      Get16(|e.data|);
    }
  }

  // ----- Whole files -----

  lemma DecodeFirst(e: Entry, rest: bytes)
    requires Fits(e)
    ensures DecodeAll(Record(e) + rest) == [e] + DecodeAll(rest)
  {
    RecordParses(e, rest);
    hide Parse, Record;
    assert (Record(e) + rest)[|Record(e)|..] == rest;
  }

  lemma {:induction false} DecodeEncoded(es: seq<Entry>, rest: bytes)
    requires AllFit(es)
    ensures DecodeAll(EncodeAll(es) + rest) == es + DecodeAll(rest)
    decreases |es|
  {
    hide Parse, Record, DecodeAll;
    if es == [] {
      assert EncodeAll(es) + rest == rest;
    } else {
      var tail := EncodeAll(es[1..]) + rest;
      assert EncodeAll(es) + rest == Record(es[0]) + tail;
      DecodeFirst(es[0], tail);
      DecodeEncoded(es[1..], rest);
    }
  }

  lemma {:induction false} DecodedIsPrefix(s: bytes)
    ensures AllFit(DecodeAll(s)) && EncodeAll(DecodeAll(s)) <= s
    decreases |s|
  {
    hide Parse, Record;
    var p := Parse(s);
    if p.Good? {
      ParsedIsRecord(s);
      DecodedIsPrefix(s[p.size..]);
      var es := DecodeAll(s);
      assert es[1..] == DecodeAll(s[p.size..]);
      assert s == s[..p.size] + s[p.size..];
    }
  }

  // The scanner returns the longest sequence of entries whose encoding starts the file.
  lemma DecodeIsLongest(s: bytes, es: seq<Entry>)
    ensures AllFit(DecodeAll(s)) && EncodeAll(DecodeAll(s)) <= s
    ensures AllFit(es) && EncodeAll(es) <= s ==> es <= DecodeAll(s)
  {
    hide Parse, Record;
    DecodedIsPrefix(s);
    if AllFit(es) && EncodeAll(es) <= s {
      var rest := s[|EncodeAll(es)|..];
      assert s == EncodeAll(es) + rest;
      DecodeEncoded(es, rest);
    }
  }

  predicate AllZero(s: bytes) {
    forall i :: 0 <= i < |s| ==> s[i] == 0
  }

  lemma {:induction false} AllZeroIsZeros(s: bytes)
    requires AllZero(s)
    ensures s == Zeros(|s|)
  {
    if s != [] {
      AllZeroIsZeros(s[1..]);
      assert s == [0] + s[1..];
    }
  }

  lemma AllZeroIsNothing(s: bytes)
    requires AllZero(s)
    ensures GetLE(s) == 0
  {
    AllZeroIsZeros(s);
    ZerosStandForZero(|s|);
  }

  // A block that starts with nineteen zero bytes is no record, as its fifteen header bytes have
  // a checksum other than zero; neither is a shorter block of zeros.
  lemma ZerosAreNoRecord(s: bytes)
    requires AllZero(s[..if |s| < 19 then |s| else 19])
    ensures Parse(s) == Bad
  {
    hide GetLE, Checksum, Zeros;
    if |s| >= 19 {
      assert AllZero(s[13..15]) && AllZero(s[15..19]) && AllZero(s[..15]) by {
        assert forall i :: 0 <= i < 19 ==> s[..19][i] == s[i];
      }
      AllZeroIsNothing(s[13..15]);
      AllZeroIsNothing(s[15..19]);
      AllZeroIsZeros(s[..15]);
      ZerosChecksum();
    } else if |s| >= 15 {
      assert s[..|s|] == s;
      assert AllZero(s[13..15]);
      AllZeroIsNothing(s[13..15]);
    }
  }

  // A file that ends in zero bytes, however many, reads as the records before them.
  lemma ZeroTailIsDropped(es: seq<Entry>, tail: bytes)
    requires AllFit(es) && AllZero(tail)
    ensures DecodeAll(EncodeAll(es) + tail) == es
  {
    DecodeEncoded(es, tail);
    ZerosAreNoRecord(tail);
    hide Parse, EncodeAll;
  }

  // A file that ends inside a record reads as the records before it.
  lemma TornTailIsDropped(es: seq<Entry>, e: Entry, k: nat)
    requires AllFit(es) && Fits(e) && k < |Record(e)|
    ensures DecodeAll(EncodeAll(es) + Record(e)[..k]) == es
  {
    TornRecordIsBad(e, k);
    DecodeEncoded(es, Record(e)[..k]);
  }

  // Bytes that differ in a window only.
  predicate DifferInside(a: bytes, b: bytes, i: nat, j: nat)
    requires |a| == |b|
  {
    forall k :: 0 <= k < |a| && (k < i || k >= j) ==> a[k] == b[k]
  }

  lemma {:induction false} HighOfLE(s: bytes, q: nat)
    requires q <= |s|
    ensures High(GetLE(s), 8 * q) == GetLE(s[q..])
    decreases q
  {
    if q == 0 {
      assert s[0..] == s;
    } else {
      HighOfLE(s[1..], q - 1);
      assert s[1..][q - 1..] == s[q..];
      HighAdds(GetLE(s), 8, 8 * (q - 1));
      assert Pow2(8) == 256;
      HighOfSum(s[0], GetLE(s[1..]), 8);
      hide High;
    }
  }

  lemma {:induction false} HighOfSum(b: nat, v: nat, k: nat)
    requires b < Pow2(k)
    ensures High(b + Pow2(k) * v, k) == v
    decreases k
  {
    if k > 0 {
      HighOfSum(b / 2, v, k - 1);
      Regroup(2, Pow2(k - 1), v);
      assert (b + 2 * (Pow2(k - 1) * v)) / 2 == b / 2 + Pow2(k - 1) * v;
    }
  }

  lemma DifferentStored(a: bytes, b: bytes)
    requires |a| == |b| && a != b
    ensures GetLE(a) != GetLE(b)
  {
    PutGet(a);
    PutGet(b);
  }

  lemma WindowSplits(a: bytes, b: bytes, c: bytes, d: bytes, i: nat, j: nat)
    requires |a| == |c| && |b| == |d| && DifferInside(a + b, c + d, i, j)
    ensures DifferInside(a, c, i, j)
    ensures forall k :: 0 <= k < |b| && |a| + k >= j ==> b[k] == d[k]
  {
    forall k | 0 <= k < |a| && (k < i || k >= j)
      ensures a[k] == c[k]
    {
      assert (a + b)[k] == (c + d)[k];
    }
    forall k | 0 <= k < |b| && |a| + k >= j
      ensures b[k] == d[k]
    {
      assert (a + b)[|a| + k] == (c + d)[|a| + k];
    }
  }

  // A body and the checksum stored behind it: at most four consecutive wrong bytes, across the
  // border too, leave a checksum that does not match.
  lemma BurstBreaksChecksum(body: bytes, crc: bytes, body': bytes, crc': bytes, i: nat)
    requires |body| == |body'| && |crc| == |crc'| == CRC_SIZE && GetLE(crc) == Checksum(body)
    requires body + crc != body' + crc' && DifferInside(body + crc, body' + crc', i, i + 4)
    ensures GetLE(crc') != Checksum(body')
  {
    hide GetLE, Checksum, PutLE, High, DifferInside;
    WindowSplits(body, crc, body', crc', i, i + 4);
    if body == body' {
      DifferentStored(crc, crc');
    } else {
      BodyBurst(body, crc, body', crc', i);
    }
  }

  lemma BodyBurst(body: bytes, crc: bytes, body': bytes, crc': bytes, i: nat)
    requires |body| == |body'| && |crc| == |crc'| == CRC_SIZE && GetLE(crc) == Checksum(body) && body != body'
    requires DifferInside(body, body', i, i + 4)
    requires forall k :: 0 <= k < 4 && |body| + k >= i + 4 ==> crc[k] == crc'[k]
    ensures GetLE(crc') != Checksum(body')
  {
    hide GetLE, Checksum, PutLE, High;
    var n := |body|;
    assert i < n;
    assert body[..i] == body'[..i];
    if i + 4 <= n {
      assert crc == crc' && body[i + 4..] == body'[i + 4..];
      assert body == body[..i] + body[i..i + 4] + body[i + 4..];
      assert body' == body[..i] + body'[i..i + 4] + body[i + 4..];
      ChecksumSeesBurst(body[..i], body[i..i + 4], body'[i..i + 4], body[i + 4..]);
    } else {
      var q := i + 4 - n;
      assert crc[q..] == crc'[q..];
      assert body == body[..i] + body[i..] && body' == body[..i] + body'[i..];
      HighOfLE(crc, q);
      HighOfLE(crc', q);
      ChecksumSeesEnd(body[..i], body[i..], body'[i..], 8 * q);
    }
  }

  // At most four consecutive wrong bytes anywhere in a record but its two length bytes, body and
  // checksum alike, hide that record and everything after it, and nothing before it.
  lemma BurstIsDetected(es: seq<Entry>, e: Entry, changed: bytes, rest: bytes, i: nat)
    requires AllFit(es) && Fits(e) && |changed| == |Record(e)| && changed != Record(e)
    requires DifferInside(Record(e), changed, i, i + 4) && changed[13] == Record(e)[13] && changed[14] == Record(e)[14]
    ensures DecodeAll(EncodeAll(es) + (changed + rest)) == es
  {
    hide PutLE, GetLE, Checksum, EncodeAll, DecodeAll, Record, Parse;
    var r, n := Record(e), HEADER_SIZE + |e.data|;
    RecordChecks(e);
    LengthStands(r, changed, n);
    assert r[..n] + r[n..] == r;
    BurstBreaksChecksum(r[..n], r[n..], changed[..n], changed[n..], i);
    ParseOfPieces(changed + rest, changed[..15], changed[15..n], changed[n..]);
    NothingDecoded(changed + rest);
    DecodeEncoded(es, changed + rest);
  }

  lemma LengthStands(r: bytes, changed: bytes, n: nat)
    requires |changed| == |r| == n + CRC_SIZE && n >= HEADER_SIZE
    requires changed[13] == r[13] && changed[14] == r[14]
    ensures changed[..15][13..15] == r[13..15]
    ensures changed[..15] + changed[15..n] == changed[..n] && changed[..n] + changed[n..] == changed
  {
  }

  lemma NothingDecoded(s: bytes)
    requires Parse(s) == Bad
    ensures DecodeAll(s) == []
  {
  }

  lemma RecordChecks(e: Entry)
    requires Fits(e)
    ensures var r, n := Record(e), HEADER_SIZE + |e.data|;
      GetLE(r[13..15]) == |e.data| && GetLE(r[n..]) == Checksum(r[..n])
  {
    hide PutLE, GetLE, Checksum, Record, Body;
    RecordLayout(e, []);
    assert Record(e) + [] == Record(e);
    assert Record(e)[HEADER_SIZE + |e.data|..] == Record(e)[HEADER_SIZE + |e.data|..HEADER_SIZE + |e.data| + CRC_SIZE];
    Get16(|e.data|);
    Get32(Checksum(Body(e)));
  }

  // In particular a single wrong byte.
  lemma CorruptionIsDetected(es: seq<Entry>, e: Entry, rest: bytes, i: nat, b: byte)
    requires AllFit(es) && Fits(e)
    requires i < |Record(e)| && i != 13 && i != 14 && Record(e)[i] != b
    ensures DecodeAll(EncodeAll(es) + Record(e)[i := b] + rest) == es
  {
    hide Record, DecodeAll, EncodeAll;
    BurstIsDetected(es, e, Record(e)[i := b], rest, i);
    assert EncodeAll(es) + Record(e)[i := b] + rest == EncodeAll(es) + (Record(e)[i := b] + rest);
  }

  // ----- Appending -----

  // No bytes are left over after the records the scanner finds.
  predicate WellFormed(file: bytes) {
    EncodeAll(DecodeAll(file)) == file
  }

  lemma {:induction false} EncodeConcat(a: seq<Entry>, b: seq<Entry>)
    ensures EncodeAll(a + b) == EncodeAll(a) + EncodeAll(b)
    decreases |a|
  {
    hide Record;
    if a == [] {
      assert a + b == b;
    } else {
      assert (a + b)[1..] == a[1..] + b;
      EncodeConcat(a[1..], b);
    }
  }

  lemma {:induction false} EncodeAppend(es: seq<Entry>, e: Entry)
    ensures EncodeAll(es + [e]) == EncodeAll(es) + Record(e)
    decreases |es|
  {
    hide Record;
    if es == [] {
      assert EncodeAll([e][1..]) == [];
      assert [] + [e] == [e];
    } else {
      EncodeAppend(es[1..], e);
      assert (es + [e])[1..] == es[1..] + [e];
    }
  }

  lemma EncodedIsWellFormed(es: seq<Entry>)
    requires AllFit(es)
    ensures WellFormed(EncodeAll(es)) && DecodeAll(EncodeAll(es)) == es
  {
    DecodeEncoded(es, []);
    assert EncodeAll(es) + [] == EncodeAll(es);
  }

  // Appending to a well-formed file adds one entry and keeps the file well formed.
  lemma AppendAddsEntry(file: bytes, e: Entry)
    requires WellFormed(file) && Fits(e)
    ensures DecodeAll(file + Record(e)) == DecodeAll(file) + [e]
    ensures WellFormed(file + Record(e))
  {
    hide Parse, Record, EncodeAll, DecodeAll;
    DecodedIsPrefix(file);
    EncodeAppend(DecodeAll(file), e);
    EncodedIsWellFormed(DecodeAll(file) + [e]);
  }

  // Behind a file that ends in a tail of its own, a new entry is read exactly when the tail and
  // the record together start with the record.
  lemma ReadBehindTailIff(es: seq<Entry>, tail: bytes, e: Entry, rest: bytes)
    requires AllFit(es) && Fits(e)
    ensures es + [e] <= DecodeAll(EncodeAll(es) + (tail + Record(e) + rest)) <==> Record(e) <= tail + Record(e)
  {
    hide Parse, Record, EncodeAll, DecodeAll;
    var file := EncodeAll(es) + (tail + Record(e) + rest);
    var read := DecodeAll(file);
    EncodeAppend(es, e);
    DecodeIsLongest(file, es + [e]);
    if es + [e] <= read {
      EncodeConcat(es + [e], read[|es| + 1..]);
      assert read == es + [e] + read[|es| + 1..];
      assert EncodeAll(es) + Record(e) <= file;
      SamePrefix(EncodeAll(es), Record(e), tail + Record(e) + rest);
    }
    if Record(e) <= tail + Record(e) {
      assert tail + Record(e) <= tail + Record(e) + rest;
      assert EncodeAll(es) + Record(e) <= file;
    }
  }

  lemma SamePrefix(front: bytes, a: bytes, b: bytes)
    requires front + a <= front + b
    ensures a <= b
  {
    forall i | 0 <= i < |a|
      ensures a[i] == b[i]
    {
      assert (front + a)[|front| + i] == (front + b)[|front| + i];
    }
  }

  // Whatever bytes replace a record, length bytes included, the scan gives the entry at its
  // place exactly when they are the record itself.
  lemma ChangedRecordIsReadIff(es: seq<Entry>, e: Entry, changed: bytes, rest: bytes)
    requires AllFit(es) && Fits(e) && |changed| == |Record(e)|
    ensures es + [e] <= DecodeAll(EncodeAll(es) + changed + rest) <==> changed == Record(e)
  {
    hide Parse, Record, EncodeAll, DecodeAll;
    var file := EncodeAll(es) + changed + rest;
    EncodeAppend(es, e);
    DecodeIsLongest(file, es + [e]);
    assert file == EncodeAll(es) + (changed + rest);
    if es + [e] <= DecodeAll(file) {
      EncodeConcat(es + [e], DecodeAll(file)[|es| + 1..]);
      assert DecodeAll(file) == es + [e] + DecodeAll(file)[|es| + 1..];
      SamePrefix(EncodeAll(es), Record(e), changed + rest);
      assert changed == (changed + rest)[..|Record(e)|];
    }
  }

  // The verdict on the front of s from the three pieces the scanner reads.
  lemma ParseOfPieces(s: bytes, header: bytes, data: bytes, crc: bytes)
    requires |header| == HEADER_SIZE && |data| == GetLE(header[13..15]) && |crc| == CRC_SIZE
    requires header + data + crc <= s
    ensures GetLE(header[1..5]) < TWO_32
    ensures Parse(s) ==
      if GetLE(crc) != Checksum(header + data) then Bad
      else Good(Entry(header[0], GetLE(header[1..5]), Wrap64(GetLE(header[5..13])), data),
                HEADER_SIZE + |data| + CRC_SIZE)
  {
    HeaderFieldsFit(header);
    hide GetLE, Checksum, Wrap64, PutLE;
    var n := HEADER_SIZE + |data|;
    assert s[1..5] == header[1..5] && s[5..13] == header[5..13] && s[13..15] == header[13..15];
    assert s[HEADER_SIZE..n] == data && s[..n] == header + data && s[n..n + CRC_SIZE] == crc;
  }

  lemma NoHeader(s: bytes)
    requires |s| < HEADER_SIZE
    ensures Parse(s) == Bad
  {
  }

  // Fewer bytes than the header announces.
  lemma ParseOfShort(s: bytes, header: bytes)
    requires |header| == HEADER_SIZE && header <= s
    requires |s| < HEADER_SIZE + GetLE(header[13..15]) + CRC_SIZE
    ensures Parse(s) == Bad
  {
    assert s[13..15] == header[13..15];
  }

  lemma ThreePieces(file: bytes, off: nat, i: nat, j: nat, k: nat)
    requires i <= j <= k && off + k <= |file|
    ensures file[off..off + i] + file[off + i..off + j] + file[off + j..off + k] <= file[off..]
    ensures file[off..][k..] == file[off + k..]
  {
    var a, b, c := file[off..off + i], file[off + i..off + j], file[off + j..off + k];
    assert a + b == file[off..off + j];
    assert a + b + c == file[off..off + k] == file[off..][..k];
  }

  // ----- The log object -----

  class Log {
    var file: bytes   // contents of the file on disk
    var size: nat
    var len: nat

    ghost predicate Valid()
      reads this
    {
      size == |file|
    }

    ghost function Entries(): seq<Entry>
      reads this
    {
      DecodeAll(file)
    }

    // Opens a file with the given contents and counts the entries in it.
    constructor Open(contents: bytes)
      ensures Valid() && file == contents && len == |DecodeAll(contents)|
    {
      file := contents;
      size := |contents|;
      len := 0;
      new;
      var entries := ReadAll();
      len := |entries|;
    }

    method Append(e: Entry)
      requires Valid()
      modifies this
      ensures Valid()
      ensures file == old(file) + Record(e)
      ensures len == old(len) + 1
      ensures Fits(e) && old(WellFormed(file)) ==> WellFormed(file) && Entries() == old(Entries()) + [e]
    {
      hide Checksum, PutLE, DecodeAll, EncodeAll;
      var dataLen := |e.data|;
      var n := HEADER_SIZE + dataLen;
      var buf := new byte[n + CRC_SIZE];
      buf[0] := e.kind;
      assert buf[..1] == [e.kind];
      WriteLE(buf, 1, e.orderIdx, 4);
      assert buf[..5] == buf[..1] + buf[1..5];
      WriteLE(buf, 5, e.timestamp, 8);
      assert buf[..13] == buf[..5] + buf[5..13];
      WriteLE(buf, 13, dataLen, 2);
      assert buf[..15] == buf[..13] + buf[13..15];
      assert buf[..15] == Header(e);
      WriteBytes(buf, HEADER_SIZE, e.data);
      assert buf[..n] == buf[..15] + buf[15..n];
      var crc := ComputeChecksum(buf[..n]);
      WriteLE(buf, n, crc, 4);
      assert buf[..] == buf[..n] + buf[n..n + 4];
      assert buf[..] == Record(e);
      if Fits(e) && WellFormed(file) { AppendAddsEntry(file, e); }
      file := file + buf[..];
      len := len + 1;
      size := size + buf.Length;
    }

    // The scan of the file from its start, record by record.
    method ReadAll() returns (entries: seq<Entry>)
      ensures entries == DecodeAll(file)
    {
      hide Checksum, GetLE, PutLE, Wrap64, Record, Parse;
      entries := [];
      var off := 0;
      while true
        invariant off <= |file|
        invariant entries + DecodeAll(file[off..]) == DecodeAll(file)
        decreases |file| - off
      {
        ghost var s := file[off..];
        if |file| - off < HEADER_SIZE {
          NoHeader(s);
          break;
        }
        var header := file[off..off + HEADER_SIZE];
        var n := HEADER_SIZE + GetLE(header[13..15]);
        if |file| - off < n {
          ParseOfShort(s, header);
          break;
        }
        var data := file[off + HEADER_SIZE..off + n];
        if |file| - off < n + CRC_SIZE {
          ParseOfShort(s, header);
          break;
        }
        var crc := file[off + n..off + (n + CRC_SIZE)];
        ThreePieces(file, off, HEADER_SIZE, n, n + CRC_SIZE);
        ParseOfPieces(s, header, data, crc);
        var actual := ComputeChecksum(header + data);
        if GetLE(crc) != actual { break; }
        entries := entries + [Entry(header[0], GetLE(header[1..5]), Wrap64(GetLE(header[5..13])), data)];
        off := off + (n + CRC_SIZE);
      }
    }

    method Truncate()
      modifies this
      ensures Valid() && WellFormed(file) && Entries() == [] && len == 0
    {
      file := [];
      size := 0;
      len := 0;
    }
  }
}
