/** The write-ahead log: framed, checksummed entries in rotating segment files. */
module Wal {
  import opened Crc32

  const HEADER_SIZE: nat := 16

  datatype Entry = Entry(payload: seq<byte>, timestamp: nat) {
    /** What the header can hold; a timestamp of zero is replaced when the entry is made. */
    ghost predicate Valid() {
      |payload| < Pow256(4) && 0 < timestamp < Pow256(8)
    }
  }

  ghost predicate AllValid(es: seq<Entry>) {
    forall e :: e in es ==> e.Valid()
  }

  function Pow256(k: nat): (p: nat)
    ensures p > 0
  {
    if k == 0 then 1 else 256 * Pow256(k - 1)
  }

  lemma PowerOfBytes()
    ensures Pow256(4) == 0x1_0000_0000
  {
    assert Pow256(1) == 256 && Pow256(2) == 0x1_0000 && Pow256(3) == 0x100_0000;
  }

  /** `k` bytes, most significant first. */
  function Pack(n: nat, k: nat): (s: seq<byte>)
    ensures |s| == k
  {
    if k == 0 then [] else Pack(n / 256, k - 1) + [n % 256]
  }

  function Unpack(s: seq<byte>): nat {
    if s == [] then 0 else Unpack(s[..|s| - 1]) * 256 + s[|s| - 1]
  }

  lemma {:induction false} PackRoundTrip(n: nat, k: nat)
    requires n < Pow256(k)
    ensures Unpack(Pack(n, k)) == n
  {
    if k > 0 {
      PackRoundTrip(n / 256, k - 1);
      var s := Pack(n, k);
      assert s[..k - 1] == Pack(n / 256, k - 1);
    }
  }

  /** Each byte on its own: the most significant comes first. */
  lemma {:induction false} PackedAt(n: nat, k: nat, i: nat)
    requires i < k
    ensures Pack(n, k)[i] == n / Pow256(k - 1 - i) % 256
  {
    if i < k - 1 {
      PackedAt(n / 256, k - 1, i);
      DivideTwice(n, Pow256(k - 2 - i));
    }
  }

  lemma DivideTwice(n: nat, p: nat)
    requires p > 0
    ensures n / 256 / p == n / (256 * p)
  {
    var q := n / 256 / p;
    var r := n / 256 % p;
    assert n / 256 == p * q + r;
    assert n == 256 * (p * q + r) + n % 256;
    assert n == (256 * p) * q + (256 * r + n % 256);
    assert 256 * r + n % 256 < 256 * p;
    Quotient(n, 256 * p, q, 256 * r + n % 256);
  }

  lemma Quotient(n: nat, d: nat, q: nat, r: nat)
    requires d > 0 && r < d && n == d * q + r
    ensures n / d == q
  {
    var q', r' := n / d, n % d;
    assert n == d * q' + r';
    if q' < q {
      OneMoreTime(d, q', q);
    } else if q < q' {
      OneMoreTime(d, q, q');
    }
  }

  lemma OneMoreTime(d: nat, x: nat, y: nat)
    requires x < y
    ensures d * x + d <= d * y
  {
    assert d * y == d * (y - x - 1) + d * (x + 1);
  }

  function Header(e: Entry): (s: seq<byte>)
    ensures |s| == HEADER_SIZE
  {
    Pack(|e.payload|, 4) + Pack(Checksum(e.payload), 4) + Pack(e.timestamp, 8)
  }

  function Frame(e: Entry): seq<byte> {
    Header(e) + e.payload
  }

  /** The bytes of a frame: length, checksum and timestamp in network byte order, then the payload. */
  lemma FrameLayout(e: Entry, i: nat)
    requires i < |Frame(e)|
    ensures |Frame(e)| == 16 + |e.payload|
    ensures Frame(e)[i] ==
      if i < 4 then |e.payload| / Pow256(3 - i) % 256
      else if i < 8 then Checksum(e.payload) / Pow256(7 - i) % 256
      else if i < 16 then e.timestamp / Pow256(15 - i) % 256
      else e.payload[i - 16]
  {
    if i < 4 {
      PackedAt(|e.payload|, 4, i);
    } else if i < 8 {
      PackedAt(Checksum(e.payload), 4, i - 4);
    } else if i < 16 {
      PackedAt(e.timestamp, 8, i - 8);
    }
    hide Pack, Checksum, Pow256;
  }

  function Encode(es: seq<Entry>): seq<byte> {
    if es == [] then [] else Frame(es[0]) + Encode(es[1..])
  }

  /** What `read_all` makes of one segment file. */
  function Parse(data: seq<byte>): seq<Entry>
    decreases |data|
  {
    if |data| < HEADER_SIZE then []
    else
      var length := Unpack(data[..4]);
      if HEADER_SIZE + length > |data| then []
      else
        var payload := data[HEADER_SIZE..HEADER_SIZE + length];
        var rest := Parse(data[HEADER_SIZE + length..]);
        if Checksum(payload) == Unpack(data[4..8]) then [Entry(payload, Unpack(data[8..16]))] + rest else rest
  }

  lemma HeaderFields(e: Entry, rest: seq<byte>)
    requires e.Valid()
    ensures var data := Header(e) + rest;
      Unpack(data[..4]) == |e.payload| && Unpack(data[4..8]) == Checksum(e.payload)
      && Unpack(data[8..16]) == e.timestamp
  {
    var data := Header(e) + rest;
    assert data[..4] == Pack(|e.payload|, 4);
    assert data[4..8] == Pack(Checksum(e.payload), 4);
    assert data[8..16] == Pack(e.timestamp, 8);
    PackRoundTrip(|e.payload|, 4);
    PackRoundTrip(e.timestamp, 8);
    PowerOfBytes();
    PackRoundTrip(Checksum(e.payload), 4);
  }

  /** One frame in front of anything: with its own payload it is read back, with a payload
      of the same length and another checksum it alone is dropped. */
  lemma ParseHeader(e: Entry, payload: seq<byte>, rest: seq<byte>)
    requires e.Valid() && |payload| == |e.payload|
    ensures payload == e.payload ==> Parse(Header(e) + payload + rest) == [e] + Parse(rest)
    ensures Checksum(payload) != Checksum(e.payload) ==> Parse(Header(e) + payload + rest) == Parse(rest)
  {
    var data := Header(e) + payload + rest;
    assert data == Header(e) + (payload + rest);
    HeaderFields(e, payload + rest);
    assert data[HEADER_SIZE..HEADER_SIZE + |payload|] == payload;
    assert data[HEADER_SIZE + |payload|..] == rest;
  }

  lemma ParseFrame(e: Entry, rest: seq<byte>)
    requires e.Valid()
    ensures Parse(Frame(e) + rest) == [e] + Parse(rest)
  {
    ParseHeader(e, e.payload, rest);
  }

  lemma {:induction false} ParseEncode(es: seq<Entry>, rest: seq<byte>)
    requires AllValid(es)
    ensures Parse(Encode(es) + rest) == es + Parse(rest)
  {
    hide Frame, Parse;
    if es == [] {
      assert Encode(es) + rest == rest;
    } else {
      var tail := Encode(es[1..]) + rest;
      assert Encode(es) + rest == Frame(es[0]) + tail;
      ParseFrame(es[0], tail);
      ParseEncode(es[1..], rest);
      assert [es[0]] + (es[1..] + Parse(rest)) == es + Parse(rest);
    }
  }

  lemma ParseTorn(e: Entry, k: nat)
    requires e.Valid() && k < |Frame(e)|
    ensures Parse(Frame(e)[..k]) == []
  {
    var data := Frame(e)[..k];
    if k >= HEADER_SIZE {
      assert data == Header(e) + e.payload[..k - HEADER_SIZE];
      HeaderFields(e, e.payload[..k - HEADER_SIZE]);
    }
  }

  /** One turn of the reading loop. */
  lemma ParseAt(data: seq<byte>, off: nat)
    requires off <= |data|
    ensures off + HEADER_SIZE > |data| ==> Parse(data[off..]) == []
    ensures off + HEADER_SIZE <= |data| ==>
      var at := off + HEADER_SIZE;
      var length := Unpack(data[off..off + 4]);
      && (at + length > |data| ==> Parse(data[off..]) == [])
      && (at + length <= |data| ==>
            var payload := data[at..at + length];
            var found := if Checksum(payload) == Unpack(data[off + 4..off + 8])
                         then [Entry(payload, Unpack(data[off + 8..at]))] else [];
            Parse(data[off..]) == found + Parse(data[at + length..]))
  {
    hide Unpack, Checksum;
    var here, at := data[off..], off + HEADER_SIZE;
    if at <= |data| {
      assert here[..4] == data[off..off + 4] && here[4..8] == data[off + 4..off + 8] && here[8..16] == data[off + 8..at];
      var length := Unpack(data[off..off + 4]);
      if at + length <= |data| {
        assert here[HEADER_SIZE..HEADER_SIZE + length] == data[at..at + length];
        assert here[HEADER_SIZE + length..] == data[at + length..];
      }
    }
  }

  /** How many whole frames fit before byte `k`. */
  function Fitting(es: seq<Entry>, k: nat): (n: nat)
    ensures n <= |es|
  {
    if es == [] || |Frame(es[0])| > k then 0 else 1 + Fitting(es[1..], k - |Frame(es[0])|)
  }

  lemma {:induction false} FittingIsMaximal(es: seq<Entry>, k: nat)
    ensures |Encode(es[..Fitting(es, k)])| <= k
    ensures Fitting(es, k) < |es| ==> |Encode(es[..Fitting(es, k) + 1])| > k
  {
    hide Frame;
    var n := Fitting(es, k);
    if n == 0 {
      if es != [] {
        assert es[..1][0] == es[0] && es[..1][1..] == [];
      }
    } else {
      FittingIsMaximal(es[1..], k - |Frame(es[0])|);
      assert es[..n][0] == es[0] && es[..n][1..] == es[1..][..n - 1];
      if n < |es| {
        assert es[..n + 1][0] == es[0] && es[..n + 1][1..] == es[1..][..n];
      }
    }
  }

  lemma ParseNothing()
    ensures Parse([]) == []
  {
  }

  lemma CutFrame(e: Entry, rest: seq<byte>, k: nat)
    requires e.Valid() && k <= |Frame(e) + rest|
    ensures k < |Frame(e)| ==> Parse((Frame(e) + rest)[..k]) == []
    ensures k >= |Frame(e)| ==> Parse((Frame(e) + rest)[..k]) == [e] + Parse(rest[..k - |Frame(e)|])
  {
    hide Frame, Parse;
    if k < |Frame(e)| {
      assert (Frame(e) + rest)[..k] == Frame(e)[..k];
      ParseTorn(e, k);
    } else {
      assert (Frame(e) + rest)[..k] == Frame(e) + rest[..k - |Frame(e)|];
      ParseFrame(e, rest[..k - |Frame(e)|]);
    }
  }

  /** A segment cut at any byte reads back as exactly the entries whose frames were whole. */
  lemma {:induction false} CutReadsWholeFrames(es: seq<Entry>, k: nat)
    requires AllValid(es) && k <= |Encode(es)|
    ensures Parse(Encode(es)[..k]) == es[..Fitting(es, k)]
  {
    ParseNothing();
    hide Frame, Parse;
    if es != [] {
      CutFrame(es[0], Encode(es[1..]), k);
      if k >= |Frame(es[0])| {
        CutReadsWholeFrames(es[1..], k - |Frame(es[0])|);
        assert es[..Fitting(es, k)] == [es[0]] + es[1..][..Fitting(es[1..], k - |Frame(es[0])|)];
      }
    }
  }

  lemma {:induction false} EncodeConcat(a: seq<Entry>, b: seq<Entry>)
    ensures Encode(a + b) == Encode(a) + Encode(b)
  {
    hide Frame;
    if a == [] {
      assert a + b == b;
    } else {
      EncodeConcat(a[1..], b);
      assert (a + b)[0] == a[0] && (a + b)[1..] == a[1..] + b;
    }
  }

  lemma EncodeNothing()
    ensures Encode([]) == []
  {
  }

  lemma EncodeSnoc(es: seq<Entry>, e: Entry)
    ensures Encode(es + [e]) == Encode(es) + Frame(e)
  {
    hide Frame;
    EncodeConcat(es, [e]);
    assert [e][1..] == [] && Encode([e]) == Frame(e) + [];
  }

  /** An entry among others whose payload was replaced by one with another checksum. */
  lemma DamagedPayload(before: seq<Entry>, e: Entry, after: seq<Entry>, bad: seq<byte>)
    requires AllValid(before) && e.Valid() && AllValid(after)
    requires |bad| == |e.payload| && Checksum(bad) != Checksum(e.payload)
    ensures Parse(Encode(before) + (Header(e) + bad + Encode(after))) == before + after
  {
    hide Header, Encode, Checksum;
    ParseEncode(before, Header(e) + bad + Encode(after));
    ParseHeader(e, bad, Encode(after));
    ParseEncode(after, []);
    assert Encode(after) + [] == Encode(after) && after + Parse([]) == after;
  }

  lemma EncodeAround(before: seq<Entry>, e: Entry, after: seq<Entry>)
    ensures Encode(before + [e] + after) == Encode(before) + (Header(e) + e.payload + Encode(after))
  {
    hide Header;
    EncodeConcat(before, [e] + after);
    assert before + [e] + after == before + ([e] + after);
    assert ([e] + after)[1..] == after;
  }

  lemma Regroup<T>(a: seq<T>, b: seq<T>, c: seq<T>, d: seq<T>, e: seq<T>, f: seq<T>)
    ensures a + (b + (c + d + e) + f) == (a + b + c) + d + (e + f)
  {
  }

  /** Damage to up to four neighbouring bytes of one payload drops that entry and no other. */
  lemma DamagedBytesDropOneEntry(
      before: seq<Entry>, e: Entry, after: seq<Entry>, head: seq<byte>, good: seq<byte>, bad: seq<byte>, tail: seq<byte>)
    requires AllValid(before) && e.Valid() && AllValid(after)
    requires e.payload == head + good + tail
    requires |good| == |bad| <= 4 && good != bad
    ensures var left, right := Encode(before) + Header(e) + head, tail + Encode(after);
      Encode(before + [e] + after) == left + good + right && Parse(left + bad + right) == before + after
  {
    hide Header, Parse, Encode, Checksum;
    DetectsBurst(head, good, bad, tail);
    DamagedPayload(before, e, after, head + bad + tail);
    EncodeAround(before, e, after);
    Regroup(Encode(before), Header(e), head, good, tail, Encode(after));
    Regroup(Encode(before), Header(e), head, bad, tail, Encode(after));
  }

  // ----- appending behind what is already in a segment -----

  /** What the reading loop leaves unread at the end of a segment. */
  function Torn(data: seq<byte>): seq<byte>
    decreases |data|
  {
    if |data| < HEADER_SIZE || HEADER_SIZE + Unpack(data[..4]) > |data| then data
    else Torn(data[HEADER_SIZE + Unpack(data[..4])..])
  }

  /** The segment ends on a frame boundary. */
  predicate Whole(data: seq<byte>) {
    Torn(data) == []
  }

  /** One whole frame in front: what it reads as does not depend on what follows. */
  lemma FirstFrame(data: seq<byte>, n: nat, more: seq<byte>)
    requires HEADER_SIZE <= |data| && n == HEADER_SIZE + Unpack(data[..4]) <= |data|
    ensures var found := if Checksum(data[HEADER_SIZE..n]) == Unpack(data[4..8])
                         then [Entry(data[HEADER_SIZE..n], Unpack(data[8..16]))] else [];
      Parse(data[..n] + more) == found + Parse(more) && Parse(data) == found + Parse(data[n..])
    ensures Torn(data[..n] + more) == Torn(more) && Torn(data) == Torn(data[n..])
  {
    hide Unpack, Checksum;
    var all := data[..n] + more;
    assert all[..4] == data[..4] && all[4..8] == data[4..8] && all[8..16] == data[8..16];
    assert all[HEADER_SIZE..n] == data[HEADER_SIZE..n] && all[n..] == more;
  }

  lemma CutInTwo<T>(s: seq<T>, n: nat)
    requires n <= |s|
    ensures s == s[..n] + s[n..]
  {
  }

  lemma Assoc<T>(a: seq<T>, b: seq<T>, c: seq<T>)
    ensures a + (b + c) == (a + b) + c
  {
  }

  /** The frames in front of the torn rest. */
  lemma {:induction false} FramesBeforeTorn(data: seq<byte>) returns (front: seq<byte>)
    ensures data == front + Torn(data) && Whole(front) && Parse(front) == Parse(data)
    ensures Torn(Torn(data)) == Torn(data)
    decreases |data|
  {
    if |data| < HEADER_SIZE || HEADER_SIZE + Unpack(data[..4]) > |data| {
      front := [];
      ParseNothing();
    } else {
      var n := HEADER_SIZE + Unpack(data[..4]);
      hide Checksum, Parse, Torn;
      var tail := FramesBeforeTorn(data[n..]);
      FirstFrame(data, n, tail);
      hide Unpack, Whole;
      front := data[..n] + tail;
      Assoc(data[..n], tail, Torn(data[n..]));
      CutInTwo(data, n);
    }
  }

  lemma WholeStep(data: seq<byte>)
    requires Whole(data) && data != []
    ensures HEADER_SIZE <= |data| && HEADER_SIZE + Unpack(data[..4]) <= |data| && Whole(data[HEADER_SIZE + Unpack(data[..4])..])
  {
    hide Unpack;
  }

  /** Behind whole frames anything reads as on its own. */
  lemma {:induction false} ParseBehindWhole(data: seq<byte>, more: seq<byte>)
    requires Whole(data)
    ensures Parse(data + more) == Parse(data) + Parse(more) && Torn(data + more) == Torn(more)
    decreases |data|
  {
    ParseNothing();
    hide Checksum, Parse, Torn, Whole, Unpack;
    if data == [] {
      assert data + more == more && [] + Parse(more) == Parse(more);
    } else {
      WholeStep(data);
      var n := HEADER_SIZE + Unpack(data[..4]);
      FirstFrame(data, n, data[n..] + more);
      ParseBehindWhole(data[n..], more);
      Assoc(data[..n], data[n..], more);
      CutInTwo(data, n);
    }
  }

  lemma {:induction false} EncodeIsWhole(es: seq<Entry>)
    requires AllValid(es)
    ensures Whole(Encode(es))
  {
    if es != [] {
      EncodeIsWhole(es[1..]);
      FrameIsWhole(es[0]);
      hide Frame, Torn;
      ParseBehindWhole(Frame(es[0]), Encode(es[1..]));
    }
  }

  lemma FrameIsWhole(e: Entry)
    requires e.Valid()
    ensures Whole(Frame(e)) && Parse(Frame(e)) == [e]
  {
    HeaderFields(e, e.payload);
    ParseFrame(e, []);
    assert Frame(e) + [] == Frame(e) && [e] + Parse([]) == [e];
    assert Frame(e)[HEADER_SIZE + |e.payload|..] == [];
  }

  /** Every entry read took the bytes of its frame. */
  lemma {:induction false} ParseSize(data: seq<byte>, e: Entry)
    requires e in Parse(data)
    ensures HEADER_SIZE + |e.payload| <= |data|
    decreases |data|
  {
    hide Unpack, Checksum;
    var n := HEADER_SIZE + Unpack(data[..4]);
    if e in Parse(data[n..]) {
      ParseSize(data[n..], e);
    }
  }

  /** Two timestamps whose frames differ in the last byte of the header alone. */
  lemma TwoClocks(p: seq<byte>)
    ensures Header(Entry(p, 1))[..15] == Header(Entry(p, 2))[..15]
    ensures Pow256(8) > 2
  {
    assert Pack(1, 8) == Pack(1 / 256, 7) + [1 % 256] && Pack(2, 8) == Pack(2 / 256, 7) + [2 % 256];
    assert Pack(1, 8)[..7] == Pack(0, 7) == Pack(2, 8)[..7];
    assert Pow256(8) == 256 * Pow256(7);
  }

  /** A frame behind a torn rest, read at one of two clock values, is not read as itself alone. */
  lemma StuckMisreads(t: seq<byte>, p: seq<byte>)
    requires t != [] && Torn(t) == t
    ensures Parse(t + Frame(Entry(p, 1))) != [Entry(p, 1)] || Parse(t + Frame(Entry(p, 2))) != [Entry(p, 2)]
  {
    var f, g := Entry(p, 1), Entry(p, 2);
    var d, d' := t + Frame(f), t + Frame(g);
    StuckRest(t);
    TwoClocks(p);
    assert d[..16] == d'[..16] by {
      if |t| < 16 {
        assert d[..16] == t + Header(f)[..15][..16 - |t|] && d'[..16] == t + Header(g)[..15][..16 - |t|];
      } else {
        assert d[..16] == t[..16] && d'[..16] == t[..16];
      }
    }
    assert d[..4] == d[..16][..4] && d'[..4] == d'[..16][..4];
    assert d[8..16] == d[..16][8..16] && d'[8..16] == d'[..16][8..16];
    assert |t| >= 4 ==> d[..4] == t[..4];
    FirstRead(t, f);
    FirstRead(t, g);
  }

  lemma StuckRest(t: seq<byte>)
    requires Torn(t) == t
    ensures t == [] || |t| < HEADER_SIZE || HEADER_SIZE + Unpack(t[..4]) > |t|
  {
    if !(|t| < HEADER_SIZE || HEADER_SIZE + Unpack(t[..4]) > |t|) {
      TornIsShorter(t[HEADER_SIZE + Unpack(t[..4])..]);
    }
  }

  lemma {:induction false} TornIsShorter(data: seq<byte>)
    ensures |Torn(data)| <= |data|
    decreases |data|
  {
    if !(|data| < HEADER_SIZE || HEADER_SIZE + Unpack(data[..4]) > |data|) {
      TornIsShorter(data[HEADER_SIZE + Unpack(data[..4])..]);
    }
  }

  /** If a frame behind a torn rest is read as itself alone, its timestamp is the one at the
      front of the rest. */
  lemma FirstRead(t: seq<byte>, f: Entry)
    requires t != [] && (|t| < HEADER_SIZE || HEADER_SIZE + Unpack(t[..4]) > |t|)
    ensures Parse(t + Frame(f)) == [f] ==> Unpack((t + Frame(f))[8..16]) == f.timestamp
  {
    hide Header, Checksum;
    var d := t + Frame(f);
    if Parse(d) == [f] {
      var n := HEADER_SIZE + Unpack(d[..4]);
      assert |t| >= 4 ==> d[..4] == t[..4];
      assert n <= |d|;
      var rest := Parse(d[n..]);
      if f in rest {
        ParseSize(d[n..], f);
      }
      assert f !in rest;
      assert f in Parse(d);
    }
  }

  lemma WholeTakesAppend(data: seq<byte>, p: seq<byte>, ts: nat)
    requires |p| < Pow256(4) && 0 < ts < Pow256(8) && Whole(data)
    ensures Parse(data + Frame(Entry(p, ts))) == Parse(data) + [Entry(p, ts)]
  {
    hide Frame, Parse, Torn;
    ParseBehindWhole(data, Frame(Entry(p, ts)));
    FrameIsWhole(Entry(p, ts));
  }

  /** Behind a torn frame an append is misread at one of two clock values. */
  lemma TornMisreadsAppend(data: seq<byte>, p: seq<byte>)
    requires |p| < Pow256(4) && !Whole(data)
    ensures Parse(data + Frame(Entry(p, 1))) != Parse(data) + [Entry(p, 1)]
         || Parse(data + Frame(Entry(p, 2))) != Parse(data) + [Entry(p, 2)]
  {
    hide Frame, Parse, Torn;
    var front := FramesBeforeTorn(data);
    StuckMisreads(Torn(data), p);
    BehindTorn(data, front, Frame(Entry(p, 1)), [Entry(p, 1)]);
    BehindTorn(data, front, Frame(Entry(p, 2)), [Entry(p, 2)]);
  }

  /** What follows a torn frame is read together with it. */
  lemma BehindTorn(data: seq<byte>, front: seq<byte>, more: seq<byte>, es: seq<Entry>)
    requires data == front + Torn(data) && Whole(front) && Parse(front) == Parse(data)
    ensures Parse(data + more) == Parse(data) + es <==> Parse(Torn(data) + more) == es
  {
    hide Parse, Torn;
    assert data + more == front + (Torn(data) + more);
    ParseBehindWhole(front, Torn(data) + more);
    SamePrefixCancels(Parse(data), Parse(Torn(data) + more), es);
  }

  /** An append is read back behind everything the segment held, whatever the clock says, if and
      only if the segment ends on a frame boundary. */
  lemma AppendReadsBackIff(data: seq<byte>, p: seq<byte>)
    requires |p| < Pow256(4)
    ensures (forall ts: nat :: 0 < ts < Pow256(8) ==> Parse(data + Frame(Entry(p, ts))) == Parse(data) + [Entry(p, ts)]) <==> Whole(data)
  {
    hide Frame, Parse, Whole;
    TwoClocks(p);
    if Whole(data) {
      forall ts: nat | 0 < ts < Pow256(8) ensures Parse(data + Frame(Entry(p, ts))) == Parse(data) + [Entry(p, ts)] {
        WholeTakesAppend(data, p, ts);
      }
    } else {
      TornMisreadsAppend(data, p);
    }
  }

  /** A segment cut at a byte takes appends exactly when the cut fell on a frame boundary. */
  lemma CutTakesAppendsIff(es: seq<Entry>, cut: nat, p: seq<byte>)
    requires AllValid(es) && cut <= |Encode(es)| && |p| < Pow256(4)
    ensures (forall ts: nat :: 0 < ts < Pow256(8) ==>
               Parse(Encode(es)[..cut] + Frame(Entry(p, ts))) == es[..Fitting(es, cut)] + [Entry(p, ts)])
            <==> cut == |Encode(es[..Fitting(es, cut)])|
  {
    hide Frame, Parse, Torn, Encode;
    CutReadsWholeFrames(es, cut);
    AppendReadsBackIff(Encode(es)[..cut], p);
    CutIsWholeIff(es, cut);
  }

  lemma {:induction false} CutIsWholeIff(es: seq<Entry>, cut: nat)
    requires AllValid(es) && cut <= |Encode(es)|
    ensures Whole(Encode(es)[..cut]) <==> cut == |Encode(es[..Fitting(es, cut)])|
  {
    hide Frame, Torn, Parse;
    var n := Fitting(es, cut);
    if es == [] {
      NothingIsWhole();
    } else if n == 0 {
      TornFrame(es[0], cut);
      assert Encode(es)[..cut] == Frame(es[0])[..cut];
      assert Frame(es[0])[..cut] == [] <==> cut == 0;
    } else {
      var k := cut - |Frame(es[0])|;
      CutIsWholeIff(es[1..], k);
      CutBehindFrame(es, k);
      assert es[..n][0] == es[0] && es[..n][1..] == es[1..][..n - 1];
    }
  }

  lemma CutBehindFrame(es: seq<Entry>, k: nat)
    requires es != [] && es[0].Valid() && k <= |Encode(es[1..])|
    ensures var cut := |Frame(es[0])| + k;
      cut <= |Encode(es)| && (Whole(Encode(es)[..cut]) <==> Whole(Encode(es[1..])[..k]))
  {
    FrameIsWhole(es[0]);
    hide Frame, Torn, Parse;
    var rest := Encode(es[1..]);
    assert (Frame(es[0]) + rest)[..|Frame(es[0])| + k] == Frame(es[0]) + rest[..k];
    ParseBehindWhole(Frame(es[0]), rest[..k]);
  }

  lemma TornFrame(e: Entry, k: nat)
    requires e.Valid() && k < |Frame(e)|
    ensures Torn(Frame(e)[..k]) == Frame(e)[..k]
  {
    if k >= HEADER_SIZE {
      assert Frame(e)[..k] == Header(e) + e.payload[..k - HEADER_SIZE];
      HeaderFields(e, e.payload[..k - HEADER_SIZE]);
    }
  }

  /** A torn frame can swallow what is appended behind it. */
  lemma TornFrameSwallowsAppend(e: Entry, k: nat, f: Entry)
    requires e.Valid() && f.Valid() && HEADER_SIZE <= k && k + |Frame(f)| < |Frame(e)|
    ensures Parse(Frame(e)[..k] + Frame(f)) == []
  {
    var rest := e.payload[..k - HEADER_SIZE] + Frame(f);
    assert Frame(e)[..k] + Frame(f) == Header(e) + rest;
    HeaderFields(e, rest);
  }

  // ----- segments -----

  /** The entries of the files, in segment order. */
  function ReadFiles(files: seq<seq<byte>>): seq<Entry> {
    if files == [] then [] else ReadFiles(files[..|files| - 1]) + Parse(files[|files| - 1])
  }

  /** The segment an entry of this frame size goes to: the open one, or the next if it is full.
      The next may exist already, and its own size is not looked at. */
  function Place(files: seq<seq<byte>>, open: nat, limit: nat, size: nat): (at: nat)
    requires open < |files|
    ensures open <= at <= open + 1 && at <= |files|
  {
    if |files[open]| + size > limit then open + 1 else open
  }

  function Target(files: seq<seq<byte>>, at: nat): seq<byte> {
    if at < |files| then files[at] else []
  }

  function Later(files: seq<seq<byte>>, at: nat): seq<Entry> {
    if at < |files| then ReadFiles(files[at + 1..]) else []
  }

  /** The files with these bytes at the end of a segment. */
  function WithBytes(files: seq<seq<byte>>, at: nat, bytes: seq<byte>): (out: seq<seq<byte>>)
    requires at <= |files|
    ensures at < |out| && |out| == (if at == |files| then at + 1 else |files|)
  {
    if at == |files| then files + [bytes] else files[at := files[at] + bytes]
  }

  /** The files after these entries were written, one by one. */
  function WriteAll(files: seq<seq<byte>>, open: nat, limit: nat, batch: seq<Entry>): (r: (seq<seq<byte>>, nat))
    requires open < |files|
    ensures r.1 < |r.0|
  {
    if batch == [] then (files, open)
    else
      var n := |batch| - 1;
      var (out, now) := WriteAll(files, open, limit, batch[..n]);
      var at := Place(out, now, limit, |Frame(batch[n])|);
      (WithBytes(out, at, Frame(batch[n])), at)
  }

  lemma {:induction false} ReadFilesConcat(a: seq<seq<byte>>, b: seq<seq<byte>>)
    ensures ReadFiles(a + b) == ReadFiles(a) + ReadFiles(b)
  {
    hide Parse;
    if b == [] {
      assert a + b == a;
    } else {
      var n := |b| - 1;
      ReadFilesConcat(a, b[..n]);
      assert (a + b)[..|a| + n] == a + b[..n];
    }
  }

  lemma ReadOne(data: seq<byte>)
    ensures ReadFiles([data]) == Parse(data)
  {
    assert [data][..0] == [];
  }

  lemma ReadInside(front: seq<seq<byte>>, mid: seq<byte>, back: seq<seq<byte>>)
    ensures ReadFiles(front + [mid] + back) == ReadFiles(front) + Parse(mid) + ReadFiles(back)
  {
    ReadFilesConcat(front + [mid], back);
    ReadFilesConcat(front, [mid]);
    ReadOne(mid);
    hide ReadFiles, Parse;
  }

  lemma WithBytesAround(files: seq<seq<byte>>, at: nat, bytes: seq<byte>)
    requires at <= |files|
    ensures var back := if at < |files| then files[at + 1..] else [];
      WithBytes(files, at, bytes) == files[..at] + [Target(files, at) + bytes] + back
    ensures files == if at < |files| then files[..at] + [Target(files, at)] + files[at + 1..] else files[..at]
  {
    if at < |files| {
      var mid := files[at] + bytes;
      assert files[at := mid] == files[..at] + [mid] + files[at + 1..];
    } else {
      assert [] + bytes == bytes && files[..at] == files;
      assert files + [bytes] == files + [bytes] + [];
    }
  }

  lemma ReadAround(files: seq<seq<byte>>, at: nat, bytes: seq<byte>)
    requires at <= |files|
    ensures ReadFiles(WithBytes(files, at, bytes)) == ReadFiles(files[..at]) + Parse(Target(files, at) + bytes) + Later(files, at)
    ensures ReadFiles(files) == ReadFiles(files[..at]) + Parse(Target(files, at)) + Later(files, at)
  {
    ParseNothing();
    WithBytesAround(files, at, bytes);
    assert ReadFiles([]) == [];
    hide Parse, ReadFiles, WithBytes;
    if at < |files| {
      ReadInside(files[..at], files[at] + bytes, files[at + 1..]);
      ReadInside(files[..at], files[at], files[at + 1..]);
    } else {
      ReadInside(files, [] + bytes, []);
      assert ReadFiles(files) + [] + [] == ReadFiles(files);
    }
  }

  /** A write to a whole segment lands behind everything if and only if nothing but copies of the
      entry itself is read from later segments. */
  lemma WriteKeepsOrderIff(files: seq<seq<byte>>, at: nat, e: Entry)
    requires at <= |files| && e.Valid() && Whole(Target(files, at))
    ensures ReadFiles(WithBytes(files, at, Frame(e))) == ReadFiles(files) + [e] <==> forall x :: x in Later(files, at) ==> x == e
  {
    ReadAround(files, at, Frame(e));
    ParseBehindWhole(Target(files, at), Frame(e));
    FrameIsWhole(e);
    hide ReadFiles, Later, Target, Frame, Parse, Torn;
    var a, m, r := ReadFiles(files[..at]), Parse(Target(files, at)), Later(files, at);
    InFrontIff(a, m, e, r);
    CommutesIff(e, r);
  }

  lemma InFrontIff<T>(a: seq<T>, m: seq<T>, e: T, r: seq<T>)
    ensures a + (m + [e]) + r == a + m + r + [e] <==> [e] + r == r + [e]
  {
    assert a + (m + [e]) + r == (a + m) + ([e] + r);
    assert a + m + r + [e] == (a + m) + (r + [e]);
    SamePrefixCancels(a + m, [e] + r, r + [e]);
  }

  lemma SamePrefixCancels<T>(a: seq<T>, b: seq<T>, c: seq<T>)
    ensures a + b == a + c <==> b == c
  {
    if a + b == a + c {
      assert (a + b)[|a|..] == b && (a + c)[|a|..] == c;
    }
  }

  lemma {:induction false} AllSame<T>(e: T, r: seq<T>, i: nat)
    requires [e] + r == r + [e] && i < |r|
    ensures r[i] == e
  {
    assert ([e] + r)[i] == (r + [e])[i];
    if i > 0 {
      AllSame(e, r, i - 1);
    }
  }

  lemma CommutesIff<T>(e: T, r: seq<T>)
    ensures [e] + r == r + [e] <==> forall x :: x in r ==> x == e
  {
    if [e] + r == r + [e] {
      forall i | 0 <= i < |r| ensures r[i] == e {
        AllSame(e, r, i);
      }
    }
    if forall x :: x in r ==> x == e {
      forall i | 0 <= i <= |r| ensures ([e] + r)[i] == e && (r + [e])[i] == e {
        assert i > 0 ==> r[i - 1] in r;
        assert i < |r| ==> r[i] in r;
      }
      assert [e] + r == r + [e];
    }
  }

  /** The next write, rotation included, is read back behind everything, whatever the clock says,
      if and only if the segment it goes to ends on a frame boundary and no later segment reads
      any entry. */
  lemma WriteReadsBackIff(files: seq<seq<byte>>, open: nat, limit: nat, p: seq<byte>)
    requires open < |files| && |p| < Pow256(4)
    ensures var at := Place(files, open, limit, HEADER_SIZE + |p|);
      (forall ts: nat :: 0 < ts < Pow256(8) ==>
         ReadFiles(WriteAll(files, open, limit, [Entry(p, ts)]).0) == ReadFiles(files) + [Entry(p, ts)])
      <==> Whole(Target(files, at)) && Later(files, at) == []
  {
    var at := Place(files, open, limit, HEADER_SIZE + |p|);
    var a, m, r := ReadFiles(files[..at]), Parse(Target(files, at)), Later(files, at);
    TwoClocks(p);
    forall ts: nat
      ensures WriteAll(files, open, limit, [Entry(p, ts)]).0 == WithBytes(files, at, Frame(Entry(p, ts)))
      ensures ReadFiles(WithBytes(files, at, Frame(Entry(p, ts)))) == a + Parse(Target(files, at) + Frame(Entry(p, ts))) + r
      ensures ReadFiles(files) == a + m + r
    {
      WriteOne(files, open, limit, Entry(p, ts));
      ReadAround(files, at, Frame(Entry(p, ts)));
    }
    AppendReadsBackIff(Target(files, at), p);
    hide ReadFiles, Later, Target, Frame, Parse, Torn, WriteAll, Place;
    if r == [] {
      forall ts: nat ensures a + Parse(Target(files, at) + Frame(Entry(p, ts))) + r == a + m + r + [Entry(p, ts)]
                         <==> Parse(Target(files, at) + Frame(Entry(p, ts))) == m + [Entry(p, ts)]
      {
        var x := Parse(Target(files, at) + Frame(Entry(p, ts)));
        assert a + x + r == a + x && a + m + r + [Entry(p, ts)] == a + (m + [Entry(p, ts)]);
        SamePrefixCancels(a, x, m + [Entry(p, ts)]);
      }
    } else {
      LastOf(a + Parse(Target(files, at) + Frame(Entry(p, 1))), r, a + m + r, Entry(p, 1));
      LastOf(a + Parse(Target(files, at) + Frame(Entry(p, 2))), r, a + m + r, Entry(p, 2));
    }
  }

  lemma LastOf<T>(x: seq<T>, r: seq<T>, y: seq<T>, e: T)
    requires r != []
    ensures x + r == y + [e] ==> r[|r| - 1] == e
  {
    if x + r == y + [e] {
      assert (x + r)[|x + r| - 1] == r[|r| - 1] && (y + [e])[|y|] == e;
    }
  }

  lemma WriteOne(files: seq<seq<byte>>, open: nat, limit: nat, e: Entry)
    requires open < |files|
    ensures WriteAll(files, open, limit, [e]) ==
            (WithBytes(files, Place(files, open, limit, |Frame(e)|), Frame(e)), Place(files, open, limit, |Frame(e)|))
  {
    assert [e][..0] == [] && WriteAll(files, open, limit, []) == (files, open);
  }

  /** From the open segment on every segment ends on a frame boundary, and only the open one
      reads entries. */
  ghost predicate Sane(files: seq<seq<byte>>, open: nat) {
    && open < |files|
    && (forall i :: open <= i < |files| ==> Whole(files[i]))
    && (forall i :: open < i < |files| ==> Parse(files[i]) == [])
  }

  lemma {:induction false} ReadNothing(files: seq<seq<byte>>)
    requires forall i :: 0 <= i < |files| ==> Parse(files[i]) == []
    ensures ReadFiles(files) == []
  {
    if files != [] {
      ReadNothing(files[..|files| - 1]);
    }
  }

  lemma SanePlace(files: seq<seq<byte>>, open: nat, limit: nat, size: nat)
    requires Sane(files, open)
    ensures var at := Place(files, open, limit, size); Whole(Target(files, at)) && Later(files, at) == []
  {
    var at := Place(files, open, limit, size);
    assert Torn([]) == [];
    hide Parse, Torn;
    if at < |files| {
      ReadNothing(files[at + 1..]);
    }
  }

  lemma WholeBehindWhole(target: seq<byte>, e: Entry)
    requires Whole(target) && e.Valid()
    ensures Whole(target + Frame(e))
  {
    FrameIsWhole(e);
    ParseBehindWhole(target, Frame(e));
  }

  lemma NothingIsWhole()
    ensures Whole([])
  {
  }

  lemma StaysSane(files: seq<seq<byte>>, open: nat, at: nat, e: Entry)
    requires Sane(files, open) && open <= at <= |files| && e.Valid()
    ensures Sane(WithBytes(files, at, Frame(e)), at)
  {
    hide Frame, Parse, Whole;
    NothingIsWhole();
    WholeBehindWhole(Target(files, at), e);
    var out := WithBytes(files, at, Frame(e));
    assert [] + Frame(e) == Frame(e);
    assert out[at] == Target(files, at) + Frame(e);
    forall i | at < i < |out| ensures out[i] == files[i] {
    }
  }

  lemma SaneWrite(files: seq<seq<byte>>, open: nat, limit: nat, e: Entry)
    requires Sane(files, open) && e.Valid()
    ensures var at := Place(files, open, limit, |Frame(e)|);
      Sane(WithBytes(files, at, Frame(e)), at) && ReadFiles(WithBytes(files, at, Frame(e))) == ReadFiles(files) + [e]
  {
    hide Frame, Parse, Torn, ReadFiles;
    var at := Place(files, open, limit, |Frame(e)|);
    SanePlace(files, open, limit, |Frame(e)|);
    StaysSane(files, open, at, e);
    hide Sane, Whole, Later, Place;
    WriteKeepsOrderIff(files, at, e);
  }

  /** On a sane log every batch lands behind everything, in its order, whatever rotates. */
  lemma {:induction false} SaneWrites(files: seq<seq<byte>>, open: nat, limit: nat, batch: seq<Entry>)
    requires Sane(files, open) && AllValid(batch)
    ensures var (out, now) := WriteAll(files, open, limit, batch);
      Sane(out, now) && ReadFiles(out) == ReadFiles(files) + batch
  {
    assert open < |files|;
    hide Sane, Frame, ReadFiles, Place, WithBytes, WriteAll;
    if batch == [] {
      NothingWritten(files, open, limit);
      assert ReadFiles(files) + batch == ReadFiles(files);
    } else {
      var n := |batch| - 1;
      SaneWrites(files, open, limit, batch[..n]);
      var (out, now) := WriteAll(files, open, limit, batch[..n]);
      SaneWrite(out, now, limit, batch[n]);
      WriteNext(files, open, limit, batch, n);
      WriteOne(out, now, limit, batch[n]);
      LastBehind(ReadFiles(files), batch);
    }
  }

  lemma LastBehind<T>(front: seq<T>, s: seq<T>)
    requires s != []
    ensures s[..|s| - 1 + 1] == s
    ensures front + s[..|s| - 1] + [s[|s| - 1]] == front + s
  {
  }

  /** Whole segments lose nothing, even where later ones are read behind the new entries. */
  lemma {:induction false} WholeLogsLoseNothing(files: seq<seq<byte>>, open: nat, limit: nat, batch: seq<Entry>)
    requires open < |files| && AllValid(batch) && forall i :: 0 <= i < |files| ==> Whole(files[i])
    ensures var out := WriteAll(files, open, limit, batch).0;
      && (forall i :: 0 <= i < |out| ==> Whole(out[i]))
      && multiset(ReadFiles(out)) == multiset(ReadFiles(files)) + multiset(batch)
  {
    hide Frame, ReadFiles, Place, Parse, Torn;
    if batch != [] {
      var n := |batch| - 1;
      WholeLogsLoseNothing(files, open, limit, batch[..n]);
      var (out, now) := WriteAll(files, open, limit, batch[..n]);
      var at := Place(out, now, limit, |Frame(batch[n])|);
      WholeGains(out, at, batch[n]);
      assert batch[..n] + [batch[n]] == batch;
    }
  }

  lemma WholeGains(files: seq<seq<byte>>, at: nat, e: Entry)
    requires at <= |files| && e.Valid() && forall i :: 0 <= i < |files| ==> Whole(files[i])
    ensures forall i :: 0 <= i < |WithBytes(files, at, Frame(e))| ==> Whole(WithBytes(files, at, Frame(e))[i])
    ensures multiset(ReadFiles(WithBytes(files, at, Frame(e)))) == multiset(ReadFiles(files)) + multiset{e}
  {
    assert Whole(Target(files, at)) by { assert Torn([]) == []; }
    ReadAround(files, at, Frame(e));
    ParseBehindWhole(Target(files, at), Frame(e));
    FrameIsWhole(e);
    hide Frame, ReadFiles, Parse, Torn, Later;
  }

  lemma TornIsWholeIff(target: seq<byte>, e: Entry, cut: nat)
    requires Whole(target) && e.Valid() && cut < |Frame(e)|
    ensures Whole(target + Frame(e)[..cut]) <==> cut == 0
  {
    TornFrame(e, cut);
    hide Frame, Parse, Torn;
    ParseBehindWhole(target, Frame(e)[..cut]);
    assert Frame(e)[..cut] == [] <==> cut == 0;
  }

  /** A torn frame at the end of a whole segment adds nothing that is read. */
  lemma TornWriteReadsNothing(files: seq<seq<byte>>, at: nat, e: Entry, cut: nat)
    requires at <= |files| && e.Valid() && Whole(Target(files, at)) && cut < |Frame(e)|
    ensures ReadFiles(WithBytes(files, at, Frame(e)[..cut])) == ReadFiles(files)
  {
    ReadAround(files, at, Frame(e)[..cut]);
    ParseBehindWhole(Target(files, at), Frame(e)[..cut]);
    ParseTorn(e, cut);
    hide Frame, ReadFiles, Parse, Torn, Later, Target;
    var m := Parse(Target(files, at));
    assert m + [] == m;
  }

  /** Each segment is within the limit or holds a single frame. */
  ghost predicate Within(files: seq<seq<byte>>, limit: nat) {
    forall i :: 0 <= i < |files| ==> |files[i]| <= limit || OneFrame(files[i])
  }

  ghost predicate OneFrame(data: seq<byte>) {
    exists e: Entry :: data == Frame(e)
  }

  /** Writing from the last segment on keeps every segment within the limit or to one frame. */
  lemma {:induction false} WritesStayWithin(files: seq<seq<byte>>, open: nat, limit: nat, batch: seq<Entry>)
    requires open == |files| - 1 && Within(files, limit)
    ensures var (out, now) := WriteAll(files, open, limit, batch); now == |out| - 1 && Within(out, limit)
  {
    hide Frame, OneFrame;
    if batch != [] {
      var n := |batch| - 1;
      WritesStayWithin(files, open, limit, batch[..n]);
      var (out, now) := WriteAll(files, open, limit, batch[..n]);
      IsOneFrame(batch[n]);
      var at := Place(out, now, limit, |Frame(batch[n])|);
      assert at == |out| ==> WithBytes(out, at, Frame(batch[n]))[at] == Frame(batch[n]);
    }
  }

  lemma IsOneFrame(e: Entry)
    ensures OneFrame(Frame(e))
  {
  }

  lemma BytesInTwo(files: seq<seq<byte>>, at: nat, a: seq<byte>, b: seq<byte>)
    requires at <= |files|
    ensures var once := WithBytes(files, at, a); once[at := once[at] + b] == WithBytes(files, at, a + b)
  {
    if at < |files| {
      Assoc(files[at], a, b);
    }
  }

  class Log {
    const segmentBytes: nat
    var files: seq<seq<byte>>
    var buffer: seq<Entry>
    var segmentId: nat
    var segmentWritten: nat

    ghost predicate Valid()
      reads this
    {
      segmentId < |files| && segmentWritten == |files[segmentId]| && AllValid(buffer)
    }

    /** A process that opens a directory, whatever bytes it holds: segment zero is open. */
    constructor (onDisk: seq<seq<byte>>, segmentBytes: nat)
      ensures Valid() && buffer == [] && segmentId == 0 && this.segmentBytes == segmentBytes
      ensures files == if onDisk == [] then [[]] else onDisk
    {
      this.segmentBytes := segmentBytes;
      files := if onDisk == [] then [[]] else onDisk;
      buffer, segmentId, segmentWritten := [], 0, if onDisk == [] then 0 else |onDisk[0]|;
    }

    method Append(e: Entry)
      requires Valid() && e.Valid()
      modifies this`buffer
      ensures Valid() && buffer == old(buffer) + [e]
    {
      buffer := buffer + [e];
    }

    method RotateIfNeeded(size: nat)
      requires Valid()
      modifies this`files, this`segmentId, this`segmentWritten
      ensures Valid() && segmentId == Place(old(files), old(segmentId), segmentBytes, size)
      ensures segmentId == old(segmentId) <==> |old(files[segmentId])| + size <= segmentBytes
      ensures files == WithBytes(old(files), segmentId, [])
    {
      if segmentWritten + size > segmentBytes {
        segmentId := segmentId + 1;
        if segmentId == |files| {
          files := files + [[]];
        }
        segmentWritten := |files[segmentId]|;
      }
      assert files[segmentId] + [] == files[segmentId];
    }

    /** One frame goes to the end of the open segment, or of the next if the open one is full. */
    method Write(e: Entry)
      requires Valid() && e.Valid()
      modifies this`files, this`segmentId, this`segmentWritten
      ensures Valid() && (files, segmentId) == WriteAll(old(files), old(segmentId), segmentBytes, [e])
      ensures segmentId == old(segmentId) <==> |old(files[segmentId])| + 16 + |e.payload| <= segmentBytes
    {
      assert |Frame(e)| == 16 + |e.payload|;
      hide Frame;
      WriteOne(files, segmentId, segmentBytes, e);
      var data := Frame(e);
      RotateIfNeeded(|data|);
      BytesInTwo(old(files), segmentId, [], data);
      assert [] + data == data;
      files := files[segmentId := files[segmentId] + data];
      segmentWritten := segmentWritten + |data|;
    }

    /** Takes the buffer and writes it out, entry by entry. On a sane log everything lands behind
        what was there, in its order, and the log stays sane; from the last segment on every
        segment stays within the limit or holds one frame. */
    method Flush()
      requires Valid()
      modifies this
      ensures Valid() && buffer == []
      ensures (files, segmentId) == WriteAll(old(files), old(segmentId), segmentBytes, old(buffer))
      ensures old(Sane(files, segmentId)) ==> Sane(files, segmentId) && ReadFiles(files) == old(ReadFiles(files)) + old(buffer)
      ensures old(segmentId == |files| - 1 && Within(files, segmentBytes)) ==>
        segmentId == |files| - 1 && Within(files, segmentBytes)
    {
      var batch := buffer;
      if Sane(files, segmentId) {
        SaneWrites(files, segmentId, segmentBytes, batch);
      }
      if segmentId == |files| - 1 && Within(files, segmentBytes) {
        WritesStayWithin(files, segmentId, segmentBytes, batch);
      }
      WriteBatch(batch);
    }

    /** The write-out loop. */
    method WriteBatch(batch: seq<Entry>)
      requires Valid() && batch == buffer
      modifies this
      ensures Valid() && buffer == []
      ensures (files, segmentId) == WriteAll(old(files), old(segmentId), segmentBytes, batch)
    {
      hide Frame, Place, WriteAll, WithBytes;
      NothingWritten(files, segmentId, segmentBytes);
      buffer := [];
      for i := 0 to |batch|
        invariant Valid() && buffer == []
        invariant (files, segmentId) == WriteAll(old(files), old(segmentId), segmentBytes, batch[..i])
      {
        WriteNext(old(files), old(segmentId), segmentBytes, batch, i);
        Write(batch[i]);
      }
      assert batch[..|batch|] == batch;
    }

    static method ParseFile(data: seq<byte>) returns (entries: seq<Entry>)
      ensures entries == Parse(data)
    {
      hide Parse, Unpack, Checksum;
      entries := [];
      var off := 0;
      assert data[0..] == data;
      while off + HEADER_SIZE <= |data|
        invariant 0 <= off <= |data|
        invariant Parse(data) == entries + Parse(data[off..])
      {
        ParseAt(data, off);
        var length := Unpack(data[off..off + 4]);
        var checksum := Unpack(data[off + 4..off + 8]);
        var timestamp := Unpack(data[off + 8..off + 16]);
        off := off + HEADER_SIZE;
        if off + length > |data| {
          return;
        }
        var payload := data[off..off + length];
        off := off + length;
        if Checksum(payload) == checksum {
          entries := entries + [Entry(payload, timestamp)];
        }
      }
      ParseAt(data, off);
    }

    static method ReadSegments(files: seq<seq<byte>>) returns (entries: seq<Entry>)
      ensures entries == ReadFiles(files)
    {
      entries := [];
      for k := 0 to |files|
        invariant entries == ReadFiles(files[..k])
      {
        var found := ParseFile(files[k]);
        assert files[..k + 1][..k] == files[..k];
        entries := entries + found;
      }
      assert files[..|files|] == files;
    }

    /** Flushes, then reads every segment in order. On a sane log that is everything that was
        there and then every appended entry, in the order of the appends. */
    method ReadAll() returns (entries: seq<Entry>)
      requires Valid()
      modifies this
      ensures Valid() && buffer == [] && entries == ReadFiles(files)
      ensures (files, segmentId) == WriteAll(old(files), old(segmentId), segmentBytes, old(buffer))
      ensures old(Sane(files, segmentId)) ==> Sane(files, segmentId) && entries == old(ReadFiles(files)) + old(buffer)
    {
      hide Sane, ReadFiles, WriteAll, Within;
      Flush();
      entries := ReadSegments(files);
    }
  }

  lemma NothingWritten(files: seq<seq<byte>>, open: nat, limit: nat)
    requires open < |files|
    ensures WriteAll(files, open, limit, []) == (files, open)
  {
  }

  lemma WriteNext(files: seq<seq<byte>>, open: nat, limit: nat, batch: seq<Entry>, i: nat)
    requires open < |files| && i < |batch|
    ensures var (out, now) := WriteAll(files, open, limit, batch[..i]);
      WriteAll(files, open, limit, batch[..i + 1]) == WriteAll(out, now, limit, [batch[i]])
  {
    assert batch[..i + 1][..i] == batch[..i];
    var (out, now) := WriteAll(files, open, limit, batch[..i]);
    WriteOne(out, now, limit, batch[i]);
  }

  /** A fresh directory is a sane log within its limits that reads nothing. */
  lemma FreshIsSane()
    ensures Sane([[]], 0) && ReadFiles([[]]) == []
  {
    ReadOne([]);
    ParseNothing();
  }
}
