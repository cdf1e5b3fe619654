/** Little-endian integers as the WAL writes them. */
module Bytes {
  type byte = x: int | 0 <= x < 256

  function Pow256(k: nat): (p: nat)
    ensures p > 0
  {
    if k == 0 then 1 else 256 * Pow256(k - 1)
  }

  /** The `k` low-order bytes of `v`, least significant first. */
  function LeBytes(v: nat, k: nat): (s: seq<byte>)
    ensures |s| == k
  {
    if k == 0 then [] else [(v % 256) as byte] + LeBytes(v / 256, k - 1)
  }

  function LeValue(s: seq<byte>): (v: nat) {
    if s == [] then 0 else s[0] as int + 256 * LeValue(s[1..])
  }

  /** The value with its `i` low-order bytes dropped. */
  function Dropped(v: nat, i: nat): nat {
    if i == 0 then v else Dropped(v, i - 1) / 256
  }

  lemma {:induction false} DroppedFirst(v: nat, i: nat)
    ensures Dropped(v / 256, i) == Dropped(v, i + 1)
  {
    if i > 0 {
      DroppedFirst(v, i - 1);
    }
  }

  /** Byte `i` is the i-th digit of the value in base 256, lowest first. */
  lemma {:induction false} LeDigit(v: nat, k: nat, i: nat)
    requires i < k
    ensures LeBytes(v, k)[i] == Dropped(v, i) % 256
  {
    if i > 0 {
      LeDigit(v / 256, k - 1, i - 1);
      DroppedFirst(v, i - 1);
    }
  }

  lemma {:induction false} LeRoundTrip(v: nat, k: nat)
    requires v < Pow256(k)
    ensures LeValue(LeBytes(v, k)) == v
  {
    if k > 0 {
      LeRoundTrip(v / 256, k - 1);
      assert LeBytes(v, k)[1..] == LeBytes(v / 256, k - 1);
    }
  }

  lemma {:induction false} LeBytesOfValue(s: seq<byte>)
    ensures LeValue(s) < Pow256(|s|)
    ensures LeBytes(LeValue(s), |s|) == s
  {
    if s != [] {
      LeBytesOfValue(s[1..]);
      assert LeValue(s) / 256 == LeValue(s[1..]);
      assert s == [s[0]] + s[1..];
    }
  }

  lemma {:induction false} Pow256Widths()
    ensures Pow256(4) == 0x1_0000_0000
    ensures Pow256(8) == 0x1_0000_0000_0000_0000
  {
    assert Pow256(2) == 0x1_0000;
    assert Pow256(4) == 0x1_0000_0000;
    assert Pow256(6) == 0x1_0000_0000_0000;
  }
}

/** The on-disk frame: how `append` writes it and how the two readers take it back. */
module Frames {
  import opened Basics
  import opened Bytes

  const HEADER_BYTES := 22
  const MAX_PAYLOAD := 16 * 1024 * 1024

  type u64 = x: int | 0 <= x < 0x1_0000_0000_0000_0000

  datatype Frame = Frame(entryId: u64, timestamp: u64, durability: byte, kind: byte, payload: seq<byte>)

  /** `append` refuses payloads whose length does not fit the u32 length field. */
  predicate Encodable(f: Frame) {
    |f.payload| < U32_LIMIT
  }

  predicate AllEncodable(fs: seq<Frame>) {
    forall i :: 0 <= i < |fs| ==> Encodable(fs[i])
  }

  /** What the recovery parser accepts: at most 16 MiB of payload. */
  predicate Parseable(f: Frame) {
    |f.payload| <= MAX_PAYLOAD
  }

  function Header(f: Frame): (h: seq<byte>)
    ensures |h| == HEADER_BYTES
  {
    LeBytes(|f.payload|, 4) + [f.durability, f.kind] + LeBytes(f.timestamp, 8) + LeBytes(f.entryId, 8)
  }

  function Encode(f: Frame): (e: seq<byte>)
    ensures |e| == HEADER_BYTES + |f.payload|
  {
    Header(f) + f.payload
  }

  function EncodeAll(fs: seq<Frame>): (s: seq<byte>) {
    if fs == [] then [] else Encode(fs[0]) + EncodeAll(fs[1..])
  }

  function DeclaredLength(h: seq<byte>): (n: nat)
    requires |h| >= HEADER_BYTES
  {
    LeValue(h[0..4])
  }

  /** The frame a header and its payload stand for. */
  function FrameOf(h: seq<byte>, payload: seq<byte>): (f: Frame)
    requires |h| == HEADER_BYTES
  {
    LeBytesOfValue(h[14..22]);
    LeBytesOfValue(h[6..14]);
    Pow256Widths();
    Frame(LeValue(h[14..22]), LeValue(h[6..14]), h[4], h[5], payload)
  }

  /** One element of the recovery parser's result. */
  datatype Item = Parsed(frame: Frame) | Overflow(declared: nat)

  /** The recovery parser as a function of the bytes left. */
  function Parse(data: seq<byte>): (items: seq<Item>)
    decreases |data|
  {
    if |data| < HEADER_BYTES then []
    else
      var n := DeclaredLength(data);
      if n > MAX_PAYLOAD then [Overflow(n)]
      else if |data| < HEADER_BYTES + n then []
      else [Parsed(FrameOf(data[..HEADER_BYTES], data[HEADER_BYTES..HEADER_BYTES + n]))]
           + Parse(data[HEADER_BYTES + n..])
  }

  function Items(fs: seq<Frame>): (items: seq<Item>)
    ensures |items| == |fs|
    ensures forall i :: 0 <= i < |fs| ==> items[i] == Parsed(fs[i])
  {
    seq(|fs|, i requires 0 <= i < |fs| => Parsed(fs[i]))
  }

  function FramesIn(items: seq<Item>): (fs: seq<Frame>) {
    if items == [] then []
    else (if items[0].Parsed? then [items[0].frame] else []) + FramesIn(items[1..])
  }

  // ----- header round trips

  lemma {:induction false} HeaderFields(f: Frame, rest: seq<byte>)
    requires Encodable(f)
    ensures DeclaredLength(Encode(f) + rest) == |f.payload|
    ensures FrameOf((Encode(f) + rest)[..HEADER_BYTES], f.payload) == f
  {
    Pow256Widths();
    LeRoundTrip(|f.payload|, 4);
    LeRoundTrip(f.timestamp, 8);
    LeRoundTrip(f.entryId, 8);
    var d := Encode(f) + rest;
    assert d[0..4] == LeBytes(|f.payload|, 4);
    assert d[..HEADER_BYTES] == Header(f);
    assert Header(f)[6..14] == LeBytes(f.timestamp, 8);
    assert Header(f)[14..22] == LeBytes(f.entryId, 8);
  }

  /** The frame on disk, byte by byte: length in bytes 0 to 3, durability tag in 4, kind in 5,
      timestamp in 6 to 13, entry id in 14 to 21, all little-endian, then the payload. */
  lemma {:induction false} FrameLayout(f: Frame, i: nat)
    requires i < 22 + |f.payload|
    ensures |Encode(f)| == 22 + |f.payload|
    ensures Encode(f)[i] ==
            if i < 4 then Dropped(|f.payload|, i) % 256
            else if i == 4 then f.durability
            else if i == 5 then f.kind
            else if i < 14 then Dropped(f.timestamp, i - 6) % 256
            else if i < 22 then Dropped(f.entryId, i - 14) % 256
            else f.payload[i - 22]
  {
    if i < 4 {
      LeDigit(|f.payload|, 4, i);
    } else if 6 <= i < 14 {
      LeDigit(f.timestamp, 8, i - 6);
    } else if 14 <= i < 22 {
      LeDigit(f.entryId, 8, i - 14);
    }
  }

  /** Decoding a header loses nothing: encoding the decoded frame gives the bytes back. */
  lemma {:induction false} EncodeOfFrameOf(h: seq<byte>, payload: seq<byte>)
    requires |h| == HEADER_BYTES && DeclaredLength(h) == |payload|
    ensures Encode(FrameOf(h, payload)) == h + payload
  {
    LeBytesOfValue(h[0..4]);
    LeBytesOfValue(h[6..14]);
    LeBytesOfValue(h[14..22]);
    assert h == h[0..4] + [h[4], h[5]] + h[6..14] + h[14..22];
  }

  // ----- the recovery parser

  /** The three ways one pass of the parser goes. */
  lemma {:induction false} ParseWhole(data: seq<byte>, f: Frame, rest: seq<byte>)
    requires |data| >= HEADER_BYTES && DeclaredLength(data) == |f.payload| <= MAX_PAYLOAD
    requires |data| >= HEADER_BYTES + |f.payload| && rest == data[HEADER_BYTES + |f.payload|..]
    requires f == FrameOf(data[..HEADER_BYTES], data[HEADER_BYTES..HEADER_BYTES + |f.payload|])
    ensures Parse(data) == [Parsed(f)] + Parse(rest)
  {
    hide DeclaredLength, FrameOf;
  }

  lemma {:induction false} ParseTorn(data: seq<byte>)
    requires |data| < HEADER_BYTES ||
             (DeclaredLength(data) <= MAX_PAYLOAD && |data| < HEADER_BYTES + DeclaredLength(data))
    ensures Parse(data) == []
  {
    hide DeclaredLength, FrameOf;
  }

  lemma {:induction false} ParseOversized(data: seq<byte>)
    requires |data| >= HEADER_BYTES && DeclaredLength(data) > MAX_PAYLOAD
    ensures Parse(data) == [Overflow(DeclaredLength(data))]
  {
    hide DeclaredLength, FrameOf;
  }

  lemma {:induction false} PayloadOf(h: seq<byte>, payload: seq<byte>)
    requires |h| == HEADER_BYTES
    ensures FrameOf(h, payload).payload == payload
  {
  }

  /** Where a leading frame's bytes lie. */
  lemma {:induction false} HeadParts(f: Frame, rest: seq<byte>)
    ensures var d := Encode(f) + rest;
            && d[HEADER_BYTES..HEADER_BYTES + |f.payload|] == f.payload
            && d[HEADER_BYTES + |f.payload|..] == rest
  {
    hide Header;
  }

  /** One step of the parser: a whole leading frame is returned and the rest parsed. */
  lemma {:induction false} ParseHead(f: Frame, rest: seq<byte>)
    requires Encodable(f)
    ensures Parse(Encode(f) + rest) ==
            if Parseable(f) then [Parsed(f)] + Parse(rest) else [Overflow(|f.payload|)]
  {
    hide Encode, Parse, FrameOf, DeclaredLength;
    HeaderFields(f, rest);
    HeadParts(f, rest);
    if Parseable(f) {
      ParseWhole(Encode(f) + rest, f, rest);
    } else {
      ParseOversized(Encode(f) + rest);
    }
  }

  lemma {:induction false} EncodeAllAppend(a: seq<Frame>, b: seq<Frame>)
    ensures EncodeAll(a + b) == EncodeAll(a) + EncodeAll(b)
  {
    hide Encode;
    if a == [] {
      assert a + b == b;
    } else {
      EncodeAllAppend(a[1..], b);
      assert (a + b)[1..] == a[1..] + b;
      Associative(Encode(a[0]), EncodeAll(a[1..]), EncodeAll(b));
    }
  }

  /** Parsing concatenated frames returns them, then whatever the tail parses to. */
  lemma {:induction false} ParseEncodedThen(fs: seq<Frame>, tail: seq<byte>)
    requires forall i :: 0 <= i < |fs| ==> Parseable(fs[i])
    ensures Parse(EncodeAll(fs) + tail) == Items(fs) + Parse(tail)
  {
    hide Encode, Parse, Parseable;
    if fs == [] {
      assert EncodeAll(fs) + tail == tail;
      assert Items(fs) + Parse(tail) == Parse(tail);
    } else {
      var e, rest := EncodeAll(fs[1..]), EncodeAll(fs[1..]) + tail;
      assert EncodeAll(fs) + tail == Encode(fs[0]) + rest by {
        Associative(Encode(fs[0]), e, tail);
      }
      ParsedHead(fs[0], rest);
      ParseEncodedThen(fs[1..], tail);
      assert Items(fs) == [Parsed(fs[0])] + Items(fs[1..]);
      Associative([Parsed(fs[0])], Items(fs[1..]), Parse(tail));
    }
  }

  lemma {:induction false} ParsedHead(f: Frame, rest: seq<byte>)
    requires Parseable(f)
    ensures Parse(Encode(f) + rest) == [Parsed(f)] + Parse(rest)
  {
    ParseHead(f, rest);
  }

  /** Round trip, with its exact condition: the parser gives back precisely the frames that
      were encoded if and only if none of them exceeds the parser's 16 MiB ceiling. */
  lemma {:induction false} RoundTripIff(fs: seq<Frame>)
    requires AllEncodable(fs)
    ensures Parse(EncodeAll(fs)) == Items(fs) <==> forall i :: 0 <= i < |fs| ==> |fs[i].payload| <= 16_777_216
  {
    hide Parse, Encode;
    if forall i :: 0 <= i < |fs| ==> Parseable(fs[i]) {
      ParseEncodedThen(fs, []);
      ParseTorn([]);
      assert EncodeAll(fs) + [] == EncodeAll(fs);
      assert Items(fs) + Parse([]) == Items(fs);
    } else {
      ParseHead(fs[0], EncodeAll(fs[1..]));
      if Parseable(fs[0]) {
        RoundTripIff(fs[1..]);
        assert Items(fs)[1..] == Items(fs[1..]);
        var i :| 0 <= i < |fs| && !Parseable(fs[i]);
        assert fs[1..][i - 1] == fs[i];
      }
    }
  }

  /** On arbitrary bytes the parser only reports frames that are really there: re-encoding
      what it returned reproduces a prefix of the input. */
  lemma {:induction false} ReencodeIsPrefix(data: seq<byte>)
    ensures EncodeAll(FramesIn(Parse(data))) <= data
    decreases |data|
  {
    hide Parse, FrameOf, DeclaredLength, Encode;
    if |data| < HEADER_BYTES {
      ParseTorn(data);
    } else if DeclaredLength(data) > MAX_PAYLOAD {
      ParseOversized(data);
      assert FramesIn([Overflow(DeclaredLength(data))]) == [];
    } else if |data| < HEADER_BYTES + DeclaredLength(data) {
      ParseTorn(data);
    } else {
      var n := DeclaredLength(data);
      var f, rest := FrameOf(data[..HEADER_BYTES], data[HEADER_BYTES..HEADER_BYTES + n]), data[HEADER_BYTES + n..];
      PayloadOf(data[..HEADER_BYTES], data[HEADER_BYTES..HEADER_BYTES + n]);
      ParseWhole(data, f, rest);
      ReencodeIsPrefix(rest);
      FrameBytes(data, n);
      FramesOfHead(f, Parse(rest));
    }
  }

  lemma {:induction false} FramesOfHead(f: Frame, items: seq<Item>)
    ensures EncodeAll(FramesIn([Parsed(f)] + items)) == Encode(f) + EncodeAll(FramesIn(items))
  {
    hide Encode;
    assert ([Parsed(f)] + items)[1..] == items;
    assert ([f] + FramesIn(items))[1..] == FramesIn(items);
  }

  lemma {:induction false} FrameBytes(data: seq<byte>, n: nat)
    requires |data| >= HEADER_BYTES + n && DeclaredLength(data) == n
    ensures var f := FrameOf(data[..HEADER_BYTES], data[HEADER_BYTES..HEADER_BYTES + n]);
            Encodable(f) && Encode(f) + data[HEADER_BYTES + n..] == data
  {
    hide Encode;
    var h, p := data[..HEADER_BYTES], data[HEADER_BYTES..HEADER_BYTES + n];
    assert h[0..4] == data[0..4];
    EncodeOfFrameOf(h, p);
    LeBytesOfValue(data[0..4]);
    Pow256Widths();
    assert data == (h + p) + data[HEADER_BYTES + n..];
  }

  lemma {:induction false} SameLength(data: seq<byte>, k: nat)
    requires HEADER_BYTES <= k <= |data|
    ensures DeclaredLength(data[..k]) == DeclaredLength(data)
  {
    assert data[..k][0..4] == data[0..4];
  }

  /** Cutting the input anywhere cuts the result: no frame is invented by truncation. */
  lemma {:induction false} TruncationIsPrefix(data: seq<byte>, k: nat)
    requires k <= |data|
    ensures Parse(data[..k]) <= Parse(data)
    decreases |data|
  {
    hide Parse, FrameOf, DeclaredLength;
    var cut := data[..k];
    if k < HEADER_BYTES {
      ParseTorn(cut);
    } else {
      SameLength(data, k);
      var n := DeclaredLength(data);
      if n > MAX_PAYLOAD {
        ParseOversized(cut);
        ParseOversized(data);
      } else if k < HEADER_BYTES + n {
        ParseTorn(cut);
      } else {
        var rest := data[HEADER_BYTES + n..];
        var f := FrameOf(data[..HEADER_BYTES], data[HEADER_BYTES..HEADER_BYTES + n]);
        PayloadOf(data[..HEADER_BYTES], data[HEADER_BYTES..HEADER_BYTES + n]);
        CutParts(data, k, HEADER_BYTES, HEADER_BYTES + n);
        ParseWhole(data, f, rest);
        ParseWhole(cut, f, rest[..k - (HEADER_BYTES + n)]);
        TruncationIsPrefix(rest, k - (HEADER_BYTES + n));
      }
    }
  }

  lemma {:induction false} CutParts<T>(s: seq<T>, k: nat, i: nat, j: nat)
    requires i <= j <= k <= |s|
    ensures s[..k][..i] == s[..i] && s[..k][i..j] == s[i..j] && s[..k][j..] == s[j..][..k - j]
  {
  }

  /** An error can only be the last thing the parser reports. */
  lemma {:induction false} ErrorOnlyLast(data: seq<byte>, i: nat)
    requires i < |Parse(data)| && Parse(data)[i].Overflow?
    ensures i == |Parse(data)| - 1
    decreases |data|
  {
    hide FrameOf, DeclaredLength;
    var n := DeclaredLength(data);
    if n <= MAX_PAYLOAD {
      ErrorOnlyLast(data[HEADER_BYTES + n..], i - 1);
    }
  }

  // ----- the strict decoder of the replay tool

  datatype Entry = Entry(offset: nat, frame: Frame)
  datatype Decoded = Entries(entries: seq<Entry>) | TruncatedHeader | TruncatedPayload(at: nat)

  /** The replay tool has no size ceiling and fails on a torn frame. */
  function Decode(data: seq<byte>, offset: nat): (r: Decoded)
    decreases |data|
  {
    if data == [] then Entries([])
    else if |data| < HEADER_BYTES then TruncatedHeader
    else
      var n := DeclaredLength(data);
      if |data| < HEADER_BYTES + n then TruncatedPayload(offset)
      else
        var f := FrameOf(data[..HEADER_BYTES], data[HEADER_BYTES..HEADER_BYTES + n]);
        Prepend([Entry(offset, f)], Decode(data[HEADER_BYTES + n..], offset + HEADER_BYTES + n))
  }

  function Prepend(es: seq<Entry>, r: Decoded): (r': Decoded) {
    match r
    case Entries(tl) => Entries(es + tl)
    case bad => bad
  }

  function EntryFrames(es: seq<Entry>): (fs: seq<Frame>)
    ensures |fs| == |es|
    ensures forall i :: 0 <= i < |es| ==> fs[i] == es[i].frame
  {
    seq(|es|, i requires 0 <= i < |es| => es[i].frame)
  }

  /** The strict decoder returns every frame of a whole segment, whatever their sizes. */
  lemma {:induction false} DecodeEncoded(fs: seq<Frame>, offset: nat)
    requires AllEncodable(fs)
    ensures Decode(EncodeAll(fs), offset).Entries?
    ensures EntryFrames(Decode(EncodeAll(fs), offset).entries) == fs
  {
    hide Encode, Decode;
    if fs == [] {
      DecodeNothing(offset);
    } else {
      var next := offset + HEADER_BYTES + |fs[0].payload|;
      DecodeHead(fs[0], EncodeAll(fs[1..]), offset);
      DecodeEncoded(fs[1..], next);
      EntryFramesCons(Entry(offset, fs[0]), Decode(EncodeAll(fs[1..]), next).entries);
    }
  }

  lemma {:induction false} DecodeNothing(offset: nat)
    ensures Decode([], offset) == Entries([])
  {
  }

  lemma {:induction false} EntryFramesCons(e: Entry, es: seq<Entry>)
    ensures EntryFrames([e] + es) == [e.frame] + EntryFrames(es)
  {
  }

  lemma {:induction false} DecodeFirst(data: seq<byte>, offset: nat, f: Frame, rest: seq<byte>)
    requires |data| >= HEADER_BYTES && DeclaredLength(data) == |f.payload|
    requires |data| >= HEADER_BYTES + |f.payload| && rest == data[HEADER_BYTES + |f.payload|..]
    requires f == FrameOf(data[..HEADER_BYTES], data[HEADER_BYTES..HEADER_BYTES + |f.payload|])
    ensures Decode(data, offset) == Prepend([Entry(offset, f)], Decode(rest, offset + HEADER_BYTES + |f.payload|))
  {
    hide DeclaredLength, FrameOf, Prepend;
  }

  lemma {:induction false} DecodeHead(f: Frame, rest: seq<byte>, offset: nat)
    requires Encodable(f)
    ensures Decode(Encode(f) + rest, offset)
         == Prepend([Entry(offset, f)], Decode(rest, offset + HEADER_BYTES + |f.payload|))
  {
    hide Encode, Decode, FrameOf, DeclaredLength, Prepend;
    HeaderFields(f, rest);
    HeadParts(f, rest);
    DecodeFirst(Encode(f) + rest, offset, f, rest);
  }

  /** Which error a torn last frame gives, and where: a header cut short, or a payload cut short at
      the offset of its frame. */
  lemma {:induction false} DecodeTorn(fs: seq<Frame>, f: Frame, t: seq<byte>, offset: nat)
    requires AllEncodable(fs) && Encodable(f) && t < Encode(f) && t != []
    ensures Decode(EncodeAll(fs) + t, offset) ==
            if |t| < 22 then TruncatedHeader else TruncatedPayload(offset + |EncodeAll(fs)|)
  {
    hide Decode, Encode;
    if fs == [] {
      assert EncodeAll(fs) + t == t;
      DecodeCut(f, t, offset);
    } else {
      var rest, next := EncodeAll(fs[1..]) + t, offset + HEADER_BYTES + |fs[0].payload|;
      Associative(Encode(fs[0]), EncodeAll(fs[1..]), t);
      DecodeHead(fs[0], rest, offset);
      DecodeTorn(fs[1..], f, t, next);
    }
  }

  lemma {:induction false} DecodeCut(f: Frame, t: seq<byte>, offset: nat)
    requires Encodable(f) && t < Encode(f) && t != []
    ensures Decode(t, offset) == if |t| < 22 then TruncatedHeader else TruncatedPayload(offset)
  {
    if |t| >= 22 {
      HeaderFields(f, []);
      assert Encode(f) + [] == Encode(f);
      SameLength(Encode(f), |t|);
      assert t == Encode(f)[..|t|];
      hide DeclaredLength, FrameOf, Encode;
    }
  }

  /** It succeeds only on bytes that are a concatenation of frames. */
  lemma {:induction false} DecodeIsExact(data: seq<byte>, offset: nat)
    requires Decode(data, offset).Entries?
    ensures AllEncodable(EntryFrames(Decode(data, offset).entries))
    ensures EncodeAll(EntryFrames(Decode(data, offset).entries)) == data
    decreases |data|
  {
    hide Encode, FrameOf;
    if data != [] {
      var n := DeclaredLength(data);
      var h, p, rest := data[..HEADER_BYTES], data[HEADER_BYTES..HEADER_BYTES + n], data[HEADER_BYTES + n..];
      DecodeIsExact(rest, offset + HEADER_BYTES + n);
      FrameBytes(data, n);
      var es, tl := Decode(data, offset).entries, Decode(rest, offset + HEADER_BYTES + n).entries;
      assert es == [Entry(offset, FrameOf(h, p))] + tl;
      assert EntryFrames(es) == [FrameOf(h, p)] + EntryFrames(tl);
    }
  }

  /** Each reported offset is where that entry's bytes start. */
  lemma {:induction false} DecodeOffsets(data: seq<byte>, offset: nat, i: nat)
    requires Decode(data, offset).Entries? && i < |Decode(data, offset).entries|
    ensures var es := Decode(data, offset).entries;
            es[i].offset == offset + |EncodeAll(EntryFrames(es)[..i])|
    decreases |data|
  {
    hide Encode, FrameOf;
    var n := DeclaredLength(data);
    var rest := data[HEADER_BYTES + n..];
    var es, tl := Decode(data, offset).entries, Decode(rest, offset + HEADER_BYTES + n).entries;
    assert es[1..] == tl;
    if i > 0 {
      DecodeOffsets(rest, offset + HEADER_BYTES + n, i - 1);
      FrameBytes(data, n);
      assert EntryFrames(es)[..i][1..] == EntryFrames(tl)[..i - 1];
      assert EntryFrames(es)[..i][0] == es[0].frame;
    }
  }
}

/** The readers as they run: a cursor over a source that may return short reads. */
module FrameReader {
  import opened Basics
  import opened Bytes
  import opened Frames

  datatype Filled = Full | Eof | Partial

  class Reader {
    const data: seq<byte>
    var pos: nat

    constructor (data: seq<byte>)
      ensures this.data == data && pos == 0
    {
      this.data := data;
      pos := 0;
    }

    ghost predicate Valid()
      reads this
    {
      pos <= |data|
    }

    /** `Read::read`: any positive number of the bytes asked for, or none at the end. */
    method Read(want: nat) returns (chunk: seq<byte>)
      requires Valid()
      modifies this
      ensures Valid() && old(pos) + |chunk| == pos && |chunk| <= want
      ensures chunk == data[old(pos)..pos]
      ensures want > 0 && old(pos) < |data| ==> chunk != []
    {
      if want == 0 || pos == |data| {
        chunk := [];
      } else {
        var n :| 1 <= n <= want && n <= |data| - pos;
        chunk := data[pos..pos + n];
        pos := pos + n;
      }
    }

    /** Fills a buffer of `n` bytes however the source chops its reads: `Full` exactly when
        `n` bytes are left, `Eof` exactly when none is and some were wanted. */
    method ReadExactOrEof(n: nat) returns (status: Filled, buf: seq<byte>)
      requires Valid()
      modifies this
      ensures Valid()
      ensures status == Full <==> old(pos) + n <= |data|
      ensures status == Eof <==> old(pos) == |data| && n > 0
      ensures status == Full ==> pos == old(pos) + n && buf == data[old(pos)..pos]
      ensures status != Full ==> pos == |data|
    {
      buf := [];
      while |buf| < n
        invariant Valid() && pos == old(pos) + |buf| && |buf| <= n
        invariant buf == data[old(pos)..pos]
        decreases n - |buf|
      {
        var chunk := Read(n - |buf|);
        if chunk == [] {
          return if buf == [] then Eof else Partial, buf;
        }
        buf := buf + chunk;
      }
      status := Full;
    }
  }

  lemma {:induction false} Slice(data: seq<byte>, at: nat, lo: nat, hi: nat)
    requires lo <= hi && at + hi <= |data|
    ensures data[at..][lo..hi] == data[at + lo..at + hi]
    ensures data[at..][hi..] == data[at + hi..]
  {
  }

  /** `Parse` read at a cursor position. */
  lemma {:induction false} ParseAt(data: seq<byte>, at: nat)
    requires at <= |data|
    ensures at + HEADER_BYTES > |data| ==> Parse(data[at..]) == []
    ensures at + HEADER_BYTES <= |data| ==>
      var h := data[at..at + HEADER_BYTES];
      var n := DeclaredLength(h);
      var next := at + HEADER_BYTES + n;
      Parse(data[at..]) ==
        if n > MAX_PAYLOAD then [Overflow(n)]
        else if next > |data| then []
        else [Parsed(FrameOf(h, data[at + HEADER_BYTES..next]))] + Parse(data[next..])
  {
    if at + HEADER_BYTES <= |data| {
      Slice(data, at, 0, HEADER_BYTES);
      var h := data[at..at + HEADER_BYTES];
      assert data[at..][0..4] == h[0..4];
      assert data[at..][..HEADER_BYTES] == h;
      var n := DeclaredLength(h);
      if at + HEADER_BYTES + n <= |data| {
        Slice(data, at, HEADER_BYTES, HEADER_BYTES + n);
      }
    }
  }

  /** `Decode` read at a cursor position. */
  lemma {:induction false} DecodeAt(data: seq<byte>, at: nat)
    requires at <= |data|
    ensures at == |data| ==> Decode(data[at..], at) == Entries([])
    ensures at < |data| < at + HEADER_BYTES ==> Decode(data[at..], at) == TruncatedHeader
    ensures at + HEADER_BYTES <= |data| ==>
      var h := data[at..at + HEADER_BYTES];
      var next := at + HEADER_BYTES + DeclaredLength(h);
      Decode(data[at..], at) ==
        if next > |data| then TruncatedPayload(at)
        else Prepend([Entry(at, FrameOf(h, data[at + HEADER_BYTES..next]))], Decode(data[next..], next))
  {
    if at + HEADER_BYTES <= |data| {
      Slice(data, at, 0, HEADER_BYTES);
      var h := data[at..at + HEADER_BYTES];
      assert data[at..][0..4] == h[0..4];
      assert data[at..][..HEADER_BYTES] == h;
      var n := DeclaredLength(h);
      if at + HEADER_BYTES + n <= |data| {
        Slice(data, at, HEADER_BYTES, HEADER_BYTES + n);
      }
    }
  }

  /** The loop of `try_parse_frames`, for every way the reads are chopped. */
  method TryParseFrames(data: seq<byte>) returns (results: seq<Item>)
    ensures results == Parse(data)
  {
    hide Parse, FrameOf, DeclaredLength;
    var r := new Reader(data);
    results := [];
    assert data[0..] == data;
    while true
      invariant fresh(r) && r.Valid() && r.data == data
      invariant results + Parse(data[r.pos..]) == Parse(data)
      decreases |data| - r.pos
    {
      ParseAt(data, r.pos);
      var status, header := r.ReadExactOrEof(HEADER_BYTES);
      if status != Full {
        break;
      }
      var n := DeclaredLength(header);
      if n > MAX_PAYLOAD {
        results := results + [Overflow(n)];
        break;
      }
      var filled, payload := r.ReadExactOrEof(n);
      if filled != Full {
        break;
      }
      results := results + [Parsed(FrameOf(header, payload))];
    }
  }

  /** The loop of `decode_one_segment`: appends this segment's entries, or fails. */
  method DecodeOneSegment(data: seq<byte>, out: seq<Entry>) returns (r: Decoded)
    ensures r == Prepend(out, Decode(data, 0))
  {
    hide Decode, FrameOf, DeclaredLength;
    var reader := new Reader(data);
    var acc := out;
    var offset := 0;
    assert data[0..] == data;
    while true
      invariant fresh(reader) && reader.Valid() && reader.data == data && offset == reader.pos
      invariant Prepend(out, Decode(data, 0)) == Prepend(acc, Decode(data[offset..], offset))
      decreases |data| - offset
    {
      DecodeAt(data, offset);
      var status, header := reader.ReadExactOrEof(HEADER_BYTES);
      if status == Eof {
        return Entries(acc);
      }
      if status == Partial {
        return TruncatedHeader;
      }
      var n := DeclaredLength(header);
      var filled, payload := reader.ReadExactOrEof(n);
      if filled != Full {
        return TruncatedPayload(offset);
      }
      var entry := Entry(offset, FrameOf(header, payload));
      PrependTwice(acc, [entry], Decode(data[reader.pos..], reader.pos));
      acc := acc + [entry];
      offset := offset + HEADER_BYTES + n;
    }
  }

  lemma {:induction false} PrependTwice(a: seq<Entry>, b: seq<Entry>, r: Decoded)
    ensures Prepend(a, Prepend(b, r)) == Prepend(a + b, r)
  {
    if r.Entries? {
      assert a + (b + r.entries) == (a + b) + r.entries;
    }
  }
}
