/**
 The wire format of one stream: every payload travels as a four-byte big-endian length
 followed by its bytes. Byte transports are modelled by a sink that may break after any
 number of bytes and by a source that may end, cleanly or not, after any number of bytes.
 */
module Framing {
  import opened Sequences

  type byte = n: nat | n < 256

  const MAX_FRAME_BYTES: nat := 2 * 1024 * 1024
  const HEADER_BYTES: nat := 4

  predicate Legal(payload: seq<byte>) {
    0 < |payload| <= MAX_FRAME_BYTES
  }

  type Frame = p: seq<byte> | Legal(p) witness [0]

  // ---------------------------------------------------------------------------------------
  // Encoding
  // ---------------------------------------------------------------------------------------

  function BigEndian(n: nat): (b: seq<byte>)
    requires n < 0x1_0000_0000
    ensures |b| == HEADER_BYTES
  {
    [n / 256 / 256 / 256, n / 256 / 256 % 256, n / 256 % 256, n % 256]
  }

  function FromBigEndian(b: seq<byte>): (n: nat)
    requires |b| == HEADER_BYTES
    ensures n < 0x1_0000_0000
  {
    var n1: nat := b[0] as int * 256 + b[1];
    var n2: nat := n1 * 256 + b[2];
    n2 * 256 + b[3]
  }

  lemma ShiftedIn(high: nat, low: byte)
    ensures (high * 256 + low) / 256 == high && (high * 256 + low) % 256 == low
  {
  }

  lemma BigEndianRoundTrip(n: nat)
    requires n < 0x1_0000_0000
    ensures FromBigEndian(BigEndian(n)) == n
  {
    var m, k := n / 256, n / 256 / 256;
    assert k == k / 256 * 256 + k % 256;
    assert m == k * 256 + m % 256;
    assert n == m * 256 + n % 256;
  }

  /** Each byte stands for its place: the most significant comes first. */
  lemma BigEndianPlaces(n: nat)
    requires n < 0x1_0000_0000
    ensures var b := BigEndian(n); n == b[0] as int * 0x100_0000 + b[1] as int * 0x1_0000 + b[2] as int * 0x100 + b[3] as int
  {
    BigEndianRoundTrip(n);
  }

  /** Headers compare byte by byte as the lengths they announce, which no other layout does. */
  lemma HeadersOrderAsLengths(m: nat, n: nat) returns (k: nat)
    requires m < n < 0x1_0000_0000
    ensures k < HEADER_BYTES && BigEndian(m)[..k] == BigEndian(n)[..k] && BigEndian(m)[k] < BigEndian(n)[k]
  {
    var a, b := BigEndian(m), BigEndian(n);
    BigEndianPlaces(m);
    BigEndianPlaces(n);
    k := if a[0] != b[0] then 0 else if a[1] != b[1] then 1 else if a[2] != b[2] then 2 else 3;
    assert forall i | 0 <= i < k :: a[i] == b[i];
  }

  lemma FromBigEndianRoundTrip(b: seq<byte>)
    requires |b| == HEADER_BYTES
    ensures BigEndian(FromBigEndian(b)) == b
  {
    var n1: nat := b[0] as int * 256 + b[1];
    var n2: nat := n1 * 256 + b[2];
    ShiftedIn(b[0], b[1]);
    ShiftedIn(n1, b[2]);
    ShiftedIn(n2, b[3]);
  }

  function Encode(frame: Frame): (bytes: seq<byte>)
    ensures |bytes| == HEADER_BYTES + |frame|
  {
    BigEndian(|frame|) + frame
  }

  function EncodeAll(frames: seq<Frame>): seq<byte> {
    if frames == [] then [] else Encode(frames[0]) + EncodeAll(frames[1..])
  }

  lemma {:induction false} EncodeAllConcat(a: seq<Frame>, b: seq<Frame>)
    ensures EncodeAll(a + b) == EncodeAll(a) + EncodeAll(b)
  {
    if a == [] {
      assert a + b == b;
    } else {
      EncodeAllConcat(a[1..], b);
      assert (a + b)[1..] == a[1..] + b && (a + b)[0] == a[0];
      Assoc(Encode(a[0]), EncodeAll(a[1..]), EncodeAll(b));
    }
  }

  lemma EncodeAllOne(f: Frame)
    ensures EncodeAll([f]) == Encode(f)
  {
    assert [f][1..] == [];
    assert EncodeAll([]) == [];
  }

  lemma EncodeAllAppend(a: seq<Frame>, f: Frame)
    ensures EncodeAll(a + [f]) == EncodeAll(a) + Encode(f)
  {
    EncodeAllConcat(a, [f]);
    EncodeAllOne(f);
  }

  // ---------------------------------------------------------------------------------------
  // Decoding
  // ---------------------------------------------------------------------------------------

  datatype FrameRead = Got(frame: Frame) | Ended | Failed

  /** What one read makes of a source holding exactly `rest` before it ends or breaks. */
  function DecodeFrame(rest: seq<byte>, broken: bool): FrameRead {
    if |rest| < HEADER_BYTES then (if broken then Failed else Ended)
    else
      var len := FromBigEndian(rest[..HEADER_BYTES]);
      if len == 0 || len > MAX_FRAME_BYTES then Failed
      else if |rest| < HEADER_BYTES + len then Failed
      else Got(rest[HEADER_BYTES..HEADER_BYTES + len])
  }

  /** Bytes that start a legal frame but do not finish it. */
  predicate Incomplete(partial: seq<byte>) {
    |partial| < HEADER_BYTES ||
    (var len := FromBigEndian(partial[..HEADER_BYTES]);
     0 < len <= MAX_FRAME_BYTES && |partial| < HEADER_BYTES + len)
  }

  lemma DecodeEncoded(f: Frame, rest: seq<byte>, broken: bool)
    ensures DecodeFrame(Encode(f) + rest, broken) == Got(f)
  {
    var all := Encode(f) + rest;
    assert all[..HEADER_BYTES] == BigEndian(|f|);
    BigEndianRoundTrip(|f|);
    assert all[HEADER_BYTES..HEADER_BYTES + |f|] == f;
  }

  /** The end is clean exactly before the header is whole; later, and on a broken transport, it is an error. */
  lemma EndsCleanlyExactly(rest: seq<byte>, broken: bool)
    ensures DecodeFrame(rest, broken) == Ended <==> |rest| < HEADER_BYTES && !broken
    ensures DecodeFrame(rest, broken) == Failed
       <==> !(|rest| < HEADER_BYTES && !broken) && !exists f: Frame :: Encode(f) <= rest
  {
    if f: Frame :| Encode(f) <= rest {
      assert rest == Encode(f) + rest[|Encode(f)|..];
      DecodeEncoded(f, rest[|Encode(f)|..], broken);
    }
    if DecodeFrame(rest, broken).Got? {
      DecodedWasEncoded(rest, broken);
      assert Encode(DecodeFrame(rest, broken).frame) <= rest;
    }
  }

  /** A frame is only ever returned for bytes that are its own encoding. */
  lemma DecodedWasEncoded(rest: seq<byte>, broken: bool)
    requires DecodeFrame(rest, broken).Got?
    ensures var f := DecodeFrame(rest, broken).frame;
            |Encode(f)| <= |rest| && rest == Encode(f) + rest[|Encode(f)|..]
  {
    var f := DecodeFrame(rest, broken).frame;
    FromBigEndianRoundTrip(rest[..HEADER_BYTES]);
    assert rest[..HEADER_BYTES] == BigEndian(|f|);
    assert rest == rest[..HEADER_BYTES] + rest[HEADER_BYTES..HEADER_BYTES + |f|] + rest[HEADER_BYTES + |f|..];
  }

  /** The whole frames at the front of a byte string: what repeated reads return. */
  function Parse(bytes: seq<byte>): seq<Frame>
    decreases |bytes|
  {
    match DecodeFrame(bytes, false)
    case Got(f) => [f] + Parse(bytes[HEADER_BYTES + |f|..])
    case _ => []
  }

  lemma ParseEncodedFirst(f: Frame, rest: seq<byte>)
    ensures Parse(Encode(f) + rest) == [f] + Parse(rest)
  {
    DecodeEncoded(f, rest, false);
    assert (Encode(f) + rest)[HEADER_BYTES + |f|..] == rest;
  }

  lemma {:induction false} ParseOfEncoding(frames: seq<Frame>, tail: seq<byte>)
    requires !DecodeFrame(tail, false).Got?
    ensures Parse(EncodeAll(frames) + tail) == frames
  {
    if frames == [] {
      assert EncodeAll(frames) + tail == tail;
    } else {
      var rest := EncodeAll(frames[1..]) + tail;
      Assoc(Encode(frames[0]), EncodeAll(frames[1..]), tail);
      ParseEncodedFirst(frames[0], rest);
      ParseOfEncoding(frames[1..], tail);
    }
  }

  /** On any bytes at all: the frames re-encode to a prefix, and no further frame follows it. */
  lemma {:induction false} ParseReencodes(bytes: seq<byte>)
    ensures EncodeAll(Parse(bytes)) <= bytes
    ensures !DecodeFrame(bytes[|EncodeAll(Parse(bytes))|..], false).Got?
    decreases |bytes|
  {
    match DecodeFrame(bytes, false)
    case Got(f) =>
      DecodedWasEncoded(bytes, false);
      var rest := bytes[HEADER_BYTES + |f|..];
      ParseReencodes(rest);
      assert Parse(bytes)[1..] == Parse(rest);
      assert bytes == Encode(f) + rest;
      assert EncodeAll(Parse(bytes)) == Encode(f) + EncodeAll(Parse(rest));
      assert bytes[|EncodeAll(Parse(bytes))|..] == rest[|EncodeAll(Parse(rest))|..];
    case _ =>
      assert bytes[0..] == bytes;
  }

  lemma IncompleteIsNoFrame(partial: seq<byte>)
    requires Incomplete(partial)
    ensures !DecodeFrame(partial, false).Got?
  {
  }

  /** A proper prefix of one encoded frame is incomplete. */
  lemma TruncatedIsIncomplete(f: Frame, n: nat)
    requires n < |Encode(f)|
    ensures Incomplete(Encode(f)[..n])
  {
    if n >= HEADER_BYTES {
      assert Encode(f)[..n][..HEADER_BYTES] == BigEndian(|f|);
      BigEndianRoundTrip(|f|);
    }
  }

  /**
   Cut an encoded list anywhere: reading returns exactly the frames that lie wholly before
   the cut, never a piece of the frame the cut goes through.
   */
  lemma {:induction false} TruncatedParse(frames: seq<Frame>, n: nat)
    requires n <= |EncodeAll(frames)|
    ensures CutAt(frames, n, |Parse(EncodeAll(frames)[..n])|)
    ensures Parse(EncodeAll(frames)[..n]) == frames[..|Parse(EncodeAll(frames)[..n])|]
  {
    var cut := EncodeAll(frames)[..n];
    if frames == [] {
      assert cut == [];
    } else if n < |Encode(frames[0])| {
      var f := frames[0];
      PrefixOfConcat(Encode(f), EncodeAll(frames[1..]), n);
      TruncatedIsIncomplete(f, n);
      IncompleteIsNoFrame(cut);
      CutInFirst(frames, n);
    } else {
      var f, rest := frames[0], frames[1..];
      var m := n - |Encode(f)|;
      PrefixOfConcat(Encode(f), EncodeAll(rest), n);
      ParseEncodedFirst(f, EncodeAll(rest)[..m]);
      TruncatedParse(rest, m);
      CutShift(frames, m, |Parse(EncodeAll(rest)[..m])|);
    }
  }

  lemma PrefixOfConcat(x: seq<byte>, y: seq<byte>, n: nat)
    requires n <= |x + y|
    ensures (x + y)[..n] == if n < |x| then x[..n] else x + y[..n - |x|]
  {
  }

  lemma CutInFirst(frames: seq<Frame>, n: nat)
    requires frames != [] && n < |Encode(frames[0])|
    ensures CutAt(frames, n, 0)
  {
    assert frames[..0] == [] && frames[..1] == [frames[0]];
    EncodeAllOne(frames[0]);
  }

  /** Frame `k` is the first one not wholly inside the first `n` encoded bytes. */
  predicate CutAt(frames: seq<Frame>, n: nat, k: nat) {
    && k <= |frames|
    && |EncodeAll(frames[..k])| <= n
    && (k < |frames| ==> n < |EncodeAll(frames[..k + 1])|)
  }

  lemma CutShift(frames: seq<Frame>, m: nat, k: nat)
    requires frames != [] && CutAt(frames[1..], m, k)
    ensures CutAt(frames, |Encode(frames[0])| + m, k + 1)
  {
    var rest := frames[1..];
    assert frames[..k + 1][1..] == rest[..k];
    if k < |rest| {
      assert frames[..k + 2][1..] == rest[..k + 1];
    }
  }

  /** Unique decodability with a prefix in between: what makes byte order give frame order. */
  lemma {:induction false} PrefixOfEncodings(a: seq<Frame>, bytes: seq<byte>, b: seq<Frame>)
    requires EncodeAll(a) <= bytes <= EncodeAll(b)
    ensures a <= b
  {
    if a != [] {
      var f := a[0];
      assert EncodeAll(a) == Encode(f) + EncodeAll(a[1..]);
      assert |EncodeAll(a)| <= |EncodeAll(b)|;
      var g := b[0];
      assert EncodeAll(b) == Encode(g) + EncodeAll(b[1..]);
      assert Encode(f)[..HEADER_BYTES] == EncodeAll(a)[..HEADER_BYTES] == EncodeAll(b)[..HEADER_BYTES]
          == Encode(g)[..HEADER_BYTES];
      assert Encode(f)[..HEADER_BYTES] == BigEndian(|f|);
      assert Encode(g)[..HEADER_BYTES] == BigEndian(|g|);
      BigEndianRoundTrip(|f|);
      BigEndianRoundTrip(|g|);
      assert |f| == |g|;
      var n := |Encode(f)|;
      assert Encode(f) == EncodeAll(a)[..n] == EncodeAll(b)[..n] == Encode(g);
      assert f == Encode(f)[HEADER_BYTES..] == Encode(g)[HEADER_BYTES..] == g;
      assert EncodeAll(a[1..]) == EncodeAll(a)[n..] && EncodeAll(b[1..]) == EncodeAll(b)[n..];
      PrefixOfEncodings(a[1..], bytes[n..], b[1..]);
    }
  }

  // ---------------------------------------------------------------------------------------
  // The two transfer routines
  // ---------------------------------------------------------------------------------------

  /** A byte transport that accepts `room` more bytes and then fails. */
  class ByteSink {
    var written: seq<byte>
    var room: nat

    constructor (room: nat)
      ensures written == [] && this.room == room
    {
      written, this.room := [], room;
    }

    method WriteAll(bytes: seq<byte>) returns (ok: bool)
      modifies this
      ensures ok <==> |bytes| <= old(room)
      ensures var n := if ok then |bytes| else old(room);
              written == old(written) + bytes[..n] && room == old(room) - n
    {
      ok := |bytes| <= room;
      var n := if ok then |bytes| else room;
      written, room := written + bytes[..n], room - n;
    }
  }

  function Min(a: nat, b: nat): nat {
    if a < b then a else b
  }

  datatype WriteResult = Written | InvalidFrame | WriteFailed

  /**
   Header first, payload second. An illegal payload touches nothing; a transport that breaks
   has received a prefix of the one encoding and nothing else.
   */
  method WriteFrame(sink: ByteSink, payload: seq<byte>) returns (r: WriteResult)
    modifies sink
    ensures r == InvalidFrame <==> !Legal(payload)
    ensures r == InvalidFrame ==> sink.written == old(sink.written) && sink.room == old(sink.room)
    ensures Legal(payload) ==>
              var encoded := Encode(payload);
              && (r == Written <==> |encoded| <= old(sink.room))
              && sink.written == old(sink.written) + encoded[..Min(|encoded|, old(sink.room))]
  {
    if |payload| == 0 || |payload| > MAX_FRAME_BYTES {
      return InvalidFrame;
    }
    var ok := sink.WriteAll(BigEndian(|payload|));
    if !ok {
      assert Encode(payload)[..old(sink.room)] == BigEndian(|payload|)[..old(sink.room)];
      return WriteFailed;
    }
    ok := sink.WriteAll(payload);
    if !ok {
      return WriteFailed;
    }
    return Written;
  }

  datatype ExactRead = Filled(bytes: seq<byte>) | UnexpectedEof | ReadFailed

  /** A byte transport holding `data`, which then ends cleanly or, if `broken`, with an error. */
  class ByteSource {
    const data: seq<byte>
    const broken: bool
    var pos: nat

    ghost predicate Valid()
      reads this
    {
      pos <= |data|
    }

    constructor (data: seq<byte>, broken: bool)
      ensures Valid() && this.data == data && this.broken == broken && pos == 0
    {
      this.data, this.broken, pos := data, broken, 0;
    }

    method ReadExact(n: nat) returns (r: ExactRead)
      requires Valid()
      modifies this
      ensures Valid()
      ensures if old(pos) + n <= |data|
              then r == Filled(data[old(pos)..old(pos) + n]) && pos == old(pos) + n
              else r == (if broken then ReadFailed else UnexpectedEof) && pos == |data|
    {
      if pos + n <= |data| {
        r := Filled(data[pos..pos + n]);
        pos := pos + n;
      } else {
        r := if broken then ReadFailed else UnexpectedEof;
        pos := |data|;
      }
    }
  }

  method ReadFrame(source: ByteSource) returns (r: FrameRead)
    requires source.Valid()
    modifies source
    ensures source.Valid()
    ensures r == DecodeFrame(source.data[old(source.pos)..], source.broken)
    ensures r.Got? ==> source.pos == old(source.pos) + HEADER_BYTES + |r.frame|
  {
    ghost var start := source.pos;
    var header := source.ReadExact(HEADER_BYTES);
    if !header.Filled? {
      return if header == ReadFailed then Failed else Ended;
    }
    assert source.data[start..][..HEADER_BYTES] == header.bytes;
    var len := FromBigEndian(header.bytes);
    if len == 0 || len > MAX_FRAME_BYTES {
      return Failed;
    }
    var body := source.ReadExact(len);
    if !body.Filled? {
      return Failed;
    }
    assert source.data[start..][HEADER_BYTES..HEADER_BYTES + len] == body.bytes;
    return Got(body.bytes);
  }
}
