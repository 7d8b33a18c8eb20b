/** Which bytes hold a frame, and which can still become one, judged on the bytes alone. */
module FrameStarts {
  import opened Framing

  function Zeros(n: nat): (z: seq<byte>)
    ensures |z| == n && forall i | 0 <= i < n :: z[i] == 0
  {
    seq(n, _ => 0)
  }

  /**
   More bytes can make these a frame: an unfinished header must not already announce too much,
   a finished one must be legal and its body not overrun.
   */
  predicate Startable(bytes: seq<byte>) {
    if |bytes| < HEADER_BYTES then FromBigEndian(bytes + Zeros(HEADER_BYTES - |bytes|)) <= MAX_FRAME_BYTES
    else
      var len := FromBigEndian(bytes[..HEADER_BYTES]);
      0 < len <= MAX_FRAME_BYTES && |bytes| <= HEADER_BYTES + len
  }

  predicate BelowAt(a: seq<byte>, b: seq<byte>)
    requires |a| == |b|
  {
    forall i | 0 <= i < |a| :: a[i] <= b[i]
  }

  lemma BigEndianGrows(a: seq<byte>, b: seq<byte>)
    requires |a| == |b| == HEADER_BYTES && BelowAt(a, b)
    ensures FromBigEndian(a) <= FromBigEndian(b)
  {
    assert a[0] <= b[0] && a[1] <= b[1] && a[2] <= b[2] && a[3] <= b[3];
  }

  lemma StartOfFrameIsStartable(bytes: seq<byte>, f: Frame)
    requires bytes <= Encode(f)
    ensures Startable(bytes)
  {
    var header := BigEndian(|f|);
    BigEndianRoundTrip(|f|);
    if |bytes| < HEADER_BYTES {
      var padded := bytes + Zeros(HEADER_BYTES - |bytes|);
      assert BelowAt(padded, header) by {
        forall i | 0 <= i < HEADER_BYTES ensures padded[i] <= header[i] {
          if i < |bytes| { assert bytes[i] == Encode(f)[i] == header[i]; }
        }
      }
      BigEndianGrows(padded, header);
    } else {
      assert bytes[..HEADER_BYTES] == header;
    }
  }

  /** A legal header and the start of its body are the start of a frame. */
  lemma HeaderAndBodyStart(bytes: seq<byte>) returns (f: Frame)
    requires |bytes| >= HEADER_BYTES && Startable(bytes)
    ensures bytes <= Encode(f)
  {
    var header, body := bytes[..HEADER_BYTES], bytes[HEADER_BYTES..];
    f := body + Zeros(FromBigEndian(header) - |body|);
    FromBigEndianRoundTrip(header);
    assert bytes == header + body;
  }

  lemma StartableHeader(bytes: seq<byte>) returns (header: seq<byte>)
    requires |bytes| < HEADER_BYTES && Startable(bytes)
    ensures bytes <= header && |header| == HEADER_BYTES && Startable(header)
  {
    var padded := bytes + Zeros(HEADER_BYTES - |bytes|);
    header := padded;
    if FromBigEndian(padded) == 0 { header := padded[..3] + [1]; }
    assert header[..HEADER_BYTES] == header;
  }

  /** Bytes are the start of some frame exactly when they pass the test. */
  lemma StartsAFrameExactly(bytes: seq<byte>)
    ensures (exists f: Frame :: bytes <= Encode(f)) <==> Startable(bytes)
  {
    if f: Frame :| bytes <= Encode(f) {
      StartOfFrameIsStartable(bytes, f);
    }
    if Startable(bytes) {
      var header := bytes;
      if |bytes| < HEADER_BYTES { header := StartableHeader(bytes); }
      var f := HeaderAndBodyStart(header);
    }
  }

  /** Bytes hold a whole frame at their front exactly when one decodes from them. */
  lemma HoldsAFrameExactly(bytes: seq<byte>)
    ensures (exists f: Frame :: Encode(f) <= bytes) <==> DecodeFrame(bytes, false).Got?
  {
    if f: Frame :| Encode(f) <= bytes {
      assert bytes == Encode(f) + bytes[|Encode(f)|..];
      DecodeEncoded(f, bytes[|Encode(f)|..], false);
    }
    if DecodeFrame(bytes, false).Got? {
      DecodedWasEncoded(bytes, false);
    }
  }
}
