/**
 The name under which a peer session is cached: the peer's z-base-32 id, a colon, and the
 application protocol in lower-case hex. The z-base-32 encoder belongs to another library; it
 enters as a function that is injective and never produces a colon.
 */
module SessionKey {
  import opened Framing

  const ENDPOINT_ID_BYTES: nat := 32

  type EndpointId = k: seq<byte> | |k| == ENDPOINT_ID_BYTES witness seq(ENDPOINT_ID_BYTES, _ => 0)

  type Names = EndpointId -> string

  ghost predicate GoodNames(z32: Names) {
    && (forall a: EndpointId, b: EndpointId :: z32(a) == z32(b) ==> a == b)
    && (forall a: EndpointId :: ':' !in z32(a))
  }

  const HEX_DIGITS: string := "0123456789abcdef"

  function HexEncode(bytes: seq<byte>): string {
    if bytes == [] then ""
    else [HEX_DIGITS[bytes[0] / 16], HEX_DIGITS[bytes[0] % 16]] + HexEncode(bytes[1..])
  }

  function Key(z32: Names, peer: EndpointId, alpn: seq<byte>): string {
    z32(peer) + ":" + HexEncode(alpn)
  }

  lemma HexDigitsDiffer(i: nat, j: nat)
    requires i < 16 && j < 16 && HEX_DIGITS[i] == HEX_DIGITS[j]
    ensures i == j
  {
  }

  lemma HexStarts(bytes: seq<byte>)
    requires bytes != []
    ensures var h := HexEncode(bytes);
            |h| >= 2 && h[0] == HEX_DIGITS[bytes[0] / 16] && h[1] == HEX_DIGITS[bytes[0] % 16] && h[2..] == HexEncode(bytes[1..])
  {
  }

  /** Two digits for every byte, the high one first. */
  lemma {:induction false} HexPlaces(bytes: seq<byte>, i: nat, high: nat, low: nat)
    requires i < |bytes| && high < 16 && low < 16 && bytes[i] == 16 * high + low
    ensures |HexEncode(bytes)| == 2 * |bytes|
    ensures HexEncode(bytes)[2 * i] == HEX_DIGITS[high] && HexEncode(bytes)[2 * i + 1] == HEX_DIGITS[low]
  {
    HexLength(bytes);
    HexStarts(bytes);
    if i == 0 {
      assert bytes[0] / 16 == high && bytes[0] % 16 == low;
    } else {
      HexPlaces(bytes[1..], i - 1, high, low);
    }
  }

  lemma {:induction false} HexLength(bytes: seq<byte>)
    ensures |HexEncode(bytes)| == 2 * |bytes|
  {
    if bytes != [] { HexLength(bytes[1..]); }
  }

  lemma {:induction false} HexIsInjective(a: seq<byte>, b: seq<byte>)
    requires HexEncode(a) == HexEncode(b)
    ensures a == b
  {
    if a != [] && b != [] {
      var x, y := HexEncode(a), HexEncode(b);
      assert x[0] == y[0] && x[1] == y[1];
      HexDigitsDiffer(a[0] / 16, b[0] / 16);
      HexDigitsDiffer(a[0] % 16, b[0] % 16);
      assert x[2..] == HexEncode(a[1..]) && y[2..] == HexEncode(b[1..]);
      HexIsInjective(a[1..], b[1..]);
      assert a == [a[0]] + a[1..] && b == [b[0]] + b[1..];
    }
  }

  /** The first colon of a key is the one after the id. */
  lemma SplitAtColon(x: string, a: string, y: string, b: string)
    requires ':' !in x && ':' !in y && x + ":" + a == y + ":" + b
    ensures x == y && a == b
  {
    var s := x + ":" + a;
    ColonAt(x, a);
    ColonAt(y, b);
    assert |x| == |y|;
    assert s[..|x|] == x && s[..|y|] == y;
    assert s[|x| + 1..] == a && s[|y| + 1..] == b;
  }

  lemma ColonAt(x: string, a: string)
    requires ':' !in x
    ensures (x + ":" + a)[|x|] == ':'
    ensures forall i | 0 <= i < |x| :: (x + ":" + a)[i] != ':'
  {
    forall i | 0 <= i < |x|
      ensures (x + ":" + a)[i] != ':'
    {
      assert (x + ":" + a)[i] == x[i] && x[i] in x;
    }
  }

  /** The key reads as the id, up to the first colon, and two hex digits for every byte of the protocol behind it. */
  lemma KeyReads(z32: Names, peer: EndpointId, alpn: seq<byte>, i: nat, high: nat, low: nat)
    requires GoodNames(z32)
    ensures var (key, n) := (Key(z32, peer, alpn), |z32(peer)|);
            && |key| == n + 1 + 2 * |alpn|
            && key[..n] == z32(peer) && key[n] == ':' && ':' !in key[..n]
            && (i < |alpn| && high < 16 && low < 16 && alpn[i] == 16 * high + low ==>
                  key[n + 1 + 2 * i] == HEX_DIGITS[high] && key[n + 1 + 2 * i + 1] == HEX_DIGITS[low])
  {
    var n := |z32(peer)|;
    HexLength(alpn);
    ColonAt(z32(peer), HexEncode(alpn));
    assert Key(z32, peer, alpn)[..n] == z32(peer);
    if i < |alpn| && high < 16 && low < 16 && alpn[i] == 16 * high + low { HexPlaces(alpn, i, high, low); }
  }

  /** Two sessions share a key only if they go to the same peer for the same protocol. */
  lemma KeyIsInjective(z32: Names, peer: EndpointId, alpn: seq<byte>, peer': EndpointId, alpn': seq<byte>)
    requires GoodNames(z32) && Key(z32, peer, alpn) == Key(z32, peer', alpn')
    ensures peer == peer' && alpn == alpn'
  {
    SplitAtColon(z32(peer), HexEncode(alpn), z32(peer'), HexEncode(alpn'));
    HexIsInjective(alpn, alpn');
  }
}
