/**
 Node ids as text. A typed target trims the node id it is given before it is parsed; a request by
 hint parses it as it stands, and parsing takes a scheme off only at the very start. The two
 routes are compared on every text.
 */
module NodeIdText {
  import opened SessionKey
  import opened Wrappers
  import opened DialTarget

  predicate Blanks(d: Decoders, s: string) {
    forall i | 0 <= i < |s| :: d.space(s[i])
  }

  predicate Blankless(d: Decoders, s: string) {
    forall i | 0 <= i < |s| :: !d.space(s[i])
  }

  // ---------------------------------------------------------------------------------------
  // Trimming
  // ---------------------------------------------------------------------------------------

  lemma {:induction false} TrimShortens(d: Decoders, s: string)
    ensures |Trim(d, s)| <= |s|
    decreases |s|
  {
    if s != "" {
      if d.space(s[0]) { TrimShortens(d, s[1..]); }
      else if d.space(s[|s| - 1]) { TrimShortens(d, s[..|s| - 1]); }
    }
  }

  /** Blanks at the end make no difference. */
  lemma {:induction false} TrimDropsTail(d: Decoders, s: string, tail: string)
    requires Blanks(d, tail)
    ensures Trim(d, s + tail) == Trim(d, s)
    decreases |s| + |tail|
  {
    var all := s + tail;
    if tail == "" {
      assert all == s;
    } else if s == "" {
      assert all[1..] == "" + tail[1..];
      TrimDropsTail(d, "", tail[1..]);
    } else if d.space(s[0]) {
      assert all[1..] == s[1..] + tail;
      TrimDropsTail(d, s[1..], tail);
    } else {
      assert all[..|all| - 1] == s + tail[..|tail| - 1];
      assert all[|all| - 1] == tail[|tail| - 1];
      TrimDropsTail(d, s, tail[..|tail| - 1]);
    }
  }

  /** Text that does not start with a blank loses only blanks at its end. */
  lemma {:induction false} TrimLeavesStart(d: Decoders, s: string) returns (tail: string)
    requires s != "" && !d.space(s[0])
    ensures s == Trim(d, s) + tail && Blanks(d, tail) && Trim(d, s) != ""
    decreases |s|
  {
    var n := |s| - 1;
    if d.space(s[n]) {
      var rest := TrimLeavesStart(d, s[..n]);
      tail := rest + [s[n]];
      assert s == s[..n] + [s[n]];
    } else {
      tail := "";
    }
  }

  /** Trimming text that starts with no blank neither makes nor breaks a start without blanks. */
  lemma StartSurvivesTrim(d: Decoders, s: string, start: string)
    requires s != "" && !d.space(s[0]) && Blankless(d, start)
    ensures start <= s <==> start <= Trim(d, s)
  {
    var tail := TrimLeavesStart(d, s);
    var t := Trim(d, s);
    assert forall i | |t| <= i < |s| :: s[i] == tail[i - |t|];
    assert start <= s ==> forall i | 0 <= i < |start| :: !d.space(s[i]);
  }

  // ---------------------------------------------------------------------------------------
  // The scheme
  // ---------------------------------------------------------------------------------------

  /** The decoder knows no blank among the characters of a scheme. */
  predicate PlainSchemes(d: Decoders) {
    Blankless(d, RELAY_SCHEME) && Blankless(d, IROH_SCHEME)
  }

  predicate HasScheme(s: string) {
    RELAY_SCHEME <= s || IROH_SCHEME <= s
  }

  /** A blank stands before a scheme. */
  predicate PaddedScheme(d: Decoders, s: string) {
    s != "" && d.space(s[0]) && HasScheme(Trim(d, s))
  }

  lemma NoSchemeAfterBlank(d: Decoders, s: string)
    requires PlainSchemes(d) && s != "" && d.space(s[0])
    ensures !HasScheme(s)
  {
  }

  lemma PaddedKeepsItsScheme(d: Decoders, s: string)
    requires PlainSchemes(d) && PaddedScheme(d, s)
    ensures NormalizeId(d, s) == Trim(d, s)
    ensures |NormalizeId(d, Trim(d, s))| < |Trim(d, s)|
  {
    NoSchemeAfterBlank(d, s);
    TrimShortens(d, WithoutScheme(Trim(d, s)));
  }

  lemma StrippedKeepsTail(t: string, tail: string, start: string)
    requires start <= t <==> start <= t + tail
    ensures Stripped(t + tail, start) == Stripped(t, start) + tail
  {
    if start <= t { assert (t + tail)[|start|..] == t[|start|..] + tail; }
  }

  lemma SchemeKeepsTail(t: string, tail: string)
    requires RELAY_SCHEME <= t <==> RELAY_SCHEME <= t + tail
    requires IROH_SCHEME <= t <==> IROH_SCHEME <= t + tail
    ensures WithoutScheme(t + tail) == WithoutScheme(t) + tail
  {
    StrippedKeepsTail(t, tail, RELAY_SCHEME);
    StrippedKeepsTail(t, tail, IROH_SCHEME);
  }

  lemma UnpaddedLosesOnlyTail(d: Decoders, s: string)
    requires PlainSchemes(d) && s != "" && !d.space(s[0])
    ensures NormalizeId(d, s) == NormalizeId(d, Trim(d, s))
  {
    var t := Trim(d, s);
    var tail := TrimLeavesStart(d, s);
    StartSurvivesTrim(d, s, RELAY_SCHEME);
    StartSurvivesTrim(d, s, IROH_SCHEME);
    SchemeKeepsTail(t, tail);
    TrimDropsTail(d, WithoutScheme(t), tail);
  }

  /** Trimming first changes what is parsed exactly for text with a blank before a scheme. */
  lemma TrimmingMattersExactlyWhenPadded(d: Decoders, s: string)
    requires PlainSchemes(d)
    ensures NormalizeId(d, s) == NormalizeId(d, Trim(d, s)) <==> !PaddedScheme(d, s)
  {
    if s == "" {
    } else if PaddedScheme(d, s) {
      PaddedKeepsItsScheme(d, s);
    } else if d.space(s[0]) {
      NoSchemeAfterBlank(d, s);
      TrimTwice(d, s);
    } else {
      UnpaddedLosesOnlyTail(d, s);
    }
  }

  // ---------------------------------------------------------------------------------------
  // The two routes
  // ---------------------------------------------------------------------------------------

  /** An encoded key has no colon in it, whatever the encoding. */
  ghost predicate NoColons(d: Decoders) {
    forall text :: ':' in text ==> d.NodeId(text) == None
  }

  lemma SchemeHasColon(s: string)
    requires HasScheme(s)
    ensures ':' in s
  {
    if RELAY_SCHEME <= s {
      assert s[10] == RELAY_SCHEME[10] == ':';
    } else {
      assert s[4] == IROH_SCHEME[4] == ':';
    }
  }

  /** With a blank before its scheme, text is refused as it stands. */
  lemma PaddedIsRefused(d: Decoders, s: string)
    requires PlainSchemes(d) && NoColons(d) && PaddedScheme(d, s)
    ensures ParseId(d, s) == Err(InvalidNodeId)
  {
    PaddedKeepsItsScheme(d, s);
    SchemeHasColon(Trim(d, s));
  }

  /**
   A node id means the same as it stands and trimmed, that is by hint and in a typed target,
   unless it is good when trimmed and has a blank before its scheme; then it is refused by hint.
   */
  lemma RoutesAgreeExactly(d: Decoders, s: string)
    requires PlainSchemes(d) && NoColons(d)
    ensures ParseId(d, s) == ParseId(d, Trim(d, s)) <==> !(PaddedScheme(d, s) && ParseId(d, Trim(d, s)).Ok?)
    ensures ParseId(d, s) != ParseId(d, Trim(d, s)) ==> ParseId(d, s) == Err(InvalidNodeId)
  {
    TrimmingMattersExactlyWhenPadded(d, s);
    if PaddedScheme(d, s) { PaddedIsRefused(d, s); }
  }

  lemma SchemeThenCore(d: Decoders, core: string)
    requires PlainSchemes(d)
    ensures IROH_SCHEME <= Trim(d, IROH_SCHEME + core)
    ensures NormalizeId(d, IROH_SCHEME + core) == Trim(d, core)
  {
    var s := IROH_SCHEME + core;
    assert IROH_SCHEME <= s && s[|IROH_SCHEME|..] == core;
    NotBoth(s, IROH_SCHEME, RELAY_SCHEME, 4);
    StartSurvivesTrim(d, s, IROH_SCHEME);
  }

  /** What a typed target makes of a good node id and good addresses. */
  lemma TypedNodeDials(d: Decoders, kind: string, nodeId: string, id: EndpointId, direct: seq<string>)
    requires Trim(d, kind) == "endpoint-address"
    requires Trim(d, nodeId) != "" && ParseId(d, Trim(d, nodeId)) == Ok(id)
    requires ParseEach(direct, DirectParser(d)).Ok? && ParseEach(direct, DirectParser(d)).value != {}
    ensures FromTypedTarget(d, kind, Some(nodeId), None, Some(direct), None)
         == Ok(EndpointAddr(id, ParseEach(direct, DirectParser(d)).value))
  {
    var addrs := ParseEach(direct, DirectParser(d)).value;
    assert addrs + {} == addrs;
  }

  lemma CoreMakesPadded(d: Decoders, core: string)
    requires PlainSchemes(d) && d.space(' ')
    ensures PaddedScheme(d, " " + (IROH_SCHEME + core))
    ensures NormalizeId(d, Trim(d, " " + (IROH_SCHEME + core))) == Trim(d, core)
  {
    var text := IROH_SCHEME + core;
    assert (" " + text)[1..] == text;
    SchemeThenCore(d, core);
    UnpaddedLosesOnlyTail(d, text);
  }

  /**
   The routes do part: with any text a node id can be read from, a scheme and a blank before it
   make a node id that a typed target dials and a request by hint refuses.
   */
  lemma PaddedIdsDependOnTheRoute(d: Decoders, kind: string, core: string, id: EndpointId, direct: seq<string>)
    requires PlainSchemes(d) && NoColons(d) && d.space(' ')
    requires d.NodeId(Trim(d, core)) == Some(id)
    requires Trim(d, kind) == "endpoint-address"
    requires ParseEach(direct, DirectParser(d)).Ok? && ParseEach(direct, DirectParser(d)).value != {}
    ensures var padded := " " + (IROH_SCHEME + core);
            && ParseId(d, padded) == Err(InvalidNodeId)
            && FromTypedTarget(d, kind, Some(padded), None, Some(direct), None)
            == Ok(EndpointAddr(id, ParseEach(direct, DirectParser(d)).value))
  {
    var padded := " " + (IROH_SCHEME + core);
    CoreMakesPadded(d, core);
    PaddedIsRefused(d, padded);
    TypedNodeDials(d, kind, padded, id, direct);
  }

  // ---------------------------------------------------------------------------------------
  // The bridge's own ids
  // ---------------------------------------------------------------------------------------

  /** The z-base-32 decoder reads every id from its own name, which has no blank at either end. */
  ghost predicate ReadsNames(d: Decoders, z32: Names) {
    GoodNames(z32) && forall id: EndpointId :: d.z32Id(z32(id)) == Some(id) && Trim(d, z32(id)) == z32(id)
  }

  /** An id as the bridge publishes it names its node, with either scheme and without, whatever else it could be decoded as. */
  lemma PublishedIdReadsBack(d: Decoders, z32: Names, id: EndpointId)
    requires ReadsNames(d, z32)
    ensures ParseId(d, z32(id)) == Ok(id)
    ensures ParseId(d, IROH_SCHEME + z32(id)) == Ok(id)
    ensures ParseId(d, RELAY_SCHEME + z32(id)) == Ok(id)
  {
    var name := z32(id);
    if HasScheme(name) { SchemeHasColon(name); }
    assert (IROH_SCHEME + name)[|IROH_SCHEME|..] == name;
    assert (RELAY_SCHEME + name)[|RELAY_SCHEME|..] == name;
    NotBoth(IROH_SCHEME + name, IROH_SCHEME, RELAY_SCHEME, 4);
  }
}
