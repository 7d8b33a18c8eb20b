/**
 Which address a text names, said by the forms of the text and by what the decoders read, without
 the parsers: prefixes are put on here, where the parsers take them off. Every hint and every typed
 target resolves to exactly what it names, and is refused if it names nothing.
 */
module AddressText {
  import opened SessionKey
  import opened Wrappers
  import opened DialTarget
  import opened NodeIdText

  // ---------------------------------------------------------------------------------------
  // The texts behind a text
  // ---------------------------------------------------------------------------------------

  /** Trimming takes off the blanks at both ends and nothing else. */
  lemma {:induction false} TrimExactly(d: Decoders, s: string) returns (a: string, b: string)
    ensures s == a + Trim(d, s) + b && Blanks(d, a) && Blanks(d, b)
    ensures var t := Trim(d, s); t != "" ==> !d.space(t[0]) && !d.space(t[|t| - 1])
    decreases |s|
  {
    if s == "" {
      a, b := "", "";
    } else if d.space(s[0]) {
      a, b := TrimExactly(d, s[1..]);
      assert s == [s[0]] + s[1..];
      a := [s[0]] + a;
    } else if d.space(s[|s| - 1]) {
      a, b := TrimExactly(d, s[..|s| - 1]);
      assert s == s[..|s| - 1] + [s[|s| - 1]];
      b := b + [s[|s| - 1]];
    } else {
      a, b := "", "";
    }
  }

  /** `s` is `core`, with the prefix if it starts with it and without it if not. */
  predicate With(prefix: string, core: string, s: string) {
    s == prefix + core || (s == core && !(prefix <= s))
  }

  lemma StrippedExactly(s: string, prefix: string, core: string)
    ensures With(prefix, core, s) <==> Stripped(s, prefix) == core
  {
    if prefix <= s { assert s == prefix + s[|prefix|..]; }
    assert s == prefix + core ==> s[|prefix|..] == core;
  }

  /** `s` is `core`, with the first of two prefixes that it starts with, or with neither. */
  predicate WithEither(first: string, second: string, core: string, s: string) {
    s == first + core || (!(first <= s) && With(second, core, s))
  }

  lemma StrippedOfEither(s: string, first: string, second: string, core: string)
    ensures WithEither(first, second, core, s)
       <==> (if first <= s then Stripped(s, first) else Stripped(s, second)) == core
  {
    StrippedExactly(s, first, core);
    StrippedExactly(s, second, core);
    assert s == first + core ==> first <= s;
  }

  /** What a hint or a ticket is read as, once it is trimmed: the ticket scheme comes off, and the blanks after it. */
  predicate HintText(d: Decoders, given: string, core: string, text: string) {
    WithEither("iroh+ticket://", "iroh+ticket:", core, given) && text == Trim(d, core)
  }

  lemma HintTextExactly(d: Decoders, given: string, text: string)
    ensures NormalizeHint(d, given) == text <==> exists core :: HintText(d, given, core, text)
  {
    var core := if "iroh+ticket://" <= given then Stripped(given, "iroh+ticket://") else Stripped(given, "iroh+ticket:");
    StrippedOfEither(given, "iroh+ticket://", "iroh+ticket:", core);
    if NormalizeHint(d, given) == text { assert HintText(d, given, core, text); }
    forall other | HintText(d, given, other, text) ensures other == core {
      StrippedOfEither(given, "iroh+ticket://", "iroh+ticket:", other);
    }
  }

  /** The text names the node: either scheme may stand before the id, and blanks around what follows. */
  predicate IdForm(d: Decoders, input: string, core: string, id: EndpointId) {
    WithEither(RELAY_SCHEME, IROH_SCHEME, core, input) && d.NodeId(Trim(d, core)) == Some(id)
  }

  ghost predicate NamesNode(d: Decoders, input: string, id: EndpointId) {
    exists core :: IdForm(d, input, core, id)
  }

  lemma IdIsRead(d: Decoders, input: string, id: EndpointId)
    ensures ParseId(d, input) == Ok(id) <==> NamesNode(d, input, id)
    ensures ParseId(d, input).Err? ==> ParseId(d, input).error == InvalidNodeId
  {
    var core := WithoutScheme(input);
    StrippedOfEither(input, RELAY_SCHEME, IROH_SCHEME, core);
    if ParseId(d, input) == Ok(id) { assert IdForm(d, input, core, id); }
    forall other | IdForm(d, input, other, id) ensures other == core {
      StrippedOfEither(input, RELAY_SCHEME, IROH_SCHEME, other);
    }
  }

  // ---------------------------------------------------------------------------------------
  // Addresses
  // ---------------------------------------------------------------------------------------

  predicate SocketForm(d: Decoders, text: string, core: string, a: TransportAddr) {
    WithEither("iroh+direct://", "ip:", core, text) && core != "" && a.Ip? && d.socket(core) == Some(a.socket)
  }

  predicate RelayForm(d: Decoders, text: string, core: string, a: TransportAddr) {
    With("relay:", core, text) && core != "" && a.Relay? && d.relayUrl(core) == Some(a.url)
  }

  ghost predicate NamesSocket(d: Decoders, input: string, a: TransportAddr) {
    exists core :: SocketForm(d, Trim(d, input), core, a)
  }

  ghost predicate NamesRelay(d: Decoders, input: string, a: TransportAddr) {
    exists core :: RelayForm(d, Trim(d, input), core, a)
  }

  predicate LooksLikeRelay(text: string) {
    "http://" <= text || "https://" <= text || "relay:" <= text
  }

  /** A relay URL if it looks like one, and a socket address if not. */
  ghost predicate Names(d: Decoders, input: string, a: TransportAddr) {
    if LooksLikeRelay(Trim(d, input)) then NamesRelay(d, input, a) else NamesSocket(d, input, a)
  }

  lemma SocketIsRead(d: Decoders, input: string, a: TransportAddr)
    ensures ParseDirect(d, input) == Ok(a) <==> NamesSocket(d, input, a)
    ensures ParseDirect(d, input).Err? ==> ParseDirect(d, input).error == InvalidAddress
  {
    var text := Trim(d, input);
    var core := if "iroh+direct://" <= text then Stripped(text, "iroh+direct://") else Stripped(text, "ip:");
    StrippedOfEither(text, "iroh+direct://", "ip:", core);
    if ParseDirect(d, input) == Ok(a) { assert SocketForm(d, text, core, a); }
    forall other | SocketForm(d, text, other, a) ensures other == core {
      StrippedOfEither(text, "iroh+direct://", "ip:", other);
    }
  }

  lemma RelayIsRead(d: Decoders, input: string, a: TransportAddr)
    ensures ParseRelay(d, input) == Ok(a) <==> NamesRelay(d, input, a)
    ensures ParseRelay(d, input).Err? ==> ParseRelay(d, input).error == InvalidAddress
  {
    var text := Trim(d, input);
    var core := Stripped(text, "relay:");
    StrippedExactly(text, "relay:", core);
    if ParseRelay(d, input) == Ok(a) { assert RelayForm(d, text, core, a); }
    forall other | RelayForm(d, text, other, a) ensures other == core {
      StrippedExactly(text, "relay:", other);
    }
  }

  /** An address text is read as the address it names, and refused if it names none. */
  lemma AddressIsRead(d: Decoders, input: string, a: TransportAddr)
    ensures ParseTransport(d, input) == Ok(a) <==> Names(d, input, a)
    ensures ParseTransport(d, input).Err? ==> ParseTransport(d, input).error == InvalidAddress
  {
    TrimTwice(d, input);
    SocketIsRead(d, Trim(d, input), a);
    RelayIsRead(d, Trim(d, input), a);
  }

  /** A text names one address at most. */
  lemma NamesOne(d: Decoders, input: string, a: TransportAddr, b: TransportAddr)
    requires Names(d, input, a) && Names(d, input, b)
    ensures a == b
  {
    AddressIsRead(d, input, a);
    AddressIsRead(d, input, b);
  }

  type Naming = (string, TransportAddr) -> bool

  ghost predicate NamedIn(text: string, addrs: set<TransportAddr>, names: Naming) {
    exists a :: a in addrs && names(text, a)
  }

  predicate SomeNames(inputs: seq<string>, a: TransportAddr, names: Naming) {
    exists i | 0 <= i < |inputs| :: names(inputs[i], a)
  }

  /** The addresses are those the texts name, and each text names one. */
  ghost predicate NamedBy(inputs: seq<string>, addrs: set<TransportAddr>, names: Naming) {
    && (forall i | 0 <= i < |inputs| :: NamedIn(inputs[i], addrs, names))
    && (forall a | a in addrs :: SomeNames(inputs, a, names))
  }

  ghost predicate Reads(parse: string -> Dialed<TransportAddr>, names: Naming) {
    forall s, a :: parse(s) == Ok(a) <==> names(s, a)
  }

  lemma NamedListParses(inputs: seq<string>, addrs: set<TransportAddr>, parse: string -> Dialed<TransportAddr>, names: Naming)
    requires Reads(parse, names) && NamedBy(inputs, addrs, names)
    ensures ParseEach(inputs, parse) == Ok(addrs)
  {
    AllOrNothing(inputs, parse);
    forall i | 0 <= i < |inputs| ensures Parses(inputs[i], parse) && parse(inputs[i]).value in addrs {
      assert NamedIn(inputs[i], addrs, names);
      var a :| a in addrs && names(inputs[i], a);
      assert parse(inputs[i]) == Ok(a);
    }
    var read := ParseEach(inputs, parse).value;
    forall a | a in addrs ensures a in read {
      assert SomeNames(inputs, a, names);
      var i :| 0 <= i < |inputs| && names(inputs[i], a);
      assert parse(inputs[i]) == Ok(a);
    }
    assert read == addrs;
  }

  lemma ParsedListIsNamed(inputs: seq<string>, parse: string -> Dialed<TransportAddr>, names: Naming)
    requires Reads(parse, names) && ParseEach(inputs, parse).Ok?
    ensures NamedBy(inputs, ParseEach(inputs, parse).value, names)
  {
    AllOrNothing(inputs, parse);
    var read := ParseEach(inputs, parse).value;
    forall i | 0 <= i < |inputs| ensures NamedIn(inputs[i], read, names) {
      assert Parses(inputs[i], parse);
      assert parse(inputs[i]).value in read;
    }
  }

  /** A list of texts is read as the addresses they name, and refused if one of them names none. */
  lemma ListIsRead(inputs: seq<string>, addrs: set<TransportAddr>, parse: string -> Dialed<TransportAddr>, names: Naming)
    requires Reads(parse, names)
    ensures ParseEach(inputs, parse) == Ok(addrs) <==> NamedBy(inputs, addrs, names)
  {
    if NamedBy(inputs, addrs, names) { NamedListParses(inputs, addrs, parse, names); }
    if ParseEach(inputs, parse).Ok? { ParsedListIsNamed(inputs, parse, names); }
  }

  /** What a text of a JSON ticket's list names, a text of a target's list, and a target's relay text. */
  ghost function AddressNames(d: Decoders): Naming {
    (s, a) => Names(d, s, a)
  }

  ghost function SocketNames(d: Decoders): Naming {
    (s, a) => NamesSocket(d, s, a)
  }

  ghost function RelayNames(d: Decoders): Naming {
    (s, a) => NamesRelay(d, s, a)
  }

  lemma TransportsRead(d: Decoders)
    ensures Reads(TransportParser(d), AddressNames(d))
  {
    forall s, a ensures TransportParser(d)(s) == Ok(a) <==> AddressNames(d)(s, a) { AddressIsRead(d, s, a); }
  }

  lemma SocketsRead(d: Decoders)
    ensures Reads(DirectParser(d), SocketNames(d))
  {
    forall s, a ensures DirectParser(d)(s) == Ok(a) <==> SocketNames(d)(s, a) { SocketIsRead(d, s, a); }
  }

  lemma RelaysRead(d: Decoders)
    ensures Reads(RelayParser(d), RelayNames(d))
  {
    forall s, a ensures RelayParser(d)(s) == Ok(a) <==> RelayNames(d)(s, a) { RelayIsRead(d, s, a); }
  }

  lemma {:induction false} BadListIsRefused(d: Decoders, inputs: seq<string>)
    ensures var r := ParseEach(inputs, TransportParser(d)); r.Err? ==> r.error == InvalidAddress
  {
    if inputs != [] {
      AddressIsRead(d, inputs[0], Ip(""));
      BadListIsRefused(d, inputs[1..]);
    }
  }

  // ---------------------------------------------------------------------------------------
  // Hints
  // ---------------------------------------------------------------------------------------

  /** There is something to dial in the hint: it is not blank and not the relay text that is only shown. */
  predicate Dialable(d: Decoders, hint: Option<string>) {
    hint.Some? && Trim(d, hint.value) != "" && !("iroh+relay://" <= Trim(d, hint.value))
  }

  function TextOf(d: Decoders, hint: string): string {
    NormalizeHint(d, Trim(d, hint))
  }

  lemma EmptyHintIsRefused(d: Decoders, remote: EndpointId, hint: Option<string>)
    ensures FromHint(d, remote, hint) == Err(OperationFailed) <==> !Dialable(d, hint)
  {
    if Dialable(d, hint) {
      var text := TextOf(d, hint.value);
      if "{" <= text && d.json(text).Some? {
        JsonTicketIsRead(d, remote, hint.value, d.json(text).value, {});
      }
      AddressIsRead(d, text, Ip(""));
    }
  }

  /**
   A hint that is neither JSON nor a ticket dials exactly the one address its text names: the relay
   URL the relay decoder reads if it looks like one, and the socket address the other decoder
   reads if not. If it names none, it is refused.
   */
  lemma PlainHintIsRead(d: Decoders, remote: EndpointId, hint: string, a: EndpointAddr)
    requires Dialable(d, Some(hint))
    requires var text := TextOf(d, hint); !("{" <= text) && !("endpoint" <= text)
    ensures FromHint(d, remote, Some(hint)) == Ok(a)
       <==> exists x :: Names(d, TextOf(d, hint), x) && a == EndpointAddr(remote, {x})
    ensures FromHint(d, remote, Some(hint)).Err? ==> FromHint(d, remote, Some(hint)).error == InvalidAddress
  {
    var text := TextOf(d, hint);
    forall x ensures ParseTransport(d, text) == Ok(x) <==> Names(d, text, x) {
      AddressIsRead(d, text, x);
    }
    AddressIsRead(d, text, Ip(""));
  }

  /** A JSON ticket names the node asked for, by its id if it gives one. */
  ghost predicate IdAgrees(d: Decoders, ticket: LegacyTicket, remote: EndpointId) {
    ticket.id.Some? ==> NamesNode(d, ticket.id.value, remote)
  }

  function Listed(ticket: LegacyTicket): seq<string> {
    if ticket.addrs.Some? then ticket.addrs.value else []
  }

  /** A JSON ticket dials exactly the addresses its list names, if its id agrees and each text names one. */
  lemma JsonTicketIsRead(d: Decoders, remote: EndpointId, hint: string, ticket: LegacyTicket, addrs: set<TransportAddr>)
    requires Dialable(d, Some(hint)) && "{" <= TextOf(d, hint) && d.json(TextOf(d, hint)) == Some(ticket)
    ensures FromHint(d, remote, Some(hint)) == Ok(EndpointAddr(remote, addrs))
       <==> IdAgrees(d, ticket, remote) && addrs != {} && NamedBy(Listed(ticket), addrs, AddressNames(d))
    ensures var r := FromHint(d, remote, Some(hint));
            r.Err? ==> r == Err(if ticket.id.Some? && !exists id :: NamesNode(d, ticket.id.value, id) then InvalidNodeId
                                else if !IdAgrees(d, ticket, remote) then InvalidTicket else InvalidAddress)
  {
    if ticket.id.Some? {
      forall id ensures ParseId(d, ticket.id.value) == Ok(id) <==> NamesNode(d, ticket.id.value, id) {
        IdIsRead(d, ticket.id.value, id);
      }
      IdIsRead(d, ticket.id.value, remote);
    }
    TransportsRead(d);
    ListIsRead(Listed(ticket), addrs, TransportParser(d), AddressNames(d));
    BadListIsRefused(d, Listed(ticket));
    assert FromHint(d, remote, Some(hint)) == FromJson(d, remote, ticket);
  }

  lemma BadJsonIsRefused(d: Decoders, remote: EndpointId, hint: string)
    requires Dialable(d, Some(hint)) && "{" <= TextOf(d, hint) && d.json(TextOf(d, hint)).None?
    ensures FromHint(d, remote, Some(hint)) == Err(InvalidTicket)
  {
  }

  /** A ticket hint dials exactly what the ticket says, if that is the node asked for and has an address. */
  lemma TicketHintIsRead(d: Decoders, remote: EndpointId, hint: string, a: EndpointAddr)
    requires Dialable(d, Some(hint)) && "endpoint" <= TextOf(d, hint)
    ensures FromHint(d, remote, Some(hint)) == Ok(a)
       <==> d.ticket(TextOf(d, hint)) == Some(a) && a.id == remote && a.addrs != {}
    ensures FromHint(d, remote, Some(hint)).Err? ==> FromHint(d, remote, Some(hint)).error == InvalidTicket
  {
    TicketTextIsStable(d, Trim(d, hint));
    assert TextOf(d, hint)[0] == 'e';
  }

  // ---------------------------------------------------------------------------------------
  // Typed targets
  // ---------------------------------------------------------------------------------------

  /** The ticket a typed target carries. */
  predicate TicketSays(d: Decoders, ticket: string, a: EndpointAddr) {
    && Trim(d, ticket) != "" && TextOf(d, ticket) != ""
    && d.ticket(TextOf(d, ticket)) == Some(a) && a.addrs != {}
  }

  /** The node and the addresses a typed target lists: every text names one of them, and each is named. */
  ghost predicate PartsSay(d: Decoders, nodeId: string, direct: seq<string>, relay: seq<string>, a: EndpointAddr) {
    && Trim(d, nodeId) != "" && NamesNode(d, Trim(d, nodeId), a.id)
    && a.addrs != {} && ListsName(d, direct, relay, a.addrs)
  }

  ghost predicate ListsName(d: Decoders, direct: seq<string>, relay: seq<string>, addrs: set<TransportAddr>) {
    exists x, y :: NamedBy(direct, x, SocketNames(d)) && NamedBy(relay, y, RelayNames(d)) && addrs == x + y
  }

  function Given<T>(field: Option<T>): seq<T> {
    if field.Some? then [field.value] else []
  }

  lemma ListsAreRead(d: Decoders, direct: seq<string>, relay: seq<string>, addrs: set<TransportAddr>)
    ensures var xs, ys := ParseEach(direct, DirectParser(d)), ParseEach(relay, RelayParser(d));
            ListsName(d, direct, relay, addrs) <==> xs.Ok? && ys.Ok? && addrs == xs.value + ys.value
  {
    var xs, ys := ParseEach(direct, DirectParser(d)), ParseEach(relay, RelayParser(d));
    SocketsRead(d);
    RelaysRead(d);
    if ListsName(d, direct, relay, addrs) {
      var x, y :| NamedBy(direct, x, SocketNames(d)) && NamedBy(relay, y, RelayNames(d)) && addrs == x + y;
      NamedListParses(direct, x, DirectParser(d), SocketNames(d));
      NamedListParses(relay, y, RelayParser(d), RelayNames(d));
    }
    if xs.Ok? && ys.Ok? {
      ParsedListIsNamed(direct, DirectParser(d), SocketNames(d));
      ParsedListIsNamed(relay, RelayParser(d), RelayNames(d));
    }
  }

  lemma PartsAreRead(d: Decoders, id: EndpointId, direct: seq<string>, relay: Option<string>, a: EndpointAddr)
    ensures FromParts(d, id, direct, relay) == Ok(a)
       <==> a.id == id && a.addrs != {} && ListsName(d, direct, Given(relay), a.addrs)
  {
    ListsAreRead(d, direct, Given(relay), a.addrs);
    var ys := ParseEach(Given(relay), RelayParser(d));
    assert ys == if relay.None? then Ok({}) else ParseEach([relay.value], RelayParser(d));
  }

  lemma NodeTargetIsRead(d: Decoders, kind: string, nodeId: string, direct: Option<seq<string>>, relay: Option<string>,
                         a: EndpointAddr)
    requires Trim(d, kind) == "endpoint-address"
    ensures FromTypedTarget(d, kind, Some(nodeId), None, direct, relay) == Ok(a)
       <==> PartsSay(d, nodeId, if direct.Some? then direct.value else [], Given(relay), a)
  {
    var text := Trim(d, nodeId);
    IdIsRead(d, text, a.id);
    if ParseId(d, text).Ok? {
      PartsAreRead(d, ParseId(d, text).value, if direct.Some? then direct.value else [], relay, a);
    }
  }

  /**
   A typed target is accepted exactly if it is a ticket alone or a node with addresses, and then
   dials exactly what it says.
   */
  lemma TypedTargetIsRead(d: Decoders, kind: string, nodeId: Option<string>, ticket: Option<string>,
                          direct: Option<seq<string>>, relay: Option<string>, a: EndpointAddr)
    ensures FromTypedTarget(d, kind, nodeId, ticket, direct, relay) == Ok(a)
       <==> || (Trim(d, kind) == "endpoint-ticket" && ticket.Some? && nodeId.None? && direct.None? && relay.None?
                && TicketSays(d, ticket.value, a))
            || (Trim(d, kind) == "endpoint-address" && ticket.None? && nodeId.Some?
                && PartsSay(d, nodeId.value, if direct.Some? then direct.value else [], Given(relay), a))
  {
    if Trim(d, kind) == "endpoint-address" && nodeId.Some? && ticket.None? {
      NodeTargetIsRead(d, kind, nodeId.value, direct, relay, a);
    }
  }

  /** A typed target is a ticket alone, or a node with anything but a ticket, and what it must have is not blank. */
  predicate WellShaped(d: Decoders, kind: string, nodeId: Option<string>, ticket: Option<string>,
                       direct: Option<seq<string>>, relay: Option<string>)
  {
    || (Trim(d, kind) == "endpoint-ticket" && nodeId.None? && direct.None? && relay.None?
        && ticket.Some? && Trim(d, ticket.value) != "")
    || (Trim(d, kind) == "endpoint-address" && ticket.None? && nodeId.Some? && Trim(d, nodeId.value) != "")
  }

  lemma {:induction false} BadSocketIsRefused(d: Decoders, inputs: seq<string>)
    ensures var r := ParseEach(inputs, DirectParser(d));
            if r.Err? then r.error == InvalidAddress else (r.value == {} <==> inputs == [])
  {
    if inputs != [] {
      SocketIsRead(d, inputs[0], Ip(""));
      BadSocketIsRefused(d, inputs[1..]);
    }
  }

  lemma OneRelayIsRead(d: Decoders, input: string)
    ensures var r := ParseEach([input], RelayParser(d)); if r.Err? then r.error == InvalidAddress else r.value != {}
  {
    RelayIsRead(d, input, Ip(""));
    assert [input][1..] == [];
  }

  lemma PartsWithoutAddress(d: Decoders, id: EndpointId, direct: seq<string>, relay: Option<string>)
    ensures FromParts(d, id, direct, relay) == Err(InvalidDialTarget) <==> direct == [] && relay.None?
  {
    BadSocketIsRefused(d, direct);
    if relay.Some? { OneRelayIsRead(d, relay.value); }
    var xs := ParseEach(direct, DirectParser(d));
    var ys := if relay.None? then Ok({}) else ParseEach([relay.value], RelayParser(d));
    if xs.Ok? && ys.Ok? {
      assert xs.value + ys.value == {} <==> xs.value == {} && ys.value == {} by {
        assert xs.value <= xs.value + ys.value && ys.value <= xs.value + ys.value;
      }
    }
  }

  /** A target is refused as such exactly if it is misshapen, or names a node and lists no address at all. */
  lemma MisshapenTargetIsRefused(d: Decoders, kind: string, nodeId: Option<string>, ticket: Option<string>,
                                 direct: Option<seq<string>>, relay: Option<string>)
    ensures FromTypedTarget(d, kind, nodeId, ticket, direct, relay) == Err(InvalidDialTarget)
       <==> || !WellShaped(d, kind, nodeId, ticket, direct, relay)
            || (ticket.None? && (direct.None? || direct.value == []) && relay.None?
                && exists id :: NamesNode(d, Trim(d, nodeId.value), id))
  {
    if WellShaped(d, kind, nodeId, ticket, direct, relay) && ticket.None? {
      var text, listed := Trim(d, nodeId.value), if direct.Some? then direct.value else [];
      forall id ensures ParseId(d, text) == Ok(id) <==> NamesNode(d, text, id) { IdIsRead(d, text, id); }
      if ParseId(d, text).Ok? {
        PartsWithoutAddress(d, ParseId(d, text).value, listed, relay);
        assert exists id :: NamesNode(d, Trim(d, nodeId.value), id);
        assert FromTypedTarget(d, kind, nodeId, ticket, direct, relay) == Err(InvalidDialTarget)
          <==> (direct.None? || direct.value == []) && relay.None?;
      }
    }
  }
}
