/**
 What a dial request resolves to. The decoders for node ids, socket addresses, relay URLs,
 endpoint tickets and JSON belong to other libraries; they enter as parameters, about which
 nothing is assumed.
 */
module DialTarget {
  import opened Framing
  import opened SessionKey
  import opened Wrappers

  datatype DialError = InvalidAddress | InvalidTicket | InvalidDialTarget | InvalidNodeId | OperationFailed
  type Dialed<T> = Result<T, DialError>

  datatype TransportAddr = Ip(socket: string) | Relay(url: string)
  datatype EndpointAddr = EndpointAddr(id: EndpointId, addrs: set<TransportAddr>)
  datatype LegacyTicket = LegacyTicket(id: Option<string>, addrs: Option<seq<string>>)

  datatype Decoders = Decoders(
    space: char -> bool,
    z32Id: string -> Option<EndpointId>,
    otherId: string -> Option<EndpointId>,     // hex or base32hex
    socket: string -> Option<string>,
    relayUrl: string -> Option<string>,
    ticket: string -> Option<EndpointAddr>,
    json: string -> Option<LegacyTicket>)
  {
    /** The encoding the bridge itself publishes ids in goes first. */
    function NodeId(text: string): Option<EndpointId> {
      if z32Id(text).Some? then z32Id(text) else otherId(text)
    }
  }

  // ---------------------------------------------------------------------------------------
  // Text
  // ---------------------------------------------------------------------------------------

  function Trim(d: Decoders, s: string): string
    decreases |s|
  {
    if s == "" then ""
    else if d.space(s[0]) then Trim(d, s[1..])
    else if d.space(s[|s| - 1]) then Trim(d, s[..|s| - 1])
    else s
  }

  /** `s` without `prefix`, or `s` itself if it does not start with it. */
  function Stripped(s: string, prefix: string): string {
    if prefix <= s then s[|prefix|..] else s
  }

  lemma {:induction false} TrimTwice(d: Decoders, s: string)
    ensures Trim(d, Trim(d, s)) == Trim(d, s)
    decreases |s|
  {
    if s != "" {
      if d.space(s[0]) { TrimTwice(d, s[1..]); }
      else if d.space(s[|s| - 1]) { TrimTwice(d, s[..|s| - 1]); }
    }
  }

  function NormalizeHint(d: Decoders, input: string): string {
    Trim(d, if "iroh+ticket://" <= input then Stripped(input, "iroh+ticket://") else Stripped(input, "iroh+ticket:"))
  }

  // ---------------------------------------------------------------------------------------
  // Addresses
  // ---------------------------------------------------------------------------------------

  const RELAY_SCHEME: string := "iroh+relay://"
  const IROH_SCHEME: string := "iroh://"

  function WithoutScheme(input: string): string {
    if RELAY_SCHEME <= input then Stripped(input, RELAY_SCHEME) else Stripped(input, IROH_SCHEME)
  }

  /** The scheme comes off only if the text starts with it: what stands before it is not trimmed first. */
  function NormalizeId(d: Decoders, input: string): string {
    Trim(d, WithoutScheme(input))
  }

  function ParseId(d: Decoders, input: string): Dialed<EndpointId> {
    match d.NodeId(NormalizeId(d, input))
    case Some(id) => Ok(id)
    case None => Err(InvalidNodeId)
  }

  function ParseDirect(d: Decoders, input: string): Dialed<TransportAddr> {
    var text := Trim(d, input);
    var value := if "iroh+direct://" <= text then Stripped(text, "iroh+direct://") else Stripped(text, "ip:");
    if value == "" then Err(InvalidAddress)
    else match d.socket(value)
      case Some(socket) => Ok(Ip(socket))
      case None => Err(InvalidAddress)
  }

  function ParseRelay(d: Decoders, input: string): Dialed<TransportAddr> {
    var value := Stripped(Trim(d, input), "relay:");
    if value == "" then Err(InvalidAddress)
    else match d.relayUrl(value)
      case Some(url) => Ok(Relay(url))
      case None => Err(InvalidAddress)
  }

  function ParseTransport(d: Decoders, input: string): Dialed<TransportAddr> {
    var value := Trim(d, input);
    if "http://" <= value || "https://" <= value || "relay:" <= value then ParseRelay(d, value)
    else ParseDirect(d, value)
  }

  /** All of them, or the first error. */
  function ParseEach(inputs: seq<string>, parse: string -> Dialed<TransportAddr>): Dialed<set<TransportAddr>> {
    if inputs == [] then Ok({})
    else match parse(inputs[0])
      case Err(e) => Err(e)
      case Ok(a) =>
        (match ParseEach(inputs[1..], parse)
         case Err(e) => Err(e)
         case Ok(rest) => Ok({a} + rest))
  }

  predicate Parses(input: string, parse: string -> Dialed<TransportAddr>) {
    parse(input).Ok?
  }

  /** One bad address refuses the whole list; otherwise nothing is dropped and nothing added. */
  lemma {:induction false} AllOrNothing(inputs: seq<string>, parse: string -> Dialed<TransportAddr>)
    ensures ParseEach(inputs, parse).Ok? <==> forall i | 0 <= i < |inputs| :: Parses(inputs[i], parse)
    ensures ParseEach(inputs, parse).Ok? ==>
              forall a :: a in ParseEach(inputs, parse).value <==> exists i | 0 <= i < |inputs| :: parse(inputs[i]) == Ok(a)
  {
    if inputs != [] {
      AllOrNothing(inputs[1..], parse);
      assert forall i | 0 < i < |inputs| :: inputs[i] == inputs[1..][i - 1];
      assert forall i | 0 <= i < |inputs| - 1 :: inputs[1..][i] == inputs[i + 1];
    }
  }

  function DirectParser(d: Decoders): string -> Dialed<TransportAddr> {
    s => ParseDirect(d, s)
  }

  function RelayParser(d: Decoders): string -> Dialed<TransportAddr> {
    s => ParseRelay(d, s)
  }

  function TransportParser(d: Decoders): string -> Dialed<TransportAddr> {
    s => ParseTransport(d, s)
  }

  /** What a list comes to once `addrs` have been collected and `rest` is the outcome of what follows. */
  function Joined(addrs: set<TransportAddr>, rest: Dialed<set<TransportAddr>>): Dialed<set<TransportAddr>> {
    match rest
    case Err(e) => Err(e)
    case Ok(more) => Ok(addrs + more)
  }

  lemma JoinedNext(d: Decoders, inputs: seq<string>, addrs: set<TransportAddr>)
    requires inputs != []
    ensures Joined(addrs, ParseEach(inputs, DirectParser(d))) ==
            match ParseDirect(d, inputs[0])
            case Err(e) => Err(e)
            case Ok(a) => Joined(addrs + {a}, ParseEach(inputs[1..], DirectParser(d)))
  {
    var rest := ParseEach(inputs[1..], DirectParser(d));
    if ParseDirect(d, inputs[0]).Ok? && rest.Ok? {
      assert addrs + ({ParseDirect(d, inputs[0]).value} + rest.value) == addrs + {ParseDirect(d, inputs[0]).value} + rest.value;
    }
  }

  /** The address loop of a typed target. */
  method CollectDirect(d: Decoders, inputs: seq<string>) returns (r: Dialed<set<TransportAddr>>)
    ensures r == ParseEach(inputs, DirectParser(d))
  {
    var addrs: set<TransportAddr>, n := {}, 0;
    while n < |inputs|
      invariant n <= |inputs|
      invariant Joined({}, ParseEach(inputs, DirectParser(d))) == Joined(addrs, ParseEach(inputs[n..], DirectParser(d)))
    {
      JoinedNext(d, inputs[n..], addrs);
      assert inputs[n..][1..] == inputs[n + 1..];
      match ParseDirect(d, inputs[n]) {
        case Err(e) =>
          return Err(e);
        case Ok(a) =>
          addrs := addrs + {a};
      }
      n := n + 1;
    }
    r := Ok(addrs);
  }

  // ---------------------------------------------------------------------------------------
  // Tickets, hints and typed targets
  // ---------------------------------------------------------------------------------------

  function FromTicket(d: Decoders, ticket: string): Dialed<EndpointAddr> {
    var value := NormalizeHint(d, ticket);
    if value == "" then Err(InvalidTicket)
    else match d.ticket(value)
      case None => Err(InvalidTicket)
      case Some(addr) => if addr.addrs == {} then Err(InvalidTicket) else Ok(addr)
  }

  function FromJson(d: Decoders, remote: EndpointId, ticket: LegacyTicket): Dialed<EndpointAddr> {
    var id := match ticket.id case Some(text) => ParseId(d, text) case None => Ok(remote);
    if id.Err? then Err(id.error)
    else if id.value != remote then Err(InvalidTicket)
    else match ParseEach(if ticket.addrs.Some? then ticket.addrs.value else [], TransportParser(d))
      case Err(e) => Err(e)
      case Ok(addrs) => if addrs == {} then Err(InvalidAddress) else Ok(EndpointAddr(id.value, addrs))
  }

  function FromHint(d: Decoders, remote: EndpointId, hint: Option<string>): Dialed<EndpointAddr> {
    var given := if hint.Some? then Trim(d, hint.value) else "";
    if given == "" || "iroh+relay://" <= given then Err(OperationFailed)
    else
      var text := NormalizeHint(d, given);
      if "{" <= text then
        match d.json(text)
        case None => Err(InvalidTicket)
        case Some(ticket) => FromJson(d, remote, ticket)
      else if "endpoint" <= text then
        match FromTicket(d, text)
        case Err(e) => Err(e)
        case Ok(addr) => if addr.id != remote then Err(InvalidTicket) else Ok(addr)
      else match ParseTransport(d, text)
        case Err(e) => Err(e)
        case Ok(addr) => Ok(EndpointAddr(remote, {addr}))
  }

  function NonEmpty(d: Decoders, text: Option<string>): Option<string> {
    if text.Some? && Trim(d, text.value) != "" then Some(Trim(d, text.value)) else None
  }

  function FromTypedTarget(d: Decoders, kind: string, nodeId: Option<string>, ticket: Option<string>,
                           direct: Option<seq<string>>, relay: Option<string>): Dialed<EndpointAddr>
  {
    if Trim(d, kind) == "endpoint-ticket" then
      if nodeId.Some? || direct.Some? || relay.Some? || NonEmpty(d, ticket).None? then Err(InvalidDialTarget)
      else FromTicket(d, NonEmpty(d, ticket).value)
    else if Trim(d, kind) == "endpoint-address" then
      if ticket.Some? || NonEmpty(d, nodeId).None? then Err(InvalidDialTarget)
      else match ParseId(d, NonEmpty(d, nodeId).value)
        case Err(e) => Err(e)
        case Ok(id) => FromParts(d, id, if direct.Some? then direct.value else [], relay)
    else Err(InvalidDialTarget)
  }

  function FromParts(d: Decoders, id: EndpointId, direct: seq<string>, relay: Option<string>): Dialed<EndpointAddr> {
    match ParseEach(direct, DirectParser(d))
    case Err(e) => Err(e)
    case Ok(addrs) =>
      var more := if relay.None? then Ok({}) else ParseEach([relay.value], RelayParser(d));
      if more.Err? then Err(more.error)
      else if addrs + more.value == {} then Err(InvalidDialTarget)
      else Ok(EndpointAddr(id, addrs + more.value))
  }

  // ---------------------------------------------------------------------------------------
  // What they promise
  // ---------------------------------------------------------------------------------------

  /** Whatever the decoders make of it, an accepted hint dials the node asked for, and can. */
  lemma HintDialsTheNodeAskedFor(d: Decoders, remote: EndpointId, hint: Option<string>)
    requires FromHint(d, remote, hint).Ok?
    ensures FromHint(d, remote, hint).value.id == remote
    ensures FromHint(d, remote, hint).value.addrs != {}
  {
  }

  /** A typed target is never ambiguous, dials the node it names, and always has an address. */
  lemma TypedTargetIsUnambiguous(d: Decoders, kind: string, nodeId: Option<string>, ticket: Option<string>,
                                 direct: Option<seq<string>>, relay: Option<string>)
    requires FromTypedTarget(d, kind, nodeId, ticket, direct, relay).Ok?
    ensures var a := FromTypedTarget(d, kind, nodeId, ticket, direct, relay).value;
            && a.addrs != {}
            && (ticket.Some? <==> nodeId.None?)
            && (ticket.Some? ==> direct.None? && relay.None?)
            && (nodeId.Some? ==> ParseId(d, Trim(d, nodeId.value)) == Ok(a.id))
            && (nodeId.Some? ==> forall x :: x in a.addrs <==>
                  || (direct.Some? && exists i | 0 <= i < |direct.value| :: ParseDirect(d, direct.value[i]) == Ok(x))
                  || (relay.Some? && ParseRelay(d, relay.value) == Ok(x)))
  {
    if nodeId.Some? {
      AllOrNothing(if direct.Some? then direct.value else [], DirectParser(d));
      if relay.Some? { AllOrNothing([relay.value], RelayParser(d)); }
    }
  }

  /** Text cannot start in two ways that differ. */
  lemma NotBoth(text: string, a: string, b: string, k: nat)
    requires k < |a| && k < |b| && a[k] != b[k] && a <= text
    ensures !(b <= text)
  {
  }

  /** What looks like a ticket once normalized is not changed by normalizing it again. */
  lemma TicketTextIsStable(d: Decoders, given: string)
    requires "endpoint" <= NormalizeHint(d, given)
    ensures NormalizeHint(d, NormalizeHint(d, given)) == NormalizeHint(d, given)
  {
    var text := NormalizeHint(d, given);
    TrimTwice(d, if "iroh+ticket://" <= given then Stripped(given, "iroh+ticket://") else Stripped(given, "iroh+ticket:"));
    assert text[0] == 'e';
    assert !("iroh+ticket://" <= text) && !("iroh+ticket:" <= text);
  }

  lemma RelayHintIsNoTicket(d: Decoders, given: string)
    requires "iroh+relay://" <= given && Trim(d, given) == given
    ensures NormalizeHint(d, given) == given && !("endpoint" <= given)
  {
    NotBoth(given, "iroh+relay://", "iroh+ticket://", 5);
    NotBoth(given, "iroh+relay://", "iroh+ticket:", 5);
    NotBoth(given, "iroh+relay://", "endpoint", 0);
  }

  /** Text with a ticket in it is neither blank nor a display-only relay hint. */
  lemma TicketTextIsDialable(d: Decoders, hint: string)
    requires "endpoint" <= NormalizeHint(d, Trim(d, hint))
    ensures Trim(d, hint) != "" && !("iroh+relay://" <= Trim(d, hint))
  {
    var given := Trim(d, hint);
    TrimTwice(d, hint);
    if "iroh+relay://" <= given { RelayHintIsNoTicket(d, given); }
  }

  /** A ticket means the same as a typed target and as a hint for the node it names. */
  lemma TicketMeansTheSameEitherWay(d: Decoders, kind: string, ticket: string, a: EndpointAddr)
    requires Trim(d, kind) == "endpoint-ticket"
    requires "endpoint" <= NormalizeHint(d, Trim(d, ticket))
    ensures FromTypedTarget(d, kind, None, Some(ticket), None, None) == Ok(a)
       <==> FromHint(d, a.id, Some(ticket)) == Ok(a)
  {
    var given := Trim(d, ticket);
    var text := NormalizeHint(d, given);
    TicketTextIsDialable(d, ticket);
    TicketTextIsStable(d, given);
    assert text[0] == 'e';
    assert !("{" <= text);
    assert FromTicket(d, text) == FromTicket(d, given);
  }

  /** The session a request is served from is filed under the node and protocol asked for. */
  lemma RequestIsFiledUnderItsNode(d: Decoders, z32: Names, remote: EndpointId, hint: Option<string>, alpn: seq<byte>,
                                   peer: EndpointId, alpn': seq<byte>)
    requires GoodNames(z32) && FromHint(d, remote, hint).Ok?
    requires Key(z32, FromHint(d, remote, hint).value.id, alpn) == Key(z32, peer, alpn')
    ensures peer == remote && alpn' == alpn
  {
    HintDialsTheNodeAskedFor(d, remote, hint);
    KeyIsInjective(z32, remote, alpn, peer, alpn');
  }
}
