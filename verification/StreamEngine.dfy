/**
 One framed stream of the native bridge as a transition system.

 Five kinds of actor interleave freely, one atomic action at a time: the writer task, the
 reader task, any number of concurrent `send` calls, any number of concurrent `next_message`
 calls, and the map entry through which `close` and `stop` reach the stream. They share a
 bounded channel, a byte semaphore, the inbox, two notification cells (one for data, one for
 inbox capacity), a versioned close signal and a closed flag. The transport is an ordered
 byte stream in each direction, chunked arbitrarily and allowed to end or fail at any point.
 */
module StreamEngine {
  import opened Framing
  import opened Totals
  import opened Inbox

  const SEND_QUEUE_FRAMES: nat := 64
  const MAX_SEND_QUEUE_BYTES: nat := 16 * 1024 * 1024

  // ---------------------------------------------------------------------------------------
  // Program counters
  // ---------------------------------------------------------------------------------------

  /** The closing sequence shared by the writer's epilogue, the reader's epilogue and `close`. */
  datatype ShutdownPc = StoreClosed | SendTrue | NotifyData | NotifyCapacity | DropHandles | Finished {
    function Rank(): nat {
      match this
      case StoreClosed => 0
      case SendTrue => 1
      case NotifyData => 2
      case NotifyCapacity => 3
      case DropHandles => 4
      case Finished => 5
    }

    function Next(): ShutdownPc {
      match this
      case StoreClosed => SendTrue
      case SendTrue => NotifyData
      case NotifyData => NotifyCapacity
      case NotifyCapacity => DropHandles
      case _ => Finished
    }
  }

  datatype WriterPc =
    | WSelect                                  // waiting for the close signal or a frame
    | WWriting(frame: Frame, offset: nat)      // inside the frame write, or the close signal
    | WEnding(cancelled: bool)                 // left the loop: reset or finish comes next
    | WShutdown(pc: ShutdownPc)

  datatype Wake = Asleep | ByOne | ByAll

  datatype ReaderPc =
    | RSelect(partial: seq<byte>)              // waiting for the close signal or frame bytes
    | RBorrowing(payload: Frame)               // enqueue loop: about to look at the close signal
    | RCreating(payload: Frame)                // about to create the capacity waiter
    | RLocking(payload: Frame, calls: nat)     // waiter created after `calls` broadcasts
    | RPolling(payload: Frame, calls: nat)     // did not fit: about to poll the waiter
    | RParked(payload: Frame, wake: Wake)      // waiter registered
    | RNotifying                               // pushed: its data notification is still ahead
    | REnding(cancelled: bool)
    | RShutdown(pc: ShutdownPc)

  datatype SendOutcome = SendOk | SendFull | SendNotConnected | SendInvalid

  datatype SendPc =
    | SChecking(frame: Frame)                  // looked the stream up: about to read `closed`
    | SAcquiring(frame: Frame)                 // about to take byte permits
    | STrying(frame: Frame)                    // holds its permits: about to push into the channel
    | SReturned(outcome: SendOutcome)

  datatype PollOutcome = Message(frame: Frame) | Nothing | Missing

  datatype PollPc =
    | PTrying(wait: bool)                      // data waiter created: first locked pop
    | PSignalling(frame: Frame)                // popped, inbox lock held: capacity notification ahead
    | PChecking(wait: bool)                    // found nothing: about to read `closed`
    | PWaiting                                 // about to poll the data waiter
    | PParked(woken: bool)
    | PRetrying                                // second locked pop
    | PReturned(outcome: PollOutcome)

  datatype HandlePc = Opening | Registered | Closing(pc: ShutdownPc)

  // ---------------------------------------------------------------------------------------
  // State
  // ---------------------------------------------------------------------------------------

  datatype Fate = Open | FinSent | ResetSent
  datatype Input = Flowing | AtEof | Severed

  /** The sending half: writer task, channel, permits, and what has reached the wire. */
  datatype Outbound = Outbound(
    pc: WriterPc, seen: nat,
    queue: seq<Frame>, permits: nat,
    accepted: seq<Frame>,       // payloads `send` has returned Ok for, in channel order
    written: seq<Frame>, sent: seq<byte>, fate: Fate, failed: bool)

  /** The receiving half: reader task, transport input, inbox, and the capacity notification. */
  datatype Inbound = Inbound(
    pc: ReaderPc, seen: nat,
    rcvd: seq<byte>, consumed: nat, input: Input, drained: bool,
    inbox: InboxState, pushed: seq<Frame>,
    popped: seq<Frame>,         // payloads taken by `next_message`, in order
    permit: bool,               // stored permit of the capacity notification
    calls: nat,                 // broadcasts made on the capacity notification
    stopSent: bool)             // the peer has been asked to stop sending

  datatype Watch = Watch(value: bool, version: nat)
  datatype Signal = Signal(closed: bool, watch: Watch)

  /** The data notification and the `next_message` calls that wait on it. */
  datatype Data = Data(permit: bool, polls: seq<PollPc>)

  datatype State = State(
    solo: bool,                 // callers keep to one `next_message` at a time
    out: Outbound, inb: Inbound, sig: Signal, data: Data,
    sends: seq<SendPc>, handle: HandlePc)

  const INITIAL_OUTBOUND: Outbound := Outbound(WSelect, 0, [], MAX_SEND_QUEUE_BYTES, [], [], [], Open, false)
  const INITIAL_INBOUND: Inbound := Inbound(RSelect([]), 0, [], 0, Flowing, false, EMPTY_INBOX, [], [], false, 0, false)

  predicate Init(s: State) {
    && s.out == INITIAL_OUTBOUND && s.inb == INITIAL_INBOUND
    && s.sig == Signal(false, Watch(false, 0)) && s.data == Data(false, [])
    && s.sends == [] && s.handle == Opening
  }

  // ---------------------------------------------------------------------------------------
  // The writer task
  // ---------------------------------------------------------------------------------------

  datatype WriterAction =
    | WriterChanged | WriterRecv | WriterRecvNone | WriterChunk(n: nat) | WriterFail | WriterFrameDone | WriterEnd

  predicate WriterLooping(o: Outbound) {
    o.pc.WSelect? || o.pc.WWriting?
  }

  predicate WriterGuard(o: Outbound, g: Signal, t: WriterAction) {
    match t
    case WriterChanged => WriterLooping(o) && o.seen != g.watch.version
    case WriterRecv => o.pc.WSelect? && o.queue != []
    case WriterRecvNone => o.pc.WSelect? && o.queue == []
    case WriterChunk(n) => o.pc.WWriting? && 0 < n && o.pc.offset + n <= |Encode(o.pc.frame)|
    case WriterFail => o.pc.WWriting?
    case WriterFrameDone => o.pc.WWriting? && o.pc.offset == |Encode(o.pc.frame)|
    case WriterEnd => o.pc.WEnding?
  }

  function WriterApply(o: Outbound, g: Signal, t: WriterAction): Outbound
    requires WriterGuard(o, g, t)
  {
    match t
    case WriterChanged =>
      if o.pc.WWriting? then
        // The write is abandoned: its frame is dropped and the loop is left either way.
        o.(seen := g.watch.version, pc := WEnding(g.watch.value), permits := o.permits + |o.pc.frame|)
      else if g.watch.value then o.(seen := g.watch.version, pc := WEnding(true))
      else o.(seen := g.watch.version)
    case WriterRecv => o.(pc := WWriting(o.queue[0], 0), queue := o.queue[1..])
    case WriterRecvNone => o.(pc := WEnding(false))
    case WriterChunk(n) =>
      o.(sent := o.sent + Encode(o.pc.frame)[o.pc.offset..o.pc.offset + n],
         pc := WWriting(o.pc.frame, o.pc.offset + n))
    case WriterFail => o.(failed := true, pc := WEnding(false), permits := o.permits + |o.pc.frame|)
    case WriterFrameDone =>
      o.(pc := WSelect, written := o.written + [o.pc.frame], permits := o.permits + |o.pc.frame|)
    case WriterEnd => o.(fate := if o.pc.cancelled then ResetSent else FinSent, pc := WShutdown(StoreClosed))
  }

  // ---------------------------------------------------------------------------------------
  // The capacity notification: the reader is its only waiter
  // ---------------------------------------------------------------------------------------

  /** Wake the parked reader, or store the single permit. */
  function NotifyOneCapacity(b: Inbound): Inbound {
    if b.pc.RParked? && b.pc.wake == Asleep
    then b.(pc := RParked(b.pc.payload, ByOne))
    else b.(permit := true)
  }

  /** Wake the parked reader and every waiter created earlier; no permit is stored. */
  function BroadcastCapacity(b: Inbound): Inbound {
    b.(calls := b.calls + 1,
       pc := if b.pc.RParked? && b.pc.wake == Asleep then RParked(b.pc.payload, ByAll) else b.pc)
  }

  /** Abandon a registered waiter: a wake-up meant for one waiter is passed on. */
  function ForwardCapacity(b: Inbound): Inbound {
    if b.pc.RParked? && b.pc.wake == ByOne then b.(permit := true) else b
  }

  // ---------------------------------------------------------------------------------------
  // The reader task
  // ---------------------------------------------------------------------------------------

  datatype ReaderAction =
    | ReaderChanged | ReaderRead(n: nat) | ReaderEof | ReaderFail
    | ReaderBorrow | ReaderCreate | ReaderTryPush | ReaderPollCapacity | ReaderWoken
    | ReaderNotify | ReaderEnd

  predicate ReaderLooping(b: Inbound) {
    !b.pc.REnding? && !b.pc.RShutdown?
  }

  /** How many bytes the current frame read still asks for: the header first, then the body. */
  function Need(partial: seq<byte>): int {
    if |partial| < HEADER_BYTES then HEADER_BYTES - |partial|
    else HEADER_BYTES + FromBigEndian(partial[..HEADER_BYTES]) - |partial|
  }

  /** Where a frame read stands after it has taken in `partial`. */
  function AfterBytes(partial: seq<byte>): ReaderPc {
    if |partial| < HEADER_BYTES then RSelect(partial)
    else
      var len := FromBigEndian(partial[..HEADER_BYTES]);
      if len == 0 || len > MAX_FRAME_BYTES then REnding(false)
      else if |partial| < HEADER_BYTES + len then RSelect(partial)
      else RBorrowing(partial[HEADER_BYTES..HEADER_BYTES + len])
  }

  predicate ReaderGuard(b: Inbound, g: Signal, t: ReaderAction) {
    match t
    case ReaderChanged => (b.pc.RSelect? || b.pc.RPolling? || b.pc.RParked?) && b.seen != g.watch.version
    case ReaderRead(n) => b.pc.RSelect? && 0 < n <= Need(b.pc.partial) && b.consumed + n <= |b.rcvd|
    case ReaderEof => b.pc.RSelect? && b.input == AtEof && b.consumed == |b.rcvd|
    case ReaderFail => b.pc.RSelect? && b.input == Severed
    case ReaderBorrow => b.pc.RBorrowing?
    case ReaderCreate => b.pc.RCreating?
    case ReaderTryPush => b.pc.RLocking?
    case ReaderPollCapacity => b.pc.RPolling?
    case ReaderWoken => b.pc.RParked? && b.pc.wake != Asleep
    case ReaderNotify => b.pc.RNotifying?
    case ReaderEnd => b.pc.REnding?
  }

  function ReaderApply(b: Inbound, g: Signal, t: ReaderAction): Inbound
    requires ReaderGuard(b, g, t)
  {
    match t
    case ReaderChanged =>
      ForwardCapacity(b).(
        seen := g.watch.version,
        pc := if g.watch.value then REnding(true)
              else if b.pc.RSelect? then RSelect([])   // the read in progress is dropped with its bytes
              else RBorrowing(b.pc.payload))
    case ReaderRead(n) =>
      b.(consumed := b.consumed + n, pc := AfterBytes(b.pc.partial + b.rcvd[b.consumed..b.consumed + n]))
    case ReaderEof => b.(pc := REnding(false), drained := true)
    case ReaderFail => b.(pc := REnding(false))
    case ReaderBorrow => b.(pc := if g.watch.value then REnding(true) else RCreating(b.pc.payload))
    case ReaderCreate => b.(pc := RLocking(b.pc.payload, b.calls))
    case ReaderTryPush =>
      if b.inbox.Fits(b.pc.payload)
      then b.(inbox := b.inbox.Push(b.pc.payload), pushed := b.pushed + [b.pc.payload], pc := RNotifying)
      else b.(pc := RPolling(b.pc.payload, b.pc.calls))
    case ReaderPollCapacity =>
      if b.permit then b.(permit := false, pc := RBorrowing(b.pc.payload))
      else if b.calls != b.pc.calls then b.(pc := RBorrowing(b.pc.payload))
      else b.(pc := RParked(b.pc.payload, Asleep))
    case ReaderWoken => b.(pc := RBorrowing(b.pc.payload))
    case ReaderNotify => b.(pc := RSelect([]))
    case ReaderEnd => b.(stopSent := b.pc.cancelled, pc := RShutdown(StoreClosed))
  }

  // ---------------------------------------------------------------------------------------
  // `send`
  // ---------------------------------------------------------------------------------------

  datatype SendAction = SendBegin(payload: seq<byte>) | SendCheck(i: nat) | SendAcquire(i: nat) | SendTry(i: nat)

  predicate SendGuard(sends: seq<SendPc>, t: SendAction) {
    match t
    case SendBegin(_) => true
    case SendCheck(i) => i < |sends| && sends[i].SChecking?
    case SendAcquire(i) => i < |sends| && sends[i].SAcquiring?
    case SendTry(i) => i < |sends| && sends[i].STrying?
  }

  predicate ReceiverGone(o: Outbound) {
    o.pc == WShutdown(Finished)
  }

  /** The calls after one action. */
  function SendCalls(sends: seq<SendPc>, o: Outbound, g: Signal, handle: HandlePc, t: SendAction): seq<SendPc>
    requires SendGuard(sends, t)
  {
    match t
    case SendBegin(payload) =>
      sends + [if !Legal(payload) then SReturned(SendInvalid)
               else if handle != Registered then SReturned(SendNotConnected)
               else SChecking(payload)]
    case SendCheck(i) => sends[i := if g.closed then SReturned(SendNotConnected) else SAcquiring(sends[i].frame)]
    case SendAcquire(i) => sends[i := if |sends[i].frame| <= o.permits then STrying(sends[i].frame) else SReturned(SendFull)]
    case SendTry(i) =>
      sends[i := SReturned(if ReceiverGone(o) then SendNotConnected
                           else if |o.queue| >= SEND_QUEUE_FRAMES then SendFull else SendOk)]
  }

  /** The channel and its permits after one action. */
  function SendChannel(sends: seq<SendPc>, o: Outbound, t: SendAction): Outbound
    requires SendGuard(sends, t)
  {
    match t
    case SendAcquire(i) =>
      if |sends[i].frame| <= o.permits then o.(permits := o.permits - |sends[i].frame|) else o
    case SendTry(i) =>
      if ReceiverGone(o) || |o.queue| >= SEND_QUEUE_FRAMES
      then o.(permits := o.permits + |sends[i].frame|)
      else o.(queue := o.queue + [sends[i].frame], accepted := o.accepted + [sends[i].frame])
    case _ => o
  }

  // ---------------------------------------------------------------------------------------
  // `next_message`
  // ---------------------------------------------------------------------------------------

  /** Some parked call has not been woken yet. */
  predicate Sleeping(polls: seq<PollPc>) {
    exists i | 0 <= i < |polls| :: polls[i] == PParked(false)
  }

  predicate SleepingAt(polls: seq<PollPc>, i: nat) {
    i < |polls| && polls[i] == PParked(false)
  }

  /** A one-waiter notification must go to a sleeping call when there is one. */
  predicate PickOk(polls: seq<PollPc>, pick: nat) {
    Sleeping(polls) ==> SleepingAt(polls, pick)
  }

  /** Wake one sleeping call, or store the single permit. */
  function NotifyOneData(d: Data, pick: nat): Data {
    if SleepingAt(d.polls, pick) then d.(polls := d.polls[pick := PParked(true)]) else d.(permit := true)
  }

  /** A call holds the inbox lock from its pop to its capacity notification. */
  predicate InboxUnlocked(polls: seq<PollPc>) {
    forall i | 0 <= i < |polls| :: !polls[i].PSignalling?
  }

  datatype PollAction =
    | PollBegin(wait: bool) | PollPop(i: nat) | PollSignal(i: nat) | PollCheck(i: nat)
    | PollWaiter(i: nat) | PollWoken(i: nat) | PollTimeout(i: nat, pick: nat)

  predicate AllReturned(polls: seq<PollPc>) {
    forall i | 0 <= i < |polls| :: polls[i].PReturned?
  }

  predicate PollGuard(d: Data, solo: bool, t: PollAction) {
    match t
    case PollBegin(_) => solo ==> AllReturned(d.polls)
    case PollPop(i) => i < |d.polls| && (d.polls[i].PTrying? || d.polls[i].PRetrying?) && InboxUnlocked(d.polls)
    case PollSignal(i) => i < |d.polls| && d.polls[i].PSignalling?
    case PollCheck(i) => i < |d.polls| && d.polls[i].PChecking?
    case PollWaiter(i) => i < |d.polls| && d.polls[i].PWaiting?
    case PollWoken(i) => i < |d.polls| && d.polls[i] == PParked(true)
    case PollTimeout(i, pick) => i < |d.polls| && d.polls[i].PParked? && PickOk(d.polls[i := PRetrying], pick)
  }

  /** The calls and their notification after one action. */
  function PollData(d: Data, b: Inbound, g: Signal, handle: HandlePc, solo: bool, t: PollAction): Data
    requires PollGuard(d, solo, t)
  {
    match t
    case PollBegin(wait) =>
      d.(polls := d.polls + [if handle == Registered then PTrying(wait) else PReturned(Missing)])
    case PollPop(i) =>
      d.(polls := d.polls[i := if b.inbox.frames != [] then PSignalling(b.inbox.frames[0])
                               else if d.polls[i].PTrying? then PChecking(d.polls[i].wait)
                               else PReturned(Nothing)])
    case PollSignal(i) => d.(polls := d.polls[i := PReturned(Message(d.polls[i].frame))])
    case PollCheck(i) =>
      d.(polls := d.polls[i := if g.closed || !d.polls[i].wait then PReturned(Nothing) else PWaiting])
    case PollWaiter(i) =>
      if d.permit then Data(false, d.polls[i := PRetrying]) else d.(polls := d.polls[i := PParked(false)])
    case PollWoken(i) => d.(polls := d.polls[i := PRetrying])
    case PollTimeout(i, pick) =>
      var d1 := d.(polls := d.polls[i := PRetrying]);
      if d.polls[i].woken then NotifyOneData(d1, pick) else d1   // an unused wake-up is passed on
  }

  /** The receiving half after one action: only the pop and its notification touch it. */
  function PollInbound(d: Data, b: Inbound, solo: bool, t: PollAction): Inbound
    requires PollGuard(d, solo, t)
  {
    match t
    case PollPop(i) =>
      if b.inbox.frames != [] then b.(inbox := b.inbox.Pop(), popped := b.popped + [b.inbox.frames[0]]) else b
    case PollSignal(i) => NotifyOneCapacity(b)
    case _ => b
  }

  // ---------------------------------------------------------------------------------------
  // The closing sequence
  // ---------------------------------------------------------------------------------------

  datatype Actor = Writer | Reader | Closer

  predicate Ends(s: State, who: Actor) {
    match who
    case Writer => s.out.pc.WShutdown?
    case Reader => s.inb.pc.RShutdown?
    case Closer => s.handle.Closing?
  }

  function PcOf(s: State, who: Actor): ShutdownPc
    requires Ends(s, who)
  {
    match who
    case Writer => s.out.pc.pc
    case Reader => s.inb.pc.pc
    case Closer => s.handle.pc
  }

  function SetPc(s: State, who: Actor, pc: ShutdownPc): State {
    match who
    case Writer => s.(out := s.out.(pc := WShutdown(pc)))
    case Reader => s.(inb := s.inb.(pc := RShutdown(pc)))
    case Closer => s.(handle := Closing(pc))
  }

  /** The close signal changes only while some task still listens to it. */
  function SignalClose(g: Signal, listeners: bool): Signal {
    if listeners then g.(watch := Watch(true, g.watch.version + 1)) else g
  }

  function ReceiverDropped(o: Outbound): Outbound {
    o.(queue := [], permits := o.permits + Total(o.queue, Size))
  }

  function Effect(s: State, who: Actor, pc: ShutdownPc, pick: nat): State {
    match pc
    case StoreClosed => s.(sig := s.sig.(closed := true))
    case SendTrue =>
      s.(sig := SignalClose(s.sig, s.out.pc != WShutdown(Finished) || s.inb.pc != RShutdown(Finished)))
    case NotifyData => s.(data := NotifyOneData(s.data, pick))
    case NotifyCapacity => s.(inb := BroadcastCapacity(s.inb))
    case DropHandles =>
      // The writer owns the channel's receiving side: queued frames go, with their permits.
      if who == Writer then s.(out := ReceiverDropped(s.out)) else s
    case Finished => s
  }

  // ---------------------------------------------------------------------------------------
  // The whole stream
  // ---------------------------------------------------------------------------------------

  datatype Step =
    | Write(w: WriterAction)
    | Read(r: ReaderAction, pick: nat)
    | Shutdown(who: Actor, pick: nat)
    | Send(c: SendAction)
    | Poll(p: PollAction)
    | Register                                 // `connect` enters the stream into the map
    | Remove                                   // `close` or `stop` takes it out
    | Deliver(bytes: seq<byte>)
    | EndInput(clean: bool)

  /** Every handle to the channel's sending side is gone. */
  predicate NoSenders(s: State) {
    && s.handle == Closing(Finished)
    && (forall i | 0 <= i < |s.sends| :: s.sends[i].SReturned?)
    && AllReturned(s.data.polls)
  }

  predicate Enabled(s: State, t: Step) {
    match t
    case Write(w) => WriterGuard(s.out, s.sig, w) && (w.WriterRecvNone? ==> NoSenders(s))
    case Read(r, pick) =>
      && ReaderGuard(s.inb, s.sig, r)
      && (r.ReaderTryPush? ==> InboxUnlocked(s.data.polls))
      && (r.ReaderNotify? ==> PickOk(s.data.polls, pick))
    case Shutdown(who, pick) =>
      Ends(s, who) && PcOf(s, who) != Finished && (PcOf(s, who) == NotifyData ==> PickOk(s.data.polls, pick))
    case Send(c) => SendGuard(s.sends, c)
    case Poll(p) => PollGuard(s.data, s.solo, p)
    case Register => s.handle == Opening
    case Remove => s.handle == Registered
    case Deliver(_) => s.inb.input == Flowing
    case EndInput(_) => s.inb.input == Flowing
  }

  function Apply(s: State, t: Step): State
    requires Enabled(s, t)
  {
    match t
    case Write(w) => s.(out := WriterApply(s.out, s.sig, w))
    case Read(r, pick) =>
      s.(inb := ReaderApply(s.inb, s.sig, r),
         data := if r.ReaderNotify? then NotifyOneData(s.data, pick) else s.data)
    case Shutdown(who, pick) => SetPc(Effect(s, who, PcOf(s, who), pick), who, PcOf(s, who).Next())
    case Send(c) =>
      s.(sends := SendCalls(s.sends, s.out, s.sig, s.handle, c), out := SendChannel(s.sends, s.out, c))
    case Poll(p) =>
      s.(data := PollData(s.data, s.inb, s.sig, s.handle, s.solo, p), inb := PollInbound(s.data, s.inb, s.solo, p))
    case Register => s.(handle := Registered)
    case Remove => s.(handle := Closing(StoreClosed))
    case Deliver(bytes) => s.(inb := s.inb.(rcvd := s.inb.rcvd + bytes))
    case EndInput(clean) => s.(inb := s.inb.(input := if clean then AtEof else Severed))
  }

  // ---------------------------------------------------------------------------------------
  // Runs
  // ---------------------------------------------------------------------------------------

  ghost predicate Reaches(s: State, ts: seq<Step>, t: State)
    decreases |ts|
  {
    if ts == [] then s == t
    else Enabled(s, ts[0]) && Reaches(Apply(s, ts[0]), ts[1..], t)
  }

  ghost predicate Reachable(t: State) {
    exists s, ts :: Init(s) && Reaches(s, ts, t)
  }

  /** A run that is not empty comes to its last step. */
  lemma {:induction false} LastStep(s: State, ts: seq<Step>, t: State) returns (m: State)
    requires Reaches(s, ts, t) && ts != []
    ensures var n := |ts| - 1;
            Reaches(s, ts[..n], m) && Enabled(m, ts[n]) && t == Apply(m, ts[n])
    decreases |ts|
  {
    if |ts| == 1 {
      m := s;
    } else {
      m := LastStep(Apply(s, ts[0]), ts[1..], t);
      assert ts[..|ts| - 1][1..] == ts[1..][..|ts| - 2];
    }
  }
}
