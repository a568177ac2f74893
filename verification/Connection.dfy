/**
 One WebSocket connection: the bounded outbound queue, and the three pumps that share it with the
 hub and shut each other down.

 Every channel operation, socket operation and cancel is one atomic step. What the peer, the clock,
 the hub's broadcasts and other connections do are input actions that may come at any time, among
 them the failure of a read. A read whose context is cancelled returns with an error; whether a write
 or a ping fails is left open.
 */
module Connection {
  import H = Hub

  type Data = int

  // ---------- the outbound queue ----------

  /** A Go channel of limited capacity. `closes` counts the close operations carried out. */
  datatype Queue = Queue(items: seq<Data>, closed: bool, closes: nat)

  /** Non-blocking send; on a closed channel the panic is recovered and false is returned. */
  function Offer(q: Queue, capacity: nat, data: Data): (Queue, bool) {
    if q.closed || |q.items| >= capacity then (q, false) else (q.(items := q.items + [data]), true)
  }

  /** closeOnce.Do(close). */
  function CloseOnce(q: Queue): Queue {
    if q.closed then q else q.(closed := true, closes := q.closes + 1)
  }

  class WsConn {
    const capacity: nat
    var outbound: seq<Data>
    var closed: bool
    var once: bool
    ghost var closes: nat

    ghost function Contents(): Queue
      reads this
    {
      Queue(outbound, closed, closes)
    }

    ghost predicate Valid()
      reads this
    {
      |outbound| <= capacity && once == closed && closes == if closed then 1 else 0
    }

    constructor (bufSize: nat)
      ensures Valid() && Contents() == Queue([], false, 0) && capacity == bufSize
    {
      capacity, outbound, closed, once, closes := bufSize, [], false, false, 0;
    }

    method Send(data: Data) returns (accepted: bool)
      requires Valid()
      modifies this
      ensures Valid() && (Contents(), accepted) == Offer(old(Contents()), capacity, data)
    {
      accepted := false;
      if closed {
        return; // the recovered panic leaves the zero value
      }
      if |outbound| < capacity {
        outbound := outbound + [data];
        return true;
      }
    }

    method CloseOutbound()
      requires Valid()
      modifies this
      ensures Valid() && Contents() == CloseOnce(old(Contents()))
    {
      if !once {
        once := true;
        closed := true;
        closes := closes + 1;
      }
    }
  }

  // ---------- the pumps ----------

  /** The room of the connecting request, which is registered before the pumps start, counts as a first Subscribe. */
  datatype Incoming = Subscribe(room: H.RoomId) | Unsubscribe(room: H.RoomId) | Answered(reply: Data)

  /** readPump; the stages from Cancelling on are its deferred calls. */
  datatype Reader =
    | Reading | Handling(message: Incoming)
    | RCancelling | RDisconnecting | RClosingOutbound | RClosingSocket | RDone

  datatype Writer = Waiting | Writing(data: Data) | WDisconnecting | WCancelling | WDone

  datatype Pinger = Selecting | Pinging | PDisconnecting | PClosingOutbound | PCancelling | PDone

  datatype Config = Config(outboundCapacity: nat, hubCapacity: nat, conn: H.Conn, user: H.UserId)

  /** This connection's own requests that wait in the hub's queues. */
  datatype Own = Own(registers: seq<H.RoomId>, unregisters: seq<H.RoomId>, disconnects: nat)

  /**
   The hub's side: the lengths of its queues, other connections' requests included, how often this
   connection was put into the last one, and its requests in the order in which the hub took them.
   */
  datatype HubSide = HubSide(
    register: nat, unregister: nat, disconnect: nat, disconnects: nat, own: Own, picks: seq<H.Request>)

  /**
   `accepted` are the sends that returned true, `written` what the socket took, `dropped` the data of a
   failed write.
   */
  datatype State = State(
    reader: Reader, writer: Writer, pinger: Pinger, cancelled: bool, outbound: Queue, hub: HubSide,
    accepted: seq<Data>, written: seq<Data>, dropped: seq<Data>)

  const INITIAL :=
    State(Reading, Waiting, Selecting, false, Queue([], false, 0), HubSide(0, 0, 0, 0, Own([], [], 0), []), [], [], [])

  datatype HubQueue = Registers | Unregisters | Disconnects

  datatype Action =
    // inputs
    | Broadcast(data: Data, parked: bool)
    | Receive(message: Incoming)
    | Tick
    | OthersQueue(queue: HubQueue)
    | ReadBreaks
    // steps of the pumps and of the draining hub
    | ReadSeesCancel
    | Handle(parked: bool)
    | ReaderExits
    | TakeOutbound | WriteSucceeds | WriteFails | OutboundEnds
    | WriterExits
    | PingSucceeds | PingFails | SeesCancel
    | PingerExits
    | HubDrains(queue: HubQueue, own: bool)

  predicate IsInput(a: Action) {
    a.Broadcast? || a.Receive? || a.Tick? || a.OthersQueue? || a.ReadBreaks?
  }

  /**
   An unbuffered channel counts as one slot: the hub has the request as soon as it is sent, and the slot is
   taken until the hub is done with it.
   */
  function HubSlots(cfg: Config): nat {
    if cfg.hubCapacity == 0 then 1 else cfg.hubCapacity
  }

  function Length(h: HubSide, queue: HubQueue): nat {
    match queue
    case Registers => h.register
    case Unregisters => h.unregister
    case Disconnects => h.disconnect
  }

  function OwnLength(h: HubSide, queue: HubQueue): nat {
    match queue
    case Registers => |h.own.registers|
    case Unregisters => |h.own.unregisters|
    case Disconnects => h.own.disconnects
  }

  /** All that waits for the hub. */
  function Load(h: HubSide): nat {
    h.register + h.unregister + h.disconnect
  }

  predicate HasRoom(cfg: Config, s: State, queue: HubQueue) {
    Length(s.hub, queue) < HubSlots(cfg)
  }

  predicate Enabled(cfg: Config, s: State, a: Action) {
    match a
    case Broadcast(_, _) => true
    case Receive(_) => s.reader.Reading?
    case Tick => s.pinger.Selecting?
    case OthersQueue(q) => HasRoom(cfg, s, q)
    case ReadBreaks => s.reader.Reading?
    case ReadSeesCancel => s.reader.Reading? && s.cancelled
    case Handle(_) =>
      s.reader.Handling? && (s.reader.message.Subscribe? ==> HasRoom(cfg, s, Registers))
      && (s.reader.message.Unsubscribe? ==> HasRoom(cfg, s, Unregisters))
    case ReaderExits =>
      || s.reader.RCancelling? || s.reader.RClosingOutbound? || s.reader.RClosingSocket?
      || (s.reader.RDisconnecting? && HasRoom(cfg, s, Disconnects))
    case TakeOutbound => s.writer.Waiting? && s.outbound.items != []
    case WriteSucceeds => s.writer.Writing?
    case WriteFails => s.writer.Writing?
    case OutboundEnds => s.writer.Waiting? && s.outbound.items == [] && s.outbound.closed
    case WriterExits => s.writer.WCancelling? || (s.writer.WDisconnecting? && HasRoom(cfg, s, Disconnects))
    case PingSucceeds => s.pinger.Pinging?
    case PingFails => s.pinger.Pinging?
    case SeesCancel => s.pinger.Selecting? && s.cancelled
    case PingerExits =>
      || s.pinger.PClosingOutbound? || s.pinger.PCancelling?
      || (s.pinger.PDisconnecting? && HasRoom(cfg, s, Disconnects))
    case HubDrains(q, own) => CanDrain(s.hub, q, own)
  }

  /** Send: a writer parked on the empty channel gets the data directly. */
  function Send(cfg: Config, s: State, data: Data, parked: bool): State {
    if parked && s.writer.Waiting? && s.outbound.items == [] && !s.outbound.closed then
      s.(writer := Writing(data), accepted := s.accepted + [data])
    else
      var (q, ok) := Offer(s.outbound, cfg.outboundCapacity, data);
      if ok then s.(outbound := q, accepted := s.accepted + [data]) else s
  }

  /** Another connection's request. */
  function QueueOthers(h: HubSide, queue: HubQueue): (h': HubSide)
    ensures Load(h') == Load(h) + 1 && h'.disconnects == h.disconnects
  {
    match queue
    case Registers => h.(register := h.register + 1)
    case Unregisters => h.(unregister := h.unregister + 1)
    case Disconnects => h.(disconnect := h.disconnect + 1)
  }

  /** Into an unbuffered channel a request is sent by the hub taking it. */
  function QueueRegister(cfg: Config, h: HubSide, room: H.RoomId): (h': HubSide)
    ensures Load(h') == Load(h) + 1 && h'.disconnects == h.disconnects
  {
    var h1 := h.(register := h.register + 1);
    if cfg.hubCapacity == 0 then h1.(picks := h.picks + [H.Register(cfg.conn, cfg.user, room)])
    else h1.(own := h.own.(registers := h.own.registers + [room]))
  }

  function QueueUnregister(cfg: Config, h: HubSide, room: H.RoomId): (h': HubSide)
    ensures Load(h') == Load(h) + 1 && h'.disconnects == h.disconnects
  {
    var h1 := h.(unregister := h.unregister + 1);
    if cfg.hubCapacity == 0 then h1.(picks := h.picks + [H.Unregister(cfg.conn, room)])
    else h1.(own := h.own.(unregisters := h.own.unregisters + [room]))
  }

  function QueueDisconnect(cfg: Config, h: HubSide): (h': HubSide)
    ensures Load(h') == Load(h) + 1 && h'.disconnects == h.disconnects + 1
  {
    var h1 := h.(disconnect := h.disconnect + 1, disconnects := h.disconnects + 1);
    if cfg.hubCapacity == 0 then h1.(picks := h.picks + [H.Disconnect(cfg.conn)])
    else h1.(own := h.own.(disconnects := h.own.disconnects + 1))
  }

  predicate CanDrain(h: HubSide, queue: HubQueue, own: bool) {
    Length(h, queue) > 0 && if own then OwnLength(h, queue) > 0 else OwnLength(h, queue) < Length(h, queue)
  }

  /** The hub takes the connection's oldest request from a queue. */
  function Pick(cfg: Config, h: HubSide, queue: HubQueue): (h': HubSide)
    requires OwnLength(h, queue) > 0
    ensures Load(h') == Load(h) && Length(h', queue) == Length(h, queue) && h'.disconnects == h.disconnects
  {
    match queue
    case Registers =>
      h.(picks := h.picks + [H.Register(cfg.conn, cfg.user, h.own.registers[0])],
         own := h.own.(registers := h.own.registers[1..]))
    case Unregisters =>
      h.(picks := h.picks + [H.Unregister(cfg.conn, h.own.unregisters[0])],
         own := h.own.(unregisters := h.own.unregisters[1..]))
    case Disconnects =>
      h.(picks := h.picks + [H.Disconnect(cfg.conn)], own := h.own.(disconnects := h.own.disconnects - 1))
  }

  /** A request leaves its queue: one of the connection's own, or another one's. */
  function Drain(cfg: Config, h: HubSide, queue: HubQueue, own: bool): (h': HubSide)
    requires CanDrain(h, queue, own)
    ensures Load(h') + 1 == Load(h) && h'.disconnects == h.disconnects
  {
    var h1 := if own then Pick(cfg, h, queue) else h;
    match queue
    case Registers => h1.(register := h1.register - 1)
    case Unregisters => h1.(unregister := h1.unregister - 1)
    case Disconnects => h1.(disconnect := h1.disconnect - 1)
  }

  function Do(cfg: Config, s: State, a: Action): State {
    if !Enabled(cfg, s, a) then s
    else
      match a
      case Broadcast(data, parked) => Send(cfg, s, data, parked)
      case Receive(message) => s.(reader := Handling(message))
      case Tick => s.(pinger := Pinging)
      case OthersQueue(queue) => s.(hub := QueueOthers(s.hub, queue))
      case ReadBreaks => s.(reader := RCancelling)
      case ReadSeesCancel => s.(reader := RCancelling)
      case Handle(parked) =>
        match s.reader.message {
          case Subscribe(room) => s.(reader := Reading, hub := QueueRegister(cfg, s.hub, room))
          case Unsubscribe(room) => s.(reader := Reading, hub := QueueUnregister(cfg, s.hub, room))
          case Answered(reply) => Send(cfg, s.(reader := Reading), reply, parked)
        }
      case ReaderExits =>
        if s.reader.RCancelling? then s.(reader := RDisconnecting, cancelled := true)
        else if s.reader.RDisconnecting? then s.(reader := RClosingOutbound, hub := QueueDisconnect(cfg, s.hub))
        else if s.reader.RClosingOutbound? then s.(reader := RClosingSocket, outbound := CloseOnce(s.outbound))
        else s.(reader := RDone)
      case TakeOutbound =>
        s.(writer := Writing(s.outbound.items[0]), outbound := s.outbound.(items := s.outbound.items[1..]))
      case WriteSucceeds => s.(writer := Waiting, written := s.written + [s.writer.data])
      case WriteFails => s.(writer := WDisconnecting, dropped := [s.writer.data])
      case OutboundEnds => s.(writer := WCancelling)
      case WriterExits =>
        if s.writer.WDisconnecting? then s.(writer := WCancelling, hub := QueueDisconnect(cfg, s.hub))
        else s.(writer := WDone, cancelled := true)
      case PingSucceeds => s.(pinger := Selecting)
      case PingFails => s.(pinger := PDisconnecting)
      case SeesCancel => s.(pinger := PCancelling)
      case PingerExits =>
        if s.pinger.PDisconnecting? then s.(pinger := PClosingOutbound, hub := QueueDisconnect(cfg, s.hub))
        else if s.pinger.PClosingOutbound? then s.(pinger := PCancelling, outbound := CloseOnce(s.outbound))
        else s.(pinger := PDone, cancelled := true)
      case HubDrains(queue, own) => s.(hub := Drain(cfg, s.hub, queue, own))
  }

  function Exec(cfg: Config, s: State, actions: seq<Action>): State
    decreases |actions|
  {
    if actions == [] then s else Exec(cfg, Do(cfg, s, actions[0]), actions[1..])
  }

  // ---------- the outbound data ----------

  function InHand(s: State): seq<Data> {
    if s.writer.Writing? then [s.writer.data] else []
  }

  /** Every accepted send is written, dropped by the failing write, in hand or still queued, in order. */
  ghost predicate Accounted(s: State) {
    && s.accepted == s.written + s.dropped + InHand(s) + s.outbound.items
    && (s.dropped != [] ==> s.writer.WDisconnecting? || s.writer.WCancelling? || s.writer.WDone?)
  }

  ghost predicate QueueOk(cfg: Config, s: State) {
    && |s.outbound.items| <= cfg.outboundCapacity
    && s.outbound.closes == if s.outbound.closed then 1 else 0
  }

  // ---------- the exit protocol ----------

  ghost predicate ExitsOk(s: State) {
    && (s.reader.RDisconnecting? || s.reader.RClosingOutbound? || s.reader.RClosingSocket? || s.reader.RDone? ==>
          s.cancelled)
    && (s.reader.RClosingOutbound? || s.reader.RClosingSocket? || s.reader.RDone? ==> s.hub.disconnects > 0)
    && (s.reader.RClosingSocket? || s.reader.RDone? ==> s.outbound.closed)
    && (s.writer.WDone? || s.pinger.PDone? ==> s.cancelled)
    && (s.writer.WCancelling? || s.writer.WDone? ==> s.hub.disconnects > 0 || s.outbound.closed)
  }

  ghost predicate Inv(cfg: Config, s: State) {
    Accounted(s) && QueueOk(cfg, s) && ExitsOk(s)
  }

  predicate AllDone(s: State) {
    s.reader.RDone? && s.writer.WDone? && s.pinger.PDone?
  }

  /** The context is cancelled, or a pump is on its way to cancel it. */
  predicate Stopping(s: State) {
    || s.cancelled
    || !(s.reader.Reading? || s.reader.Handling?)
    || !(s.writer.Waiting? || s.writer.Writing?)
    || !(s.pinger.Selecting? || s.pinger.Pinging?)
  }

  lemma SendKeepsAccounts(cfg: Config, s: State, data: Data, parked: bool)
    requires Accounted(s)
    ensures Accounted(Send(cfg, s, data, parked))
  {
    var s' := Send(cfg, s, data, parked);
    if s'.accepted != s.accepted {
      assert s.accepted + [data] == s.written + s.dropped + InHand(s) + (s.outbound.items + [data]);
      if s'.writer != s.writer {
        assert s.written + s.dropped + [data] == s.written + s.dropped + InHand(s) + (s.outbound.items + [data]);
      }
    }
  }

  lemma DoKeepsQueue(cfg: Config, s: State, a: Action)
    requires QueueOk(cfg, s)
    ensures QueueOk(cfg, Do(cfg, s, a))
  {
  }

  /** A step that leaves the data where it is. */
  lemma StillAccounted(s: State, s': State)
    requires Accounted(s) && s'.accepted == s.accepted && s'.written == s.written && s'.dropped == s.dropped
    requires s'.outbound.items == s.outbound.items && InHand(s') == InHand(s)
    requires s'.dropped != [] ==> s'.writer.WDisconnecting? || s'.writer.WCancelling? || s'.writer.WDone?
    ensures Accounted(s')
  {
  }

  lemma WriterKeepsAccounts(cfg: Config, s: State, a: Action)
    requires Accounted(s) && Enabled(cfg, s, a) && (a.TakeOutbound? || a.WriteSucceeds? || a.WriteFails?)
    ensures Accounted(Do(cfg, s, a))
  {
    assert s.dropped == [];
    if a.TakeOutbound? {
      assert s.outbound.items == [s.outbound.items[0]] + s.outbound.items[1..];
    }
  }

  lemma DoKeepsAccounts(cfg: Config, s: State, a: Action)
    requires Accounted(s)
    ensures Accounted(Do(cfg, s, a))
  {
    if Enabled(cfg, s, a) {
      if a.Broadcast? {
        SendKeepsAccounts(cfg, s, a.data, a.parked);
      } else if a.Handle? && s.reader.message.Answered? {
        SendKeepsAccounts(cfg, s.(reader := Reading), s.reader.message.reply, a.parked);
      } else if a.TakeOutbound? || a.WriteSucceeds? || a.WriteFails? {
        WriterKeepsAccounts(cfg, s, a);
      } else {
        StillAccounted(s, Do(cfg, s, a));
      }
    }
  }

  lemma DoKeepsExits(cfg: Config, s: State, a: Action)
    requires ExitsOk(s)
    ensures ExitsOk(Do(cfg, s, a))
    ensures Stopping(s) ==> Stopping(Do(cfg, s, a))
  {
  }

  lemma DoKeepsInv(cfg: Config, s: State, a: Action)
    requires Inv(cfg, s)
    ensures Inv(cfg, Do(cfg, s, a))
    ensures Stopping(s) ==> Stopping(Do(cfg, s, a))
  {
    DoKeepsAccounts(cfg, s, a);
    DoKeepsQueue(cfg, s, a);
    DoKeepsExits(cfg, s, a);
  }

  lemma {:induction false} ExecKeepsInv(cfg: Config, s: State, actions: seq<Action>)
    requires Inv(cfg, s)
    ensures Inv(cfg, Exec(cfg, s, actions))
    ensures Stopping(s) ==> Stopping(Exec(cfg, s, actions))
    decreases |actions|
  {
    if actions != [] {
      DoKeepsInv(cfg, s, actions[0]);
      ExecKeepsInv(cfg, Do(cfg, s, actions[0]), actions[1..]);
    }
  }

  /**
   For any interleaving: what the socket got is a prefix of the sends that returned true, the queue
   stays within its capacity, and it is closed at most once.
   */
  lemma WrittenIsPrefixOfAccepted(cfg: Config, actions: seq<Action>)
    ensures var s := Exec(cfg, INITIAL, actions);
            s.written <= s.accepted && |s.outbound.items| <= cfg.outboundCapacity && s.outbound.closes <= 1
  {
    ExecKeepsInv(cfg, INITIAL, actions);
  }

  /** A closed queue stays closed and no later send is accepted, whoever sends. */
  lemma {:induction false} NothingAcceptedAfterClose(cfg: Config, s: State, actions: seq<Action>)
    requires s.outbound.closed
    ensures var s' := Exec(cfg, s, actions); s'.outbound.closed && s'.accepted == s.accepted
    decreases |actions|
  {
    if actions != [] {
      NothingAcceptedAfterClose(cfg, Do(cfg, s, actions[0]), actions[1..]);
    }
  }

  // ---------- progress ----------

  function ReaderRank(r: Reader): nat {
    match r
    case Handling(_) => 9
    case Reading => 6
    case RCancelling => 5
    case RDisconnecting => 4
    case RClosingOutbound => 2
    case RClosingSocket => 1
    case RDone => 0
  }

  function WriterRank(w: Writer): nat {
    match w
    case Writing(_) => 5
    case Waiting => 4
    case WDisconnecting => 3
    case WCancelling => 1
    case WDone => 0
  }

  function PingerRank(p: Pinger): nat {
    match p
    case Pinging => 6
    case Selecting => 5
    case PDisconnecting => 4
    case PClosingOutbound => 2
    case PCancelling => 1
    case PDone => 0
  }

  function Measure(s: State): nat {
    ReaderRank(s.reader) + WriterRank(s.writer) + PingerRank(s.pinger)
    + 2 * |s.outbound.items| + Load(s.hub)
  }

  /** Every step of a pump or of the hub makes the measure smaller; an input adds at most three. */
  lemma MeasureDecreases(cfg: Config, s: State, a: Action)
    requires Enabled(cfg, s, a)
    ensures if IsInput(a) then Measure(Do(cfg, s, a)) <= Measure(s) + 3 else Measure(Do(cfg, s, a)) < Measure(s)
  {
  }

  /** While the hub drains its queues, stopping pumps always have a step left until all are done. */
  lemma NeverStuck(cfg: Config, s: State)
    requires Inv(cfg, s) && Stopping(s) && !AllDone(s)
    ensures exists a :: !IsInput(a) && Enabled(cfg, s, a)
  {
    if s.hub.disconnect > 0 {
      assert Enabled(cfg, s, HubDrains(Disconnects, s.hub.own.disconnects > 0));
    } else if s.hub.register > 0 {
      assert Enabled(cfg, s, HubDrains(Registers, s.hub.own.registers != []));
    } else if s.hub.unregister > 0 {
      assert Enabled(cfg, s, HubDrains(Unregisters, s.hub.own.unregisters != []));
    } else if s.reader.Handling? {
      assert Enabled(cfg, s, Handle(false));
    } else if s.writer.Writing? {
      assert Enabled(cfg, s, WriteFails);
    } else if s.pinger.Pinging? {
      assert Enabled(cfg, s, PingFails);
    } else if s.writer.WDisconnecting? || s.writer.WCancelling? {
      assert Enabled(cfg, s, WriterExits);
    } else if !s.reader.Reading? && !s.reader.RDone? {
      assert Enabled(cfg, s, ReaderExits);
    } else if !s.pinger.Selecting? && !s.pinger.PDone? {
      assert Enabled(cfg, s, PingerExits);
    } else if s.reader.Reading? {
      assert Enabled(cfg, s, ReadSeesCancel);
    } else if s.pinger.Selecting? {
      assert Enabled(cfg, s, SeesCancel);
    } else {
      assert Enabled(cfg, s, if s.outbound.items == [] then OutboundEnds else TakeOutbound);
    }
  }

  /** How many actions of a run are inputs, and how many are steps that happen. */
  function Inputs(actions: seq<Action>): nat {
    if actions == [] then 0 else (if IsInput(actions[0]) then 1 else 0) + Inputs(actions[1..])
  }

  function Steps(cfg: Config, s: State, actions: seq<Action>): nat
    decreases |actions|
  {
    if actions == [] then 0
    else
      (if !IsInput(actions[0]) && Enabled(cfg, s, actions[0]) then 1 else 0)
      + Steps(cfg, Do(cfg, s, actions[0]), actions[1..])
  }

  /** Only inputs keep the pumps busy: any run has at most this many steps of its own. */
  lemma {:induction false} StepsAreBounded(cfg: Config, s: State, actions: seq<Action>)
    ensures Steps(cfg, s, actions) + Measure(Exec(cfg, s, actions)) <= Measure(s) + 3 * Inputs(actions)
    decreases |actions|
  {
    if actions != [] {
      if Enabled(cfg, s, actions[0]) {
        MeasureDecreases(cfg, s, actions[0]);
      }
      StepsAreBounded(cfg, Do(cfg, s, actions[0]), actions[1..]);
    }
  }

  /** When all pumps are done: context cancelled, queue closed exactly once, Disconnect queued. */
  lemma DoneMeansCleanedUp(cfg: Config, actions: seq<Action>)
    requires AllDone(Exec(cfg, INITIAL, actions))
    ensures var s := Exec(cfg, INITIAL, actions);
            s.cancelled && s.outbound.closed && s.outbound.closes == 1 && s.hub.disconnects > 0
  {
    ExecKeepsInv(cfg, INITIAL, actions);
  }

  /** From any reachable stopping state, steps alone lead to the end. */
  lemma {:induction false} CanAlwaysFinish(cfg: Config, s: State) returns (actions: seq<Action>)
    requires Inv(cfg, s) && Stopping(s)
    ensures forall i :: 0 <= i < |actions| ==> !IsInput(actions[i])
    ensures AllDone(Exec(cfg, s, actions)) && |actions| <= Measure(s)
    decreases Measure(s)
  {
    if AllDone(s) {
      actions := [];
    } else {
      NeverStuck(cfg, s);
      var a :| !IsInput(a) && Enabled(cfg, s, a);
      MeasureDecreases(cfg, s, a);
      DoKeepsInv(cfg, s, a);
      var rest := CanAlwaysFinish(cfg, Do(cfg, s, a));
      actions := [a] + rest;
      assert actions[1..] == rest;
    }
  }

  /**
   However the pumps and the hub go on from a reachable stopping state without further input: they make no
   more steps than the measure says, and where no step is left, all three pumps are done and cleaned up.
   */
  lemma MaximalRunsFinish(cfg: Config, before: seq<Action>, after: seq<Action>)
    requires Stopping(Exec(cfg, INITIAL, before)) && Inputs(after) == 0
    ensures var s := Exec(cfg, INITIAL, before); var end := Exec(cfg, s, after);
            && Steps(cfg, s, after) <= Measure(s)
            && ((forall a :: Enabled(cfg, end, a) ==> IsInput(a)) ==>
                  AllDone(end) && end.cancelled && end.outbound.closes == 1 && end.hub.disconnects > 0)
  {
    ExecKeepsInv(cfg, INITIAL, before);
    var s := Exec(cfg, INITIAL, before);
    ExecKeepsInv(cfg, s, after);
    StepsAreBounded(cfg, s, after);
    var end := Exec(cfg, s, after);
    if !AllDone(end) {
      NeverStuck(cfg, end);
    }
  }

  /** The hub's disconnect queue is full, the reader waits for a place in it and the writer for the close. */
  ghost predicate OnlyTheHubIsLeft(cfg: Config, s: State) {
    && s.reader.RDisconnecting? && !HasRoom(cfg, s, Disconnects)
    && s.writer.Waiting? && s.outbound.items == [] && !s.outbound.closed && s.pinger.PDone?
  }

  /**
   The draining hub is needed: with its disconnect queue full, a reader about to disconnect waits, the
   writer waits for the close that the reader would do, and only the hub can move them.
   */
  lemma OnlyTheHubCanHelp(cfg: Config, s: State, a: Action)
    requires OnlyTheHubIsLeft(cfg, s) && !IsInput(a) && Enabled(cfg, s, a)
    ensures a.HubDrains?
  {
  }

  lemma {:induction false} ExecAppend(cfg: Config, s: State, a: seq<Action>, b: seq<Action>)
    ensures Exec(cfg, s, a + b) == Exec(cfg, Exec(cfg, s, a), b)
    decreases |a|
  {
    if a == [] {
      assert a + b == b;
    } else {
      assert (a + b)[1..] == a[1..] + b;
      ExecAppend(cfg, Do(cfg, s, a[0]), a[1..], b);
    }
  }

  /** Other connections fill the hub's disconnect queue. */
  lemma {:induction false} OthersFill(cfg: Config, s: State) returns (actions: seq<Action>)
    requires s.hub.disconnect <= HubSlots(cfg)
    ensures Exec(cfg, s, actions) == s.(hub := s.hub.(disconnect := HubSlots(cfg)))
    decreases HubSlots(cfg) - s.hub.disconnect
  {
    if s.hub.disconnect == HubSlots(cfg) {
      actions := [];
    } else {
      var rest := OthersFill(cfg, Do(cfg, s, OthersQueue(Disconnects)));
      actions := [OthersQueue(Disconnects)] + rest;
      assert actions[1..] == rest;
    }
  }

  /** Every configuration can get there: the read breaks, the pinger leaves, and the queue fills up. */
  lemma OnlyTheHubIsLeftSomewhere(cfg: Config) returns (actions: seq<Action>)
    ensures OnlyTheHubIsLeft(cfg, Exec(cfg, INITIAL, actions))
  {
    var s1 := Do(cfg, INITIAL, ReadBreaks);
    var s2 := Do(cfg, s1, ReaderExits);
    var s3 := Do(cfg, s2, SeesCancel);
    var s4 := Do(cfg, s3, PingerExits);
    var leave := [ReadBreaks, ReaderExits] + [SeesCancel, PingerExits];
    ExecTwo(cfg, INITIAL, ReadBreaks, ReaderExits);
    ExecTwo(cfg, s2, SeesCancel, PingerExits);
    ExecAppend(cfg, INITIAL, [ReadBreaks, ReaderExits], [SeesCancel, PingerExits]);
    var fill := OthersFill(cfg, s4);
    actions := leave + fill;
    ExecAppend(cfg, INITIAL, leave, fill);
  }

  lemma ExecTwo(cfg: Config, s: State, a: Action, b: Action)
    ensures Exec(cfg, s, [a, b]) == Do(cfg, Do(cfg, s, a), b)
  {
    assert [a, b][1..] == [b] && [b][1..] == [];
    assert Exec(cfg, Do(cfg, s, a), [b]) == Do(cfg, Do(cfg, s, a), b);
  }

  // ---------- what is left of a connection in the hub ----------

  /** The connection's subscriptions, as the hub makes them of its requests. */
  function Subs(s: State): H.Subscriptions {
    H.Fold({}, s.hub.picks)
  }

  /** The pumps are done and nothing waits for the hub. */
  predicate Cleared(s: State) {
    AllDone(s) && Load(s.hub) == 0
  }

  /** A subscription that has outlived its connection. */
  predicate Lingers(cfg: Config, s: State, room: H.RoomId) {
    Cleared(s) && (cfg.conn, room) in Subs(s)
  }

  function CountDisconnects(picks: seq<H.Request>, conn: H.Conn): nat {
    if picks == [] then 0
    else CountDisconnects(picks[..|picks| - 1], conn) + if picks[|picks| - 1] == H.Disconnect(conn) then 1 else 0
  }

  /** The own requests are among those waiting, and no Disconnect gets lost or doubled. */
  ghost predicate HubOk(cfg: Config, h: HubSide) {
    && |h.own.registers| <= h.register && |h.own.unregisters| <= h.unregister && h.own.disconnects <= h.disconnect
    && CountDisconnects(h.picks, cfg.conn) + h.own.disconnects == h.disconnects
    && (cfg.hubCapacity == 0 ==> h.own == Own([], [], 0))
  }

  lemma OnePick(picks: seq<H.Request>, r: H.Request, conn: H.Conn)
    ensures H.Fold({}, picks + [r]) == H.Meaning(H.Fold({}, picks), r)
    ensures CountDisconnects(picks + [r], conn)
         == CountDisconnects(picks, conn) + if r == H.Disconnect(conn) then 1 else 0
  {
    assert (picks + [r])[..|picks|] == picks;
  }

  lemma RegisterKeepsHubOk(cfg: Config, h: HubSide, room: H.RoomId)
    requires HubOk(cfg, h)
    ensures HubOk(cfg, QueueRegister(cfg, h, room))
  {
    OnePick(h.picks, H.Register(cfg.conn, cfg.user, room), cfg.conn);
  }

  lemma UnregisterKeepsHubOk(cfg: Config, h: HubSide, room: H.RoomId)
    requires HubOk(cfg, h)
    ensures HubOk(cfg, QueueUnregister(cfg, h, room))
  {
    OnePick(h.picks, H.Unregister(cfg.conn, room), cfg.conn);
  }

  lemma DisconnectKeepsHubOk(cfg: Config, h: HubSide)
    requires HubOk(cfg, h)
    ensures HubOk(cfg, QueueDisconnect(cfg, h))
  {
    OnePick(h.picks, H.Disconnect(cfg.conn), cfg.conn);
  }

  lemma PickKeepsHubOk(cfg: Config, h: HubSide, queue: HubQueue)
    requires HubOk(cfg, h) && OwnLength(h, queue) > 0
    ensures var h' := Pick(cfg, h, queue); HubOk(cfg, h') && OwnLength(h', queue) < Length(h', queue)
  {
    match queue
    case Registers => OnePick(h.picks, H.Register(cfg.conn, cfg.user, h.own.registers[0]), cfg.conn);
    case Unregisters => OnePick(h.picks, H.Unregister(cfg.conn, h.own.unregisters[0]), cfg.conn);
    case Disconnects => OnePick(h.picks, H.Disconnect(cfg.conn), cfg.conn);
  }

  lemma DrainKeepsHubOk(cfg: Config, h: HubSide, queue: HubQueue, own: bool)
    requires HubOk(cfg, h) && CanDrain(h, queue, own)
    ensures HubOk(cfg, Drain(cfg, h, queue, own))
  {
    if own {
      PickKeepsHubOk(cfg, h, queue);
    }
  }

  lemma DoKeepsHubOk(cfg: Config, s: State, a: Action)
    requires HubOk(cfg, s.hub)
    ensures HubOk(cfg, Do(cfg, s, a).hub)
  {
    if Enabled(cfg, s, a) {
      if a.HubDrains? {
        DrainKeepsHubOk(cfg, s.hub, a.queue, a.own);
      } else if a.Handle? && s.reader.message.Subscribe? {
        RegisterKeepsHubOk(cfg, s.hub, s.reader.message.room);
      } else if a.Handle? && s.reader.message.Unsubscribe? {
        UnregisterKeepsHubOk(cfg, s.hub, s.reader.message.room);
      } else {
        DisconnectKeepsHubOk(cfg, s.hub);
      }
    }
  }

  lemma {:induction false} ExecKeepsHubOk(cfg: Config, s: State, actions: seq<Action>)
    requires HubOk(cfg, s.hub)
    ensures HubOk(cfg, Exec(cfg, s, actions).hub)
    decreases |actions|
  {
    if actions != [] {
      DoKeepsHubOk(cfg, s, actions[0]);
      ExecKeepsHubOk(cfg, Do(cfg, s, actions[0]), actions[1..]);
    }
  }

  lemma {:induction false} SomeDisconnect(picks: seq<H.Request>, conn: H.Conn) returns (i: nat)
    requires CountDisconnects(picks, conn) > 0
    ensures i < |picks| && picks[i] == H.Disconnect(conn)
  {
    if picks[|picks| - 1] == H.Disconnect(conn) {
      i := |picks| - 1;
    } else {
      i := SomeDisconnect(picks[..|picks| - 1], conn);
    }
  }

  /**
   In every run: when the pumps are done and the queues are empty, the hub has taken a Disconnect of the
   connection. A subscription is left exactly if a Register of its room was taken after every Disconnect and
   after every Unregister of that room.
   */
  lemma LingersExactlyIf(cfg: Config, actions: seq<Action>, room: H.RoomId) returns (d: nat)
    requires Cleared(Exec(cfg, INITIAL, actions))
    ensures var s := Exec(cfg, INITIAL, actions); var picks := s.hub.picks;
            && d < |picks| && picks[d] == H.Disconnect(cfg.conn)
            && (Lingers(cfg, s, room) <==>
                  exists i ::
                    && d < i < |picks|
                    && H.Subscribes(picks[i], cfg.conn, room) && H.Kept(picks, i, cfg.conn, room))
  {
    ExecKeepsInv(cfg, INITIAL, actions);
    ExecKeepsHubOk(cfg, INITIAL, actions);
    var s := Exec(cfg, INITIAL, actions);
    d := SomeDisconnect(s.hub.picks, cfg.conn);
    RegisteredAfter(s.hub.picks, d, cfg.conn, room);
  }

  lemma RegisteredAfter(picks: seq<H.Request>, d: nat, conn: H.Conn, room: H.RoomId)
    requires d < |picks| && picks[d] == H.Disconnect(conn)
    ensures (conn, room) in H.Fold({}, picks) <==>
      exists i :: d < i < |picks| && H.Subscribes(picks[i], conn, room) && H.Kept(picks, i, conn, room)
  {
    H.LastRequestDecides({}, picks, conn, room);
    assert H.Cancels(picks[d], conn, room);
    if (conn, room) in H.Fold({}, picks) {
      var i :| 0 <= i < |picks| && H.Subscribes(picks[i], conn, room) && H.Kept(picks, i, conn, room);
      assert d < i;
    }
  }

  /** The reader has sent its Disconnect. */
  predicate ReaderLeft(s: State) {
    s.reader.RClosingOutbound? || s.reader.RClosingSocket? || s.reader.RDone?
  }

  ghost predicate Forgotten(cfg: Config, s: State) {
    forall room :: (cfg.conn, room) !in Subs(s)
  }

  lemma DisconnectForgets(cfg: Config, h: HubSide, room: H.RoomId)
    requires cfg.hubCapacity == 0
    ensures (cfg.conn, room) !in H.Fold({}, QueueDisconnect(cfg, h).picks)
  {
    OnePick(h.picks, H.Disconnect(cfg.conn), cfg.conn);
  }

  /** What the hub takes of the connection once its reader leaves, if there is no buffer. */
  lemma OnlyDisconnectsFollow(cfg: Config, s: State, a: Action)
    requires cfg.hubCapacity == 0 && HubOk(cfg, s.hub) && ReaderLeft(Do(cfg, s, a))
    ensures var picks := Do(cfg, s, a).hub.picks;
            picks == QueueDisconnect(cfg, s.hub).picks || (ReaderLeft(s) && picks == s.hub.picks)
  {
  }

  /** Without a buffer every request is taken when it is sent, and the reader sends its Disconnect last. */
  lemma DoKeepsForgotten(cfg: Config, s: State, a: Action)
    requires cfg.hubCapacity == 0 && HubOk(cfg, s.hub) && (ReaderLeft(s) ==> Forgotten(cfg, s))
    ensures ReaderLeft(Do(cfg, s, a)) ==> Forgotten(cfg, Do(cfg, s, a))
  {
    var s' := Do(cfg, s, a);
    if ReaderLeft(s') && s'.hub != s.hub {
      OnlyDisconnectsFollow(cfg, s, a);
      forall room ensures (cfg.conn, room) !in Subs(s') {
        DisconnectForgets(cfg, s.hub, room);
      }
    }
  }

  lemma {:induction false} ExecKeepsForgotten(cfg: Config, s: State, actions: seq<Action>)
    requires cfg.hubCapacity == 0 && HubOk(cfg, s.hub) && (ReaderLeft(s) ==> Forgotten(cfg, s))
    ensures ReaderLeft(Exec(cfg, s, actions)) ==> Forgotten(cfg, Exec(cfg, s, actions))
    decreases |actions|
  {
    if actions != [] {
      DoKeepsForgotten(cfg, s, actions[0]);
      DoKeepsHubOk(cfg, s, actions[0]);
      ExecKeepsForgotten(cfg, Do(cfg, s, actions[0]), actions[1..]);
    }
  }

  /** One more action of a run. */
  lemma Then(cfg: Config, start: State, s: State, done: seq<Action>, a: Action)
    returns (s': State, actions: seq<Action>)
    requires s == Exec(cfg, start, done)
    ensures s' == Do(cfg, s, a) && s' == Exec(cfg, start, actions)
  {
    s', actions := Do(cfg, s, a), done + [a];
    ExecAppend(cfg, start, done, [a]);
    assert [a][1..] == [];
  }

  lemma Subscribing(cfg: Config, start: State, s: State, done: seq<Action>, room: H.RoomId)
    returns (s': State, actions: seq<Action>)
    requires s == Exec(cfg, start, done) && s.reader.Reading? && HasRoom(cfg, s, Registers)
    ensures s' == Exec(cfg, start, actions)
    ensures s' == s.(hub := QueueRegister(cfg, s.hub, room))
  {
    var s1, actions1 := Then(cfg, start, s, done, Receive(Subscribe(room)));
    s', actions := Then(cfg, start, s1, actions1, Handle(false));
  }

  lemma Leaving(cfg: Config, start: State, s: State, done: seq<Action>) returns (s': State, actions: seq<Action>)
    requires s == Exec(cfg, start, done) && s.reader.Reading? && HasRoom(cfg, s, Disconnects)
    ensures s' == Exec(cfg, start, actions)
    ensures s' == s.(reader := RClosingOutbound, cancelled := true, hub := QueueDisconnect(cfg, s.hub))
  {
    var s1, actions1 := Then(cfg, start, s, done, ReadBreaks);
    assert s1 == s.(reader := RCancelling);
    var s2, actions2 := Then(cfg, start, s1, actions1, ReaderExits);
    assert s2 == s.(reader := RDisconnecting, cancelled := true);
    s', actions := Then(cfg, start, s2, actions2, ReaderExits);
  }

  /** The client subscribes and goes away; both requests wait in the hub's queues at once. */
  lemma BothWait(cfg: Config, start: State, room: H.RoomId) returns (s: State, actions: seq<Action>)
    requires cfg.hubCapacity >= 1
    requires start.reader.Reading? && start.hub == HubSide(0, 0, 0, 0, Own([], [], 0), [])
    ensures s == Exec(cfg, start, actions)
    ensures s == start.(reader := RClosingOutbound, cancelled := true,
                        hub := HubSide(1, 0, 1, 1, Own([room], [], 1), []))
  {
    var s1, actions1 := Subscribing(cfg, start, start, [], room);
    assert s1.hub == HubSide(1, 0, 0, 0, Own([room], [], 0), []);
    s, actions := Leaving(cfg, start, s1, actions1);
    assert s.hub == HubSide(1, 0, 1, 1, Own([room], [], 1), []);
  }

  /** The hub takes the Disconnect first and the Register then. */
  lemma TakenInReverse(cfg: Config, start: State, s: State, done: seq<Action>, room: H.RoomId)
    returns (s': State, actions: seq<Action>)
    requires s == Exec(cfg, start, done) && s.hub == HubSide(1, 0, 1, 1, Own([room], [], 1), [])
    ensures s' == Exec(cfg, start, actions)
    ensures s' == s.(hub := HubSide(0, 0, 0, 1, Own([], [], 0),
                                    [H.Disconnect(cfg.conn), H.Register(cfg.conn, cfg.user, room)]))
  {
    var s1, actions1 := Then(cfg, start, s, done, HubDrains(Disconnects, true));
    assert s1.hub == HubSide(1, 0, 0, 1, Own([room], [], 0), [H.Disconnect(cfg.conn)]);
    s', actions := Then(cfg, start, s1, actions1, HubDrains(Registers, true));
    assert s'.hub.picks == [H.Disconnect(cfg.conn), H.Register(cfg.conn, cfg.user, room)];
  }

  /** The remaining exits of the three pumps. */
  lemma PumpsExit(cfg: Config, start: State, s: State, done: seq<Action>) returns (s': State, actions: seq<Action>)
    requires s == Exec(cfg, start, done) && s.reader.RClosingOutbound? && s.cancelled
    requires s.writer.Waiting? && s.pinger.Selecting? && s.outbound == Queue([], false, 0)
    ensures s' == Exec(cfg, start, actions) && AllDone(s') && s'.hub == s.hub
  {
    var s1, actions1 := Then(cfg, start, s, done, ReaderExits);
    var s2, actions2 := Then(cfg, start, s1, actions1, ReaderExits);
    var s3, actions3 := Then(cfg, start, s2, actions2, OutboundEnds);
    var s4, actions4 := Then(cfg, start, s3, actions3, WriterExits);
    var s5, actions5 := Then(cfg, start, s4, actions4, SeesCancel);
    s', actions := Then(cfg, start, s5, actions5, PingerExits);
  }

  lemma SubscriptionIsLeftFrom(cfg: Config, start: State, room: H.RoomId) returns (actions: seq<Action>)
    requires cfg.hubCapacity >= 1 && start.reader.Reading? && start.writer.Waiting? && start.pinger.Selecting?
    requires start.hub == HubSide(0, 0, 0, 0, Own([], [], 0), []) && start.outbound == Queue([], false, 0)
    ensures Lingers(cfg, Exec(cfg, start, actions), room)
  {
    var s1, actions1 := BothWait(cfg, start, room);
    var s2, actions2 := TakenInReverse(cfg, start, s1, actions1, room);
    var s3, actions3 := PumpsExit(cfg, start, s2, actions2);
    actions := actions3;
    H.PickOrderMatters({}, cfg.conn, cfg.user, room, s3.hub.picks);
  }

  /** With a buffer of any size some run leaves a subscription behind, in any room. */
  lemma SubscriptionIsLeft(cfg: Config, room: H.RoomId) returns (actions: seq<Action>)
    requires cfg.hubCapacity >= 1
    ensures Lingers(cfg, Exec(cfg, INITIAL, actions), room)
  {
    actions := SubscriptionIsLeftFrom(cfg, INITIAL, room);
  }

  /** No run leaves a subscription of a finished connection behind. */
  ghost predicate NothingEverLingers(cfg: Config) {
    forall actions, room :: !Lingers(cfg, Exec(cfg, INITIAL, actions), room)
  }

  /** The hub forgets finished connections in every run exactly if its queues have no buffer. */
  lemma ForgetsExactlyIfUnbuffered(cfg: Config)
    ensures NothingEverLingers(cfg) <==> cfg.hubCapacity == 0
  {
    if cfg.hubCapacity == 0 {
      forall actions, room ensures !Lingers(cfg, Exec(cfg, INITIAL, actions), room) {
        ExecKeepsForgotten(cfg, INITIAL, actions);
      }
    } else {
      var actions := SubscriptionIsLeft(cfg, 0);
      assert Lingers(cfg, Exec(cfg, INITIAL, actions), 0);
    }
  }
}
