/**
 Sending one message: the durable request, the radio call, its echo and its acknowledgements.

 The sender holds the service lock from before the request is stored until the deferred packets
 have been handled, so packets that arrive meanwhile are deferred. Three things do not wait for that
 lock: acknowledgement callbacks, which have a small lock of their own; a receiving thread that
 passed its last use of the lock before the send began and is about to store its message; and a
 thread that is about to rebind a channel. Every lock region, callback and database call of
 another thread is one step; a crash is a run that stops anywhere.
 */
module SendProtocol {
  import opened Options
  import opened MessageStore
  import opened MessageText
  import opened AckStatus
  import opened ChannelRebind

  const BROADCAST := "!ffffffff"

  /** A validated send request, with the channel binding it selected. */
  datatype Request = Request(
    local: string, public: bool, destination: string, channel: int, key: string, text: string, profile: string)

  /** `provisional` names the key of a channel that is not bound; `maximum` is the retention limit. */
  datatype Send = Send(unicode: Unicode, request: Request, provisional: int -> string, maximum: nat)

  /** What the sender checks first. The key is that of an active binding, so never a provisional one. */
  ghost predicate Acceptable(c: Send) {
    && Sensible(c.unicode) && Validate(c.unicode, c.request.text) == Valid(c.request.text)
    && c.request.local != "" && c.request.local != BROADCAST && c.request.key != "" && 0 <= c.request.channel <= 7
    && (!c.request.public ==> c.request.destination != BROADCAST && c.request.destination != "")
    && (forall i :: c.provisional(i) != c.request.key)
    && 1 <= c.maximum
  }

  function Recipient(r: Request): string {
    if r.public then BROADCAST else r.destination
  }

  function Peer(r: Request): string {
    if r.public then "" else r.destination
  }

  function KindOf(r: Request): Kind {
    if r.public then Public else Dm
  }

  /** The row stored before the radio is asked to send. */
  function Pending(r: Request): Message {
    Message(None, true, r.local, Recipient(r), KindOf(r), Peer(r), r.text, r.channel, r.key,
            RouteFor(KindOf(r), r.local, Peer(r), r.key), r.local, r.profile, UnknownTransport,
            !r.public, Uncertain, None)
  }

  // ---------- Packets ----------

  /** `current` tells whether the packet came in on the present connection. */
  datatype Packet =
    | TextPacket(id: Option<int>, from: string, to: string, channel: int, text: string, wantAck: bool,
                 transport: Transport, current: bool)
    | AckPacket(request: int, routing: RoutingPacket, current: bool)

  function ParseText(u: Unicode, p: Packet, local: string): Option<Message>
    requires p.TextPacket?
  {
    var text := Strip(u, Sanitize(u, p.text, MAX_MESSAGE_BYTES));
    if p.text == [] || text == [] then None
    else
      var outgoing := local != "" && p.from == local;
      var kind := if p.to == BROADCAST then Public else Dm;
      if kind.Public? && !(0 <= p.channel <= 7) then None
      else if kind.Dm? && !(local != "" && (p.from == local || p.to == local)) then None
      else
        var peer := if kind.Public? then "" else if outgoing then p.to else p.from;
        Some(Message(p.id, outgoing, p.from, p.to, kind, peer, text, p.channel, "", NoRoute, "", "",
                     p.transport, p.wantAck, if outgoing then Queued else Received, None))
  }

  /** Row `i` is the newest outgoing row of the packet and node, whatever its status. */
  ghost predicate NewestAddressed(rows: seq<Row>, packet: int, local: string, i: nat) {
    i < |rows| && Addressed(rows[i], packet, local) && forall j | i < j < |rows| :: !Addressed(rows[j], packet, local)
  }

  function OutgoingRow(rows: seq<Row>, packet: int, local: string): (index: Option<nat>)
    ensures index.Some? ==> index.value < |rows| && NewestAddressed(rows, packet, local, index.value)
    ensures index.None? <==> forall r | r in rows :: !Addressed(r, packet, local)
  {
    if rows == [] then None
    else
      var last := |rows| - 1;
      if Addressed(rows[last], packet, local) then Some(last)
      else
        assert rows == rows[..last] + [rows[last]];
        OutgoingRow(rows[..last], packet, local)
  }

  // ---------- The state of one send ----------

  /** `row` is the ID of the stored request, `packet` the ID the radio returned. */
  datatype Phase =
    | Ready
    | Stored(row: nat)
    | InRadio(row: nat)
    | Returned(row: nat, packet: Option<int>)
    | Committed(row: nat, packet: Option<int>)
    | Settled(row: nat, packet: Option<int>)
    | Refused
    | LeftUncertain(row: nat)

  /** `sends` counts the radio calls; no step reads it. */
  datatype State = State(
    tables: Tables, inserts: int, phase: Phase, early: Option<Ack>, deferred: seq<Packet>,
    bindings: map<int, string>, sends: nat)

  /** One channel of the list a radio reports. */
  datatype Channel = Channel(index: int, key: string)

  /**
   `InFlight` and `Resync` are database calls of threads that no longer need the service lock. `OtherAck` is
   the callback of another send, to `destination`.
   */
  datatype Event =
    | Store(ok: bool)
    | CallRadio
    | Receive(received: Packet)
    | RadioReturns(packet: Option<int>)
    | RadioRaises
    | Commit(ok: bool)
    | Settle
    | OnAckNak(routing: RoutingPacket)
    | OtherAck(id: int, local: string, routing: RoutingPacket, destination: string)
    | InFlight(message: Message)
    | Resync(channel: Channel)
    | Replay(synced: seq<Channel>)

  predicate Over(phase: Phase) {
    phase.Settled? || phase.Refused? || phase.LeftUncertain?
  }

  predicate Enabled(s: State, e: Event) {
    match e
    case Store(_) => s.phase.Ready?
    case CallRadio => s.phase.Stored?
    case Receive(_) => !Over(s.phase)
    case RadioReturns(_) => s.phase.InRadio?
    case RadioRaises => s.phase.InRadio?
    case Commit(_) => s.phase.Returned?
    case Settle => s.phase.Committed?
    case OnAckNak(_) => !s.phase.Ready? && !s.phase.Stored? && !s.phase.Refused?
    case OtherAck(_, _, _, _) => true
    case InFlight(_) => true
    case Resync(_) => true
    case Replay(_) => Over(s.phase) && s.deferred != []
  }

  function NextInserts(inserts: int, result: Insertion): int {
    if !result.Inserted? then inserts else if inserts + 1 >= PRUNE_INTERVAL then 0 else inserts + 1
  }

  function InsertInto(c: Send, s: State, m: Message): State {
    s.(tables := InsertAndPrune(s.tables, m, s.inserts, c.maximum),
       inserts := NextInserts(s.inserts, Insert(s.tables, m).1))
  }

  function WithStatus(s: State, packet: int, local: string, ack: Ack): State {
    s.(tables := s.tables.(rows := UpdateStatus(s.tables.rows, packet, ack.status, Some(local), ack.reason).0))
  }

  function BindingFor(c: Send, channel: Channel): Binding {
    Binding(c.request.local, channel.index, c.provisional(channel.index), channel.key)
  }

  /** Rebinding channel by channel, each in a transaction of its own; false when one fails. */
  function RebindAll(c: Send, t: Tables, synced: seq<Channel>): (Tables, bool)
    decreases |synced|
  {
    if synced == [] then (t, true)
    else
      match TryRebind(BindingFor(c, synced[0]), t)
      case None => (t, false)
      case Some(t') => RebindAll(c, t', synced[1..])
  }

  function BindingsOf(synced: seq<Channel>): map<int, string> {
    if synced == [] then map[]
    else BindingsOf(synced[..|synced| - 1])[synced[|synced| - 1].index := synced[|synced| - 1].key]
  }

  /** The message a text packet is stored as, under the bindings in force. */
  function Bind(c: Send, m: Message, bindings: map<int, string>): Message {
    var local := c.request.local;
    var key := if m.channel in bindings then bindings[m.channel] else c.provisional(m.channel);
    m.(key := key, local := local, profile := c.request.profile, route := RouteFor(m.kind, local, m.peer, key))
  }

  /** The insertion that handling a packet leads to, in the tables and with the bindings a re-sync leaves. */
  datatype Arrival = Arrival(state: State, message: Option<Message>)

  /**
   A text packet on an unbound channel first makes the service read the channel list again; when a
   rebind fails then, the packet is given up.
   */
  function Arrive(c: Send, s: State, p: Packet, synced: seq<Channel>): Arrival
    requires p.TextPacket?
  {
    match ParseText(c.unicode, p, c.request.local)
    case None => Arrival(s, None)
    case Some(m) =>
      if m.channel in s.bindings then Arrival(s, Some(Bind(c, m, s.bindings)))
      else
        var (tables, ok) := RebindAll(c, s.tables, synced);
        var s1 := s.(tables := tables, bindings := BindingsOf(synced));
        Arrival(s1, if ok then Some(Bind(c, m, s1.bindings)) else None)
  }

  /** Handling one packet. */
  function Handle(c: Send, s: State, p: Packet, synced: seq<Channel>): State {
    if !p.current then s
    else match p
      case AckPacket(request, routing, _) =>
        (match OutgoingRow(s.tables.rows, request, c.request.local)
         case None => s
         case Some(i) => WithStatus(s, request, c.request.local, AckOf(routing, s.tables.rows[i].m.to)))
      case TextPacket(_, _, _, _, _, _, _, _) =>
        var a := Arrive(c, s, p, synced);
        if a.message.Some? then InsertInto(c, a.state, a.message.value) else a.state
  }

  function Advance(c: Send, s: State, e: Event): State
    requires Enabled(s, e)
  {
    match e
    case Store(ok) =>
      if !ok then s.(phase := Refused)
      else
        var result := Insert(s.tables, Pending(c.request)).1;
        InsertInto(c, s, Pending(c.request)).(phase := if result.Inserted? then Stored(result.id) else Refused)
    case CallRadio => s.(phase := InRadio(s.phase.row), sends := s.sends + 1)
    case Receive(packet) => s.(deferred := s.deferred + [packet])
    case RadioReturns(packet) => s.(phase := Returned(s.phase.row, packet))
    case RadioRaises => s.(phase := LeftUncertain(s.phase.row))
    case Commit(ok) =>
      var (tables, result) := Complete(s.tables, s.phase.row, c.request.local, s.phase.packet);
      if ok && result.Done? then s.(tables := tables, phase := Committed(s.phase.row, s.phase.packet))
      else s.(phase := LeftUncertain(s.phase.row))
    case Settle =>
      var s1 := s.(phase := Settled(s.phase.row, s.phase.packet));
      if s.phase.packet.Some? && s.early.Some?
      then WithStatus(s1, s.phase.packet.value, c.request.local, s.early.value)
      else s1
    case OnAckNak(routing) =>
      var ack := AckOf(routing, Recipient(c.request));
      if s.phase.Settled? && s.phase.packet.Some?
      then WithStatus(s, s.phase.packet.value, c.request.local, ack)
      else s.(early := Some(ack))
    case OtherAck(id, local, routing, destination) => WithStatus(s, id, local, AckOf(routing, destination))
    case InFlight(message) => InsertInto(c, s, message)
    case Resync(channel) => s.(tables := RebindAll(c, s.tables, [channel]).0)
    case Replay(synced) => Handle(c, s, s.deferred[0], synced).(deferred := s.deferred[1..])
  }

  ghost predicate Initial(s: State) {
    Wf(s.tables) && s.phase.Ready? && s.early.None? && s.deferred == [] && s.sends == 0
  }

  ghost predicate IsRun(c: Send, trace: seq<State>, events: seq<Event>) {
    && |trace| == |events| + 1 && Initial(trace[0])
    && forall i | 0 <= i < |events| :: Enabled(trace[i], events[i]) && trace[i + 1] == Advance(c, trace[i], events[i])
  }

  lemma HandleBound(c: Send, s: State, p: Packet, synced: seq<Channel>, s1: State, ok: bool)
    requires p.TextPacket? && p.current && ParseText(c.unicode, p, c.request.local).Some?
    requires if ParseText(c.unicode, p, c.request.local).value.channel in s.bindings then ok && s1 == s
             else s1 == s.(tables := RebindAll(c, s.tables, synced).0, bindings := BindingsOf(synced)) && ok == RebindAll(c, s.tables, synced).1
    ensures Handle(c, s, p, synced) ==
              if ok then InsertInto(c, s1, Bind(c, ParseText(c.unicode, p, c.request.local).value, s1.bindings)) else s1
  {
  }

  // ---------- The service object ----------

  class MeshtasticService {
    const send: Send
    const database: MessageDatabase
    var phase: Phase
    var early: Option<Ack>
    var deferred: seq<Packet>
    var bindings: map<int, string>
    var sends: nat

    ghost function Model(): State
      reads this, database
    {
      State(database.Model(), database.insertsSincePrune, phase, early, deferred, bindings, sends)
    }

    ghost predicate Valid()
      reads this
    {
      database.maxMessages == send.maximum
    }

    constructor (send: Send, database: MessageDatabase, bindings: map<int, string>)
      requires database.maxMessages == send.maximum
      ensures Valid() && this.send == send && this.database == database
      ensures Model() == State(database.Model(), database.insertsSincePrune, Ready, None, [], bindings, 0)
    {
      this.send, this.database, this.bindings := send, database, bindings;
      phase, early, deferred, sends := Ready, None, [], 0;
    }

    method StoreRequest(ok: bool)
      requires Valid() && Enabled(Model(), Store(ok))
      modifies this, database
      ensures Valid() && Model() == Advance(send, old(Model()), Store(ok))
    {
      if !ok {
        phase := Refused;
        return;
      }
      var result := database.InsertMessage(Pending(send.request));
      phase := if result.Inserted? then Stored(result.id) else Refused;
    }

    method RecordSent(ok: bool)
      requires Valid() && Enabled(Model(), Commit(ok))
      modifies this`phase, database`rows
      ensures Valid() && Model() == Advance(send, old(Model()), Commit(ok))
    {
      var row, packet := phase.row, phase.packet;
      phase := LeftUncertain(row);
      if ok {
        var result := database.CompleteOutgoingMessage(row, send.request.local, packet);
        if result.Done? {
          phase := Committed(row, packet);
        }
      }
    }

    method ApplyEarlyStatus()
      requires Valid() && Enabled(Model(), Settle)
      modifies this`phase, database`rows
      ensures Valid() && Model() == Advance(send, old(Model()), Settle)
    {
      phase := Settled(phase.row, phase.packet);
      if phase.packet.Some? && early.Some? {
        var _ := database.UpdateMessageStatus(
          phase.packet.value, early.value.status, Some(send.request.local), early.value.reason);
      }
    }

    method AckNak(routing: RoutingPacket)
      requires Valid() && Enabled(Model(), OnAckNak(routing))
      modifies this`early, database`rows
      ensures Valid() && Model() == Advance(send, old(Model()), OnAckNak(routing))
    {
      var ack := AckOf(routing, Recipient(send.request));
      if phase.Settled? && phase.packet.Some? {
        var _ := database.UpdateMessageStatus(phase.packet.value, ack.status, Some(send.request.local), ack.reason);
      } else {
        early := Some(ack);
      }
    }

    /** The loop over the channel list; a failed rebind ends it. */
    method RebindChannels(synced: seq<Channel>) returns (ok: bool)
      modifies database`rows, database`observations
      ensures (database.Model(), ok) == RebindAll(send, old(database.Model()), synced)
    {
      ok := true;
      var i := 0;
      assert synced[0..] == synced;
      while i < |synced|
        invariant i <= |synced| && ok
        invariant RebindAll(send, database.Model(), synced[i..]) == RebindAll(send, old(database.Model()), synced)
      {
        assert synced[i..][0] == synced[i] && synced[i..][1..] == synced[i + 1..];
        var rebound := RebindProvisionalChannel(database, BindingFor(send, synced[i]));
        if rebound.None? {
          return false;
        }
        i := i + 1;
      }
    }

    /** The check whether a send is going on. */
    method OnReceive(packet: Packet, synced: seq<Channel>)
      requires Valid()
      modifies this`deferred, this`bindings, database
      ensures Valid()
      ensures Model() == if Over(old(phase)) then Handle(send, old(Model()), packet, synced)
                         else Advance(send, old(Model()), Receive(packet))
    {
      if !Over(phase) {
        deferred := deferred + [packet];
        return;
      }
      HandlePacket(packet, synced);
    }

    method HandlePacket(packet: Packet, synced: seq<Channel>)
      requires Valid()
      modifies this`bindings, database
      ensures Valid() && Model() == Handle(send, old(Model()), packet, synced)
    {
      if !packet.current {
        return;
      }
      match packet {
        case AckPacket(request, routing, _) =>
          var row := OutgoingRow(database.rows, request, send.request.local);
          if row.Some? {
            var ack := AckOf(routing, database.rows[row.value].m.to);
            var _ := database.UpdateMessageStatus(request, ack.status, Some(send.request.local), ack.reason);
          }
        case TextPacket(_, _, _, _, _, _, _, _) => HandleText(packet, synced);
      }
    }

    method HandleText(packet: Packet, synced: seq<Channel>)
      requires Valid() && packet.TextPacket? && packet.current
      modifies this`bindings, database
      ensures Valid() && Model() == Handle(send, old(Model()), packet, synced)
    {
      var parsed := ParseText(send.unicode, packet, send.request.local);
      if parsed.None? {
        return;
      }
      ghost var s := Model();
      var ok := EnsureBound(parsed.value.channel, synced);
      HandleBound(send, s, packet, synced, Model(), ok);
      if ok {
        StoreReceived(Bind(send, parsed.value, bindings));
      }
    }

    /** An unbound channel makes the service read the channel list again. */
    method EnsureBound(channel: int, synced: seq<Channel>) returns (ok: bool)
      requires Valid()
      modifies this`bindings, database`rows, database`observations
      ensures Valid()
      ensures var s := old(Model());
              if channel in s.bindings then ok && Model() == s
              else Model() == s.(tables := RebindAll(send, s.tables, synced).0, bindings := BindingsOf(synced))
                   && ok == RebindAll(send, s.tables, synced).1
    {
      ok := true;
      if channel !in bindings {
        bindings := BindingsOf(synced);
        ok := RebindChannels(synced);
      }
    }

    /** The last step of handling a text packet, which needs no lock. */
    method StoreReceived(message: Message)
      requires Valid()
      modifies database
      ensures Valid() && Model() == InsertInto(send, old(Model()), message)
    {
      var _ := database.InsertMessage(message);
    }

    method ReplayNext(synced: seq<Channel>)
      requires Valid() && Enabled(Model(), Replay(synced))
      modifies this`deferred, this`bindings, database
      ensures Valid() && Model() == Advance(send, old(Model()), Replay(synced))
    {
      var packet := deferred[0];
      OnReceive(packet, synced);
      deferred := deferred[1..];
    }
  }

  // ---------- The invariant ----------

  function OwnId(phase: Phase): Option<nat> {
    match phase
    case Ready => None
    case Refused => None
    case _ => Some(phase.row)
  }

  predicate HandedOver(phase: Phase) {
    phase.Committed? || phase.Settled?
  }

  /** The request is stored: untouched and uncertain until the commit, with the radio's packet ID after it. */
  predicate RequestRow(c: Send, phase: Phase, m: Message) {
    if HandedOver(phase) then
      && m.packet == phase.packet && !m.status.Uncertain?
      && m.(packet := None, status := Uncertain, reason := None) == Pending(c.request)
    else m == Pending(c.request)
  }

  /** The request's row is in the table. */
  ghost predicate HasOwn(s: State) {
    exists r | r in s.tables.rows :: Some(r.id) == OwnId(s.phase)
  }

  ghost predicate SomeIdentity(rows: seq<Row>, identity: Identity) {
    exists r | r in rows :: IdentityOf(r.m) == identity
  }

  ghost predicate OwnInv(c: Send, s: State) {
    OwnId(s.phase).Some? ==>
      && OwnId(s.phase).value < s.tables.nextId
      && (forall r | r in s.tables.rows && Some(r.id) == OwnId(s.phase) :: RequestRow(c, s.phase, r.m))
      && (!HandedOver(s.phase) ==> HasOwn(s))
  }

  ghost predicate Inv(c: Send, s: State) {
    && Wf(s.tables) && OwnInv(c, s)
    && s.sends == (if s.phase.Ready? || s.phase.Stored? || s.phase.Refused? then 0 else 1)
    && (s.early.Some? ==> FromPacket(s.early.value))
  }

  // ---------- How the table operations act on the request's row ----------

  /** The tables and the message of the insertion a step performs. */
  function InsertionOf(c: Send, s: State, e: Event): Option<(Tables, Message)>
    requires Enabled(s, e)
  {
    match e
    case InFlight(message) => Some((s.tables, message))
    case Replay(synced) =>
      var p := s.deferred[0];
      if !p.current || !p.TextPacket? then None
      else
        var a := Arrive(c, s, p, synced);
        if a.message.Some? then Some((a.state.tables, a.message.value)) else None
    case _ => None
  }

  /**
   An insertion prunes row `own`: it is the one that triggers pruning, and the row is resolved, with the
   retention limit of newer resolved rows of its node stored.
   */
  ghost predicate Prunes(c: Send, t: Tables, m: Message, inserts: int, own: Option<nat>) {
    && TriggersPrune(t, m, inserts)
    && exists r | r in t.rows && Some(r.id) == own :: Prunable(Insert(t, m).0.rows, r, c.maximum)
  }

  /** The step prunes the request's row. */
  ghost predicate PrunedAt(c: Send, s: State, e: Event)
    requires Enabled(s, e)
  {
    match InsertionOf(c, s, e)
    case None => false
    case Some((t, m)) => Prunes(c, t, m, s.inserts, OwnId(s.phase))
  }

  lemma {:induction false} RebindAllKeeps(c: Send, t: Tables, synced: seq<Channel>)
    requires Acceptable(c) && Wf(t)
    ensures var t' := RebindAll(c, t, synced).0;
            && Wf(t') && t'.nextId == t.nextId
            && (forall r | r in t.rows && r.m.key == c.request.key :: r in t'.rows)
            && forall r | r in t'.rows :: exists before | before in t.rows :: before.id == r.id
    decreases |synced|
  {
    if synced != [] {
      var b := BindingFor(c, synced[0]);
      RebindKeepsWf(b, t);
      if TryRebind(b, t).Some? {
        RebindAllKeeps(c, TryRebind(b, t).value, synced[1..]);
      }
    }
  }

  /** Rows under the request's key are neither moved nor merged away by a rebind. */
  lemma RebindKeepsRow(c: Send, t: Tables, tables: Tables, synced: seq<Channel>, id: nat)
    requires Acceptable(c) && Wf(t) && tables == RebindAll(c, t, synced).0
    requires forall r | r in t.rows && r.id == id :: r.m.key == c.request.key
    ensures forall r: Row | r.id == id :: r in tables.rows <==> r in t.rows
  {
    RebindAllKeeps(c, t, synced);
    forall r | r in tables.rows && r.id == id ensures r in t.rows {
      var before :| before in t.rows && before.id == r.id;
      SameIdSameRow(tables, before, r);
    }
  }

  /** After a rebind the request's row is the same row. */
  lemma RebindKeepsOwn(c: Send, s: State, tables: Tables, synced: seq<Channel>)
    requires Acceptable(c) && Inv(c, s) && OwnId(s.phase).Some? && tables == RebindAll(c, s.tables, synced).0
    ensures forall r: Row | Some(r.id) == OwnId(s.phase) :: r in tables.rows <==> r in s.tables.rows
  {
    OwnKey(c, s);
    RebindKeepsRow(c, s.tables, tables, synced, OwnId(s.phase).value);
  }

  lemma OwnKey(c: Send, s: State)
    requires OwnInv(c, s) && OwnId(s.phase).Some?
    ensures forall r | r in s.tables.rows && r.id == OwnId(s.phase).value :: r.m.key == c.request.key
  {
    forall r | r in s.tables.rows && r.id == OwnId(s.phase).value ensures r.m.key == c.request.key {
      assert RequestRow(c, s.phase, r.m);
      assert r.m.key == r.m.(packet := None, status := Uncertain, reason := None).key;
    }
  }

  /** A row that is in the tables before an insertion goes exactly when it is pruned; an older ID does not come back. */
  lemma InsertionKeepsOwn(c: Send, t: Tables, m: Message, inserts: int, id: nat)
    requires Wf(t) && id < t.nextId
    ensures var (t1, t') := (Insert(t, m).0, InsertAndPrune(t, m, inserts, c.maximum));
            && Wf(t') && t.nextId <= t'.nextId
            && forall r: Row | r.id == id ::
                 r in t'.rows <==> r in t.rows && !(TriggersPrune(t, m, inserts) && Prunable(t1.rows, r, c.maximum))
  {
    InsertAndPruneRows(t, m, inserts, c.maximum);
    InsertedRows(t, m);
  }

  /** A step keeps the invariant, and the request's row unless it prunes it. */
  ghost predicate KeepsOwn(c: Send, s: State, s': State, pruned: bool) {
    Inv(c, s') && (OwnId(s.phase).Some? ==> OwnId(s'.phase) == OwnId(s.phase) && (HasOwn(s') <==> HasOwn(s) && !pruned))
  }

  lemma StatusKeepsRequest(c: Send, phase: Phase, r: Row, r': Row, packet: int, local: string, ack: Ack)
    requires RequestRow(c, phase, r.m) && FromPacket(ack)
    requires r' == r || (Eligible(r, packet, ack.status, Some(local))
                         && r' == r.(m := r.m.(status := ack.status, reason := r'.m.reason)))
    ensures RequestRow(c, phase, r'.m)
  {
  }

  lemma StatusKeepsOwn(c: Send, s: State, packet: int, local: string, ack: Ack)
    requires Inv(c, s) && FromPacket(ack)
    ensures KeepsOwn(c, s, WithStatus(s, packet, local, ack), false)
  {
    var s' := WithStatus(s, packet, local, ack);
    UpdateStatusKeepsWf(s.tables, packet, ack.status, Some(local), ack.reason);
    StatusRows(s.tables.rows, packet, ack.status, Some(local), ack.reason);
    forall r | r in s'.tables.rows && Some(r.id) == OwnId(s.phase) ensures RequestRow(c, s.phase, r.m) && HasOwn(s) {
      var k :| 0 <= k < |s'.tables.rows| && s'.tables.rows[k] == r;
      assert s.tables.rows[k] in s.tables.rows;
      StatusKeepsRequest(c, s.phase, s.tables.rows[k], r, packet, local, ack);
    }
    if r :| r in s.tables.rows && Some(r.id) == OwnId(s.phase) {
      var k :| 0 <= k < |s.tables.rows| && s.tables.rows[k] == r;
      assert s'.tables.rows[k] in s'.tables.rows;
    }
  }

  /** Other tables with the same row of the request, and everything else the invariant speaks of unchanged. */
  lemma SameOwnKeeps(c: Send, s: State, s': State)
    requires Inv(c, s) && Wf(s'.tables) && s.tables.nextId <= s'.tables.nextId
    requires s'.phase == s.phase && s'.sends == s.sends && s'.early == s.early
    requires OwnId(s.phase).Some? ==> forall r: Row | Some(r.id) == OwnId(s.phase) :: r in s'.tables.rows <==> r in s.tables.rows
    ensures KeepsOwn(c, s, s', false)
  {
  }

  lemma RebindKeeps(c: Send, s: State, s': State, synced: seq<Channel>)
    requires Acceptable(c) && Inv(c, s)
    requires s' == s.(tables := RebindAll(c, s.tables, synced).0, bindings := s'.bindings)
    ensures KeepsOwn(c, s, s', false) && s'.tables.nextId == s.tables.nextId
    ensures OwnId(s.phase).Some? ==> forall r: Row | Some(r.id) == OwnId(s.phase) :: r in s'.tables.rows <==> r in s.tables.rows
  {
    RebindAllKeeps(c, s.tables, synced);
    if OwnId(s.phase).Some? {
      RebindKeepsOwn(c, s, s'.tables, synced);
    }
    SameOwnKeeps(c, s, s');
  }

  lemma InsertionKeeps(c: Send, s: State, m: Message)
    requires Acceptable(c) && Inv(c, s)
    ensures KeepsOwn(c, s, InsertInto(c, s, m), Prunes(c, s.tables, m, s.inserts, OwnId(s.phase)))
  {
    var s' := InsertInto(c, s, m);
    InsertAndPruneRows(s.tables, m, s.inserts, c.maximum);
    if OwnId(s.phase).Some? {
      InsertionKeepsOwn(c, s.tables, m, s.inserts, OwnId(s.phase).value);
      if r :| r in s.tables.rows && Some(r.id) == OwnId(s.phase) {
        OnlyOwn(s.tables, r);
      }
    } else {
      InsertedRows(s.tables, m);
    }
  }

  lemma OnlyOwn(t: Tables, r: Row)
    requires IdsAscend(t.rows, t.nextId) && r in t.rows
    ensures forall x | x in t.rows && x.id == r.id :: x == r
  {
    forall x | x in t.rows && x.id == r.id ensures x == r {
      SameIdSameRow(t, x, r);
    }
  }

  /** Steps that leave the tables alone, and the request uncommitted or committed as it was. */
  lemma PhaseKeeps(c: Send, s: State, s': State)
    requires Inv(c, s) && s'.tables == s.tables && OwnId(s'.phase) == OwnId(s.phase)
    requires HandedOver(s'.phase) == HandedOver(s.phase) && (HandedOver(s.phase) ==> s'.phase.packet == s.phase.packet)
    requires s'.sends == (if s'.phase.Ready? || s'.phase.Stored? || s'.phase.Refused? then 0 else 1)
    requires s'.early.Some? ==> FromPacket(s'.early.value)
    ensures KeepsOwn(c, s, s', false)
  {
  }

  // ---------- Every step keeps the invariant ----------

  /** What each step does to the request's row once it is stored. */
  ghost predicate StepOk(c: Send, s: State, e: Event)
    requires Enabled(s, e)
  {
    KeepsOwn(c, s, Advance(c, s, e), PrunedAt(c, s, e))
  }

  lemma StoreStepOk(c: Send, s: State, ok: bool)
    requires Acceptable(c) && Inv(c, s) && Enabled(s, Store(ok))
    ensures StepOk(c, s, Store(ok))
  {
    var s' := Advance(c, s, Store(ok));
    if ok {
      var m := Pending(c.request);
      assert Resolve(m) == m && Unresolved(m);
      InsertedRows(s.tables, m);
      InsertAndPruneRows(s.tables, m, s.inserts, c.maximum);
      var own := Row(s.tables.nextId, m);
      assert own in Insert(s.tables, m).0.rows && own in s'.tables.rows;
      OnlyOwn(s'.tables, own);
    }
  }

  lemma ReplayStepOk(c: Send, s: State, synced: seq<Channel>)
    requires Acceptable(c) && Inv(c, s) && Enabled(s, Replay(synced))
    ensures StepOk(c, s, Replay(synced))
  {
    var p := s.deferred[0];
    var handled := Handle(c, s, p, synced);
    if p.current && p.TextPacket? {
      TextKeeps(c, s, p, synced);
    } else if p.current {
      AckKeeps(c, s, p, synced);
    }
    PhaseKeeps(c, handled, handled.(deferred := s.deferred[1..]));
  }

  lemma AckKeeps(c: Send, s: State, p: Packet, synced: seq<Channel>)
    requires Inv(c, s) && p.AckPacket? && p.current
    ensures KeepsOwn(c, s, Handle(c, s, p, synced), false)
  {
    var k := OutgoingRow(s.tables.rows, p.request, c.request.local);
    if k.Some? {
      AckOfIsFromPacket(p.routing, s.tables.rows[k.value].m.to);
      StatusKeepsOwn(c, s, p.request, c.request.local, AckOf(p.routing, s.tables.rows[k.value].m.to));
    }
  }

  lemma TextKeeps(c: Send, s: State, p: Packet, synced: seq<Channel>)
    requires Acceptable(c) && Inv(c, s) && p.TextPacket? && p.current
    ensures var a := Arrive(c, s, p, synced);
            KeepsOwn(c, s, Handle(c, s, p, synced),
                     a.message.Some? && Prunes(c, a.state.tables, a.message.value, s.inserts, OwnId(s.phase)))
  {
    var a := Arrive(c, s, p, synced);
    ArrivalKeeps(c, s, p, synced);
    if a.message.Some? {
      InsertionKeeps(c, a.state, a.message.value);
    }
  }

  lemma ArrivalKeeps(c: Send, s: State, p: Packet, synced: seq<Channel>)
    requires Acceptable(c) && Inv(c, s) && p.TextPacket?
    ensures var a := Arrive(c, s, p, synced);
            KeepsOwn(c, s, a.state, false) && a.state.phase == s.phase && a.state.inserts == s.inserts
  {
    var a := Arrive(c, s, p, synced);
    var rebound := s.(tables := RebindAll(c, s.tables, synced).0, bindings := BindingsOf(synced));
    RebindKeeps(c, s, rebound, synced);
    assert a.state == s || a.state == rebound;
  }

  lemma CommitStepOk(c: Send, s: State, ok: bool)
    requires Acceptable(c) && Inv(c, s) && Enabled(s, Commit(ok))
    ensures StepOk(c, s, Commit(ok))
  {
    var (tables, result) := Complete(s.tables, s.phase.row, c.request.local, s.phase.packet);
    if ok && result.Done? {
      CommittedKeeps(c, s, s.(tables := tables, phase := Committed(s.phase.row, s.phase.packet)));
    } else {
      PhaseKeeps(c, s, s.(phase := LeftUncertain(s.phase.row)));
    }
  }

  lemma CommittedKeeps(c: Send, s: State, s': State)
    requires Acceptable(c) && Inv(c, s) && s.phase.Returned?
    requires Complete(s.tables, s.phase.row, c.request.local, s.phase.packet) == (s'.tables, Done)
    requires s' == s.(tables := s'.tables, phase := Committed(s.phase.row, s.phase.packet))
    ensures KeepsOwn(c, s, s', false)
  {
    CompleteKeepsWf(s.tables, s.phase.row, c.request.local, s.phase.packet);
    var i := IndexOfId(s.tables.rows, s.phase.row).value;
    var own := s.tables.rows[i];
    assert own in s.tables.rows && own.m == Pending(c.request);
    assert s'.tables.rows[i] == Row(own.id, CompletedMessage(own.m, s.phase.packet));
    assert s'.tables.rows[i] in s'.tables.rows;
    OnlyOwn(s'.tables, s'.tables.rows[i]);
  }

  lemma SettleStepOk(c: Send, s: State)
    requires Acceptable(c) && Inv(c, s) && Enabled(s, Settle)
    ensures StepOk(c, s, Settle)
  {
    var s1 := s.(phase := Settled(s.phase.row, s.phase.packet));
    PhaseKeeps(c, s, s1);
    if s.phase.packet.Some? && s.early.Some? {
      StatusKeepsOwn(c, s1, s.phase.packet.value, c.request.local, s.early.value);
    }
  }

  lemma AckNakStepOk(c: Send, s: State, routing: RoutingPacket)
    requires Acceptable(c) && Inv(c, s) && Enabled(s, OnAckNak(routing))
    ensures StepOk(c, s, OnAckNak(routing))
  {
    var ack := AckOf(routing, Recipient(c.request));
    AckOfIsFromPacket(routing, Recipient(c.request));
    if s.phase.Settled? && s.phase.packet.Some? {
      StatusKeepsOwn(c, s, s.phase.packet.value, c.request.local, ack);
    } else {
      PhaseKeeps(c, s, s.(early := Some(ack)));
    }
  }

  lemma StepKeepsInv(c: Send, s: State, e: Event)
    requires Acceptable(c) && Inv(c, s) && Enabled(s, e)
    ensures StepOk(c, s, e)
  {
    match e
    case Store(ok) => StoreStepOk(c, s, ok);
    case Commit(ok) => CommitStepOk(c, s, ok);
    case Settle => SettleStepOk(c, s);
    case OnAckNak(routing) => AckNakStepOk(c, s, routing);
    case OtherAck(id, local, routing, destination) =>
      AckOfIsFromPacket(routing, destination);
      StatusKeepsOwn(c, s, id, local, AckOf(routing, destination));
    case InFlight(message) => InsertionKeeps(c, s, message);
    case Resync(channel) => RebindKeeps(c, s, Advance(c, s, e), [channel]);
    case Replay(synced) => ReplayStepOk(c, s, synced);
    case CallRadio => PhaseKeeps(c, s, s.(phase := InRadio(s.phase.row), sends := s.sends + 1));
    case Receive(packet) => PhaseKeeps(c, s, s.(deferred := s.deferred + [packet]));
    case RadioReturns(packet) => PhaseKeeps(c, s, s.(phase := Returned(s.phase.row, packet)));
    case RadioRaises => PhaseKeeps(c, s, s.(phase := LeftUncertain(s.phase.row)));
  }

  lemma {:induction false} RunKeepsInv(c: Send, trace: seq<State>, events: seq<Event>, n: nat)
    requires Acceptable(c) && IsRun(c, trace, events) && n < |trace|
    ensures Inv(c, trace[n])
  {
    if n > 0 {
      RunKeepsInv(c, trace, events, n - 1);
      StepKeepsInv(c, trace[n - 1], events[n - 1]);
    }
  }

  // ---------- Main results ----------

  /** No step before state n pruned the request's row. */
  ghost predicate NeverPruned(c: Send, trace: seq<State>, events: seq<Event>, n: nat)
    requires IsRun(c, trace, events)
  {
    forall k | 0 <= k < n && k < |events| :: !PrunedAt(c, trace[k], events[k])
  }

  lemma OwnRowStep(c: Send, trace: seq<State>, events: seq<Event>, n: nat)
    requires Acceptable(c) && IsRun(c, trace, events) && n < |events| && OwnId(trace[n + 1].phase).Some?
    ensures if OwnId(trace[n].phase).Some? then HasOwn(trace[n + 1]) <==> HasOwn(trace[n]) && !PrunedAt(c, trace[n], events[n])
            else HasOwn(trace[n + 1])
  {
    RunKeepsInv(c, trace, events, n);
    RunKeepsInv(c, trace, events, n + 1);
    StepKeepsInv(c, trace[n], events[n]);
    if OwnId(trace[n].phase).None? {
      OwnIsNew(c, trace[n], events[n]);
    }
  }

  lemma OwnIsNew(c: Send, s: State, e: Event)
    requires Enabled(s, e) && OwnId(s.phase).None? && OwnId(Advance(c, s, e).phase).Some?
    ensures Advance(c, s, e).phase.Stored?
  {
    if e.Replay? {
      HandleKeepsRest(c, s, s.deferred[0], e.synced);
    }
  }

  lemma {:induction false} OwnRowStaysIff(c: Send, trace: seq<State>, events: seq<Event>, n: nat)
    requires Acceptable(c) && IsRun(c, trace, events) && n < |trace| && OwnId(trace[n].phase).Some?
    ensures HasOwn(trace[n]) <==> NeverPruned(c, trace, events, n)
  {
    if n > 0 {
      OwnRowStep(c, trace, events, n - 1);
      NeverPrunedStep(c, trace, events, n - 1);
      if OwnId(trace[n - 1].phase).Some? {
        OwnRowStaysIff(c, trace, events, n - 1);
      } else {
        NothingPrunedBefore(c, trace, events, n - 1);
      }
    }
  }

  lemma NeverPrunedStep(c: Send, trace: seq<State>, events: seq<Event>, n: nat)
    requires IsRun(c, trace, events) && n < |events|
    ensures NeverPruned(c, trace, events, n + 1) <==> NeverPruned(c, trace, events, n) && !PrunedAt(c, trace[n], events[n])
  {
  }

  lemma {:induction false} NothingPrunedBefore(c: Send, trace: seq<State>, events: seq<Event>, n: nat)
    requires IsRun(c, trace, events) && n < |trace| && OwnId(trace[n].phase).None?
    ensures forall k | 0 <= k <= n && k < |events| :: !PrunedAt(c, trace[k], events[k]) && OwnId(trace[k].phase).None?
  {
    if n > 0 {
      NoRowBefore(c, trace[n - 1], events[n - 1]);
      NothingPrunedBefore(c, trace, events, n - 1);
    }
    if n < |events| {
      NothingToPrune(c, trace[n], events[n]);
    }
  }

  lemma NoRowBefore(c: Send, s: State, e: Event)
    requires Enabled(s, e) && OwnId(Advance(c, s, e).phase).None?
    ensures OwnId(s.phase).None?
  {
    if OwnId(s.phase).Some? {
      OwnIdStays(c, s, e);
    }
  }

  lemma NothingToPrune(c: Send, s: State, e: Event)
    requires Enabled(s, e) && OwnId(s.phase).None?
    ensures !PrunedAt(c, s, e)
  {
  }

  /**
   In every run, crashes included, the radio is called at most once, only when the uncertain row is
   stored, and the row is stored, uncertain and untouched, until the radio's packet ID is in it.
   From then on it carries that ID, and it is stored exactly until a step prunes it, which needs the
   row to be resolved and the retention limit of newer resolved rows of its node.
   */
  lemma DurableBeforeRadio(c: Send, trace: seq<State>, events: seq<Event>, n: nat)
    requires Acceptable(c) && IsRun(c, trace, events) && n < |trace|
    ensures trace[n].sends <= 1 && Wf(trace[n].tables) && (trace[n].sends == 1 ==> OwnId(trace[n].phase).Some?)
    ensures n < |events| && events[n].CallRadio? ==>
              trace[n].sends == 0 && Row(trace[n].phase.row, Pending(c.request)) in trace[n].tables.rows
    ensures OwnId(trace[n].phase).Some? && !HandedOver(trace[n].phase) ==>
              Row(OwnId(trace[n].phase).value, Pending(c.request)) in trace[n].tables.rows
    ensures HandedOver(trace[n].phase) ==>
              && (HasOwn(trace[n]) <==> NeverPruned(c, trace, events, n))
              && forall r | r in trace[n].tables.rows && r.id == trace[n].phase.row ::
                   && r.m.packet == trace[n].phase.packet && !r.m.status.Uncertain?
                   && r.m.(packet := None, status := Uncertain, reason := None) == Pending(c.request)
  {
    RunKeepsInv(c, trace, events, n);
    if OwnId(trace[n].phase).Some? {
      OwnRowStaysIff(c, trace, events, n);
    }
  }

  // Where the other rows come from.

  /** While the send goes on, a row is added only by storing the request or by a thread that was past the lock. */
  lemma RowsOrigin(c: Send, s: State, e: Event)
    requires Acceptable(c) && Inv(c, s) && Enabled(s, e) && !e.Replay?
    ensures var s' := Advance(c, s, e);
            forall r | r in s'.tables.rows ::
              || (exists x | x in s.tables.rows :: x.id == r.id)
              || (r.id == s.tables.nextId && (e.InFlight? || (e.Store? && OwnId(s'.phase) == Some(r.id))))
  {
    var s' := Advance(c, s, e);
    if e.Store? {
      InsertedRows(s.tables, Pending(c.request));
      InsertAndPruneRows(s.tables, Pending(c.request), s.inserts, c.maximum);
    } else if e.InFlight? {
      InsertedRows(s.tables, e.message);
      InsertAndPruneRows(s.tables, e.message, s.inserts, c.maximum);
    } else if e.Resync? {
      RebindAllKeeps(c, s.tables, [e.channel]);
    } else {
      StatusLengths(c, s, e);
      forall r | r in s'.tables.rows ensures exists x | x in s.tables.rows :: x.id == r.id {
        var k :| 0 <= k < |s'.tables.rows| && s'.tables.rows[k] == r;
        assert s.tables.rows[k] in s.tables.rows;
      }
    }
  }

  lemma StatusLengths(c: Send, s: State, e: Event)
    requires Enabled(s, e) && !e.Replay? && !e.Store? && !e.InFlight? && !e.Resync?
    ensures var rows' := Advance(c, s, e).tables.rows;
            |rows'| == |s.tables.rows| && forall k | 0 <= k < |rows'| :: rows'[k].id == s.tables.rows[k].id
  {
  }

  /** Row `id` was stored before the send began, or at step k by a thread that was past the lock. */
  ghost predicate IsForeign(trace: seq<State>, events: seq<Event>, n: nat, id: nat)
    requires trace != [] && n <= |events| < |trace|
  {
    id < trace[0].tables.nextId || exists k | 0 <= k < n :: events[k].InFlight? && trace[k].tables.nextId == id
  }

  /** While the send goes on no other row comes from a deferred packet, so none is the request's own echo. */
  lemma {:induction false} OthersAreForeign(c: Send, trace: seq<State>, events: seq<Event>, n: nat)
    requires Acceptable(c) && IsRun(c, trace, events) && n < |trace| && !Over(trace[n].phase)
    ensures forall r | r in trace[n].tables.rows && Some(r.id) != OwnId(trace[n].phase) :: IsForeign(trace, events, n, r.id)
  {
    if n == 0 {
      forall r | r in trace[0].tables.rows ensures r.id < trace[0].tables.nextId {
        var i :| 0 <= i < |trace[0].tables.rows| && trace[0].tables.rows[i] == r;
      }
    } else {
      OthersAreForeign(c, trace, events, n - 1);
      RunKeepsInv(c, trace, events, n - 1);
      forall r | r in trace[n].tables.rows && Some(r.id) != OwnId(trace[n].phase) ensures IsForeign(trace, events, n, r.id) {
        ForeignStep(c, trace, events, n - 1, r);
      }
    }
  }

  lemma ForeignStep(c: Send, trace: seq<State>, events: seq<Event>, n: nat, r: Row)
    requires Acceptable(c) && |trace| == |events| + 1 && n < |events| && Inv(c, trace[n])
    requires Enabled(trace[n], events[n]) && trace[n + 1] == Advance(c, trace[n], events[n]) && !Over(trace[n + 1].phase)
    requires r in trace[n + 1].tables.rows && Some(r.id) != OwnId(trace[n + 1].phase)
    requires forall x | x in trace[n].tables.rows && Some(x.id) != OwnId(trace[n].phase) :: IsForeign(trace, events, n, x.id)
    ensures IsForeign(trace, events, n + 1, r.id)
  {
    var s, e := trace[n], events[n];
    RowsOrigin(c, s, e);
    if x :| x in s.tables.rows && x.id == r.id {
      if OwnId(s.phase).Some? {
        OwnIdStays(c, s, e);
      }
      assert IsForeign(trace, events, n, x.id);
    } else {
      assert e.InFlight? && s.tables.nextId == r.id;
    }
  }

  lemma OwnIdStays(c: Send, s: State, e: Event)
    requires Enabled(s, e) && OwnId(s.phase).Some?
    ensures OwnId(Advance(c, s, e).phase) == OwnId(s.phase)
  {
  }

  /**
   The commit succeeds exactly when no other row holds the identity it would give the request; such a
   row was stored before the send began or by a thread that was past the lock, never by its own echo.
   */
  lemma CommitMeetsNoEcho(c: Send, trace: seq<State>, events: seq<Event>, n: nat)
    requires Acceptable(c) && IsRun(c, trace, events) && n < |trace| && trace[n].phase.Returned?
    ensures var s := trace[n];
            var identity := IdentityOf(CompletedMessage(Pending(c.request), s.phase.packet));
            && (Advance(c, s, Commit(true)).phase == Committed(s.phase.row, s.phase.packet) <==>
                  s.phase.packet.None? || !exists r | r in s.tables.rows :: r.id != s.phase.row && IdentityOf(r.m) == identity)
            && forall r | r in s.tables.rows && r.id != s.phase.row :: IsForeign(trace, events, n, r.id)
  {
    RunKeepsInv(c, trace, events, n);
    OthersAreForeign(c, trace, events, n);
    var s := trace[n];
    var i := IndexOfId(s.tables.rows, s.phase.row).value;
    assert s.tables.rows[i] in s.tables.rows && s.tables.rows[i].m == Pending(c.request);
    var identity := IdentityOf(CompletedMessage(Pending(c.request), s.phase.packet));
    var found := IndexOfIdentity(s.tables.rows, identity, Some(s.phase.row));
    if found.Some? {
      assert s.tables.rows[found.value] in s.tables.rows;
    }
  }

  /**
   An acknowledgement that raced ahead of the commit is not lost: settling applies it to the request's
   own row, with its reason, exactly when the row's status still allows it and no newer outgoing row
   of the node with the same packet ID could take it. Such a row comes from a thread past the lock.
   */
  lemma EarlyAckReachesRequest(c: Send, trace: seq<State>, events: seq<Event>, n: nat, own: Row)
    requires Acceptable(c) && IsRun(c, trace, events) && n < |trace|
    requires trace[n].phase.Committed? && trace[n].phase.packet.Some? && trace[n].early.Some?
    requires own in trace[n].tables.rows && own.id == trace[n].phase.row
    ensures var s, ack := trace[n], trace[n].early.value;
            var newer := exists x | x in s.tables.rows ::
                           x.id > own.id && Eligible(x, s.phase.packet.value, ack.status, Some(c.request.local));
            var m := if Allowed(own.m.status, ack.status) && !newer
                     then own.m.(status := ack.status, reason := NewReason(own.m.reason, ack.status, ack.reason)) else own.m;
            Row(own.id, m) in Advance(c, s, Settle).tables.rows
    ensures forall x | x in trace[n].tables.rows && x.id > own.id ::
              x.id < trace[0].tables.nextId || exists k | 0 <= k < n :: events[k].InFlight? && trace[k].tables.nextId == x.id
  {
    RunKeepsInv(c, trace, events, n);
    OthersAreForeign(c, trace, events, n);
    SettleUpdates(c, trace[n], own);
    forall x | x in trace[n].tables.rows && x.id > own.id ensures IsForeign(trace, events, n, x.id) {
    }
  }

  lemma SettleUpdates(c: Send, s: State, own: Row)
    requires Acceptable(c) && Inv(c, s) && s.phase.Committed? && s.phase.packet.Some? && s.early.Some?
    requires own in s.tables.rows && own.id == s.phase.row
    ensures var ack := s.early.value;
            var newer := exists x | x in s.tables.rows ::
                           x.id > own.id && Eligible(x, s.phase.packet.value, ack.status, Some(c.request.local));
            var m := if Allowed(own.m.status, ack.status) && !newer
                     then own.m.(status := ack.status, reason := NewReason(own.m.reason, ack.status, ack.reason)) else own.m;
            Row(own.id, m) in Advance(c, s, Settle).tables.rows
  {
    var rows, ack, p, local := s.tables.rows, s.early.value, s.phase.packet.value, Some(c.request.local);
    var i :| 0 <= i < |rows| && rows[i] == own;
    assert RequestRow(c, s.phase, own.m);
    OwnIsAddressed(c, s.phase, own.m);
    assert Eligible(own, p, ack.status, local) <==> Allowed(own.m.status, ack.status);
    NewerAt(rows, s.tables.nextId, i, p, ack.status, local, ack.reason);
    var rows' := UpdateStatus(rows, p, ack.status, local, ack.reason).0;
    assert Advance(c, s, Settle).tables.rows == rows';
    assert rows'[i] in rows';
  }

  lemma OwnIsAddressed(c: Send, phase: Phase, m: Message)
    requires HandedOver(phase) && RequestRow(c, phase, m)
    ensures m.outgoing && m.local == c.request.local && m.packet == phase.packet
  {
    var plain := m.(packet := None, status := Uncertain, reason := None);
    assert plain.outgoing == m.outgoing && plain.local == m.local;
  }

  lemma NewerAt(
    rows: seq<Row>, nextId: nat, i: nat, packet: int, status: Status, local: Option<string>, reason: Option<string>)
    requires IdsAscend(rows, nextId) && i < |rows|
    ensures var newer := exists x | x in rows :: x.id > rows[i].id && Eligible(x, packet, status, local);
            UpdateStatus(rows, packet, status, local, reason).0[i] ==
              if Eligible(rows[i], packet, status, local) && !newer
              then rows[i].(m := rows[i].m.(status := status, reason := NewReason(rows[i].m.reason, status, reason))) else rows[i]
  {
    var index := NewestEligible(rows, packet, status, local);
    assert rows[i] in rows;
    if index.Some? {
      assert rows[index.value] in rows;
    }
    if x :| x in rows && x.id > rows[i].id && Eligible(x, packet, status, local) {
      var j :| 0 <= j < |rows| && rows[j] == x;
      assert i < j;
    }
  }

  // ---------- Receiving a text ----------

  function CleanText(u: Unicode, text: string): string {
    Strip(u, Sanitize(u, text, 237))
  }

  /** The packets that are kept: some text, and a channel that exists or a direct message from or to this node. */
  predicate Storable(c: Send, p: Packet)
    requires p.TextPacket?
  {
    && CleanText(c.unicode, p.text) != []
    && (if p.to == BROADCAST then 0 <= p.channel <= 7 else p.from == c.request.local || p.to == c.request.local)
  }

  /** The row a text packet becomes under a channel key. */
  ghost predicate StoresAs(c: Send, p: Packet, key: string, m: Message)
    requires p.TextPacket?
  {
    var local := c.request.local;
    && m.packet == p.id && m.from == p.from && m.to == p.to && m.text == CleanText(c.unicode, p.text)
    && m.channel == p.channel && m.key == key && m.local == local && m.profile == c.request.profile
    && m.transport == p.transport && m.wantAck == p.wantAck && m.reason.None?
    && (if p.from == local then m.outgoing && m.status == Queued else !m.outgoing && m.status == Received)
    && (if p.to == BROADCAST then m.kind == Public && m.peer == "" && m.route == PublicRoute(local, key)
        else && m.kind == Dm && m.peer == (if p.from == local then p.to else p.from)
             && m.route == DmRoute(local, m.peer, key))
  }

  lemma ParsesAs(c: Send, p: Packet, bindings: map<int, string>)
    requires Acceptable(c) && p.TextPacket?
    ensures ParseText(c.unicode, p, c.request.local).Some? <==> Storable(c, p)
    ensures Storable(c, p) ==>
              var parsed := ParseText(c.unicode, p, c.request.local).value;
              var m := Bind(c, parsed, bindings);
              && parsed.channel == p.channel && Resolve(m) == m && m.local != ""
              && StoresAs(c, p, if p.channel in bindings then bindings[p.channel] else c.provisional(p.channel), m)
  {
    if p.text == [] {
      assert Sanitize(c.unicode, p.text, 237) == [];
    }
  }

  /** What handling a text works on: a packet for an unbound channel first makes the service sync the channels. */
  datatype Synced = Synced(state: State, ok: bool, key: string)

  function SyncedFor(c: Send, s: State, p: Packet, synced: seq<Channel>): Synced
    requires p.TextPacket?
  {
    if Storable(c, p) && p.channel !in s.bindings then
      var (tables, ok) := RebindAll(c, s.tables, synced);
      var bindings := BindingsOf(synced);
      Synced(s.(tables := tables, bindings := bindings), ok,
             if p.channel in bindings then bindings[p.channel] else c.provisional(p.channel))
    else Synced(s, true, if p.channel in s.bindings then s.bindings[p.channel] else c.provisional(p.channel))
  }

  /** The bindings are those of the last report of each channel index. */
  lemma {:induction false} BindingsOfIsLast(synced: seq<Channel>, index: int)
    ensures index in BindingsOf(synced) <==> exists i | 0 <= i < |synced| :: synced[i].index == index
    ensures forall i | 0 <= i < |synced| && synced[i].index == index
              && (forall j | i < j < |synced| :: synced[j].index != index) :: BindingsOf(synced)[index] == synced[i].key
  {
    if synced != [] {
      BindingsOfIsLast(synced[..|synced| - 1], index);
    }
  }

  /** A stored message that the packet only repeats. */
  ghost predicate Repeats(c: Send, p: Packet, key: string, m: Message)
    requires p.TextPacket?
  {
    var local := c.request.local;
    && p.id.Some? && m.packet == p.id && m.from == p.from && m.to == p.to && m.text == CleanText(c.unicode, p.text)
    && (m.outgoing <==> p.from == local)
    && m.route == (if p.to == BROADCAST then PublicRoute(local, key)
                   else DmRoute(local, if p.from == local then p.to else p.from, key))
  }

  /**
   A text packet is stored as a new row exactly when it has text left after cleaning, concerns an existing channel
   or this node, its channel could be bound, and no stored message is the same one. The row is incoming
   and received unless this node sent it, and its peer is the other node of the two.
   */
  lemma ReceivedIsStoredIff(c: Send, s: State, p: Packet, synced: seq<Channel>)
    requires Acceptable(c) && Wf(s.tables) && p.TextPacket? && p.current
    ensures var (after, rows') := (SyncedFor(c, s, p, synced), Handle(c, s, p, synced).tables.rows);
            var id := after.state.tables.nextId;
            && ((exists r | r in rows' :: r.id == id) <==>
                  Storable(c, p) && after.ok && !exists r | r in after.state.tables.rows :: Repeats(c, p, after.key, r.m))
            && (forall r | r in rows' && r.id == id :: StoresAs(c, p, after.key, r.m))
            && ((forall r | r in rows' :: r.id != id) ==> rows' == after.state.tables.rows)
  {
    var after := SyncedFor(c, s, p, synced);
    ParsesAs(c, p, after.state.bindings);
    SyncKeepsWf(c, s, p, synced);
    OldIds(after.state.tables);
    HandleIs(c, s, p, synced);
    if Storable(c, p) && after.ok {
      var m := Bind(c, ParseText(c.unicode, p, c.request.local).value, after.state.bindings);
      NewMessageStays(c, after.state, m);
      forall r | r in after.state.tables.rows
        ensures Repeats(c, p, after.key, r.m) <==> m.packet.Some? && IdentityOf(r.m) == IdentityOf(m)
      {
      }
    }
  }

  lemma OldIds(t: Tables)
    requires IdsAscend(t.rows, t.nextId)
    ensures forall r | r in t.rows :: r.id != t.nextId
  {
  }

  lemma SyncKeepsWf(c: Send, s: State, p: Packet, synced: seq<Channel>)
    requires Acceptable(c) && Wf(s.tables) && p.TextPacket?
    ensures Wf(SyncedFor(c, s, p, synced).state.tables)
  {
    RebindAllKeeps(c, s.tables, synced);
  }

  lemma HandleIs(c: Send, s: State, p: Packet, synced: seq<Channel>)
    requires Acceptable(c) && p.TextPacket? && p.current
    ensures var after := SyncedFor(c, s, p, synced);
            Handle(c, s, p, synced) ==
              if Storable(c, p) && after.ok
              then InsertInto(c, after.state, Bind(c, ParseText(c.unicode, p, c.request.local).value, after.state.bindings))
              else after.state
  {
    ParsesAs(c, p, s.bindings);
  }

  /** The send that answers a message: to its sender, or to everybody, on the channel it came in on. */
  function Answer(c: Send, p: Packet, key: string): Request
    requires p.TextPacket?
  {
    c.request.(public := p.to == BROADCAST, destination := p.from, channel := p.channel, key := key)
  }

  /** A message from another node is filed in the conversation in which an answer to it is stored. */
  lemma AnswerSharesConversation(c: Send, s: State, p: Packet, synced: seq<Channel>, r: Row)
    requires Acceptable(c) && Wf(s.tables) && p.TextPacket? && p.current && p.from != c.request.local
    requires r in Handle(c, s, p, synced).tables.rows && r.id == SyncedFor(c, s, p, synced).state.tables.nextId
    ensures !r.m.outgoing && r.m.status == Received
    ensures var answer := Pending(Answer(c, p, SyncedFor(c, s, p, synced).key));
            && r.m.route == answer.route && r.m.peer == answer.peer && r.m.kind == answer.kind && r.m.key == answer.key
            && r.m.channel == answer.channel && r.m.local == answer.local && (r.m.kind.Dm? ==> answer.to == p.from)
  {
    ReceivedIsStoredIff(c, s, p, synced);
  }

  /** What is stored of a request before the radio is called. */
  lemma RequestIs(r: Request)
    ensures var m := Pending(r);
            && m.packet.None? && m.outgoing && m.status.Uncertain? && m.reason.None? && m.transport.UnknownTransport?
            && m.from == m.local == r.local && m.text == r.text && m.channel == r.channel && m.key == r.key && m.profile == r.profile
            && (r.public ==> m.kind.Public? && m.to == "!ffffffff" && m.peer == "" && m.route == PublicRoute(r.local, r.key))
            && (!r.public ==> m.kind.Dm? && m.to == m.peer == r.destination && m.route == DmRoute(r.local, r.destination, r.key))
            && (m.wantAck <==> !r.public)
  {
  }

  /** Before the commit a request is unresolved; after it only a direct message is, which awaits its acknowledgement. */
  lemma AwaitsAcknowledgement(r: Request, packet: Option<int>)
    ensures Unresolved(Pending(r))
    ensures Unresolved(CompletedMessage(Pending(r), packet)) <==> !r.public
  {
  }

  // ---------- The order of replays, the last early status, and re-syncs ----------

  /** The packets deferred before state `n`, in the order they came. */
  ghost function Arrivals(events: seq<Event>, n: nat): seq<Packet>
    requires n <= |events|
  {
    if n == 0 then []
    else Arrivals(events, n - 1) + if events[n - 1].Receive? then [events[n - 1].received] else []
  }

  ghost function Replays(events: seq<Event>, n: nat): nat
    requires n <= |events|
  {
    if n == 0 then 0 else Replays(events, n - 1) + if events[n - 1].Replay? then 1 else 0
  }

  /** In every run the deferred packets are handled one by one in the order they came: none is lost, repeated or overtaken. */
  lemma {:induction false} ReplaysKeepOrder(c: Send, trace: seq<State>, events: seq<Event>, n: nat)
    requires IsRun(c, trace, events) && n < |trace|
    ensures Replays(events, n) <= |Arrivals(events, n)|
    ensures trace[n].deferred == Arrivals(events, n)[Replays(events, n)..]
    ensures n < |events| && events[n].Replay? ==>
              var i := Replays(events, n);
              i < |Arrivals(events, n)| && trace[n + 1].tables == Handle(c, trace[n], Arrivals(events, n)[i], events[n].synced).tables
  {
    if n > 0 {
      ReplaysKeepOrder(c, trace, events, n - 1);
      DeferredStep(c, trace[n - 1], events[n - 1]);
    }
    if n < |events| && events[n].Replay? {
      assert Enabled(trace[n], events[n]);
    }
  }

  lemma DeferredStep(c: Send, s: State, e: Event)
    requires Enabled(s, e)
    ensures Advance(c, s, e).deferred ==
              if e.Receive? then s.deferred + [e.received] else if e.Replay? then s.deferred[1..] else s.deferred
    ensures e.Replay? ==> s.deferred != []
  {
  }

  /** The status a routing packet reports to the sender of the request. */
  ghost predicate Reports(routing: RoutingPacket, destination: string, ack: Ack) {
    && ack.reason == routing.error
    && (ack.status.Failed? <==> routing.error.Some?)
    && (ack.status.Delivered? <==> routing.error.None? && routing.sender != "" && routing.sender == destination)
    && (ack.status.Acknowledged? <==> routing.error.None? && (routing.sender == "" || routing.sender != destination))
  }

  /** Until the packet ID is committed, the status kept for the request is that of the last callback so far. */
  lemma EarlyIsLast(c: Send, trace: seq<State>, events: seq<Event>, n: nat) returns (k: nat)
    requires IsRun(c, trace, events) && n < |trace|
    requires !(trace[n].phase.Settled? && trace[n].phase.packet.Some?)
    ensures trace[n].early.None? ==> forall i | 0 <= i < n :: !events[i].OnAckNak?
    ensures trace[n].early.Some? ==>
              && k < n && events[k].OnAckNak? && (forall i | k < i < n :: !events[i].OnAckNak?)
              && Reports(events[k].routing, if c.request.public then "!ffffffff" else c.request.destination, trace[n].early.value)
  {
    forall i | 0 <= i < |events| ensures KeepsEarly(c, trace[i], events[i], trace[i + 1]) {
      KeptStep(c, trace[i], events[i]);
    }
    k := LastCallback(c, trace, events, n);
  }

  ghost predicate KeepsEarly(c: Send, s: State, e: Event, s': State) {
    var settled := s.phase.Settled? && s.phase.packet.Some?;
    && (settled ==> s'.phase.Settled? && s'.phase.packet.Some?)
    && (!e.OnAckNak? ==> s'.early == s.early)
    && (e.OnAckNak? && !settled ==>
          s'.early.Some?
          && Reports(e.routing, if c.request.public then "!ffffffff" else c.request.destination, s'.early.value))
  }

  lemma KeptStep(c: Send, s: State, e: Event)
    requires Enabled(s, e)
    ensures KeepsEarly(c, s, e, Advance(c, s, e))
  {
  }

  lemma {:induction false} LastCallback(c: Send, trace: seq<State>, events: seq<Event>, n: nat) returns (k: nat)
    requires |trace| == |events| + 1 && n < |trace| && trace[0].early.None?
    requires forall i | 0 <= i < |events| :: KeepsEarly(c, trace[i], events[i], trace[i + 1])
    requires !(trace[n].phase.Settled? && trace[n].phase.packet.Some?)
    ensures trace[n].early.None? ==> forall i | 0 <= i < n :: !events[i].OnAckNak?
    ensures trace[n].early.Some? ==>
              && k < n && events[k].OnAckNak? && (forall i | k < i < n :: !events[i].OnAckNak?)
              && Reports(events[k].routing, if c.request.public then "!ffffffff" else c.request.destination, trace[n].early.value)
  {
    k := 0;
    if n > 0 {
      assert KeepsEarly(c, trace[n - 1], events[n - 1], trace[n]);
      if events[n - 1].OnAckNak? {
        k := n - 1;
      } else {
        k := LastCallback(c, trace, events, n - 1);
      }
    }
  }

  /** A re-sync goes through exactly when every single rebind does, and otherwise keeps those before the one that failed. */
  lemma {:induction false} ResyncSucceedsIff(c: Send, t: Tables, synced: seq<Channel>)
    ensures var (after, ok) := RebindAll(c, t, synced);
            && (ok <==> forall k | 0 <= k < |synced| :: TryRebind(BindingFor(c, synced[k]), RebindAll(c, t, synced[..k]).0).Some?)
            && (!ok ==> exists k | 0 <= k < |synced| ::
                  && after == RebindAll(c, t, synced[..k]).0 && TryRebind(BindingFor(c, synced[k]), after).None?
                  && RebindAll(c, t, synced[..k]).1)
    decreases |synced|
  {
    if synced != [] {
      var first := TryRebind(BindingFor(c, synced[0]), t);
      assert synced[..0] == [] && RebindAll(c, t, synced[..0]) == (t, true);
      if first.Some? {
        ResyncSucceedsIff(c, first.value, synced[1..]);
        forall k | 0 <= k < |synced[1..]|
          ensures RebindAll(c, t, synced[..k + 1]) == RebindAll(c, first.value, synced[1..][..k]) && synced[1..][k] == synced[k + 1]
        {
          assert synced[..k + 1][1..] == synced[1..][..k];
        }
        assert forall k | 0 < k < |synced| :: synced[k] == synced[1..][k - 1];
      }
    }
  }

  /** Every hundredth new row prunes the table, whoever stored it. */
  lemma PrunesEveryHundredth(c: Send, s: State, m: Message)
    requires 0 <= s.inserts < 100
    ensures var ((t1, result), s') := (Insert(s.tables, m), InsertInto(c, s, m));
            if !result.Inserted? then s'.inserts == s.inserts && s'.tables == t1
            else if s.inserts == 99 then s'.inserts == 0 && s'.tables == PruneTables(t1, c.maximum)
            else s'.inserts == s.inserts + 1 && s'.tables == t1
  {
  }

  // ---------- What a routing packet means ----------

  /** The destination itself reports that the message came through. */
  predicate SaysDelivered(routing: RoutingPacket, destination: string) {
    routing.error.None? && routing.sender != "" && routing.sender == destination
  }

  /** Row `k` is the newest outgoing row of the packet and node whose status is one of `open`. */
  ghost predicate NewestOpen(rows: seq<Row>, packet: int, local: string, open: set<Status>, k: nat) {
    && k < |rows| && Addressed(rows[k], packet, local) && rows[k].m.status in open
    && forall j | k < j < |rows| && Addressed(rows[j], packet, local) :: rows[j].m.status !in open
  }

  /**
   The whole effect of a routing packet. The destination of the newest outgoing row decides what it means: an
   error is a failure with its reason, the destination's own packet a delivery, any other an
   acknowledgement by the mesh. The newest row whose status can still move that way takes it.
   */
  lemma RoutingPacketEffect(c: Send, s: State, p: Packet, synced: seq<Channel>, i: nat)
    requires p.AckPacket? && p.current && NewestAddressed(s.tables.rows, p.request, c.request.local, i)
    ensures var (rows, rows', error) := (s.tables.rows, Handle(c, s, p, synced).tables.rows, p.routing.error);
            var (status, open) := if error.Some? then (Failed, {Queued, Confirmed, Acknowledged})
                                  else if SaysDelivered(p.routing, rows[i].m.to)
                                  then (Delivered, {Queued, Confirmed, Acknowledged, Failed})
                                  else (Acknowledged, {Queued, Confirmed});
            |rows'| == |rows| && forall k | 0 <= k < |rows| ::
              rows'[k] == if NewestOpen(rows, p.request, c.request.local, open, k)
                          then rows[k].(m := rows[k].m.(status := status, reason := error)) else rows[k]
  {
    var rows, local := s.tables.rows, c.request.local;
    assert OutgoingRow(rows, p.request, local) == Some(i);
    var ack := AckOf(p.routing, rows[i].m.to);
    var open := if ack.status.Failed? then {Queued, Confirmed, Acknowledged}
                else if ack.status.Delivered? then {Queued, Confirmed, Acknowledged, Failed} else {Queued, Confirmed};
    OpenIsEligible(rows, p.request, local, ack.status, open);
    assert Handle(c, s, p, synced).tables.rows == UpdateStatus(rows, p.request, ack.status, Some(local), ack.reason).0;
    AckOfIsFromPacket(p.routing, rows[i].m.to);
  }

  lemma OpenIsEligible(rows: seq<Row>, packet: int, local: string, status: Status, open: set<Status>)
    requires IsAckStatus(status)
    requires open == if status.Failed? then {Queued, Confirmed, Acknowledged}
                     else if status.Delivered? then {Queued, Confirmed, Acknowledged, Failed} else {Queued, Confirmed}
    ensures var index := NewestEligible(rows, packet, status, Some(local));
            forall k: nat | k < |rows| :: NewestOpen(rows, packet, local, open, k) <==> index == Some(k)
  {
    var index := NewestEligible(rows, packet, status, Some(local));
    forall k: nat | k < |rows|
      ensures Eligible(rows[k], packet, status, Some(local)) <==> Addressed(rows[k], packet, local) && rows[k].m.status in open
      ensures rows[k] in rows
    {
    }
    forall k: nat | k < |rows| ensures NewestOpen(rows, packet, local, open, k) <==> index == Some(k) {
      if NewestOpen(rows, packet, local, open, k) {
        assert Eligible(rows[k], packet, status, Some(local));
      }
    }
  }

  /** A packet for no outgoing row changes nothing. */
  lemma StrangePacketIsIgnored(c: Send, s: State, p: Packet, synced: seq<Channel>)
    requires p.AckPacket? && forall r | r in s.tables.rows :: !Addressed(r, p.request, c.request.local)
    ensures Handle(c, s, p, synced) == s
  {
    assert OutgoingRow(s.tables.rows, p.request, c.request.local).None?;
  }

  /** With one outgoing row of the packet, it becomes delivered exactly by its own destination's packet without an error. */
  lemma DeliveredIff(c: Send, s: State, p: Packet, synced: seq<Channel>, k: nat)
    requires p.AckPacket? && p.current && OnlyRow(s.tables.rows, p.request, c.request.local, k)
    requires s.tables.rows[k].m.status != Delivered
    ensures var (m, rows') := (s.tables.rows[k].m, Handle(c, s, p, synced).tables.rows);
            |rows'| == |s.tables.rows| &&
            (rows'[k].m.status == Delivered <==>
               p.routing.error.None? && p.routing.sender != "" && p.routing.sender == m.to
               && m.status in {Queued, Confirmed, Acknowledged, Failed})
  {
    var rows := s.tables.rows;
    assert NewestAddressed(rows, p.request, c.request.local, k);
    RoutingPacketEffect(c, s, p, synced, k);
    var open := {Queued, Confirmed, Acknowledged, Failed};
    assert NewestOpen(rows, p.request, c.request.local, open, k) <==> rows[k].m.status in open;
  }

  /**
   With two outgoing rows of one packet ID it is not so: the destination of the newer row, reporting twice, also
   delivers the older one, which went to another node.
   */
  lemma DeliveredByAnother(c: Send, s: State, p: Packet, synced: seq<Channel>)
    requires p.AckPacket? && p.current && p.routing.error.None? && p.routing.sender != "" && |s.tables.rows| == 2
    requires forall r | r in s.tables.rows :: Addressed(r, p.request, c.request.local) && r.m.status.Queued?
    requires s.tables.rows[1].m.to == p.routing.sender != s.tables.rows[0].m.to
    ensures var rows := Handle(c, Handle(c, s, p, synced), p, synced).tables.rows;
            |rows| == 2 && rows[0].m.status == Delivered && rows[0].m.to != p.routing.sender
  {
    var (rows, local, open) := (s.tables.rows, c.request.local, {Queued, Confirmed, Acknowledged, Failed});
    assert rows[0] in rows && rows[1] in rows;
    RoutingPacketEffect(c, s, p, synced, 1);
    assert NewestOpen(rows, p.request, local, open, 1) && !NewestOpen(rows, p.request, local, open, 0);
    var s1 := Handle(c, s, p, synced);
    RoutingPacketEffect(c, s1, p, synced, 1);
    assert NewestOpen(s1.tables.rows, p.request, local, open, 0);
  }

  /** A step that can tell that the packet with ID `packet` was delivered. */
  ghost predicate Delivers(c: Send, s: State, e: Event, packet: Option<int>) {
    match e
    case OnAckNak(routing) => SaysDelivered(routing, Recipient(c.request))
    case OtherAck(id, local, routing, destination) =>
      Some(id) == packet && local == c.request.local && SaysDelivered(routing, destination)
    case Replay(_) =>
      && s.deferred != [] && s.deferred[0].AckPacket? && s.deferred[0].current && Some(s.deferred[0].request) == packet
      && exists i: nat | i < |s.tables.rows| ::
           NewestAddressed(s.tables.rows, s.deferred[0].request, c.request.local, i)
           && SaysDelivered(s.deferred[0].routing, s.tables.rows[i].m.to)
    case _ => false
  }

  lemma AckOfDelivers(routing: RoutingPacket, destination: string)
    ensures AckOf(routing, destination).status == Delivered <==> SaysDelivered(routing, destination)
  {
  }

  /** A status update delivers the request's row only with a delivery of its packet ID for its node. */
  lemma StatusDelivers(c: Send, s: State, packet: int, local: string, ack: Ack, r: Row)
    requires Inv(c, s) && HandedOver(s.phase) && r in WithStatus(s, packet, local, ack).tables.rows && r.id == s.phase.row
    requires r.m.status == Delivered
    ensures r in s.tables.rows || (ack.status == Delivered && s.phase.packet == Some(packet) && local == c.request.local)
  {
    StatusRows(s.tables.rows, packet, ack.status, Some(local), ack.reason);
    var rows, rows' := s.tables.rows, WithStatus(s, packet, local, ack).tables.rows;
    var k :| 0 <= k < |rows'| && rows'[k] == r;
    assert rows[k] in rows;
    if rows'[k] != rows[k] {
      OwnIsAddressed(c, s.phase, rows[k].m);
    }
  }

  lemma TextDeliversNothing(c: Send, s: State, p: Packet, synced: seq<Channel>, r: Row)
    requires Acceptable(c) && Inv(c, s) && HandedOver(s.phase) && p.TextPacket? && p.current
    requires r in Handle(c, s, p, synced).tables.rows && r.id == s.phase.row
    ensures r in s.tables.rows
  {
    var a := Arrive(c, s, p, synced);
    ArrivalKeeps(c, s, p, synced);
    ArrivalRows(c, s, p, synced, r);
    if a.message.Some? {
      InsertionKeepsOwn(c, a.state.tables, a.message.value, a.state.inserts, s.phase.row);
    }
  }

  lemma ArrivalRows(c: Send, s: State, p: Packet, synced: seq<Channel>, r: Row)
    requires Acceptable(c) && Inv(c, s) && OwnId(s.phase) == Some(r.id) && p.TextPacket?
    ensures r in Arrive(c, s, p, synced).state.tables.rows <==> r in s.tables.rows
  {
    var a := Arrive(c, s, p, synced);
    var rebound := s.(tables := RebindAll(c, s.tables, synced).0, bindings := BindingsOf(synced));
    RebindKeeps(c, s, rebound, synced);
    assert a.state == s || a.state == rebound;
  }

  lemma ReplayDelivers(c: Send, s: State, synced: seq<Channel>, r: Row)
    requires Acceptable(c) && Inv(c, s) && Enabled(s, Replay(synced)) && HandedOver(s.phase)
    requires r in Advance(c, s, Replay(synced)).tables.rows && r.id == s.phase.row && r.m.status == Delivered
    ensures r in s.tables.rows || Delivers(c, s, Replay(synced), s.phase.packet)
  {
    var p := s.deferred[0];
    if p.current && p.TextPacket? {
      TextDeliversNothing(c, s, p, synced, r);
    } else if p.current {
      var i := OutgoingRow(s.tables.rows, p.request, c.request.local);
      if i.Some? {
        AckOfDelivers(p.routing, s.tables.rows[i.value].m.to);
        StatusDelivers(c, s, p.request, c.request.local, AckOf(p.routing, s.tables.rows[i.value].m.to), r);
      }
    }
  }

  /** The request's row is delivered by a step that tells so, by an early callback that told so, or was before. */
  lemma DeliveryStep(c: Send, s: State, e: Event, r: Row)
    requires Acceptable(c) && Inv(c, s) && Enabled(s, e) && HandedOver(s.phase)
    requires r in Advance(c, s, e).tables.rows && r.id == s.phase.row && r.m.status == Delivered
    ensures r in s.tables.rows || Delivers(c, s, e, s.phase.packet) || (e.Settle? && s.early.Some? && s.early.value.status == Delivered)
  {
    match e
    case Settle =>
      if s.phase.packet.Some? && s.early.Some? {
        StatusDelivers(c, s, s.phase.packet.value, c.request.local, s.early.value, r);
      }
    case OnAckNak(routing) =>
      if s.phase.Settled? && s.phase.packet.Some? {
        AckOfDelivers(routing, Recipient(c.request));
        StatusDelivers(c, s, s.phase.packet.value, c.request.local, AckOf(routing, Recipient(c.request)), r);
      }
    case OtherAck(id, local, routing, destination) =>
      AckOfDelivers(routing, destination);
      StatusDelivers(c, s, id, local, AckOf(routing, destination), r);
    case Replay(synced) => ReplayDelivers(c, s, synced, r);
    case InFlight(message) => InsertionKeepsOwn(c, s.tables, message, s.inserts, s.phase.row);
    case Resync(channel) => RebindKeeps(c, s, Advance(c, s, e), [channel]);
    case _ =>
  }

  /** An early delivery was told by a callback. */
  lemma {:induction false} EarlyDelivery(c: Send, trace: seq<State>, events: seq<Event>, n: nat)
    requires Acceptable(c) && IsRun(c, trace, events) && n < |trace|
    requires trace[n].early.Some? && trace[n].early.value.status == Delivered
    ensures exists k | 0 <= k < n :: events[k].OnAckNak? && SaysDelivered(events[k].routing, Recipient(c.request))
  {
    if n > 0 {
      if trace[n].early == trace[n - 1].early {
        EarlyDelivery(c, trace, events, n - 1);
      } else {
        EarlyStep(c, trace[n - 1], events[n - 1]);
        assert events[n - 1].OnAckNak?;
      }
    }
  }

  lemma EarlyStep(c: Send, s: State, e: Event)
    requires Enabled(s, e) && Advance(c, s, e).early != s.early
    ensures e.OnAckNak? && Advance(c, s, e).early == Some(AckOf(e.routing, Recipient(c.request)))
    ensures AckOf(e.routing, Recipient(c.request)).status == Delivered <==> SaysDelivered(e.routing, Recipient(c.request))
  {
    if e.Replay? {
      HandleKeepsRest(c, s, s.deferred[0], e.synced);
    }
  }

  /** Handling a packet touches the tables, their counter and the bindings only. */
  lemma HandleKeepsRest(c: Send, s: State, p: Packet, synced: seq<Channel>)
    ensures var s' := Handle(c, s, p, synced);
            s'.phase == s.phase && s'.early == s.early && s'.deferred == s.deferred && s'.sends == s.sends
  {
    if p.TextPacket? {
      var a := Arrive(c, s, p, synced);
      assert a.state.phase == s.phase && a.state.early == s.early && a.state.deferred == s.deferred && a.state.sends == s.sends;
    }
  }

  /**
   In every run, a request is shown as delivered only if its destination said so: in a callback of this send, or in
   a packet, or the callback of another send, with its packet ID, for the row or destination they concern.
   */
  lemma {:induction false} DeliveredNeedsDestination(c: Send, trace: seq<State>, events: seq<Event>, n: nat, own: Row)
    requires Acceptable(c) && IsRun(c, trace, events) && n < |trace|
    requires own in trace[n].tables.rows && Some(own.id) == OwnId(trace[n].phase) && own.m.status == Delivered
    ensures HandedOver(trace[n].phase)
    ensures exists k | 0 <= k < n :: Delivers(c, trace[k], events[k], trace[n].phase.packet)
  {
    RunKeepsInv(c, trace, events, n);
    assert RequestRow(c, trace[n].phase, own.m);
    if n > 0 {
      var s, e := trace[n - 1], events[n - 1];
      RunKeepsInv(c, trace, events, n - 1);
      if HandedOver(s.phase) {
        HandedOverStays(c, s, e);
        DeliveryStep(c, s, e, own);
        if own in s.tables.rows {
          DeliveredNeedsDestination(c, trace, events, n - 1, own);
        } else if !Delivers(c, s, e, s.phase.packet) {
          EarlyDelivery(c, trace, events, n - 1);
          var k :| 0 <= k < n - 1 && events[k].OnAckNak? && SaysDelivered(events[k].routing, Recipient(c.request));
          assert Delivers(c, trace[k], events[k], trace[n].phase.packet);
        }
      } else {
        CommitQueues(c, s, e, own);
      }
    }
  }

  lemma HandedOverStays(c: Send, s: State, e: Event)
    requires Enabled(s, e) && HandedOver(s.phase)
    ensures HandedOver(Advance(c, s, e).phase) && Advance(c, s, e).phase.packet == s.phase.packet
    ensures Advance(c, s, e).phase.row == s.phase.row
  {
    if e.Replay? {
      HandleKeepsRest(c, s, s.deferred[0], e.synced);
    }
  }

  /** The commit hands the request over as queued. */
  lemma CommitQueues(c: Send, s: State, e: Event, r: Row)
    requires Acceptable(c) && Inv(c, s) && Enabled(s, e) && !HandedOver(s.phase) && HandedOver(Advance(c, s, e).phase)
    requires r in Advance(c, s, e).tables.rows && r.id == Advance(c, s, e).phase.row
    ensures r.m.status == Queued
  {
    NotHandedOverElse(c, s, e);
    var i := IndexOfId(s.tables.rows, s.phase.row).value;
    var rows' := Advance(c, s, e).tables.rows;
    assert rows'[i].m.status == Queued && rows'[i].id == s.phase.row;
    CompleteKeepsWf(s.tables, s.phase.row, c.request.local, s.phase.packet);
    SameIdSameRow(Advance(c, s, e).tables, rows'[i], r);
  }

  lemma NotHandedOverElse(c: Send, s: State, e: Event)
    requires Enabled(s, e) && !HandedOver(s.phase) && HandedOver(Advance(c, s, e).phase)
    ensures e.Commit? && e.ok && Complete(s.tables, s.phase.row, c.request.local, s.phase.packet).1.Done?
    ensures Advance(c, s, e).tables == Complete(s.tables, s.phase.row, c.request.local, s.phase.packet).0
    ensures Advance(c, s, e).phase.row == s.phase.row
  {
    if e.Replay? {
      HandleKeepsRest(c, s, s.deferred[0], e.synced);
    }
  }

  // ---------- The echo ----------

  /** The radio's echo of the request, as the receiving side sees it. */
  predicate IsEcho(c: Send, p: Packet, id: int) {
    && p.TextPacket? && p.id == Some(id) && p.from == c.request.local && p.to == Recipient(c.request)
    && p.channel == c.request.channel && p.text == c.request.text
  }

  function EchoIdentity(c: Send, id: int): Identity {
    IdentityOf(Pending(c.request)).(packet := Some(id))
  }

  lemma EchoParses(c: Send, p: Packet, id: int, bindings: map<int, string>)
    requires Acceptable(c) && IsEcho(c, p, id)
    requires p.channel in bindings && bindings[p.channel] == c.request.key
    ensures var m := ParseText(c.unicode, p, c.request.local);
            m.Some? && m.value.channel == p.channel
            && Bind(c, m.value, bindings) == Pending(c.request).(
                 packet := Some(id), status := Queued, transport := p.transport, wantAck := p.wantAck)
            && IdentityOf(Bind(c, m.value, bindings)) == EchoIdentity(c, id)
            && Resolve(Bind(c, m.value, bindings)) == Bind(c, m.value, bindings)
  {
    ValidatedTextSurvivesParsing(c.unicode, c.request.text);
  }

  /** The request's row holds the echo's identity exactly when the commit gave it that packet ID. */
  ghost predicate CommittedAs(s: State, id: int) {
    s.phase.Settled? && s.phase.packet == Some(id) && HasOwn(s)
  }

  ghost predicate OtherHolds(c: Send, s: State, id: int) {
    exists r | r in s.tables.rows :: Some(r.id) != OwnId(s.phase) && IdentityOf(r.m) == EchoIdentity(c, id)
  }

  lemma EchoIsHeldIff(c: Send, s: State, id: int)
    requires Inv(c, s) && Over(s.phase)
    ensures SomeIdentity(s.tables.rows, EchoIdentity(c, id)) <==> CommittedAs(s, id) || OtherHolds(c, s, id)
  {
    if CommittedAs(s, id) {
      var r :| r in s.tables.rows && Some(r.id) == OwnId(s.phase);
      assert r.m.(packet := None, status := Uncertain, reason := None) == Pending(c.request);
      assert IdentityOf(r.m) == EchoIdentity(c, id);
    }
  }

  /** What handling the echo does to the rows. */
  lemma EchoInserts(c: Send, s: State, p: Packet, id: int, synced: seq<Channel>)
    requires Acceptable(c) && Inv(c, s) && IsEcho(c, p, id) && p.current
    requires p.channel in s.bindings && s.bindings[p.channel] == c.request.key
    ensures var rows := Handle(c, s, p, synced).tables.rows;
            if SomeIdentity(s.tables.rows, EchoIdentity(c, id)) then rows == s.tables.rows
            else exists r | r in rows :: r.id == s.tables.nextId && IdentityOf(r.m) == EchoIdentity(c, id)
    ensures forall r | r in s.tables.rows :: r.id < s.tables.nextId
  {
    EchoParses(c, p, id, s.bindings);
    var m := Bind(c, ParseText(c.unicode, p, c.request.local).value, s.bindings);
    assert Handle(c, s, p, synced) == InsertInto(c, s, m);
    NewMessageStays(c, s, m);
    forall r | r in s.tables.rows ensures r.id < s.tables.nextId {
      var i :| 0 <= i < |s.tables.rows| && s.tables.rows[i] == r;
    }
  }

  /** A message that is not stored yet gets the next row ID, and pruning never takes it at once. */
  lemma NewMessageStays(c: Send, s: State, m: Message)
    requires Acceptable(c) && Wf(s.tables) && Resolve(m) == m && m.local != ""
    ensures var rows := InsertInto(c, s, m).tables.rows;
            if m.packet.Some? && SomeIdentity(s.tables.rows, IdentityOf(m)) then rows == s.tables.rows
            else Row(s.tables.nextId, m) in rows && forall r | r in rows && r.id == s.tables.nextId :: r.m == m
  {
    if m.packet.None? || !SomeIdentity(s.tables.rows, IdentityOf(m)) {
      forall k | 0 <= k < |s.tables.rows| && m.packet.Some? ensures IdentityOf(s.tables.rows[k].m) != IdentityOf(m) {
        assert s.tables.rows[k] in s.tables.rows;
      }
      InsertedRows(s.tables, m);
      InsertAndPruneRows(s.tables, m, s.inserts, c.maximum);
      assert CountResolved(Newer(Insert(s.tables, m).0.rows, s.tables.nextId), m.local) == 0;
    }
  }

  /**
   In every state of a run in which the send is over, the echo with packet ID `id` is stored as another
   row exactly when no row holds its identity: neither the request, which does after a commit with
   that very ID as long as it is not pruned, nor a message of another origin.
   */
  lemma EchoIsStoredIff(c: Send, trace: seq<State>, events: seq<Event>, n: nat, p: Packet, id: int, synced: seq<Channel>)
    requires Acceptable(c) && IsRun(c, trace, events) && n < |trace| && Over(trace[n].phase)
    requires IsEcho(c, p, id) && p.current
    requires p.channel in trace[n].bindings && trace[n].bindings[p.channel] == c.request.key
    ensures var s := trace[n];
            (exists r | r in Handle(c, s, p, synced).tables.rows :: r.id == s.tables.nextId) <==>
              !CommittedAs(s, id) && !OtherHolds(c, s, id)
    ensures CommittedAs(trace[n], id) <==>
              trace[n].phase.Settled? && trace[n].phase.packet == Some(id) && NeverPruned(c, trace, events, n)
  {
    RunKeepsInv(c, trace, events, n);
    EchoIsHeldIff(c, trace[n], id);
    EchoInserts(c, trace[n], p, id, synced);
    if OwnId(trace[n].phase).Some? {
      OwnRowStaysIff(c, trace, events, n);
    }
  }

  /** After a successful send, handling the deferred echo stores no second message while the first is kept. */
  lemma EchoStoresNothing(c: Send, trace: seq<State>, events: seq<Event>, n: nat, p: Packet, synced: seq<Channel>)
    requires Acceptable(c) && IsRun(c, trace, events) && n < |trace|
    requires trace[n].phase.Settled? && trace[n].phase.packet.Some? && NeverPruned(c, trace, events, n)
    requires IsEcho(c, p, trace[n].phase.packet.value)
    requires p.channel in trace[n].bindings && trace[n].bindings[p.channel] == c.request.key
    ensures Handle(c, trace[n], p, synced).tables.rows == trace[n].tables.rows
  {
    RunKeepsInv(c, trace, events, n);
    OwnRowStaysIff(c, trace, events, n);
    if p.current {
      EchoIsHeldIff(c, trace[n], trace[n].phase.packet.value);
      EchoInserts(c, trace[n], p, trace[n].phase.packet.value, synced);
    }
  }

  /**
   A run that stores one request twice: the radio call raises although the radio has sent, so the row
   has no packet ID, and the deferred echo is stored beside it.
   */
  lemma UncertainSendIsStoredTwice(c: Send, id: int) returns (trace: seq<State>, events: seq<Event>)
    requires Acceptable(c)
    ensures IsRun(c, trace, events)
    ensures var last := trace[|trace| - 1];
            && last.phase.LeftUncertain? && last.sends == 1 && |last.tables.rows| == 2
            && last.tables.rows[0].m == Pending(c.request) && IdentityOf(last.tables.rows[1].m) == EchoIdentity(c, id)
  {
    var echo := EchoOf(c, id);
    trace, events := UnansweredCall(c, echo);
    var s' := EchoReplayed(c, trace[|events|], echo, id);
    trace, events := Extended(c, trace, events, Replay([]), s');
  }

  function EchoOf(c: Send, id: int): (p: Packet)
    ensures IsEcho(c, p, id) && p.current
  {
    var r := c.request;
    TextPacket(Some(id), r.local, Recipient(r), r.channel, r.text, false, RF, true)
  }

  /** The part of the run before the replay. */
  lemma UnansweredCall(c: Send, echo: Packet) returns (trace: seq<State>, events: seq<Event>)
    requires Acceptable(c)
    ensures IsRun(c, trace, events)
    ensures var s := trace[|events|];
            && s.tables.rows == [Row(1, Pending(c.request))] && s.inserts == 1 && s.phase == LeftUncertain(1)
            && s.sends == 1 && s.deferred == [echo] && s.bindings == map[c.request.channel := c.request.key]
  {
    var s0 := State(Tables([], [], 1), 0, Ready, None, [], map[c.request.channel := c.request.key], 0);
    var s1 := FirstInsertion(c, s0);
    var s2 := s1.(phase := InRadio(1), sends := 1);
    var s3 := s2.(deferred := [echo]);
    var s4 := s3.(phase := LeftUncertain(1));
    RadioSteps(c, s1, s2, s3, s4, echo);
    trace, events := Extended(c, [s0, s1], [Store(true)], CallRadio, s2);
    trace, events := Extended(c, trace, events, Receive(echo), s3);
    trace, events := Extended(c, trace, events, RadioRaises, s4);
  }

  lemma Extended(c: Send, trace: seq<State>, events: seq<Event>, e: Event, s': State)
    returns (trace': seq<State>, events': seq<Event>)
    requires IsRun(c, trace, events) && Enabled(trace[|events|], e) && s' == Advance(c, trace[|events|], e)
    ensures trace' == trace + [s'] && events' == events + [e] && IsRun(c, trace', events')
    ensures trace'[|events'|] == s' && trace'[|trace'| - 1] == s'
  {
    trace', events' := trace + [s'], events + [e];
  }

  lemma RadioSteps(c: Send, s1: State, s2: State, s3: State, s4: State, echo: Packet)
    requires s1.phase == Stored(1) && s1.sends == 0 && s1.deferred == []
    requires s2 == s1.(phase := InRadio(1), sends := 1) && s3 == s2.(deferred := [echo]) && s4 == s3.(phase := LeftUncertain(1))
    ensures Advance(c, s1, CallRadio) == s2 && Advance(c, s2, Receive(echo)) == s3 && Advance(c, s3, RadioRaises) == s4
  {
    assert s2.deferred + [echo] == [echo];
  }

  lemma FirstInsertion(c: Send, s: State) returns (s': State)
    requires Acceptable(c) && Initial(s) && s.tables == Tables([], [], 1) && s.inserts == 0
    ensures s' == s.(tables := s'.tables, inserts := 1, phase := Stored(1)) && s'.tables.rows == [Row(1, Pending(c.request))]
    ensures IsRun(c, [s, s'], [Store(true)])
  {
    var m := Pending(c.request);
    assert Resolve(m) == m;
    assert IndexOfIdentity([], IdentityOf(m), None).None?;
    s' := Advance(c, s, Store(true));
  }

  lemma EchoReplayed(c: Send, s: State, echo: Packet, id: int) returns (s': State)
    requires Acceptable(c) && s.tables.rows == [Row(1, Pending(c.request))] && s.inserts == 1 && s.phase == LeftUncertain(1)
    requires IsEcho(c, echo, id) && echo.current && s.deferred == [echo]
    requires echo.channel in s.bindings && s.bindings[echo.channel] == c.request.key
    ensures s' == Advance(c, s, Replay([])) && s'.phase == s.phase && s'.sends == s.sends && |s'.tables.rows| == 2
    ensures s'.tables.rows[0] == Row(1, Pending(c.request)) && IdentityOf(s'.tables.rows[1].m) == EchoIdentity(c, id)
  {
    EchoParses(c, echo, id, s.bindings);
    var m := Bind(c, ParseText(c.unicode, echo, c.request.local).value, s.bindings);
    SecondInsertion(c, s, m, id);
    assert Arrive(c, s, echo, []) == Arrival(s, Some(m));
    s' := Advance(c, s, Replay([]));
  }

  lemma SecondInsertion(c: Send, s: State, m: Message, id: int)
    requires Acceptable(c) && s.tables.rows == [Row(1, Pending(c.request))] && s.inserts == 1
    requires IdentityOf(m) == EchoIdentity(c, id) && Resolve(m) == m && m.local == c.request.local
    ensures InsertInto(c, s, m).tables.rows == [Row(1, Pending(c.request)), Row(s.tables.nextId, m)]
  {
    assert IndexOfIdentity(s.tables.rows, IdentityOf(m), None).None?;
  }
}
