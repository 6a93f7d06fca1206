/**
 The message table and its observation table, with the two unique indexes.

 Both tables are sequences in row-ID order. One database connection block is one operation.
 `Tables` is the abstract state; the class `MessageDatabase` holds the same tables as fields
 that its methods update, and every method is tied to the function that specifies it.
 */
module MessageStore {
  import opened Options

  datatype Kind = Public | Dm
  datatype Transport = RF | MQTT | UnknownTransport

  /** `Confirmed` is the status name older versions wrote. */
  datatype Status = Received | Queued | Uncertain | Confirmed | Acknowledged | Delivered | Failed

  /** A conversation ID. The printed forms are injective, see the module `ChannelIds`. */
  datatype Route =
    | NoRoute
    | PublicRoute(local: string, key: string)
    | DmRoute(local: string, peer: string, key: string)
    | NamedRoute(name: string)

  datatype Message = Message(
    packet: Option<int>, outgoing: bool, from: string, to: string, kind: Kind, peer: string,
    text: string, channel: int, key: string, route: Route, local: string, profile: string,
    transport: Transport, wantAck: bool, status: Status, reason: Option<string>)

  datatype Row = Row(id: nat, m: Message)

  datatype Observation = Observation(
    message: nat, local: string, profile: string, channel: int, transport: Transport, key: string)

  datatype Tables = Tables(rows: seq<Row>, observations: seq<Observation>, nextId: nat)

  // ---------- The unique indexes ----------

  datatype Identity = Identity(
    packet: Option<int>, outgoing: bool, from: string, to: string, route: Route, text: string)

  function IdentityOf(m: Message): Identity {
    Identity(m.packet, m.outgoing, m.from, m.to, m.route, m.text)
  }

  /** What distinguishes the observations of one message: everything but the channel key. */
  datatype Sighting = Sighting(local: string, profile: string, channel: int, transport: Transport)

  function SightingOf(o: Observation): Sighting {
    Sighting(o.local, o.profile, o.channel, o.transport)
  }

  ghost predicate IdsAscend(rows: seq<Row>, nextId: nat) {
    && (forall i, j | 0 <= i < j < |rows| :: rows[i].id < rows[j].id)
    && (forall i | 0 <= i < |rows| :: rows[i].id < nextId)
  }

  /** The partial unique index on messages: it ignores rows without a packet ID. */
  ghost predicate MessagesUnique(rows: seq<Row>) {
    forall i, j | 0 <= i < j < |rows| && rows[i].m.packet.Some? ::
      IdentityOf(rows[i].m) != IdentityOf(rows[j].m)
  }

  ghost predicate SameSighting(a: Observation, b: Observation) {
    a.message == b.message && SightingOf(a) == SightingOf(b)
  }

  ghost predicate ObservationsUnique(observations: seq<Observation>) {
    forall i, j | 0 <= i < j < |observations| :: !SameSighting(observations[i], observations[j])
  }

  /** The foreign key from observations to messages. */
  ghost predicate References(t: Tables) {
    forall o | o in t.observations :: exists r | r in t.rows :: r.id == o.message
  }

  ghost predicate Wf(t: Tables) {
    IdsAscend(t.rows, t.nextId) && MessagesUnique(t.rows) && ObservationsUnique(t.observations) && References(t)
  }

  // ---------- Lookups ----------

  function IndexOfId(rows: seq<Row>, id: nat): (index: Option<nat>)
    ensures index.Some? ==> index.value < |rows| && rows[index.value].id == id
    ensures index.None? ==> forall r | r in rows :: r.id != id
  {
    if rows == [] then None
    else if rows[0].id == id then Some(0)
    else match IndexOfId(rows[1..], id)
      case None => None
      case Some(i) => Some(i + 1)
  }

  /** The first row other than `except` that the index considers equal to `identity`. */
  function IndexOfIdentity(rows: seq<Row>, identity: Identity, except: Option<nat>): (index: Option<nat>)
    ensures index.Some? ==> index.value < |rows| && IdentityOf(rows[index.value].m) == identity
                            && identity.packet.Some? && Some(rows[index.value].id) != except
    ensures index.None? && identity.packet.Some? ==>
              forall r | r in rows && Some(r.id) != except :: IdentityOf(r.m) != identity
  {
    if rows == [] || identity.packet.None? then None
    else if IdentityOf(rows[0].m) == identity && Some(rows[0].id) != except then Some(0)
    else match IndexOfIdentity(rows[1..], identity, except)
      case None => None
      case Some(i) => Some(i + 1)
  }

  // ---------- insert_message ----------

  function RouteFor(kind: Kind, local: string, peer: string, key: string): Route {
    if kind.Public? then PublicRoute(local, key) else DmRoute(local, peer, key)
  }

  function ResolveLocal(m: Message): string {
    if m.local != "" then m.local
    else if m.outgoing then m.from
    else if m.kind.Dm? then m.to
    else ""
  }

  function ResolveRoute(m: Message, local: string): Route {
    if m.kind.Public? && m.key != "" then PublicRoute(local, m.key)
    else if m.route != NoRoute then m.route
    else if m.kind.Dm? && m.peer != "" && m.key != "" then DmRoute(local, m.peer, m.key)
    else NamedRoute(m.peer)
  }

  function Resolve(m: Message): Message {
    var local := ResolveLocal(m);
    m.(local := local, route := ResolveRoute(m, local))
  }

  /** INSERT OR IGNORE. */
  function AddObservation(observations: seq<Observation>, o: Observation): seq<Observation> {
    if exists x | x in observations :: x.message == o.message && SightingOf(x) == SightingOf(o)
    then observations
    else observations + [o]
  }

  function ObservationOf(m: Message, id: nat): Observation {
    Observation(id, m.local, m.profile, m.channel, m.transport, m.key)
  }

  datatype Insertion = NoLocalNode | Inserted(id: nat) | Existing(id: nat)

  function Insert(t: Tables, message: Message): (Tables, Insertion) {
    var m := Resolve(message);
    if m.local == "" then (t, NoLocalNode)
    else match IndexOfIdentity(t.rows, IdentityOf(m), None)
      case Some(i) =>
        var id := t.rows[i].id;
        (t.(observations := AddObservation(t.observations, ObservationOf(m, id))), Existing(id))
      case None =>
        var id := t.nextId;
        (Tables(t.rows + [Row(id, m)], AddObservation(t.observations, ObservationOf(m, id)), id + 1), Inserted(id))
  }

  // ---------- complete_outgoing_message ----------

  datatype Completion = Done | Missing | Collision

  function CompletedMessage(m: Message, packet: Option<int>): Message {
    m.(packet := packet, status := Queued)
  }

  /** A violated unique index aborts the transaction, so a collision changes nothing. */
  function Complete(t: Tables, id: nat, local: string, packet: Option<int>): (Tables, Completion) {
    match IndexOfId(t.rows, id)
    case None => (t, Missing)
    case Some(i) =>
      var m := t.rows[i].m;
      if m.local != local || !m.outgoing then (t, Missing)
      else if IndexOfIdentity(t.rows, IdentityOf(CompletedMessage(m, packet)), Some(id)).Some? then (t, Collision)
      else (t.(rows := t.rows[i := Row(id, CompletedMessage(m, packet))]), Done)
  }

  // ---------- update_message_status ----------

  predicate Allowed(current: Status, status: Status) {
    match status
    case Acknowledged => current.Queued? || current.Confirmed?
    case Failed => current.Queued? || current.Acknowledged? || current.Confirmed?
    case _ => current.Queued? || current.Acknowledged? || current.Failed? || current.Confirmed?
  }

  predicate Eligible(r: Row, packet: int, status: Status, local: Option<string>) {
    && r.m.packet == Some(packet) && r.m.outgoing && Allowed(r.m.status, status)
    && (local.Some? ==> r.m.local == local.value)
  }

  function NewestEligible(rows: seq<Row>, packet: int, status: Status, local: Option<string>): (index: Option<nat>)
    ensures index.Some? ==> index.value < |rows| && Eligible(rows[index.value], packet, status, local)
                            && forall j | index.value < j < |rows| :: !Eligible(rows[j], packet, status, local)
    ensures index.None? ==> forall r | r in rows :: !Eligible(r, packet, status, local)
  {
    if rows == [] then None
    else
      var last := |rows| - 1;
      if Eligible(rows[last], packet, status, local) then Some(last)
      else
        assert rows == rows[..last] + [rows[last]];
        NewestEligible(rows[..last], packet, status, local)
  }

  function NewReason(previous: Option<string>, status: Status, reason: Option<string>): Option<string> {
    if reason.Some? then reason else if status.Failed? then previous else None
  }

  function UpdateStatus(
    rows: seq<Row>, packet: int, status: Status, local: Option<string>, reason: Option<string>): (seq<Row>, bool)
  {
    match NewestEligible(rows, packet, status, local)
    case None => (rows, false)
    case Some(i) =>
      var m := rows[i].m;
      (rows[i := rows[i].(m := m.(status := status, reason := NewReason(m.reason, status, reason)))], true)
  }

  // ---------- _prune_messages ----------

  /** An outgoing message that is uncertain, or queued and still waiting for its acknowledgement. */
  predicate Unresolved(m: Message) {
    m.outgoing && (m.status.Uncertain? || (m.status.Queued? && m.wantAck))
  }

  function CountResolved(rows: seq<Row>, local: string): nat {
    if rows == [] then 0
    else (if !Unresolved(rows[0].m) && rows[0].m.local == local then 1 else 0) + CountResolved(rows[1..], local)
  }

  /** Keeps the unresolved rows and, per local node, the `maximum` newest resolved ones. */
  function Prune(rows: seq<Row>, maximum: nat): seq<Row> {
    if rows == [] then []
    else
      var rest := Prune(rows[1..], maximum);
      if Unresolved(rows[0].m) || CountResolved(rows[1..], rows[0].m.local) < maximum then [rows[0]] + rest else rest
  }

  function Cascade(observations: seq<Observation>, rows: seq<Row>): seq<Observation> {
    if observations == [] then []
    else
      var rest := Cascade(observations[1..], rows);
      if exists r | r in rows :: r.id == observations[0].message then [observations[0]] + rest else rest
  }

  function PruneTables(t: Tables, maximum: nat): Tables {
    var rows := Prune(t.rows, maximum);
    Tables(rows, Cascade(t.observations, rows), t.nextId)
  }

  lemma {:induction false} PruneIsExact(rows: seq<Row>, maximum: nat, local: string)
    ensures CountResolved(Prune(rows, maximum), local)
         == if CountResolved(rows, local) <= maximum then CountResolved(rows, local) else maximum
    ensures forall r | r in rows && Unresolved(r.m) :: r in Prune(rows, maximum)
    ensures forall r | r in Prune(rows, maximum) :: r in rows
  {
    if rows != [] {
      PruneIsExact(rows[1..], maximum, local);
      var rest := Prune(rows[1..], maximum);
      assert ([rows[0]] + rest)[1..] == rest;
    }
  }

  /** Pruning removes from the old end: a resolved row that goes has `maximum` newer kept ones. */
  lemma {:induction false} PruneKeepsNewest(rows: seq<Row>, maximum: nat, i: nat)
    requires i < |rows| && CountResolved(rows[i + 1..], rows[i].m.local) < maximum
    ensures rows[i] in Prune(rows, maximum)
  {
    if i > 0 {
      assert rows[i + 1..] == rows[1..][i..];
      PruneKeepsNewest(rows[1..], maximum, i - 1);
    }
  }

  /** The rows stored after row `id`. */
  function Newer(rows: seq<Row>, id: nat): seq<Row> {
    if rows == [] then []
    else if rows[0].id > id then [rows[0]] + Newer(rows[1..], id)
    else Newer(rows[1..], id)
  }

  lemma {:induction false} NewerIsSuffix(rows: seq<Row>, nextId: nat, i: nat)
    requires IdsAscend(rows, nextId) && i < |rows|
    ensures Newer(rows, rows[i].id) == rows[i + 1..]
  {
    if i > 0 {
      NewerIsSuffix(rows[1..], nextId, i - 1);
    } else {
      AllNewer(rows[1..], rows[0].id);
    }
  }

  lemma {:induction false} AllNewer(rows: seq<Row>, id: nat)
    requires forall k | 0 <= k < |rows| :: rows[k].id > id
    ensures Newer(rows, id) == rows
  {
    if rows != [] {
      AllNewer(rows[1..], id);
    }
  }

  /** Pruning removes a row exactly when it is resolved and `maximum` newer resolved rows of its node exist. */
  predicate Prunable(rows: seq<Row>, r: Row, maximum: nat) {
    !Unresolved(r.m) && CountResolved(Newer(rows, r.id), r.m.local) >= maximum
  }

  lemma {:induction false} PruneKeepsIff(rows: seq<Row>, nextId: nat, maximum: nat, r: Row)
    requires IdsAscend(rows, nextId)
    ensures r in Prune(rows, maximum) <==> r in rows && !Prunable(rows, r, maximum)
  {
    if rows != [] {
      var tail, rest := rows[1..], Prune(rows[1..], maximum);
      PruneIsSubset(tail, maximum);
      assert forall x :: x in [rows[0]] + rest <==> x == rows[0] || x in rest;
      if r == rows[0] {
        NewerIsSuffix(rows, nextId, 0);
        assert forall x | x in tail :: x.id > r.id;
      } else {
        PruneKeepsIff(tail, nextId, maximum, r);
        OlderHeadIsNoMatter(rows, nextId, maximum, r);
      }
    }
  }

  lemma OlderHeadIsNoMatter(rows: seq<Row>, nextId: nat, maximum: nat, r: Row)
    requires IdsAscend(rows, nextId) && rows != [] && r != rows[0]
    ensures r in rows <==> r in rows[1..]
    ensures r in rows ==> Prunable(rows, r, maximum) == Prunable(rows[1..], r, maximum)
  {
    assert rows == [rows[0]] + rows[1..];
    if r in rows[1..] {
      var k :| 0 <= k < |rows[1..]| && rows[1..][k] == r;
      assert rows[k + 1] == r && rows[0].id < r.id;
    }
  }

  // ---------- The database object ----------

  const PRUNE_INTERVAL := 100

  /** The table after an insertion that may be the one that triggers pruning. */
  function InsertAndPrune(t: Tables, m: Message, insertsSincePrune: int, maximum: nat): Tables {
    var (t', result) := Insert(t, m);
    if result.Inserted? && insertsSincePrune + 1 >= PRUNE_INTERVAL then PruneTables(t', maximum) else t'
  }

  class MessageDatabase {
    const maxMessages: nat
    var rows: seq<Row>
    var observations: seq<Observation>
    var nextId: nat
    var insertsSincePrune: int

    ghost function Model(): Tables
      reads this
    {
      Tables(rows, observations, nextId)
    }

    constructor (maxMessages: nat)
      ensures Model() == Tables([], [], 1) && insertsSincePrune == 0
      ensures this.maxMessages == if maxMessages < 1000 then 1000 else maxMessages
    {
      this.maxMessages := if maxMessages < 1000 then 1000 else maxMessages;
      rows, observations, nextId, insertsSincePrune := [], [], 1, 0;
    }

    method InsertMessage(message: Message) returns (result: Insertion)
      modifies this
      ensures result == Insert(old(Model()), message).1
      ensures Model() == InsertAndPrune(old(Model()), message, old(insertsSincePrune), maxMessages)
      ensures insertsSincePrune == if !result.Inserted? then old(insertsSincePrune)
                                   else if old(insertsSincePrune) + 1 >= PRUNE_INTERVAL then 0
                                   else old(insertsSincePrune) + 1
    {
      var m := Resolve(message);
      if m.local == "" {
        return NoLocalNode;
      }
      var existing := IndexOfIdentity(rows, IdentityOf(m), None);
      if existing.Some? {
        result := Existing(rows[existing.value].id);
      } else {
        result := Inserted(nextId);
        rows := rows + [Row(nextId, m)];
        nextId := nextId + 1;
      }
      observations := AddObservation(observations, ObservationOf(m, result.id));
      if result.Inserted? {
        insertsSincePrune := insertsSincePrune + 1;
        if insertsSincePrune >= PRUNE_INTERVAL {
          rows := Prune(rows, maxMessages);
          observations := Cascade(observations, rows);
          insertsSincePrune := 0;
        }
      }
    }

    method CompleteOutgoingMessage(id: nat, local: string, packet: Option<int>) returns (result: Completion)
      modifies this`rows
      ensures (Model(), result) == Complete(old(Model()), id, local, packet)
    {
      var index := IndexOfId(rows, id);
      if index.None? || rows[index.value].m.local != local || !rows[index.value].m.outgoing {
        return Missing;
      }
      var m := CompletedMessage(rows[index.value].m, packet);
      if IndexOfIdentity(rows, IdentityOf(m), Some(id)).Some? {
        return Collision;
      }
      rows := rows[index.value := Row(id, m)];
      result := Done;
    }

    method UpdateMessageStatus(packet: int, status: Status, local: Option<string>, reason: Option<string>)
      returns (changed: bool)
      modifies this`rows
      ensures (rows, changed) == UpdateStatus(old(rows), packet, status, local, reason)
    {
      var index := NewestEligible(rows, packet, status, local);
      if index.None? {
        return false;
      }
      var row := rows[index.value];
      var metadata := row.m.reason;
      if reason.Some? {
        metadata := reason;
      } else if status != Failed {
        metadata := None;
      }
      rows := rows[index.value := row.(m := row.m.(status := status, reason := metadata))];
      changed := true;
    }
  }

  // ---------- What an insertion stores ----------

  /** The node a message belongs to when it names none itself: the sender or the receiver of it. */
  ghost predicate BelongsTo(m: Message, local: string) {
    && local != ""
    && (m.local != "" ==> local == m.local)
    && (m.local == "" && m.outgoing ==> local == m.from)
    && (m.local == "" && !m.outgoing ==> m.kind.Dm? && local == m.to)
  }

  /**
   A public message with a channel key always gets the conversation of that channel; any other message keeps
   the one it came with, and without one a direct message with a key gets that of its peer on the channel.
   */
  ghost predicate FiledUnder(m: Message, local: string, route: Route) {
    var publicKey, directKey := m.kind.Public? && m.key != "", m.kind.Dm? && m.key != "" && m.peer != "";
    && (publicKey ==> route == PublicRoute(local, m.key))
    && (!publicKey && m.route != NoRoute ==> route == m.route)
    && (!publicKey && m.route == NoRoute && directKey ==> route == DmRoute(local, m.peer, m.key))
    && (!publicKey && m.route == NoRoute && !directKey ==> route == NamedRoute(m.peer))
  }

  /** The same message in the sense of the index: without a packet ID no two messages are the same. */
  ghost predicate SameMessage(a: Message, b: Message) {
    && a.packet == b.packet && a.packet.Some? && a.outgoing == b.outgoing
    && a.from == b.from && a.to == b.to && a.route == b.route && a.text == b.text
  }

  ghost predicate Sees(o: Observation, id: nat, m: Message, local: string) {
    o.message == id && o.local == local && o.profile == m.profile && o.channel == m.channel && o.transport == m.transport
  }

  /**
   A message is refused exactly when no node can own it. Otherwise it is stored as the last row unless it is there
   already, and in both cases one observation of that row tells who heard it, where and how; no other row
   and no other observation changes.
   */
  lemma InsertIsExact(t: Tables, m: Message) returns (stored: Message)
    requires Wf(t)
    ensures var (t', result) := Insert(t, m);
            && (result.NoLocalNode? <==> forall local: string :: !BelongsTo(m, local))
            && (result.NoLocalNode? ==> t' == t)
            && (!result.NoLocalNode? ==>
                  && BelongsTo(m, stored.local) && FiledUnder(m, stored.local, stored.route)
                  && stored == m.(local := stored.local, route := stored.route)
                  && (result.Existing? <==> exists r | r in t.rows :: SameMessage(r.m, stored))
                  && (result.Existing? ==> t'.rows == t.rows && exists r | r in t.rows :: r.id == result.id && SameMessage(r.m, stored))
                  && (result.Inserted? ==> t'.rows == t.rows + [Row(result.id, stored)] && forall r | r in t.rows :: r.id < result.id)
                  && (exists o | o in t'.observations :: Sees(o, result.id, m, stored.local))
                  && t.observations <= t'.observations
                  && forall o | o in t'.observations && o !in t.observations ::
                       Sees(o, result.id, m, stored.local) && o.key == m.key)
  {
    var (t', result) := Insert(t, m);
    stored := Resolve(m);
    if result.NoLocalNode? {
    } else {
      assert BelongsTo(m, stored.local);
      forall r | r in t.rows ensures SameMessage(r.m, stored) <==> stored.packet.Some? && IdentityOf(r.m) == IdentityOf(stored) {
      }
      var o := ObservationOf(stored, result.id);
      AddObservationFacts(t.observations, o);
      var x :| x in t'.observations && SameSighting(x, o);
      assert Sees(x, result.id, m, stored.local);
    }
  }

  /**
   A completion finds the outgoing message of this node with this ID, or nothing; it is queued under its packet ID
   unless another row then is the same message, and no other row changes.
   */
  lemma CompleteIsExact(t: Tables, id: nat, local: string, packet: Option<int>, i: nat)
    requires Wf(t) && i < |t.rows| && t.rows[i].id == id
    ensures var (t', result) := Complete(t, id, local, packet);
            var m := t.rows[i].m;
            && (result.Missing? <==> m.local != local || !m.outgoing)
            && (result.Collision? <==>
                  !result.Missing? && exists r | r in t.rows && r.id != id :: SameMessage(r.m, m.(packet := packet)))
            && t' == if result.Done? then t.(rows := t.rows[i := Row(id, m.(packet := packet, status := Queued))]) else t
  {
    IndexOfRow(t.rows, t.nextId, i);
    var m := CompletedMessage(t.rows[i].m, packet);
    forall r | r in t.rows ensures SameMessage(r.m, m) <==> packet.Some? && IdentityOf(r.m) == IdentityOf(m) {
    }
  }

  lemma {:induction false} IndexOfRow(rows: seq<Row>, nextId: nat, i: nat)
    requires IdsAscend(rows, nextId) && i < |rows|
    ensures IndexOfId(rows, rows[i].id) == Some(i)
  {
    if i > 0 {
      IndexOfRow(rows[1..], nextId, i - 1);
    }
  }

  /** A message ID that no row has is missing. */
  lemma CompleteNeedsRow(t: Tables, id: nat, local: string, packet: Option<int>)
    requires forall r | r in t.rows :: r.id != id
    ensures Complete(t, id, local, packet) == (t, Missing)
  {
  }

  // ---------- Both indexes and the foreign key hold after every operation ----------

  lemma {:induction false} CascadeFacts(observations: seq<Observation>, rows: seq<Row>)
    requires ObservationsUnique(observations)
    ensures ObservationsUnique(Cascade(observations, rows))
    ensures forall o :: o in Cascade(observations, rows) <==> o in observations && exists r | r in rows :: r.id == o.message
  {
    if observations != [] {
      CascadeFacts(observations[1..], rows);
      var rest := Cascade(observations[1..], rows);
      assert forall o :: o in observations <==> o == observations[0] || o in observations[1..] by {
        assert observations == [observations[0]] + observations[1..];
      }
      assert forall o :: o in [observations[0]] + rest <==> o == observations[0] || o in rest;
      forall k | 0 <= k < |rest| ensures !SameSighting(observations[0], rest[k]) {
        assert rest[k] in observations[1..];
        var l :| 0 <= l < |observations[1..]| && observations[1..][l] == rest[k];
        assert observations[l + 1] == rest[k];
      }
    }
  }

  lemma {:induction false} PruneIsSubset(rows: seq<Row>, maximum: nat)
    ensures forall r | r in Prune(rows, maximum) :: r in rows
  {
    if rows != [] {
      PruneIsSubset(rows[1..], maximum);
    }
  }

  lemma {:induction false} PruneKeepsOrder(rows: seq<Row>, maximum: nat, nextId: nat)
    requires IdsAscend(rows, nextId) && MessagesUnique(rows)
    ensures IdsAscend(Prune(rows, maximum), nextId) && MessagesUnique(Prune(rows, maximum))
  {
    if rows != [] {
      PruneKeepsOrder(rows[1..], maximum, nextId);
      PruneIsSubset(rows[1..], maximum);
      var rest := Prune(rows[1..], maximum);
      forall k | 0 <= k < |rest|
        ensures rows[0].id < rest[k].id
        ensures rows[0].m.packet.Some? ==> IdentityOf(rows[0].m) != IdentityOf(rest[k].m)
      {
        assert rest[k] in rows[1..];
        var l :| 0 <= l < |rows[1..]| && rows[1..][l] == rest[k];
        assert rows[l + 1] == rest[k];
      }
    }
  }

  /** Whether an insertion stores a new row and is the one that triggers pruning. */
  predicate TriggersPrune(t: Tables, m: Message, insertsSincePrune: int) {
    Insert(t, m).1.Inserted? && insertsSincePrune + 1 >= PRUNE_INTERVAL
  }

  /** Exactly which rows an insertion leaves: it prunes the prunable ones when its turn has come. */
  lemma InsertAndPruneRows(t: Tables, m: Message, inserts: int, maximum: nat)
    requires Wf(t)
    ensures var (t1, t') := (Insert(t, m).0, InsertAndPrune(t, m, inserts, maximum));
            && Wf(t') && t'.nextId == t1.nextId
            && forall r :: r in t'.rows <==> r in t1.rows && !(TriggersPrune(t, m, inserts) && Prunable(t1.rows, r, maximum))
  {
    InsertKeepsWf(t, m);
    var t1 := Insert(t, m).0;
    PruneKeepsOrder(t1.rows, maximum, t1.nextId);
    CascadeFacts(t1.observations, Prune(t1.rows, maximum));
    forall r ensures r in Prune(t1.rows, maximum) <==> r in t1.rows && !Prunable(t1.rows, r, maximum) {
      PruneKeepsIff(t1.rows, t1.nextId, maximum, r);
    }
  }

  /** Pruning takes the observations of the pruned rows along, and no others. */
  lemma ObservationsFollowRows(t: Tables, m: Message, inserts: int, maximum: nat)
    requires Wf(t)
    ensures var (t1, t') := (Insert(t, m).0, InsertAndPrune(t, m, inserts, maximum));
            forall o :: o in t'.observations <==> o in t1.observations && exists r | r in t'.rows :: r.id == o.message
  {
    InsertKeepsWf(t, m);
    var t1 := Insert(t, m).0;
    CascadeFacts(t1.observations, Prune(t1.rows, maximum));
  }

  /** The rows of an insertion before pruning. */
  lemma InsertedRows(t: Tables, m: Message)
    requires Wf(t)
    ensures var (t', result) := Insert(t, m);
            && (forall r :: r in t'.rows <==> r in t.rows || (result == Inserted(t.nextId) && r == Row(t.nextId, Resolve(m))))
            && t.nextId <= t'.nextId && (result.Inserted? ==> result.id == t.nextId < t'.nextId)
            && (result.Inserted? ==> Newer(t'.rows, t.nextId) == [])
  {
    var (t', result) := Insert(t, m);
    if result.Inserted? {
      var last := |t.rows|;
      InsertKeepsWf(t, m);
      assert t'.rows[last] == Row(t.nextId, Resolve(m));
      NewerIsSuffix(t'.rows, t'.nextId, last);
    }
  }

  /** A status update changes at most one row, and only its status and reason. */
  lemma StatusRows(rows: seq<Row>, packet: int, status: Status, local: Option<string>, reason: Option<string>)
    ensures var rows' := UpdateStatus(rows, packet, status, local, reason).0;
            && |rows'| == |rows|
            && forall k | 0 <= k < |rows| ::
                 || rows'[k] == rows[k]
                 || (Eligible(rows[k], packet, status, local)
                     && (forall j | k < j < |rows| :: !Eligible(rows[j], packet, status, local))
                     && rows'[k] == rows[k].(m := rows[k].m.(status := status, reason := NewReason(rows[k].m.reason, status, reason))))
  {
  }

  lemma AddObservationFacts(observations: seq<Observation>, o: Observation)
    requires ObservationsUnique(observations)
    ensures ObservationsUnique(AddObservation(observations, o))
    ensures forall x | x in AddObservation(observations, o) :: x in observations || x == o
    ensures forall x | x in observations :: x in AddObservation(observations, o)
    ensures exists x | x in AddObservation(observations, o) :: SameSighting(x, o)
  {
    var added := AddObservation(observations, o);
    if exists x | x in observations :: x.message == o.message && SightingOf(x) == SightingOf(o) {
      var x :| x in observations && x.message == o.message && SightingOf(x) == SightingOf(o);
      assert SameSighting(x, o);
    } else {
      forall i, j | 0 <= i < j < |added| ensures !SameSighting(added[i], added[j]) {
        assert observations[i] in observations;
      }
      assert added[|observations|] == o && SameSighting(o, o);
    }
  }

  lemma InsertKeepsReferences(t: Tables, message: Message)
    requires Wf(t)
    ensures References(Insert(t, message).0)
  {
    var (t', result) := Insert(t, message);
    if !result.NoLocalNode? {
      AddObservationFacts(t.observations, ObservationOf(Resolve(message), result.id));
      forall o | o in t'.observations ensures exists r | r in t'.rows :: r.id == o.message {
        if o in t.observations {
          var r :| r in t.rows && r.id == o.message;
          assert r in t'.rows;
        } else if result.Inserted? {
          assert t'.rows[|t.rows|].id == o.message;
        }
      }
    }
  }

  lemma InsertKeepsWf(t: Tables, message: Message)
    requires Wf(t)
    ensures Wf(Insert(t, message).0)
  {
    InsertKeepsReferences(t, message);
    InsertKeepsIndexes(t, message);
  }

  lemma InsertKeepsIndexes(t: Tables, message: Message)
    requires Wf(t)
    ensures var t' := Insert(t, message).0;
            IdsAscend(t'.rows, t'.nextId) && MessagesUnique(t'.rows) && ObservationsUnique(t'.observations)
  {
    var (t', result) := Insert(t, message);
    if !result.NoLocalNode? {
      AddObservationFacts(t.observations, ObservationOf(Resolve(message), result.id));
    }
  }

  lemma SameIdsKeepReferences(t: Tables, rows: seq<Row>)
    requires References(t) && |rows| == |t.rows| && forall i | 0 <= i < |rows| :: rows[i].id == t.rows[i].id
    ensures References(t.(rows := rows))
  {
    forall o | o in t.observations ensures exists r | r in rows :: r.id == o.message {
      var r :| r in t.rows && r.id == o.message;
      var i :| 0 <= i < |t.rows| && t.rows[i] == r;
      assert rows[i] in rows;
    }
  }

  lemma CompleteKeepsWf(t: Tables, id: nat, local: string, packet: Option<int>)
    requires Wf(t)
    ensures Wf(Complete(t, id, local, packet).0)
  {
    var (t', result) := Complete(t, id, local, packet);
    if result.Done? {
      var i := IndexOfId(t.rows, id).value;
      SameIdsKeepReferences(t, t'.rows);
      forall j, k | 0 <= j < k < |t'.rows| && t'.rows[j].m.packet.Some?
        ensures IdentityOf(t'.rows[j].m) != IdentityOf(t'.rows[k].m)
      {
        assert t.rows[j] in t.rows && t.rows[k] in t.rows;
      }
    }
  }

  lemma UpdateStatusKeepsWf(t: Tables, packet: int, status: Status, local: Option<string>, reason: Option<string>)
    requires Wf(t)
    ensures Wf(t.(rows := UpdateStatus(t.rows, packet, status, local, reason).0))
  {
    var rows := UpdateStatus(t.rows, packet, status, local, reason).0;
    assert forall i | 0 <= i < |rows| :: IdentityOf(rows[i].m) == IdentityOf(t.rows[i].m) && rows[i].id == t.rows[i].id;
    SameIdsKeepReferences(t, rows);
  }
}
