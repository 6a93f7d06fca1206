/**
 The version-4 migration, which gives every stored row a local node.

 Every source row must end either in its scoped table or, exactly once, among the preserved
 legacy records; the migration counts the rows of each table at the end and aborts otherwise.
 An abort rolls the transaction back.
 */
module ScopeMigration {
  import opened NodeIds
  import opened Options
  import ChannelIds
  import MessageText

  datatype Table = Nodes | Messages | Observations | Telemetry | Positions | NodeActions | ArchivedPeers | ArchivedIds

  /** A row with its row ID. */
  datatype Row<T> = Row(id: int, data: T)

  datatype Message = Message(
    local: Option<string>, public: bool, key: Option<string>, outgoing: bool, packet: Option<int>,
    from: string, to: string, conversation: string, text: string)

  /** Profile, channel index and transport, with the replacements for absent values the index makes. */
  datatype Route = Route(profile: string, channel: int, transport: string)

  datatype Observation = Observation(message: int, local: Option<string>, route: Route)
  datatype Sample = Sample(gateway: Option<string>, local: Option<string>)
  datatype Action = Action(local: Option<string>, packet: Option<int>)

  /** An archived conversation ID; `local` is None when the table is still keyed by conversation alone. */
  datatype Archived = Archived(conversation: string, local: Option<string>)

  /** Why a row was preserved: the four reason strings of the source. */
  datatype Reason = NoLocalNode | OfInvalidMessage | NotScopable | NoGateway

  datatype Legacy = Legacy(table: Table, key: int, reason: Reason)

  /** The tables; a flag tells whether a table already has its local-node column. */
  datatype Database = Database(
    nodes: seq<Row<()>>, nodesScoped: bool,
    messages: seq<Row<Message>>, observations: seq<Row<Observation>>,
    telemetry: seq<Row<Sample>>, telemetryScoped: bool,
    positions: seq<Row<Sample>>, positionsScoped: bool,
    actions: seq<Row<Action>>, archivedPeers: seq<Row<()>>, archivedIds: seq<Row<Archived>>,
    legacy: seq<Legacy>)

  datatype Outcome = UniqueIndexHit | CountMismatch | Migrated(database: Database)

  // ---------- SQL helpers ----------

  predicate IsLocal(local: Option<string>) {
    local.Some? && IsNodeId(Lower(local.value))
  }

  function Kept<T>(rows: seq<Row<T>>, keep: T -> bool): seq<Row<T>> {
    if rows == [] then []
    else if keep(rows[0].data) then [rows[0]] + Kept(rows[1..], keep)
    else Kept(rows[1..], keep)
  }

  function Dropped<T>(rows: seq<Row<T>>, keep: T -> bool): seq<Row<T>> {
    if rows == [] then []
    else if keep(rows[0].data) then Dropped(rows[1..], keep)
    else [rows[0]] + Dropped(rows[1..], keep)
  }

  function Updated<T, U>(rows: seq<Row<T>>, f: Row<T> -> U): seq<Row<U>> {
    seq(|rows|, i requires 0 <= i < |rows| => Row(rows[i].id, f(rows[i])))
  }

  /** The one lower-cased value in a list, when all its elements agree after lower-casing. */
  function Single(values: seq<string>): Option<string> {
    if values != [] && forall v | v in values :: Lower(v) == Lower(values[0]) then Some(Lower(values[0])) else None
  }

  /** INSERT OR IGNORE into the legacy table. */
  function Preserve<T>(legacy: seq<Legacy>, table: Table, rows: seq<Row<T>>, reason: Reason): seq<Legacy>
    decreases |rows|
  {
    if rows == [] then legacy
    else
      var entry := Legacy(table, rows[0].id, reason);
      Preserve(if entry in legacy then legacy else legacy + [entry], table, rows[1..], reason)
  }

  // ---------- The steps ----------

  function LocalsOfMessage(observations: seq<Row<Observation>>, id: int): seq<string> {
    if observations == [] then []
    else
      var o := observations[0].data;
      if o.message == id && o.local.Some? then [o.local.value] + LocalsOfMessage(observations[1..], id)
      else LocalsOfMessage(observations[1..], id)
  }

  function InferMessages(messages: seq<Row<Message>>, observations: seq<Row<Observation>>): seq<Row<Message>> {
    Updated(messages, (r: Row<Message>) =>
      if r.data.local.Some? then r.data else r.data.(local := Single(LocalsOfMessage(observations, r.id))))
  }

  predicate Scopable(m: Message) {
    IsLocal(m.local) && (m.public ==> m.key.Some?)
  }

  function HasMessage(messages: seq<Row<Message>>, id: int): bool {
    exists r | r in messages :: r.id == id
  }

  /** Observations that do not belong to a message about to be deleted. */
  function OutsideInvalid(messages: seq<Row<Message>>): Observation -> bool {
    (o: Observation) => !HasMessage(Dropped(messages, Scopable), o.message)
  }

  function RewriteConversation(m: Message): Message {
    if m.public && m.key.Some? && m.local.Some?
    then m.(conversation := "channel:" + m.local.value + ":" + m.key.value)
    else m
  }

  /** The partial unique index on messages with a packet ID. */
  predicate SameIdentity(a: Message, b: Message) {
    && a.packet.Some? && a.packet == b.packet && a.outgoing == b.outgoing && a.from == b.from && a.to == b.to
    && a.conversation == b.conversation && a.text == b.text
  }

  /** The unique index on observations; a missing local node counts as an empty one. */
  predicate SameObservation(a: Observation, b: Observation) {
    && a.message == b.message && a.route == b.route
    && (if a.local.Some? then a.local.value else "") == (if b.local.Some? then b.local.value else "")
  }

  /** An UPDATE of every row under a unique index, row by row; None when a row meets the index. */
  function UpdateFrom<T>(rows: seq<Row<T>>, f: T -> T, same: (T, T) -> bool, i: nat): Option<seq<Row<T>>>
    requires i <= |rows|
    decreases |rows| - i
  {
    if i == |rows| then Some(rows)
    else
      var data := f(rows[i].data);
      if exists j | 0 <= j < |rows| && j != i :: same(rows[j].data, data) then None
      else UpdateFrom(rows[i := Row(rows[i].id, data)], f, same, i + 1)
  }

  function LocalOf(messages: seq<Row<Message>>, id: int): Option<string> {
    if messages == [] then None else if messages[0].id == id then messages[0].data.local else LocalOf(messages[1..], id)
  }

  /** An observation takes the local node of its message. */
  function ScopeObservation(messages: seq<Row<Message>>): Observation -> Observation {
    (o: Observation) => if HasMessage(messages, o.message) then o.(local := LocalOf(messages, o.message)) else o
  }

  function Attached(messages: seq<Row<Message>>): Observation -> bool {
    (o: Observation) => o.local.Some? && exists r | r in messages :: r.id == o.message && r.data.local == o.local
  }

  predicate HasGateway(s: Sample) {
    IsLocal(s.gateway)
  }

  function ScopeSamples(samples: seq<Row<Sample>>): seq<Row<Sample>> {
    Updated(Kept(samples, HasGateway), (r: Row<Sample>) =>
      if r.data.gateway.Some? then r.data.(local := Some(Lower(r.data.gateway.value))) else r.data)
  }

  function SenderLocals(messages: seq<Row<Message>>, packet: Option<int>): seq<string> {
    if messages == [] then []
    else
      var m := messages[0].data;
      if packet.Some? && m.packet == packet && m.outgoing && m.local.Some?
      then [m.local.value] + SenderLocals(messages[1..], packet)
      else SenderLocals(messages[1..], packet)
  }

  function InferActions(actions: seq<Row<Action>>, messages: seq<Row<Message>>): seq<Row<Action>> {
    Updated(actions, (r: Row<Action>) =>
      if r.data.local.Some? then r.data else r.data.(local := Single(SenderLocals(messages, r.data.packet))))
  }

  predicate HasLocal(a: Action) {
    a.local.Some?
  }

  /** INSERT OR IGNORE under the primary key of local node and conversation. */
  function AddArchived(scoped: seq<Row<Archived>>, row: Row<Archived>): seq<Row<Archived>> {
    if exists r | r in scoped :: r.data == row.data then scoped else scoped + [row]
  }

  /** `parse` is the parser of direct-message conversation IDs; it yields the local node. */
  function ScopeArchived(
    rows: seq<Row<Archived>>, parse: string -> Option<string>, scoped: seq<Row<Archived>>, legacy: seq<Legacy>):
    (seq<Row<Archived>>, seq<Legacy>)
    decreases |rows|
  {
    if rows == [] then (scoped, legacy)
    else
      var local := parse(rows[0].data.conversation);
      if local.None? then ScopeArchived(rows[1..], parse, scoped, Preserve(legacy, ArchivedIds, [rows[0]], NotScopable))
      else ScopeArchived(rows[1..], parse, AddArchived(scoped, rows[0].(data := rows[0].data.(local := local))), legacy)
  }

  function CountLegacy(legacy: seq<Legacy>, t: Table): nat {
    if legacy == [] then 0 else (if legacy[0].table == t then 1 else 0) + CountLegacy(legacy[1..], t)
  }

  function Size(d: Database, t: Table): nat {
    match t
    case Nodes => |d.nodes|
    case Messages => |d.messages|
    case Observations => |d.observations|
    case Telemetry => |d.telemetry|
    case Positions => |d.positions|
    case NodeActions => |d.actions|
    case ArchivedPeers => |d.archivedPeers|
    case ArchivedIds => |d.archivedIds|
  }

  predicate Reconciled(source: Database, d: Database) {
    forall t: Table :: Size(source, t) == Size(d, t) + CountLegacy(d.legacy, t)
  }

  // Each phase of the migration, on its own tables and the legacy table.

  function ScopeNodes(d: Database): Database {
    if d.nodesScoped then d else d.(nodes := [], nodesScoped := true, legacy := Preserve(d.legacy, Nodes, d.nodes, NoLocalNode))
  }

  /** Infers, preserves and deletes; deleting a message cascades to its observations. */
  function SplitMessages(d: Database): Database {
    var messages := InferMessages(d.messages, d.observations);
    var keep := OutsideInvalid(messages);
    var legacy := Preserve(d.legacy, Observations, Dropped(d.observations, keep), OfInvalidMessage);
    var legacy' := Preserve(legacy, Messages, Dropped(messages, Scopable), NotScopable);
    d.(messages := Updated(Kept(messages, Scopable), (r: Row<Message>) =>
         if r.data.local.Some? then r.data.(local := Some(Lower(r.data.local.value))) else r.data),
       observations := Kept(d.observations, keep), legacy := legacy')
  }

  function SplitObservations(d: Database): Database {
    var keep := Attached(d.messages);
    d.(observations := Kept(d.observations, keep),
       legacy := Preserve(d.legacy, Observations, Dropped(d.observations, keep), NotScopable))
  }

  function SplitSamples(d: Database): Database {
    var d1 := if d.telemetryScoped then d
              else d.(telemetry := ScopeSamples(d.telemetry), telemetryScoped := true,
                      legacy := Preserve(d.legacy, Telemetry, Dropped(d.telemetry, HasGateway), NoGateway));
    if d1.positionsScoped then d1
    else d1.(positions := ScopeSamples(d1.positions), positionsScoped := true,
             legacy := Preserve(d1.legacy, Positions, Dropped(d1.positions, HasGateway), NoGateway))
  }

  function SplitActions(d: Database): Database {
    var actions := InferActions(d.actions, d.messages);
    d.(actions := Kept(actions, HasLocal), legacy := Preserve(d.legacy, NodeActions, Dropped(actions, HasLocal), NotScopable))
  }

  function SplitArchived(d: Database, parse: string -> Option<string>): Database {
    var (scoped, legacy) := ScopeArchived(d.archivedIds, parse, [], d.legacy);
    d.(archivedIds := scoped, archivedPeers := [],
       legacy := Preserve(legacy, ArchivedPeers, d.archivedPeers, NoLocalNode))
  }

  /** The phases after the two updates under a unique index. */
  function Finish(d: Database, parse: string -> Option<string>): Database {
    SplitArchived(SplitActions(SplitSamples(SplitObservations(d))), parse)
  }

  function Migrate(source: Database, parse: string -> Option<string>): Outcome {
    var split := SplitMessages(ScopeNodes(source));
    match UpdateFrom(split.messages, RewriteConversation, SameIdentity, 0)
    case None => UniqueIndexHit
    case Some(messages) =>
      match UpdateFrom(split.observations, ScopeObservation(messages), SameObservation, 0)
      case None => UniqueIndexHit
      case Some(observations) =>
        var d := Finish(split.(messages := messages, observations := observations), parse);
        if Reconciled(source, d) then Migrated(d) else CountMismatch
  }

  // ---------- The migration as it runs ----------

  /** The final count check, table by table. */
  method CountsAgree(source: Database, d: Database) returns (agree: bool)
    ensures agree <==> Reconciled(source, d)
  {
    var tables := [Nodes, Messages, Observations, Telemetry, Positions, NodeActions, ArchivedPeers, ArchivedIds];
    for i := 0 to |tables|
      invariant forall k | 0 <= k < i :: Size(source, tables[k]) == Size(d, tables[k]) + CountLegacy(d.legacy, tables[k])
    {
      if Size(source, tables[i]) != Size(d, tables[i]) + CountLegacy(d.legacy, tables[i]) {
        return false;
      }
    }
    forall t: Table ensures Size(source, t) == Size(d, t) + CountLegacy(d.legacy, t) {
      assert exists k | 0 <= k < |tables| :: tables[k] == t by {
        match t
        case Nodes => assert tables[0] == t;
        case Messages => assert tables[1] == t;
        case Observations => assert tables[2] == t;
        case Telemetry => assert tables[3] == t;
        case Positions => assert tables[4] == t;
        case NodeActions => assert tables[5] == t;
        case ArchivedPeers => assert tables[6] == t;
        case ArchivedIds => assert tables[7] == t;
      }
    }
    agree := true;
  }

  method UpdateUnique<T>(rows: seq<Row<T>>, f: T -> T, same: (T, T) -> bool) returns (result: Option<seq<Row<T>>>)
    ensures result == UpdateFrom(rows, f, same, 0)
  {
    var updated := rows;
    var i := 0;
    while i < |updated|
      invariant i <= |updated| && UpdateFrom(updated, f, same, i) == UpdateFrom(rows, f, same, 0)
      decreases |updated| - i
    {
      var data := f(updated[i].data);
      if exists j | 0 <= j < |updated| && j != i :: same(updated[j].data, data) {
        return None;
      }
      updated := updated[i := Row(updated[i].id, data)];
      i := i + 1;
    }
    result := Some(updated);
  }

  class MigratingDatabase {
    var state: Database

    constructor (state: Database)
      ensures this.state == state
    {
      this.state := state;
    }

    method ScopeArchivedIds(parse: string -> Option<string>, rows: seq<Row<Archived>>, before: seq<Legacy>)
      returns (scoped: seq<Row<Archived>>, legacy: seq<Legacy>)
      ensures (scoped, legacy) == ScopeArchived(rows, parse, [], before)
    {
      scoped, legacy := [], before;
      var i := 0;
      while i < |rows|
        invariant i <= |rows|
        invariant ScopeArchived(rows[i..], parse, scoped, legacy) == ScopeArchived(rows, parse, [], before)
      {
        assert rows[i..][1..] == rows[i + 1..];
        var local := parse(rows[i].data.conversation);
        if local.None? {
          legacy := Preserve(legacy, ArchivedIds, [rows[i]], NotScopable);
        } else {
          scoped := AddArchived(scoped, rows[i].(data := rows[i].data.(local := local)));
        }
        i := i + 1;
      }
    }

    /** A failure leaves the database as it was. */
    method MigrateScopeSchema(parse: string -> Option<string>) returns (outcome: Outcome)
      modifies this
      ensures outcome == Migrate(old(state), parse)
      ensures state == if outcome.Migrated? then outcome.database else old(state)
    {
      var d := SplitMessages(ScopeNodes(state));
      var messages := UpdateUnique(d.messages, RewriteConversation, SameIdentity);
      if messages.None? {
        return UniqueIndexHit;
      }
      var observations := UpdateUnique(d.observations, ScopeObservation(messages.value), SameObservation);
      if observations.None? {
        return UniqueIndexHit;
      }
      d := SplitActions(SplitSamples(SplitObservations(d.(messages := messages.value, observations := observations.value))));
      var scoped, legacy := ScopeArchivedIds(parse, d.archivedIds, d.legacy);
      d := d.(archivedIds := scoped, archivedPeers := [],
              legacy := Preserve(legacy, ArchivedPeers, d.archivedPeers, NoLocalNode));
      var reconciled := CountsAgree(state, d);
      if !reconciled {
        return CountMismatch;
      }
      state := d;
      outcome := Migrated(d);
    }
  }

  // ---------- Counting rows ----------

  /** What is counted: all rows, or those with one row ID. */
  datatype Key = Any | Only(id: int)

  ghost predicate Counts(k: Key, id: int) {
    k == Any || k == Only(id)
  }

  ghost function Tally<T>(rows: seq<Row<T>>, k: Key): nat {
    if rows == [] then 0 else (if Counts(k, rows[0].id) then 1 else 0) + Tally(rows[1..], k)
  }

  ghost function LegacyTally(legacy: seq<Legacy>, t: Table, k: Key): nat {
    if legacy == [] then 0
    else (if legacy[0].table == t && Counts(k, legacy[0].key) then 1 else 0) + LegacyTally(legacy[1..], t, k)
  }

  ghost predicate Once<T>(rows: seq<Row<T>>) {
    forall id :: Tally(rows, Only(id)) <= 1
  }

  lemma {:induction false} SplitTally<T>(rows: seq<Row<T>>, keep: T -> bool, k: Key)
    ensures Tally(rows, k) == Tally(Kept(rows, keep), k) + Tally(Dropped(rows, keep), k)
  {
    if rows != [] {
      SplitTally(rows[1..], keep, k);
      if keep(rows[0].data) {
        assert Kept(rows, keep)[1..] == Kept(rows[1..], keep);
      } else {
        assert Dropped(rows, keep)[1..] == Dropped(rows[1..], keep);
      }
    }
  }

  lemma {:induction false} KeptRows<T>(rows: seq<Row<T>>, keep: T -> bool)
    ensures forall r :: r in Kept(rows, keep) <==> r in rows && keep(r.data)
  {
    if rows != [] {
      KeptRows(rows[1..], keep);
      assert rows == [rows[0]] + rows[1..];
    }
  }

  lemma {:induction false} MemberTally<T>(rows: seq<Row<T>>, r: Row<T>)
    requires r in rows
    ensures Tally(rows, Only(r.id)) > 0
  {
    if r != rows[0] {
      MemberTally(rows[1..], r);
    }
  }

  lemma {:induction false} SameTally<T, U>(a: seq<Row<T>>, b: seq<Row<U>>, k: Key)
    requires |a| == |b| && forall i | 0 <= i < |a| :: a[i].id == b[i].id
    ensures Tally(a, k) == Tally(b, k)
  {
    if a != [] {
      SameTally(a[1..], b[1..], k);
    }
  }

  lemma {:induction false} TallyAppend<T>(rows: seq<Row<T>>, r: Row<T>, k: Key)
    ensures Tally(rows + [r], k) == Tally(rows, k) + if Counts(k, r.id) then 1 else 0
  {
    if rows == [] {
      assert rows + [r] == [r];
    } else {
      assert (rows + [r])[1..] == rows[1..] + [r];
      TallyAppend(rows[1..], r, k);
    }
  }

  lemma {:induction false} LegacyAppend(legacy: seq<Legacy>, entry: Legacy, t: Table, k: Key)
    ensures LegacyTally(legacy + [entry], t, k) == LegacyTally(legacy, t, k) + if entry.table == t && Counts(k, entry.key) then 1 else 0
  {
    if legacy == [] {
      assert legacy + [entry] == [entry];
    } else {
      assert (legacy + [entry])[1..] == legacy[1..] + [entry];
      LegacyAppend(legacy[1..], entry, t, k);
    }
  }

  lemma {:induction false} LegacyTallyAny(legacy: seq<Legacy>, t: Table)
    ensures CountLegacy(legacy, t) == LegacyTally(legacy, t, Any)
  {
    if legacy != [] {
      LegacyTallyAny(legacy[1..], t);
    }
  }

  lemma {:induction false} TallyAny<T>(rows: seq<Row<T>>)
    ensures Tally(rows, Any) == |rows|
  {
    if rows != [] {
      TallyAny(rows[1..]);
    }
  }

  lemma TailIsOnce<T>(rows: seq<Row<T>>)
    requires rows != [] && Once(rows)
    ensures Once(rows[1..]) && forall r | r in rows[1..] :: r.id != rows[0].id
  {
    forall id ensures Tally(rows[1..], Only(id)) <= 1 {
      assert Tally(rows, Only(id)) <= 1;
    }
    forall r | r in rows[1..] ensures r.id != rows[0].id {
      MemberTally(rows[1..], r);
      assert Tally(rows, Only(r.id)) <= 1;
    }
  }

  /** Preserving rows that were not preserved for this reason yet adds each of them exactly once. */
  lemma {:induction false} PreserveTally<T>(legacy: seq<Legacy>, table: Table, rows: seq<Row<T>>, reason: Reason, t: Table, k: Key)
    requires Once(rows) && forall r | r in rows :: Legacy(table, r.id, reason) !in legacy
    ensures LegacyTally(Preserve(legacy, table, rows, reason), t, k) == LegacyTally(legacy, t, k) + if t == table then Tally(rows, k) else 0
    decreases |rows|
  {
    if rows != [] {
      var entry := Legacy(table, rows[0].id, reason);
      assert rows[0] in rows;
      LegacyAppend(legacy, entry, t, k);
      TailIsOnce(rows);
      PreserveTally(legacy + [entry], table, rows[1..], reason, t, k);
    }
  }

  lemma {:induction false} PreserveEntries<T>(legacy: seq<Legacy>, table: Table, rows: seq<Row<T>>, reason: Reason)
    ensures forall l :: l in Preserve(legacy, table, rows, reason) ==>
              l in legacy || (l.table == table && l.reason == reason)
    decreases |rows|
  {
    if rows != [] {
      var entry := Legacy(table, rows[0].id, reason);
      PreserveEntries(if entry in legacy then legacy else legacy + [entry], table, rows[1..], reason);
    }
  }

  lemma {:induction false} PreserveElsewhere<T>(legacy: seq<Legacy>, table: Table, rows: seq<Row<T>>, reason: Reason, t: Table)
    requires t != table
    ensures CountLegacy(Preserve(legacy, table, rows, reason), t) == CountLegacy(legacy, t)
    decreases |rows|
  {
    if rows != [] {
      var entry := Legacy(table, rows[0].id, reason);
      LegacyTallyAny(legacy, t);
      LegacyTallyAny(legacy + [entry], t);
      LegacyAppend(legacy, entry, t, Any);
      PreserveElsewhere(if entry in legacy then legacy else legacy + [entry], table, rows[1..], reason, t);
    }
  }

  // ---------- Partition, phase by phase ----------

  ghost function TableTally(d: Database, t: Table, k: Key): nat {
    match t
    case Nodes => Tally(d.nodes, k)
    case Messages => Tally(d.messages, k)
    case Observations => Tally(d.observations, k)
    case Telemetry => Tally(d.telemetry, k)
    case Positions => Tally(d.positions, k)
    case NodeActions => Tally(d.actions, k)
    case ArchivedPeers => Tally(d.archivedPeers, k)
    case ArchivedIds => Tally(d.archivedIds, k)
  }

  /** Every row of the source is, once, in its table or among the legacy records. */
  ghost predicate Partitioned(source: Database, d: Database) {
    forall t: Table, k: Key :: TableTally(source, t, k) == TableTally(d, t, k) + LegacyTally(d.legacy, t, k)
  }

  /** Row IDs are unique within each table. */
  ghost predicate AllDistinct(d: Database) {
    forall t: Table, id: int :: TableTally(d, t, Only(id)) <= 1
  }

  /** The phase that preserves rows of a table for a reason. */
  ghost function PhaseOf(t: Table, reason: Reason): nat {
    match t
    case Nodes => 1
    case Observations => if reason == OfInvalidMessage then 2 else 4
    case Messages => 3
    case Telemetry => 5
    case Positions => 6
    case NodeActions => 7
    case ArchivedIds => 8
    case ArchivedPeers => 9
  }

  /** What every phase keeps: the partition, and no legacy record of a later phase. */
  ghost predicate Sound(source: Database, d: Database, phase: nat) {
    && Partitioned(source, d)
    && forall l | l in d.legacy :: PhaseOf(l.table, l.reason) <= phase
  }

  ghost predicate Splits<T, U>(rows: seq<Row<T>>, kept: seq<Row<U>>, dropped: seq<Row<U>>) {
    forall k: Key :: Tally(rows, k) == Tally(kept, k) + Tally(dropped, k)
  }

  /** Moving the dropped rows of one table into the legacy table completes a phase. */
  lemma MoveIsSound<T>(source: Database, d: Database, d': Database, table: Table, dropped: seq<Row<T>>, reason: Reason)
    requires AllDistinct(source) && Sound(source, d, PhaseOf(table, reason) - 1)
    requires forall k: Key :: TableTally(d, table, k) == TableTally(d', table, k) + Tally(dropped, k)
    requires forall t: Table, k: Key | t != table :: TableTally(d', t, k) == TableTally(d, t, k)
    requires d'.legacy == Preserve(d.legacy, table, dropped, reason)
    ensures Sound(source, d', PhaseOf(table, reason))
  {
    forall id ensures Tally(dropped, Only(id)) <= 1 {
      assert TableTally(source, table, Only(id)) <= 1;
    }
    forall t: Table, k: Key ensures TableTally(source, t, k) == TableTally(d', t, k) + LegacyTally(d'.legacy, t, k) {
      PreserveTally(d.legacy, table, dropped, reason, t, k);
    }
    PreserveEntries(d.legacy, table, dropped, reason);
  }

  lemma MoveMessages(source: Database, d: Database, kept: seq<Row<Message>>, dropped: seq<Row<Message>>)
    requires AllDistinct(source) && Sound(source, d, PhaseOf(Messages, NotScopable) - 1) && Splits(d.messages, kept, dropped)
    ensures Sound(source, d.(messages := kept, legacy := Preserve(d.legacy, Messages, dropped, NotScopable)), PhaseOf(Messages, NotScopable))
  {
    var d' := d.(messages := kept, legacy := Preserve(d.legacy, Messages, dropped, NotScopable));
    MoveIsSound(source, d, d', Messages, dropped, NotScopable);
  }

  lemma MoveObservations(source: Database, d: Database, kept: seq<Row<Observation>>, dropped: seq<Row<Observation>>, reason: Reason)
    requires AllDistinct(source) && Sound(source, d, PhaseOf(Observations, reason) - 1) && Splits(d.observations, kept, dropped)
    ensures Sound(source, d.(observations := kept, legacy := Preserve(d.legacy, Observations, dropped, reason)), PhaseOf(Observations, reason))
  {
    var d' := d.(observations := kept, legacy := Preserve(d.legacy, Observations, dropped, reason));
    MoveIsSound(source, d, d', Observations, dropped, reason);
  }

  lemma MoveTelemetry(source: Database, d: Database, kept: seq<Row<Sample>>, dropped: seq<Row<Sample>>)
    requires AllDistinct(source) && Sound(source, d, PhaseOf(Telemetry, NoGateway) - 1) && Splits(d.telemetry, kept, dropped)
    ensures Sound(source, d.(telemetry := kept, telemetryScoped := true, legacy := Preserve(d.legacy, Telemetry, dropped, NoGateway)), PhaseOf(Telemetry, NoGateway))
  {
    var d' := d.(telemetry := kept, telemetryScoped := true, legacy := Preserve(d.legacy, Telemetry, dropped, NoGateway));
    MoveIsSound(source, d, d', Telemetry, dropped, NoGateway);
  }

  lemma MovePositions(source: Database, d: Database, kept: seq<Row<Sample>>, dropped: seq<Row<Sample>>)
    requires AllDistinct(source) && Sound(source, d, PhaseOf(Positions, NoGateway) - 1) && Splits(d.positions, kept, dropped)
    ensures Sound(source, d.(positions := kept, positionsScoped := true, legacy := Preserve(d.legacy, Positions, dropped, NoGateway)), PhaseOf(Positions, NoGateway))
  {
    var d' := d.(positions := kept, positionsScoped := true, legacy := Preserve(d.legacy, Positions, dropped, NoGateway));
    MoveIsSound(source, d, d', Positions, dropped, NoGateway);
  }

  lemma MoveActions(source: Database, d: Database, kept: seq<Row<Action>>, dropped: seq<Row<Action>>)
    requires AllDistinct(source) && Sound(source, d, PhaseOf(NodeActions, NotScopable) - 1) && Splits(d.actions, kept, dropped)
    ensures Sound(source, d.(actions := kept, legacy := Preserve(d.legacy, NodeActions, dropped, NotScopable)), PhaseOf(NodeActions, NotScopable))
  {
    var d' := d.(actions := kept, legacy := Preserve(d.legacy, NodeActions, dropped, NotScopable));
    MoveIsSound(source, d, d', NodeActions, dropped, NotScopable);
  }

  lemma NodesSound(source: Database)
    requires AllDistinct(source) && source.legacy == []
    ensures Sound(source, ScopeNodes(source), 1)
  {
    if !source.nodesScoped {
      MoveIsSound(source, source, ScopeNodes(source), Nodes, source.nodes, NoLocalNode);
    }
  }

  lemma MessagesSplit(d: Database)
    ensures Splits(d.messages, SplitMessages(d).messages, Dropped(InferMessages(d.messages, d.observations), Scopable))
  {
    var messages := InferMessages(d.messages, d.observations);
    forall k: Key ensures Tally(d.messages, k) == Tally(SplitMessages(d).messages, k) + Tally(Dropped(messages, Scopable), k) {
      SameTally(d.messages, messages, k);
      SplitTally(messages, Scopable, k);
      SameTally(Kept(messages, Scopable), SplitMessages(d).messages, k);
    }
  }

  lemma MessagesSound(source: Database, d: Database)
    requires AllDistinct(source) && Sound(source, d, 1)
    ensures Sound(source, SplitMessages(d), 3)
  {
    var messages := InferMessages(d.messages, d.observations);
    var keep := OutsideInvalid(messages);
    var kept, dropped := Kept(d.observations, keep), Dropped(d.observations, keep);
    forall k: Key ensures Tally(d.observations, k) == Tally(kept, k) + Tally(dropped, k) {
      SplitTally(d.observations, keep, k);
    }
    MoveObservations(source, d, kept, dropped, OfInvalidMessage);
    var d1 := d.(observations := kept, legacy := Preserve(d.legacy, Observations, dropped, OfInvalidMessage));
    MessagesSplit(d);
    MoveMessages(source, d1, SplitMessages(d).messages, Dropped(messages, Scopable));
  }

  lemma MessagesAreScoped(d: Database)
    ensures forall r | r in SplitMessages(d).messages :: r.data.local.Some? && IsNodeId(r.data.local.value)
  {
    var messages := InferMessages(d.messages, d.observations);
    var d' := SplitMessages(d);
    KeptRows(messages, Scopable);
    forall r | r in d'.messages ensures r.data.local.Some? && IsNodeId(r.data.local.value) {
      var i :| 0 <= i < |d'.messages| && d'.messages[i] == r;
      assert Kept(messages, Scopable)[i] in Kept(messages, Scopable);
    }
  }

  lemma {:induction false} UpdateKeeps<T>(rows: seq<Row<T>>, f: T -> T, same: (T, T) -> bool, i: nat)
    requires i <= |rows| && UpdateFrom(rows, f, same, i).Some?
    ensures var updated := UpdateFrom(rows, f, same, i).value;
            |updated| == |rows| && forall k | 0 <= k < |rows| ::
              updated[k].id == rows[k].id && updated[k].data == if k < i then rows[k].data else f(rows[k].data)
    decreases |rows| - i
  {
    if i < |rows| {
      UpdateKeeps(rows[i := Row(rows[i].id, f(rows[i].data))], f, same, i + 1);
    }
  }

  /** The rows when the update has passed row i. */
  ghost function UpdatedUpTo<T>(rows: seq<Row<T>>, f: T -> T, i: nat): seq<Row<T>> {
    seq(|rows|, k requires 0 <= k < |rows| => if k < i then Row(rows[k].id, f(rows[k].data)) else rows[k])
  }

  /** Row i, once updated, equals an earlier updated row or a later row still in its old form. */
  ghost predicate HitsIndex<T>(rows: seq<Row<T>>, f: T -> T, same: (T, T) -> bool, i: nat)
    requires i < |rows|
  {
    exists j | 0 <= j < |rows| && j != i :: same(UpdatedUpTo(rows, f, i)[j].data, f(rows[i].data))
  }

  lemma {:induction false} UpdateFailsIff<T>(rows: seq<Row<T>>, f: T -> T, same: (T, T) -> bool, i: nat)
    requires i <= |rows|
    ensures UpdateFrom(UpdatedUpTo(rows, f, i), f, same, i).None? <==> exists k | i <= k < |rows| :: HitsIndex(rows, f, same, k)
    decreases |rows| - i
  {
    if i < |rows| {
      var updated := UpdatedUpTo(rows, f, i);
      assert updated[i := Row(updated[i].id, f(updated[i].data))] == UpdatedUpTo(rows, f, i + 1);
      UpdateFailsIff(rows, f, same, i + 1);
      assert HitsIndex(rows, f, same, i) || !HitsIndex(rows, f, same, i);
    }
  }

  lemma UpdateSucceedsIff<T>(rows: seq<Row<T>>, f: T -> T, same: (T, T) -> bool)
    ensures UpdateFrom(rows, f, same, 0).Some? <==> forall k | 0 <= k < |rows| :: !HitsIndex(rows, f, same, k)
  {
    UpdateFailsIff(rows, f, same, 0);
    assert UpdatedUpTo(rows, f, 0) == rows;
  }

  /** Two messages that only their conversation keeps apart in the index. */
  ghost predicate SameButConversation(a: Message, b: Message) {
    && a.packet.Some? && a.packet == b.packet && a.outgoing == b.outgoing && a.from == b.from && a.to == b.to && a.text == b.text
  }

  function ScopedConversation(m: Message): string {
    RewriteConversation(m).conversation
  }

  /** The scoped conversation of a message is that of a later one, or the one the later one is still stored under. */
  ghost predicate Coincide(a: Message, later: Message) {
    && SameButConversation(a, later)
    && (ScopedConversation(a) == ScopedConversation(later) || ScopedConversation(a) == later.conversation)
  }

  ghost predicate SomeCoincide(messages: seq<Row<Message>>) {
    exists i, j | 0 <= i < j < |messages| :: Coincide(messages[i].data, messages[j].data)
  }

  /** Scoping the conversations meets the message index exactly when two messages coincide. */
  lemma MessagesMeetIndexIff(messages: seq<Row<Message>>)
    ensures UpdateFrom(messages, RewriteConversation, SameIdentity, 0).None? <==> SomeCoincide(messages)
  {
    UpdateSucceedsIff(messages, RewriteConversation, SameIdentity);
    if i, j :| 0 <= i < j < |messages| && Coincide(messages[i].data, messages[j].data) {
      CoincidingMeet(messages, i, j);
    }
    if k :| 0 <= k < |messages| && HitsIndex(messages, RewriteConversation, SameIdentity, k) {
      MeetingCoincide(messages, k);
    }
  }

  lemma CoincidingMeet(messages: seq<Row<Message>>, i: nat, j: nat)
    requires i < j < |messages| && Coincide(messages[i].data, messages[j].data)
    ensures HitsIndex(messages, RewriteConversation, SameIdentity, i) || HitsIndex(messages, RewriteConversation, SameIdentity, j)
  {
    var a, b := messages[i].data, messages[j].data;
    if ScopedConversation(a) == ScopedConversation(b) {
      assert UpdatedUpTo(messages, RewriteConversation, j)[i].data == RewriteConversation(a);
      assert SameIdentity(RewriteConversation(a), RewriteConversation(b));
    } else {
      assert UpdatedUpTo(messages, RewriteConversation, i)[j].data == b;
      assert SameIdentity(b, RewriteConversation(a));
    }
  }

  lemma MeetingCoincide(messages: seq<Row<Message>>, k: nat)
    requires k < |messages| && HitsIndex(messages, RewriteConversation, SameIdentity, k)
    ensures SomeCoincide(messages)
  {
    var j :| 0 <= j < |messages| && j != k
             && SameIdentity(UpdatedUpTo(messages, RewriteConversation, k)[j].data, RewriteConversation(messages[k].data));
    if j < k {
      assert UpdatedUpTo(messages, RewriteConversation, k)[j].data == RewriteConversation(messages[j].data);
      assert Coincide(messages[j].data, messages[k].data);
    } else {
      assert UpdatedUpTo(messages, RewriteConversation, k)[j].data == messages[j].data;
      assert Coincide(messages[k].data, messages[j].data);
    }
  }

  /** A message stored under a conversation of the new form has it as its own. */
  ghost predicate OwnConversations(messages: seq<Row<Message>>) {
    forall i, j | 0 <= i < j < |messages| && ScopedConversation(messages[i].data) == messages[j].data.conversation ::
      ScopedConversation(messages[j].data) == messages[j].data.conversation
  }

  /** Then only two messages whose scoped conversations are equal meet the index. */
  lemma OwnConversationsMeetIff(messages: seq<Row<Message>>)
    requires OwnConversations(messages)
    ensures UpdateFrom(messages, RewriteConversation, SameIdentity, 0).None? <==>
              exists i, j | 0 <= i < j < |messages| ::
                SameButConversation(messages[i].data, messages[j].data)
                && ScopedConversation(messages[i].data) == ScopedConversation(messages[j].data)
  {
    MessagesMeetIndexIff(messages);
    if i, j :| 0 <= i < j < |messages| && SameButConversation(messages[i].data, messages[j].data)
               && ScopedConversation(messages[i].data) == ScopedConversation(messages[j].data) {
      assert Coincide(messages[i].data, messages[j].data);
    }
  }

  /** Two observations of one message that were received along the same route. */
  ghost predicate TwiceObserved(observations: seq<Row<Observation>>, messages: seq<Row<Message>>) {
    exists i, j | 0 <= i < j < |observations| ::
      && observations[i].data.message == observations[j].data.message && observations[i].data.route == observations[j].data.route
      && HasMessage(messages, observations[i].data.message)
  }

  ghost predicate IndexHolds(observations: seq<Row<Observation>>) {
    forall i, j | 0 <= i < j < |observations| :: !SameObservation(observations[i].data, observations[j].data)
  }

  lemma {:induction false} KeptIndexHolds(observations: seq<Row<Observation>>, keep: Observation -> bool)
    requires IndexHolds(observations)
    ensures IndexHolds(Kept(observations, keep))
  {
    if observations != [] {
      var tail, kept := observations[1..], Kept(observations, keep);
      assert IndexHolds(tail) by {
        assert forall i | 0 <= i < |tail| :: tail[i] == observations[i + 1];
      }
      KeptIndexHolds(tail, keep);
      if keep(observations[0].data) {
        assert kept == [observations[0]] + Kept(tail, keep);
        KeptRows(tail, keep);
        forall j | 0 < j < |kept| ensures !SameObservation(kept[0].data, kept[j].data) {
          assert kept[j] in Kept(tail, keep);
          var k :| 0 <= k < |tail| && tail[k] == kept[j];
          assert observations[k + 1] == kept[j];
        }
        forall i, j | 0 <= i < j < |kept| ensures !SameObservation(kept[i].data, kept[j].data) {
          if i > 0 {
            assert kept[i] == Kept(tail, keep)[i - 1] && kept[j] == Kept(tail, keep)[j - 1];
          }
        }
      }
    }
  }

  lemma TwiceMeetsIndex(observations: seq<Row<Observation>>, messages: seq<Row<Message>>)
    requires TwiceObserved(observations, messages)
    ensures exists j | 0 <= j < |observations| :: HitsIndex(observations, ScopeObservation(messages), SameObservation, j)
  {
    var f := ScopeObservation(messages);
    var i, j :| 0 <= i < j < |observations| && observations[i].data.message == observations[j].data.message
                && observations[i].data.route == observations[j].data.route && HasMessage(messages, observations[i].data.message);
    var a, b := f(observations[i].data), f(observations[j].data);
    assert UpdatedUpTo(observations, f, j)[i].data == a && SameObservation(a, b);
    assert HitsIndex(observations, f, SameObservation, j);
  }

  lemma MeetsOnlyTwice(observations: seq<Row<Observation>>, messages: seq<Row<Message>>, k: nat)
    requires IndexHolds(observations) && k < |observations|
    requires HitsIndex(observations, ScopeObservation(messages), SameObservation, k)
    ensures TwiceObserved(observations, messages)
  {
    var f := ScopeObservation(messages);
    var j :| 0 <= j < |observations| && j != k && SameObservation(UpdatedUpTo(observations, f, k)[j].data, f(observations[k].data));
    var a, b := if j < k then j else k, if j < k then k else j;
    assert !SameObservation(observations[a].data, observations[b].data);
    assert observations[a].data.message == observations[b].data.message && observations[a].data.route == observations[b].data.route;
  }

  /** With the index intact before, scoping observations meets it exactly when a message was observed twice. */
  lemma ObservationsMeetIndexIff(observations: seq<Row<Observation>>, messages: seq<Row<Message>>)
    requires IndexHolds(observations)
    ensures UpdateFrom(observations, ScopeObservation(messages), SameObservation, 0).None? <==> TwiceObserved(observations, messages)
  {
    UpdateSucceedsIff(observations, ScopeObservation(messages), SameObservation);
    if TwiceObserved(observations, messages) {
      TwiceMeetsIndex(observations, messages);
    }
    if k :| 0 <= k < |observations| && HitsIndex(observations, ScopeObservation(messages), SameObservation, k) {
      MeetsOnlyTwice(observations, messages, k);
    }
  }

  /** The results of the two updates that run under a unique index. */
  ghost predicate Updates(source: Database, messages: seq<Row<Message>>, observations: seq<Row<Observation>>) {
    var split := SplitMessages(ScopeNodes(source));
    && UpdateFrom(split.messages, RewriteConversation, SameIdentity, 0) == Some(messages)
    && UpdateFrom(split.observations, ScopeObservation(messages), SameObservation, 0) == Some(observations)
  }

  ghost function BothUpdated(source: Database, messages: seq<Row<Message>>, observations: seq<Row<Observation>>): Database {
    SplitMessages(ScopeNodes(source)).(messages := messages, observations := observations)
  }

  /** When a unique index stops the migration. */
  ghost predicate MeetsIndex(split: Database) {
    SomeCoincide(split.messages) || TwiceObserved(split.observations, split.messages)
  }

  lemma UpdatesIff(source: Database)
    requires IndexHolds(source.observations)
    ensures (exists messages, observations :: Updates(source, messages, observations)) <==> !MeetsIndex(SplitMessages(ScopeNodes(source)))
  {
    var split := SplitMessages(ScopeNodes(source));
    KeptIndexHolds(source.observations, OutsideInvalid(InferMessages(source.messages, source.observations)));
    MessagesMeetIndexIff(split.messages);
    var rewritten := UpdateFrom(split.messages, RewriteConversation, SameIdentity, 0);
    if rewritten.Some? {
      UpdateKeeps(split.messages, RewriteConversation, SameIdentity, 0);
      ObservationsMeetIndexIff(split.observations, rewritten.value);
      SameHasMessage(split.messages, rewritten.value);
      var scoped := UpdateFrom(split.observations, ScopeObservation(rewritten.value), SameObservation, 0);
      assert scoped.Some? ==> Updates(source, rewritten.value, scoped.value);
    }
  }

  lemma SameHasMessage(a: seq<Row<Message>>, b: seq<Row<Message>>)
    requires |a| == |b| && forall i | 0 <= i < |a| :: a[i].id == b[i].id
    ensures forall id :: HasMessage(a, id) <==> HasMessage(b, id)
  {
    forall id ensures HasMessage(a, id) <==> HasMessage(b, id) {
      if r :| r in a && r.id == id {
        var i :| 0 <= i < |a| && a[i] == r;
        assert b[i] in b;
      }
      if r :| r in b && r.id == id {
        var i :| 0 <= i < |b| && b[i] == r;
        assert a[i] in a;
      }
    }
  }

  lemma UpdateSound(source: Database, d: Database, messages: seq<Row<Message>>, observations: seq<Row<Observation>>)
    requires Sound(source, d, 3) && UpdateFrom(d.messages, RewriteConversation, SameIdentity, 0) == Some(messages)
    requires UpdateFrom(d.observations, ScopeObservation(messages), SameObservation, 0) == Some(observations)
    ensures Sound(source, d.(messages := messages, observations := observations), 3)
  {
    UpdateKeeps(d.messages, RewriteConversation, SameIdentity, 0);
    UpdateKeeps(d.observations, ScopeObservation(messages), SameObservation, 0);
    forall t: Table, k: Key ensures TableTally(d.(messages := messages, observations := observations), t, k) == TableTally(d, t, k) {
      SameTally(d.messages, messages, k);
      SameTally(d.observations, observations, k);
    }
  }

  lemma ObservationsSound(source: Database, d: Database)
    requires AllDistinct(source) && Sound(source, d, 3)
    ensures Sound(source, SplitObservations(d), 4)
  {
    var keep := Attached(d.messages);
    forall k: Key ensures Tally(d.observations, k) == Tally(Kept(d.observations, keep), k) + Tally(Dropped(d.observations, keep), k) {
      SplitTally(d.observations, keep, k);
    }
    MoveObservations(source, d, Kept(d.observations, keep), Dropped(d.observations, keep), NotScopable);
  }

  lemma ObservationsAreAttached(d: Database)
    ensures forall o | o in SplitObservations(d).observations :: Attached(d.messages)(o.data)
  {
    KeptRows(d.observations, Attached(d.messages));
  }

  lemma SamplesSplit(samples: seq<Row<Sample>>)
    ensures Splits(samples, ScopeSamples(samples), Dropped(samples, HasGateway))
  {
    forall k: Key ensures Tally(samples, k) == Tally(ScopeSamples(samples), k) + Tally(Dropped(samples, HasGateway), k) {
      SplitTally(samples, HasGateway, k);
      SameTally(Kept(samples, HasGateway), ScopeSamples(samples), k);
    }
  }

  lemma SamplesSound(source: Database, d: Database)
    requires AllDistinct(source) && Sound(source, d, 4)
    ensures Sound(source, SplitSamples(d), 6)
  {
    var d1 := if d.telemetryScoped then d
              else d.(telemetry := ScopeSamples(d.telemetry), telemetryScoped := true,
                      legacy := Preserve(d.legacy, Telemetry, Dropped(d.telemetry, HasGateway), NoGateway));
    if !d.telemetryScoped {
      SamplesSplit(d.telemetry);
      MoveTelemetry(source, d, ScopeSamples(d.telemetry), Dropped(d.telemetry, HasGateway));
    }
    if !d1.positionsScoped {
      SamplesSplit(d1.positions);
      MovePositions(source, d1, ScopeSamples(d1.positions), Dropped(d1.positions, HasGateway));
    }
  }

  /** Every sample the migration itself scopes belongs to one valid local node. */
  lemma ScopedSamplesAreValid(samples: seq<Row<Sample>>)
    ensures forall r | r in ScopeSamples(samples) :: r.data.local.Some? && IsNodeId(r.data.local.value)
  {
    KeptRows(samples, HasGateway);
    forall r | r in ScopeSamples(samples) ensures r.data.local.Some? && IsNodeId(r.data.local.value) {
      var i :| 0 <= i < |ScopeSamples(samples)| && ScopeSamples(samples)[i] == r;
      assert Kept(samples, HasGateway)[i] in Kept(samples, HasGateway);
    }
  }

  lemma ActionsSound(source: Database, d: Database)
    requires AllDistinct(source) && Sound(source, d, 6)
    ensures Sound(source, SplitActions(d), 7)
  {
    var actions := InferActions(d.actions, d.messages);
    forall k: Key ensures Tally(d.actions, k) == Tally(Kept(actions, HasLocal), k) + Tally(Dropped(actions, HasLocal), k) {
      SameTally(d.actions, actions, k);
      SplitTally(actions, HasLocal, k);
    }
    MoveActions(source, d, Kept(actions, HasLocal), Dropped(actions, HasLocal));
  }

  /** A sent message with the packet ID of an action. */
  predicate Sends(m: Message, packet: Option<int>) {
    packet.Some? && m.packet == packet && m.outgoing && m.local.Some?
  }

  /** The action's node is that of a sent message with its packet ID, and every such message has that node. */
  ghost predicate InferredFrom(messages: seq<Row<Message>>, a: Action) {
    && (exists r | r in messages :: Sends(r.data, a.packet) && r.data.local == a.local)
    && (forall r | r in messages && Sends(r.data, a.packet) :: r.data.local == a.local)
  }

  lemma {:induction false} SenderLocalsAre(messages: seq<Row<Message>>, packet: Option<int>, v: string)
    ensures v in SenderLocals(messages, packet) <==> exists r | r in messages :: Sends(r.data, packet) && r.data.local == Some(v)
  {
    if messages != [] {
      SenderLocalsAre(messages[1..], packet, v);
      assert forall r :: r in messages <==> r == messages[0] || r in messages[1..];
      assert messages[0] in messages;
      var rest := SenderLocals(messages[1..], packet);
      assert forall w :: v in [w] + rest <==> v == w || v in rest;
    }
  }

  lemma SingleIsInferred(messages: seq<Row<Message>>, a: Action)
    requires forall r | r in messages :: r.data.local.Some? && IsNodeId(r.data.local.value)
    requires a.local.Some? && a.local == Single(SenderLocals(messages, a.packet))
    ensures InferredFrom(messages, a) && IsNodeId(a.local.value)
  {
    var locals := SenderLocals(messages, a.packet);
    SenderLocalsAre(messages, a.packet, locals[0]);
    var first :| first in messages && Sends(first.data, a.packet) && first.data.local == Some(locals[0]);
    LowerIsIdentity(locals[0]);
    forall r | r in messages && Sends(r.data, a.packet) ensures r.data.local == a.local {
      SenderLocalsAre(messages, a.packet, r.data.local.value);
      LowerIsIdentity(r.data.local.value);
    }
  }

  lemma ActionsHaveLocal(d: Database)
    requires forall r | r in d.messages :: r.data.local.Some? && IsNodeId(r.data.local.value)
    ensures forall r | r in SplitActions(d).actions :: r.data.local.Some?
    ensures forall r | r in SplitActions(d).actions ::
              r in d.actions || (InferredFrom(d.messages, r.data) && IsNodeId(r.data.local.value))
  {
    var inferred := InferActions(d.actions, d.messages);
    KeptRows(inferred, HasLocal);
    forall r | r in SplitActions(d).actions
      ensures r in d.actions || (InferredFrom(d.messages, r.data) && IsNodeId(r.data.local.value))
    {
      var i :| 0 <= i < |inferred| && inferred[i] == r;
      if d.actions[i].data.local.Some? {
        assert r == d.actions[i];
      } else {
        SingleIsInferred(d.messages, r.data);
      }
    }
  }

  lemma {:induction false} ScopedArchivedParse(
    rows: seq<Row<Archived>>, parse: string -> Option<string>, scoped: seq<Row<Archived>>, legacy: seq<Legacy>)
    requires forall r | r in scoped :: r.data.local.Some? && r.data.local == parse(r.data.conversation)
    ensures forall r | r in ScopeArchived(rows, parse, scoped, legacy).0 ::
              r.data.local.Some? && r.data.local == parse(r.data.conversation)
    decreases |rows|
  {
    if rows != [] {
      var local := parse(rows[0].data.conversation);
      if local.None? {
        ScopedArchivedParse(rows[1..], parse, scoped, Preserve(legacy, ArchivedIds, [rows[0]], NotScopable));
      } else {
        ScopedArchivedParse(rows[1..], parse, AddArchived(scoped, rows[0].(data := rows[0].data.(local := local))), legacy);
      }
    }
  }

  // Archived conversation IDs: the one table whose new primary key can drop a row.

  ghost predicate ScopesTo(parse: string -> Option<string>, r: Row<Archived>, s: Row<Archived>) {
    parse(r.data.conversation).Some? && s.data == r.data.(local := parse(r.data.conversation))
  }

  /** Two archived rows that would get the same primary key. */
  ghost predicate Clash(parse: string -> Option<string>, a: Archived, b: Archived) {
    parse(a.conversation).Some? && a.(local := parse(a.conversation)) == b.(local := parse(b.conversation))
  }

  ghost predicate NoClash(parse: string -> Option<string>, rows: seq<Row<Archived>>) {
    forall i, j | 0 <= i < j < |rows| :: !Clash(parse, rows[i].data, rows[j].data)
  }

  ghost predicate NoClashWith(parse: string -> Option<string>, rows: seq<Row<Archived>>, scoped: seq<Row<Archived>>) {
    forall r, s | r in rows && s in scoped :: !ScopesTo(parse, r, s)
  }

  lemma {:induction false} ArchivedPartition(
    rows: seq<Row<Archived>>, parse: string -> Option<string>, scoped: seq<Row<Archived>>, legacy: seq<Legacy>, t: Table, k: Key)
    requires Once(rows) && NoClash(parse, rows) && NoClashWith(parse, rows, scoped)
    requires forall r | r in rows :: Legacy(ArchivedIds, r.id, NotScopable) !in legacy
    ensures var (scoped', legacy') := ScopeArchived(rows, parse, scoped, legacy);
            if t == ArchivedIds then Tally(scoped', k) + LegacyTally(legacy', t, k) == Tally(scoped, k) + LegacyTally(legacy, t, k) + Tally(rows, k)
            else LegacyTally(legacy', t, k) == LegacyTally(legacy, t, k)
    decreases |rows|
  {
    if rows != [] {
      var row := rows[0];
      var local := parse(row.data.conversation);
      TailIsOnce(rows);
      assert rows[0] in rows;
      assert NoClash(parse, rows[1..]) by {
        assert forall i | 0 <= i < |rows[1..]| :: rows[1..][i] == rows[i + 1];
      }
      if local.None? {
        var entry := Legacy(ArchivedIds, row.id, NotScopable);
        assert Preserve(legacy, ArchivedIds, [row], NotScopable) == legacy + [entry];
        LegacyAppend(legacy, entry, t, k);
        ArchivedPartition(rows[1..], parse, scoped, legacy + [entry], t, k);
      } else {
        var s := row.(data := row.data.(local := local));
        AddIsNew(rows, parse, scoped, s);
        TallyAppend(scoped, s, k);
        ArchivedPartition(rows[1..], parse, scoped + [s], legacy, t, k);
      }
    }
  }

  lemma AddIsNew(rows: seq<Row<Archived>>, parse: string -> Option<string>, scoped: seq<Row<Archived>>, s: Row<Archived>)
    requires rows != [] && NoClash(parse, rows) && NoClashWith(parse, rows, scoped) && ScopesTo(parse, rows[0], s)
    ensures AddArchived(scoped, s) == scoped + [s] && NoClashWith(parse, rows[1..], scoped + [s])
  {
    assert rows[0] in rows;
    forall r | r in scoped ensures r.data != s.data {
      assert !ScopesTo(parse, rows[0], r);
    }
    forall r, x | r in rows[1..] && x in scoped + [s] ensures !ScopesTo(parse, r, x) {
      var i :| 0 <= i < |rows[1..]| && rows[1..][i] == r;
      assert rows[i + 1] == r && r in rows && !Clash(parse, rows[0].data, rows[i + 1].data);
    }
  }

  /** When two rows clash, the second is silently ignored, so the row count falls short. */
  lemma {:induction false} ArchivedCount(
    rows: seq<Row<Archived>>, parse: string -> Option<string>, scoped: seq<Row<Archived>>, legacy: seq<Legacy>)
    ensures var (scoped', legacy') := ScopeArchived(rows, parse, scoped, legacy);
            && |scoped'| + CountLegacy(legacy', ArchivedIds) <= |scoped| + CountLegacy(legacy, ArchivedIds) + |rows|
            && (!NoClash(parse, rows) || !NoClashWith(parse, rows, scoped) ==>
                  |scoped'| + CountLegacy(legacy', ArchivedIds) < |scoped| + CountLegacy(legacy, ArchivedIds) + |rows|)
    decreases |rows|
  {
    if rows != [] {
      var row := rows[0];
      var local := parse(row.data.conversation);
      if local.None? {
        var legacy1 := Preserve(legacy, ArchivedIds, [row], NotScopable);
        PreserveOneCount(legacy, row);
        ArchivedCount(rows[1..], parse, scoped, legacy1);
        if NoClash(parse, rows[1..]) && NoClashWith(parse, rows[1..], scoped) {
          PlainMovesOn(rows, parse, scoped);
        }
      } else {
        var s := row.(data := row.data.(local := local));
        ArchivedCount(rows[1..], parse, AddArchived(scoped, s), legacy);
        if AddArchived(scoped, s) != scoped && NoClash(parse, rows[1..]) && NoClashWith(parse, rows[1..], scoped + [s]) {
          ClashMovesOn(rows, parse, scoped, s);
        }
      }
    }
  }

  lemma PreserveOneCount(legacy: seq<Legacy>, row: Row<Archived>)
    ensures CountLegacy(Preserve(legacy, ArchivedIds, [row], NotScopable), ArchivedIds) <= CountLegacy(legacy, ArchivedIds) + 1
  {
    var entry := Legacy(ArchivedIds, row.id, NotScopable);
    assert Preserve(legacy, ArchivedIds, [row], NotScopable) == if entry in legacy then legacy else legacy + [entry];
    LegacyTallyAny(legacy, ArchivedIds);
    LegacyTallyAny(legacy + [entry], ArchivedIds);
    LegacyAppend(legacy, entry, ArchivedIds, Any);
  }

  /** A row that no parser accepts clashes with nothing. */
  lemma PlainMovesOn(rows: seq<Row<Archived>>, parse: string -> Option<string>, scoped: seq<Row<Archived>>)
    requires rows != [] && parse(rows[0].data.conversation).None?
    requires NoClash(parse, rows[1..]) && NoClashWith(parse, rows[1..], scoped)
    ensures NoClash(parse, rows) && NoClashWith(parse, rows, scoped)
  {
    forall i, j | 0 <= i < j < |rows| ensures !Clash(parse, rows[i].data, rows[j].data) {
      if i > 0 {
        assert rows[1..][i - 1] == rows[i] && rows[1..][j - 1] == rows[j];
      }
    }
    assert rows == [rows[0]] + rows[1..];
  }

  lemma ClashMovesOn(rows: seq<Row<Archived>>, parse: string -> Option<string>, scoped: seq<Row<Archived>>, s: Row<Archived>)
    requires rows != [] && ScopesTo(parse, rows[0], s) && forall r | r in scoped :: r.data != s.data
    requires NoClash(parse, rows[1..]) && NoClashWith(parse, rows[1..], scoped + [s])
    ensures NoClash(parse, rows) && NoClashWith(parse, rows, scoped)
  {
    forall i, j | 0 <= i < j < |rows| ensures !Clash(parse, rows[i].data, rows[j].data) {
      if i > 0 {
        assert rows[1..][i - 1] == rows[i] && rows[1..][j - 1] == rows[j];
      } else {
        assert rows[1..][j - 1] == rows[j] && rows[j] in rows[1..] && s in scoped + [s];
        assert !ScopesTo(parse, rows[j], s);
      }
    }
    forall r, x | r in rows && x in scoped ensures !ScopesTo(parse, r, x) {
      if r != rows[0] {
        assert r in rows[1..] && x in scoped + [s];
      }
    }
  }

  lemma ArchivedSound(source: Database, d: Database, parse: string -> Option<string>)
    requires AllDistinct(source) && Sound(source, d, 7) && NoClash(parse, d.archivedIds)
    ensures Partitioned(source, SplitArchived(d, parse))
  {
    var (scoped, legacy) := ScopeArchived(d.archivedIds, parse, [], d.legacy);
    var d1 := d.(archivedIds := scoped, legacy := legacy);
    forall id ensures Tally(d.archivedIds, Only(id)) <= 1 {
      assert TableTally(source, ArchivedIds, Only(id)) <= 1;
    }
    forall t: Table, k: Key ensures TableTally(source, t, k) == TableTally(d1, t, k) + LegacyTally(d1.legacy, t, k) {
      ArchivedPartition(d.archivedIds, parse, [], d.legacy, t, k);
    }
    ArchivedEntries(d.archivedIds, parse, [], d.legacy);
    MoveIsSound(source, d1, SplitArchived(d, parse), ArchivedPeers, d.archivedPeers, NoLocalNode);
  }

  lemma {:induction false} ArchivedEntries(
    rows: seq<Row<Archived>>, parse: string -> Option<string>, scoped: seq<Row<Archived>>, legacy: seq<Legacy>)
    ensures forall l | l in ScopeArchived(rows, parse, scoped, legacy).1 ::
              l in legacy || (l.table == ArchivedIds && l.reason == NotScopable)
    decreases |rows|
  {
    if rows != [] {
      PreserveEntries(legacy, ArchivedIds, [rows[0]], NotScopable);
      var local := parse(rows[0].data.conversation);
      if local.None? {
        ArchivedEntries(rows[1..], parse, scoped, Preserve(legacy, ArchivedIds, [rows[0]], NotScopable));
      } else {
        ArchivedEntries(rows[1..], parse, AddArchived(scoped, rows[0].(data := rows[0].data.(local := local))), legacy);
      }
    }
  }

  lemma PartitionReconciles(source: Database, d: Database)
    requires Partitioned(source, d)
    ensures Reconciled(source, d)
  {
    forall t: Table ensures Size(source, t) == Size(d, t) + CountLegacy(d.legacy, t) {
      assert TableTally(source, t, Any) == TableTally(d, t, Any) + LegacyTally(d.legacy, t, Any);
      LegacyTallyAny(d.legacy, t);
      TableSize(source, t);
      TableSize(d, t);
    }
  }

  lemma TableSize(d: Database, t: Table)
    ensures TableTally(d, t, Any) == Size(d, t)
  {
    match t
    case Nodes => TallyAny(d.nodes);
    case Messages => TallyAny(d.messages);
    case Observations => TallyAny(d.observations);
    case Telemetry => TallyAny(d.telemetry);
    case Positions => TallyAny(d.positions);
    case NodeActions => TallyAny(d.actions);
    case ArchivedPeers => TallyAny(d.archivedPeers);
    case ArchivedIds => TallyAny(d.archivedIds);
  }

  // ---------- Main results ----------

  /** All phases up to the archived conversations. */
  lemma PhasesSound(source: Database, messages: seq<Row<Message>>, observations: seq<Row<Observation>>)
    requires AllDistinct(source) && source.legacy == [] && Updates(source, messages, observations)
    ensures Sound(source, SplitActions(SplitSamples(SplitObservations(BothUpdated(source, messages, observations)))), 7)
  {
    var d := BothUpdated(source, messages, observations);
    NodesSound(source);
    MessagesSound(source, ScopeNodes(source));
    UpdateSound(source, SplitMessages(ScopeNodes(source)), messages, observations);
    ObservationsSound(source, d);
    SamplesSound(source, SplitObservations(d));
    ActionsSound(source, SplitSamples(SplitObservations(d)));
  }

  /**
   When the migration succeeds it is a partition: every source row of every table is, exactly once,
   scoped or preserved. It succeeds exactly when no two messages coincide but for the conversation they
   leave, no kept message was observed twice along one route, and no two archived conversations get the
   same new key; that last clash is ignored silently, and only the final count check catches it.
   */
  lemma MigrationIsPartition(source: Database, parse: string -> Option<string>)
    requires AllDistinct(source) && source.legacy == [] && IndexHolds(source.observations)
    ensures Migrate(source, parse).UniqueIndexHit? <==> MeetsIndex(SplitMessages(ScopeNodes(source)))
    ensures !Migrate(source, parse).UniqueIndexHit? ==> (Migrate(source, parse).Migrated? <==> NoClash(parse, source.archivedIds))
    ensures Migrate(source, parse).Migrated? ==> Partitioned(source, Migrate(source, parse).database)
  {
    var split := SplitMessages(ScopeNodes(source));
    UpdatesIff(source);
    assert Migrate(source, parse).UniqueIndexHit? <==> !exists messages, observations :: Updates(source, messages, observations) by {
      MigrateHits(source, parse);
    }
    if !Migrate(source, parse).UniqueIndexHit? {
      var messages := UpdateFrom(split.messages, RewriteConversation, SameIdentity, 0).value;
      var observations := UpdateFrom(split.observations, ScopeObservation(messages), SameObservation, 0).value;
      assert Updates(source, messages, observations);
      var d := SplitActions(SplitSamples(SplitObservations(BothUpdated(source, messages, observations))));
      PhasesSound(source, messages, observations);
      if NoClash(parse, source.archivedIds) {
        ArchivedSound(source, d, parse);
        PartitionReconciles(source, SplitArchived(d, parse));
      } else {
        ClashFailsCount(source, d, parse);
      }
    }
  }

  lemma MigrateHits(source: Database, parse: string -> Option<string>)
    ensures Migrate(source, parse).UniqueIndexHit? <==> !exists messages, observations :: Updates(source, messages, observations)
  {
    var split := SplitMessages(ScopeNodes(source));
    if !Migrate(source, parse).UniqueIndexHit? {
      var messages := UpdateFrom(split.messages, RewriteConversation, SameIdentity, 0).value;
      assert Updates(source, messages, UpdateFrom(split.observations, ScopeObservation(messages), SameObservation, 0).value);
    }
  }

  lemma ClashFailsCount(source: Database, d: Database, parse: string -> Option<string>)
    requires Sound(source, d, 7) && d.archivedIds == source.archivedIds && !NoClash(parse, d.archivedIds)
    ensures !Reconciled(source, SplitArchived(d, parse))
  {
    var (scoped, legacy) := ScopeArchived(d.archivedIds, parse, [], d.legacy);
    ArchivedCount(d.archivedIds, parse, [], d.legacy);
    PreserveElsewhere(legacy, ArchivedPeers, d.archivedPeers, NoLocalNode, ArchivedIds);
    NoneOf(d.legacy, ArchivedIds);
    assert Size(SplitArchived(d, parse), ArchivedIds) == |scoped| && Size(source, ArchivedIds) == |d.archivedIds|;
  }

  lemma {:induction false} NoneOf(legacy: seq<Legacy>, t: Table)
    requires forall l | l in legacy :: l.table != t
    ensures CountLegacy(legacy, t) == 0
  {
    if legacy != [] {
      NoneOf(legacy[1..], t);
    }
  }

  /**
   Every row a successful migration scopes belongs to one local node. It is well-formed for messages,
   rebuilt samples and every action the migration scopes itself; an action takes the node all sent
   messages with its packet ID have, an observation that of its message, and an archived conversation
   the one its ID parses to.
   */
  lemma ScopedRowsHaveLocalNode(source: Database, parse: string -> Option<string>)
    requires Migrate(source, parse).Migrated?
    ensures var d := Migrate(source, parse).database;
            && (forall r | r in d.messages :: r.data.local.Some? && IsNodeId(r.data.local.value))
            && (forall o | o in d.observations ::
                  exists r | r in d.messages :: r.id == o.data.message && r.data.local == o.data.local)
            && (forall r | r in d.actions :: r.data.local.Some?)
            && (forall r | r in d.actions ::
                  r in source.actions || (InferredFrom(d.messages, r.data) && IsNodeId(r.data.local.value)))
            && (forall r | r in d.archivedIds :: r.data.local.Some? && r.data.local == parse(r.data.conversation))
            && (!source.telemetryScoped ==> forall r | r in d.telemetry :: r.data.local.Some? && IsNodeId(r.data.local.value))
            && (!source.positionsScoped ==> forall r | r in d.positions :: r.data.local.Some? && IsNodeId(r.data.local.value))
  {
    var split := SplitMessages(ScopeNodes(source));
    var messages := UpdateFrom(split.messages, RewriteConversation, SameIdentity, 0).value;
    var observations := UpdateFrom(split.observations, ScopeObservation(messages), SameObservation, 0).value;
    var d := BothUpdated(source, messages, observations);
    MessagesAreScoped(ScopeNodes(source));
    UpdateKeeps(split.messages, RewriteConversation, SameIdentity, 0);
    ObservationsAreAttached(d);
    ScopedSamplesAreValid(source.telemetry);
    ScopedSamplesAreValid(source.positions);
    forall r | r in messages ensures r.data.local.Some? && IsNodeId(r.data.local.value) {
      var i :| 0 <= i < |messages| && messages[i] == r;
      assert split.messages[i] in split.messages;
    }
    var d1 := SplitSamples(SplitObservations(d));
    ActionsHaveLocal(d1);
    ScopedArchivedParse(source.archivedIds, parse, [], SplitActions(d1).legacy);
  }

  /**
   Afterwards every table is marked as scoped, so no later start rebuilds it; tables that were scoped already are
   untouched, and so is what had been preserved before.
   */
  lemma MigratedIsMarked(source: Database, parse: string -> Option<string>)
    requires Migrate(source, parse).Migrated?
    ensures var d := Migrate(source, parse).database;
            && d.nodesScoped && d.telemetryScoped && d.positionsScoped && d.archivedPeers == []
            && (source.nodesScoped ==> d.nodes == source.nodes) && (!source.nodesScoped ==> d.nodes == [])
            && (source.telemetryScoped ==> d.telemetry == source.telemetry)
            && (source.positionsScoped ==> d.positions == source.positions)
  {
  }

  // Which rows are scoped, and what they become.

  /** The node a message belongs to: its own, or the one all its observations with a node agree on. */
  ghost predicate KnownLocal(source: Database, r: Row<Message>, v: string) {
    if r.data.local.Some? then v == Lower(r.data.local.value)
    else
      && (exists o | o in source.observations :: Observes(o, r.id) && Lower(o.data.local.value) == v)
      && (forall o | o in source.observations && Observes(o, r.id) :: Lower(o.data.local.value) == v)
  }

  predicate Observes(o: Row<Observation>, id: int) {
    o.data.message == id && o.data.local.Some?
  }

  /** Message `r` of the source is scoped to `v` as row `m`. */
  ghost predicate ScopedTo(source: Database, r: Row<Message>, m: Row<Message>, v: string) {
    && m.id == r.id && KnownLocal(source, r, v) && IsNodeId(v) && (r.data.public ==> r.data.key.Some?)
    && m.data == r.data.(
         local := Some(v),
         conversation := if r.data.public then "channel:" + v + ":" + r.data.key.value else r.data.conversation)
  }

  lemma {:induction false} LocalsAre(observations: seq<Row<Observation>>, id: int, v: string)
    ensures v in LocalsOfMessage(observations, id) <==> exists o | o in observations :: Observes(o, id) && o.data.local.value == v
  {
    if observations != [] {
      LocalsAre(observations[1..], id, v);
      assert forall o :: o in observations <==> o == observations[0] || o in observations[1..];
      var rest := LocalsOfMessage(observations[1..], id);
      assert forall w :: v in [w] + rest <==> v == w || v in rest;
      assert observations[0] in observations;
    }
  }

  lemma LowerTwice(s: string)
    ensures Lower(Lower(s)) == Lower(s)
  {
  }

  /** What is inferred for a message without a node. */
  lemma InferredIsKnown(source: Database, r: Row<Message>)
    requires r.data.local.None?
    ensures var single := Single(LocalsOfMessage(source.observations, r.id));
            forall v :: single == Some(v) <==> KnownLocal(source, r, v)
  {
    var values := LocalsOfMessage(source.observations, r.id);
    forall o | o in source.observations && Observes(o, r.id) ensures o.data.local.value in values {
      LocalsAre(source.observations, r.id, o.data.local.value);
    }
    if values != [] {
      LocalsAre(source.observations, r.id, values[0]);
      forall w | w in values
        ensures exists o | o in source.observations :: Observes(o, r.id) && o.data.local.value == w
      {
        LocalsAre(source.observations, r.id, w);
      }
    }
  }

  /** The row a message is rewritten to in the first two phases. */
  function Rewritten(inferred: Message): Message
    requires inferred.local.Some?
  {
    RewriteConversation(inferred.(local := Some(Lower(inferred.local.value))))
  }

  lemma RewrittenIsScoped(source: Database, r: Row<Message>, inferred: Message)
    requires inferred == if r.data.local.Some? then r.data else r.data.(local := Single(LocalsOfMessage(source.observations, r.id)))
    ensures Scopable(inferred) ==> ScopedTo(source, r, Row(r.id, Rewritten(inferred)), Lower(inferred.local.value))
    ensures forall v | KnownLocal(source, r, v) && IsNodeId(v) && (r.data.public ==> r.data.key.Some?) ::
              Scopable(inferred) && v == Lower(inferred.local.value)
  {
    if r.data.local.None? {
      InferredIsKnown(source, r);
      if inferred.local.Some? {
        assert Single(LocalsOfMessage(source.observations, r.id)) == Some(inferred.local.value);
        LowerTwice(LocalsOfMessage(source.observations, r.id)[0]);
      }
      forall v | KnownLocal(source, r, v) && IsNodeId(v) ensures inferred.local == Some(v) && Lower(v) == v {
        LowerIsIdentity(v);
      }
    }
  }

  /**
   A message is scoped exactly when its node is known and well-formed and, if public, its channel key is; it keeps
   all but its node, in lower case, and the conversation of a public message, which names both.
   */
  lemma MessagesAreScopedIff(source: Database, parse: string -> Option<string>)
    requires Migrate(source, parse).Migrated?
    ensures var messages := Migrate(source, parse).database.messages;
            && (forall m | m in messages :: exists r, v :: r in source.messages && ScopedTo(source, r, m, v))
            && (forall r, v | r in source.messages && KnownLocal(source, r, v) && IsNodeId(v) && (r.data.public ==> r.data.key.Some?) ::
                  exists m | m in messages :: ScopedTo(source, r, m, v))
  {
    var messages := FinalMessages(source, parse);
    ScopedForward(source, messages);
    ScopedBackward(source, messages);
  }

  /** The messages at the end, row by row. */
  lemma FinalMessages(source: Database, parse: string -> Option<string>) returns (messages: seq<Row<Message>>)
    requires Migrate(source, parse).Migrated?
    ensures messages == Migrate(source, parse).database.messages && AreRewritten(source, messages)
  {
    var split := SplitMessages(ScopeNodes(source));
    messages := UpdateFrom(split.messages, RewriteConversation, SameIdentity, 0).value;
    UpdateKeeps(split.messages, RewriteConversation, SameIdentity, 0);
    KeptRows(InferMessages(source.messages, source.observations), Scopable);
    RewrittenRows(source, messages);
  }

  ghost predicate AreRewritten(source: Database, messages: seq<Row<Message>>) {
    var kept := Kept(InferMessages(source.messages, source.observations), Scopable);
    && |messages| == |kept|
    && forall i | 0 <= i < |messages| :: kept[i].data.local.Some? && messages[i] == Row(kept[i].id, Rewritten(kept[i].data))
  }

  lemma RewrittenRows(source: Database, messages: seq<Row<Message>>)
    requires var split := SplitMessages(ScopeNodes(source)).messages;
             |messages| == |split| && forall i | 0 <= i < |messages| ::
               messages[i].id == split[i].id && messages[i].data == RewriteConversation(split[i].data)
    ensures AreRewritten(source, messages)
  {
    var inferred := InferMessages(source.messages, source.observations);
    var kept := Kept(inferred, Scopable);
    KeptRows(inferred, Scopable);
    forall i | 0 <= i < |messages| ensures kept[i].data.local.Some? && messages[i] == Row(kept[i].id, Rewritten(kept[i].data)) {
      assert kept[i] in kept;
    }
  }

  lemma ScopedForward(source: Database, messages: seq<Row<Message>>)
    requires AreRewritten(source, messages)
    ensures forall m | m in messages :: exists r, v :: r in source.messages && ScopedTo(source, r, m, v)
  {
    var inferred := InferMessages(source.messages, source.observations);
    KeptRows(inferred, Scopable);
    forall m | m in messages ensures exists r, v :: r in source.messages && ScopedTo(source, r, m, v) {
      var i :| 0 <= i < |messages| && messages[i] == m;
      var k := Kept(inferred, Scopable)[i];
      assert k in Kept(inferred, Scopable);
      var j :| 0 <= j < |inferred| && inferred[j] == k;
      RewrittenIsScoped(source, source.messages[j], k.data);
      assert source.messages[j] in source.messages;
    }
  }

  lemma ScopedBackward(source: Database, messages: seq<Row<Message>>)
    requires AreRewritten(source, messages)
    ensures forall r, v | r in source.messages && KnownLocal(source, r, v) && IsNodeId(v) && (r.data.public ==> r.data.key.Some?) ::
              exists m | m in messages :: ScopedTo(source, r, m, v)
  {
    var inferred := InferMessages(source.messages, source.observations);
    KeptRows(inferred, Scopable);
    forall r, v | r in source.messages && KnownLocal(source, r, v) && IsNodeId(v) && (r.data.public ==> r.data.key.Some?)
      ensures exists m | m in messages :: ScopedTo(source, r, m, v)
    {
      var j :| 0 <= j < |source.messages| && source.messages[j] == r;
      RewrittenIsScoped(source, r, inferred[j].data);
      assert inferred[j] in inferred && inferred[j] in Kept(inferred, Scopable);
      var i :| 0 <= i < |Kept(inferred, Scopable)| && Kept(inferred, Scopable)[i] == inferred[j];
      assert messages[i] in messages;
    }
  }

  /** A sample is scoped exactly when its gateway is a node ID, and to that node. */
  lemma SamplesAreScopedIff(samples: seq<Row<Sample>>)
    ensures forall s | s in ScopeSamples(samples) :: exists r | r in samples :: SampleScopedTo(r, s)
    ensures forall r | r in samples && r.data.gateway.Some? && IsNodeId(Lower(r.data.gateway.value)) ::
              exists s | s in ScopeSamples(samples) :: SampleScopedTo(r, s)
  {
    var kept, scoped := Kept(samples, HasGateway), ScopeSamples(samples);
    KeptRows(samples, HasGateway);
    forall s | s in scoped ensures exists r | r in samples :: SampleScopedTo(r, s) {
      var i :| 0 <= i < |scoped| && scoped[i] == s;
      assert kept[i] in kept && SampleScopedTo(kept[i], s);
    }
    forall r | r in samples && r.data.gateway.Some? && IsNodeId(Lower(r.data.gateway.value))
      ensures exists s | s in scoped :: SampleScopedTo(r, s)
    {
      assert r in kept;
      var i :| 0 <= i < |kept| && kept[i] == r;
      assert scoped[i] in scoped && SampleScopedTo(r, scoped[i]);
    }
  }

  predicate SampleScopedTo(r: Row<Sample>, s: Row<Sample>) {
    && s.id == r.id && r.data.gateway.Some? && IsNodeId(Lower(r.data.gateway.value))
    && s.data == r.data.(local := Some(Lower(r.data.gateway.value)))
  }

  /** The observations of a scoped message are scoped with it, to its node, and no others. */
  lemma ObservationsAreScopedIff(source: Database, parse: string -> Option<string>)
    requires Migrate(source, parse).Migrated? && AllDistinct(source)
    ensures var d := Migrate(source, parse).database;
            && (forall o | o in d.observations :: exists r, m | r in source.observations && m in d.messages :: FollowsMessage(r, m, o))
            && (forall r, m | r in source.observations && m in d.messages && m.id == r.data.message ::
                  exists o | o in d.observations :: FollowsMessage(r, m, o))
  {
    var messages := FinalMessages(source, parse);
    var updated := FinalObservations(source, parse, messages);
    KeptIdsAreNotDropped(source);
    OneMessagePerId(source, messages);
    ObservationsForward(source, messages, updated);
    ObservationsBackward(source, messages, updated);
  }

  lemma FinalObservations(source: Database, parse: string -> Option<string>, messages: seq<Row<Message>>)
    returns (updated: seq<Row<Observation>>)
    requires Migrate(source, parse).Migrated? && messages == Migrate(source, parse).database.messages
    ensures AreUpdated(source, messages, updated)
    ensures Migrate(source, parse).database.observations == Kept(updated, Attached(messages))
  {
    var split := SplitMessages(ScopeNodes(source));
    updated := UpdateFrom(split.observations, ScopeObservation(messages), SameObservation, 0).value;
    UpdateKeeps(split.observations, ScopeObservation(messages), SameObservation, 0);
  }

  ghost predicate AreUpdated(source: Database, messages: seq<Row<Message>>, updated: seq<Row<Observation>>) {
    var kept := Kept(source.observations, OutsideInvalid(InferMessages(source.messages, source.observations)));
    && |updated| == |kept|
    && forall i | 0 <= i < |kept| :: updated[i] == Row(kept[i].id, ScopeObservation(messages)(kept[i].data))
  }

  lemma ObservationsForward(source: Database, messages: seq<Row<Message>>, updated: seq<Row<Observation>>)
    requires AreUpdated(source, messages, updated) && forall i, j | 0 <= i < j < |messages| :: messages[i].id != messages[j].id
    ensures forall o | o in Kept(updated, Attached(messages)) ::
              exists r, m | r in source.observations && m in messages :: FollowsMessage(r, m, o)
  {
    var keep := OutsideInvalid(InferMessages(source.messages, source.observations));
    var kept := Kept(source.observations, keep);
    KeptRows(source.observations, keep);
    KeptRows(updated, Attached(messages));
    forall o | o in Kept(updated, Attached(messages))
      ensures exists r, m | r in source.observations && m in messages :: FollowsMessage(r, m, o)
    {
      var i :| 0 <= i < |updated| && updated[i] == o;
      assert kept[i] in kept;
      var m :| m in messages && m.id == o.data.message && m.data.local == o.data.local;
      LocalOfIs(messages, m);
      assert FollowsMessage(kept[i], m, o);
    }
  }

  lemma ObservationsBackward(source: Database, messages: seq<Row<Message>>, updated: seq<Row<Observation>>)
    requires AreUpdated(source, messages, updated) && AreRewritten(source, messages)
    requires forall i, j | 0 <= i < j < |messages| :: messages[i].id != messages[j].id
    requires forall m | m in SplitMessages(ScopeNodes(source)).messages ::
               !HasMessage(Dropped(InferMessages(source.messages, source.observations), Scopable), m.id)
    ensures forall r, m | r in source.observations && m in messages && m.id == r.data.message ::
              exists o | o in Kept(updated, Attached(messages)) :: FollowsMessage(r, m, o)
  {
    var keep := OutsideInvalid(InferMessages(source.messages, source.observations));
    var kept := Kept(source.observations, keep);
    KeptRows(source.observations, keep);
    KeptRows(updated, Attached(messages));
    forall r, m | r in source.observations && m in messages && m.id == r.data.message
      ensures exists o | o in Kept(updated, Attached(messages)) :: FollowsMessage(r, m, o)
    {
      var k :| 0 <= k < |messages| && messages[k] == m;
      assert SplitMessages(ScopeNodes(source)).messages[k] in SplitMessages(ScopeNodes(source)).messages;
      assert r in kept;
      var i :| 0 <= i < |kept| && kept[i] == r;
      LocalOfIs(messages, m);
      assert updated[i] in updated && FollowsMessage(r, m, updated[i]);
    }
  }

  predicate FollowsMessage(r: Row<Observation>, m: Row<Message>, o: Row<Observation>) {
    o.id == r.id && m.id == r.data.message && m.data.local.Some? && o.data == r.data.(local := m.data.local)
  }

  /** Row IDs stay unique, so a message that is kept is not among those deleted. */
  lemma KeptIdsAreNotDropped(source: Database)
    requires AllDistinct(source)
    ensures var inferred := InferMessages(source.messages, source.observations);
            forall m | m in SplitMessages(ScopeNodes(source)).messages :: !HasMessage(Dropped(inferred, Scopable), m.id)
  {
    var inferred := InferMessages(source.messages, source.observations);
    var kept, dropped := SplitMessages(ScopeNodes(source)).messages, Dropped(inferred, Scopable);
    MessagesSplit(ScopeNodes(source));
    forall m | m in kept ensures !HasMessage(dropped, m.id) {
      assert TableTally(source, Messages, Only(m.id)) <= 1;
      assert Tally(source.messages, Only(m.id)) == Tally(kept, Only(m.id)) + Tally(dropped, Only(m.id));
      MemberTally(kept, m);
      if r :| r in dropped && r.id == m.id {
        MemberTally(dropped, r);
      }
    }
  }

  lemma OneMessagePerId(source: Database, messages: seq<Row<Message>>)
    requires AllDistinct(source) && |messages| == |SplitMessages(ScopeNodes(source)).messages|
    requires forall k | 0 <= k < |messages| :: messages[k].id == SplitMessages(ScopeNodes(source)).messages[k].id
    ensures forall i, j | 0 <= i < j < |messages| :: messages[i].id != messages[j].id
  {
    var kept := SplitMessages(ScopeNodes(source)).messages;
    MessagesSplit(ScopeNodes(source));
    forall id ensures Tally(kept, Only(id)) <= 1 {
      assert TableTally(source, Messages, Only(id)) <= 1;
      assert Tally(source.messages, Only(id)) == Tally(kept, Only(id)) + Tally(Dropped(InferMessages(source.messages, source.observations), Scopable), Only(id));
    }
    OnceIsDistinct(kept);
  }

  lemma {:induction false} OnceIsDistinct<T>(rows: seq<Row<T>>)
    requires Once(rows)
    ensures forall i, j | 0 <= i < j < |rows| :: rows[i].id != rows[j].id
  {
    if rows != [] {
      TailIsOnce(rows);
      OnceIsDistinct(rows[1..]);
      forall i, j | 0 <= i < j < |rows| ensures rows[i].id != rows[j].id {
        assert rows[j] == rows[1..][j - 1] && rows[j] in rows[1..];
        assert i > 0 ==> rows[i] == rows[1..][i - 1];
      }
    }
  }

  lemma {:induction false} LocalOfIs(messages: seq<Row<Message>>, m: Row<Message>)
    requires m in messages && forall i, j | 0 <= i < j < |messages| :: messages[i].id != messages[j].id
    ensures LocalOf(messages, m.id) == m.data.local && HasMessage(messages, m.id)
  {
    if messages[0] != m {
      assert m in messages[1..];
      var k :| 0 <= k < |messages[1..]| && messages[1..][k] == m;
      assert messages[0].id != messages[k + 1].id;
      LocalOfIs(messages[1..], m);
    }
  }

  /** An action is scoped exactly when it has a node, or all sent messages with its packet ID agree on one. */
  lemma ActionsAreScopedIff(d: Database, a: Row<Action>)
    requires forall r | r in d.messages :: r.data.local.Some? && IsNodeId(r.data.local.value)
    requires a in d.actions
    ensures var scoped := SplitActions(d).actions;
            if a.data.local.Some? then a in scoped
            else forall v: string | InferredFrom(d.messages, a.data.(local := Some(v))) :: Row(a.id, a.data.(local := Some(v))) in scoped
  {
    var inferred := InferActions(d.actions, d.messages);
    KeptRows(inferred, HasLocal);
    var i :| 0 <= i < |d.actions| && d.actions[i] == a;
    assert inferred[i] in inferred;
    if a.data.local.None? {
      forall v: string | InferredFrom(d.messages, a.data.(local := Some(v))) ensures Row(a.id, a.data.(local := Some(v))) in SplitActions(d).actions {
        UnanimousIsSingle(d.messages, a.data, v);
      }
    }
  }

  lemma UnanimousIsSingle(messages: seq<Row<Message>>, a: Action, v: string)
    requires forall r | r in messages :: r.data.local.Some? && IsNodeId(r.data.local.value)
    requires InferredFrom(messages, a.(local := Some(v)))
    ensures Single(SenderLocals(messages, a.packet)) == Some(v)
  {
    var locals := SenderLocals(messages, a.packet);
    SenderLocalsAre(messages, a.packet, v);
    var r :| r in messages && Sends(r.data, a.packet) && r.data.local == Some(v);
    LowerIsIdentity(v);
    forall w | w in locals ensures w == v {
      SenderLocalsAre(messages, a.packet, w);
    }
    assert locals[0] in locals;
  }

  ghost predicate Archives(scoped: seq<Row<Archived>>, data: Archived) {
    exists r | r in scoped :: r.data == data
  }

  /** Every archived conversation whose ID parses is scoped, and nothing else joins the scoped ones. */
  lemma {:induction false} ArchivedAreScoped(
    rows: seq<Row<Archived>>, parse: string -> Option<string>, scoped: seq<Row<Archived>>, legacy: seq<Legacy>, data: Archived)
    ensures Archives(ScopeArchived(rows, parse, scoped, legacy).0, data) <==>
            Archives(scoped, data) ||
            exists a | a in rows :: parse(a.data.conversation).Some? && data == a.data.(local := parse(a.data.conversation))
    decreases |rows|
  {
    if rows != [] {
      var local := parse(rows[0].data.conversation);
      assert forall a :: a in rows <==> a == rows[0] || a in rows[1..] by {
        assert rows == [rows[0]] + rows[1..];
      }
      if local.None? {
        ArchivedAreScoped(rows[1..], parse, scoped, Preserve(legacy, ArchivedIds, [rows[0]], NotScopable), data);
      } else {
        var s := rows[0].(data := rows[0].data.(local := local));
        AddedArchives(scoped, s, data);
        ArchivedAreScoped(rows[1..], parse, AddArchived(scoped, s), legacy, data);
      }
    }
  }

  lemma AddedArchives(scoped: seq<Row<Archived>>, s: Row<Archived>, data: Archived)
    ensures Archives(AddArchived(scoped, s), data) <==> Archives(scoped, data) || data == s.data
  {
    var more := AddArchived(scoped, s);
    assert more == scoped || (more == scoped + [s] && s in more);
  }

  /** The local node of a direct-message conversation ID. */
  function DmLocal(u: MessageText.Unicode): string -> Option<string> {
    (value: string) => var id := ChannelIds.ParseDm(u, value); if id.Some? then Some(id.value.local) else None
  }

  /** With the parser the migration uses, archived conversations are scoped to well-formed nodes too. */
  lemma ScopedArchivedAreValid(source: Database, u: MessageText.Unicode)
    requires AsciiIsVisible(u) && Migrate(source, DmLocal(u)).Migrated?
    ensures forall r | r in Migrate(source, DmLocal(u)).database.archivedIds :: r.data.local.Some? && IsNodeId(r.data.local.value)
  {
    var d := Migrate(source, DmLocal(u)).database;
    ScopedRowsHaveLocalNode(source, DmLocal(u));
    forall r | r in d.archivedIds ensures r.data.local.Some? && IsNodeId(r.data.local.value) {
      ChannelIds.DmLocalIsNodeId(u, r.data.conversation);
    }
  }

  // ---------- Both failures happen ----------

  /** A table whose conversations differ, as one keyed by conversation is, never meets the new key. */
  lemma DistinctConversationsNeverClash(rows: seq<Row<Archived>>, parse: string -> Option<string>)
    requires forall i, j | 0 <= i < j < |rows| :: rows[i].data.conversation != rows[j].data.conversation
    ensures NoClash(parse, rows)
  {
    forall i, j | 0 <= i < j < |rows| ensures !Clash(parse, rows[i].data, rows[j].data) {
      assert rows[i].data.(local := parse(rows[i].data.conversation)).conversation == rows[i].data.conversation;
      assert rows[j].data.(local := parse(rows[j].data.conversation)).conversation == rows[j].data.conversation;
    }
  }

  function OnlyMessages(messages: seq<Row<Message>>, observations: seq<Row<Observation>>, archived: seq<Row<Archived>>): Database {
    Database([], true, messages, observations, [], true, [], true, [], [], archived, [])
  }

  /** A message whose observations along one route name two local nodes: the migration stops at the index. */
  lemma TwiceObservedStops(parse: string -> Option<string>, m: Message, route: Route, a: string, b: string)
    returns (source: Database)
    requires Scopable(m) && a != b
    ensures source == OnlyMessages([Row(1, m)], [Row(1, Observation(1, Some(a), route)), Row(2, Observation(1, Some(b), route))], [])
    ensures AllDistinct(source) && IndexHolds(source.observations) && Migrate(source, parse).UniqueIndexHit?
  {
    var observations := [Row(1, Observation(1, Some(a), route)), Row(2, Observation(1, Some(b), route))];
    source := OnlyMessages([Row(1, m)], observations, []);
    DistinctIds(source);
    var messages := InferMessages(source.messages, source.observations);
    assert messages == [Row(1, m)];
    assert Dropped(messages, Scopable) == [];
    AllKept(observations, OutsideInvalid(messages));
    var split := SplitMessages(source);
    assert split.observations == observations && split.messages[0] in split.messages;
    assert TwiceObserved(split.observations, split.messages);
    MigrationIsPartition(source, parse);
  }

  /** A message still stored under the conversation another one gets stops the update, though it would have left it. */
  lemma PassingClashStops(a: Message, b: Message) returns (messages: seq<Row<Message>>)
    requires SameButConversation(a, b) && a.public && a.key.Some? && a.local.Some?
    requires b.conversation == ScopedConversation(a) != ScopedConversation(b)
    ensures messages == [Row(1, a), Row(2, b)]
    ensures !SameIdentity(RewriteConversation(a), RewriteConversation(b))
    ensures UpdateFrom(messages, RewriteConversation, SameIdentity, 0).None?
  {
    messages := [Row(1, a), Row(2, b)];
    assert Coincide(messages[0].data, messages[1].data);
    MessagesMeetIndexIff(messages);
  }

  lemma {:induction false} AllKept<T>(rows: seq<Row<T>>, keep: T -> bool)
    requires forall r | r in rows :: keep(r.data)
    ensures Kept(rows, keep) == rows
  {
    if rows != [] {
      AllKept(rows[1..], keep);
    }
  }

  lemma DistinctIds(d: Database)
    requires d.nodes == [] && d.telemetry == [] && d.positions == [] && d.actions == [] && d.archivedPeers == []
    requires |d.messages| <= 1
    requires |d.observations| <= 1 || (|d.observations| == 2 && d.observations[0].id != d.observations[1].id)
    requires |d.archivedIds| <= 1 || (|d.archivedIds| == 2 && d.archivedIds[0].id != d.archivedIds[1].id)
    ensures AllDistinct(d)
  {
    forall t: Table, id: int ensures TableTally(d, t, Only(id)) <= 1 {
      ShortTally(d.messages, id);
      ShortTally(d.observations, id);
      ShortTally(d.archivedIds, id);
    }
  }

  lemma ShortTally<T>(rows: seq<Row<T>>, id: int)
    requires |rows| <= 1 || (|rows| == 2 && rows[0].id != rows[1].id)
    ensures Tally(rows, Only(id)) <= 1
  {
    if |rows| == 2 {
      assert Tally(rows[1..], Only(id)) == if rows[1].id == id then 1 else 0;
    }
  }

  /**
   One conversation archived under two nodes, in a table that is already keyed by node and conversation:
   only the final count stops the migration.
   */
  lemma ArchivedClashStops(parse: string -> Option<string>, conversation: string, a: string, b: string)
    returns (source: Database)
    requires parse(conversation).Some? && a != b
    ensures source == OnlyMessages([], [], [Row(1, Archived(conversation, Some(a))), Row(2, Archived(conversation, Some(b)))])
    ensures AllDistinct(source) && IndexHolds(source.observations) && Migrate(source, parse).CountMismatch?
  {
    var archived := [Row(1, Archived(conversation, Some(a))), Row(2, Archived(conversation, Some(b)))];
    source := OnlyMessages([], [], archived);
    DistinctIds(source);
    assert Clash(parse, archived[0].data, archived[1].data);
    assert SplitMessages(source).messages == [] && SplitMessages(source).observations == [];
    MigrationIsPartition(source, parse);
  }
}
