/**
 Rebinding messages that were stored under a provisional channel key.

 Until the channel list of a radio is known, its messages are stored under a provisional key;
 later they are moved to the real key, where some of them may already be present. The main
 result: storing a stream of messages provisionally and rebinding leaves the same message
 identities, and the same observations of each identity, as storing it under the real key.
 */
module ChannelRebind {
  import opened Options
  import opened MessageStore

  /** Move the channel at index `channel` of `local` from key `provisional` to key `real`. */
  datatype Binding = Binding(local: string, channel: int, provisional: string, final: string)

  predicate Changes(b: Binding) {
    b.provisional != b.final && b.local != "" && b.provisional != "" && b.final != ""
  }

  predicate IsOld(b: Binding, m: Message) {
    m.local == b.local && m.key == b.provisional
  }

  function OldIds(b: Binding, rows: seq<Row>): seq<nat> {
    if rows == [] then []
    else (if IsOld(b, rows[0].m) then [rows[0].id] else []) + OldIds(b, rows[1..])
  }

  function Rebound(b: Binding, m: Message): Message {
    m.(channel := b.channel, key := b.final, route := RouteFor(m.kind, b.local, m.peer, b.final))
  }

  function Relabel(b: Binding, observations: seq<Observation>, id: nat): seq<Observation> {
    seq(|observations|, i requires 0 <= i < |observations| =>
      var o := observations[i];
      if o.message == id then o.(channel := b.channel, key := b.final) else o)
  }

  function CopyOf(b: Binding, o: Observation, target: nat): Observation {
    o.(message := target, channel := b.channel, key := b.final)
  }

  /** INSERT OR IGNORE ... SELECT over the observations of message `id`. */
  function CopyObservations(
    b: Binding, observations: seq<Observation>, source: seq<Observation>, id: nat, target: nat): seq<Observation>
    decreases |source|
  {
    if source == [] then observations
    else
      var next := if source[0].message == id then AddObservation(observations, CopyOf(b, source[0], target)) else observations;
      CopyObservations(b, next, source[1..], id, target)
  }

  /** The cascade of deleting one message. */
  function DropObservations(observations: seq<Observation>, id: nat): seq<Observation> {
    if observations == [] then []
    else (if observations[0].message == id then [] else [observations[0]]) + DropObservations(observations[1..], id)
  }

  function Without(rows: seq<Row>, i: nat): seq<Row>
    requires i < |rows|
  {
    rows[..i] + rows[i + 1..]
  }

  /** Two observations of one message that only their channel index tells apart. */
  predicate Twins(x: Observation, y: Observation, id: nat) {
    && x.message == id && y.message == id
    && x.local == y.local && x.profile == y.profile && x.transport == y.transport
  }

  predicate HasTwins(observations: seq<Observation>, id: nat) {
    exists k, l | 0 <= k < l < |observations| :: Twins(observations[k], observations[l], id)
  }

  /** Giving twins the same channel index violates the index on observations; None is that failure. */
  function RebindOne(b: Binding, t: Tables, id: nat): Option<Tables> {
    match IndexOfId(t.rows, id)
    case None => Some(t)
    case Some(i) =>
      var m := Rebound(b, t.rows[i].m);
      match IndexOfIdentity(t.rows, IdentityOf(m), Some(id))
      case Some(j) =>
        var copied := CopyObservations(b, t.observations, t.observations, id, t.rows[j].id);
        Some(Tables(Without(t.rows, i), DropObservations(copied, id), t.nextId))
      case None =>
        if HasTwins(t.observations, id) then None
        else Some(Tables(t.rows[i := Row(id, m)], Relabel(b, t.observations, id), t.nextId))
  }

  function RebindIds(b: Binding, t: Tables, ids: seq<nat>): Option<Tables>
    decreases |ids|
  {
    if ids == [] then Some(t)
    else
      match RebindOne(b, t, ids[0])
      case None => None
      case Some(t') => RebindIds(b, t', ids[1..])
  }

  /** None when the transaction fails and is rolled back. */
  function TryRebind(b: Binding, t: Tables): Option<Tables> {
    if b.provisional == b.final then Some(t) else RebindIds(b, t, OldIds(b, t.rows))
  }

  function Rebind(b: Binding, t: Tables): Tables {
    match TryRebind(b, t)
    case None => t
    case Some(t') => t'
  }

  method RebindRow(db: MessageDatabase, b: Binding, id: nat) returns (ok: bool)
    modifies db`rows, db`observations
    ensures ok <==> RebindOne(b, old(db.Model()), id).Some?
    ensures db.Model() == if ok then RebindOne(b, old(db.Model()), id).value else old(db.Model())
  {
    ok := true;
    var index := IndexOfId(db.rows, id);
    if index.None? {
      return;
    }
    var i := index.value;
    var m := Rebound(b, db.rows[i].m);
    var duplicate := IndexOfIdentity(db.rows, IdentityOf(m), Some(id));
    if duplicate.Some? {
      var target := db.rows[duplicate.value].id;
      var copied := CopyObservations(b, db.observations, db.observations, id, target);
      db.rows := Without(db.rows, i);
      db.observations := DropObservations(copied, id);
    } else if HasTwins(db.observations, id) {
      ok := false;
    } else {
      db.rows := db.rows[i := Row(id, m)];
      db.observations := Relabel(b, db.observations, id);
    }
  }

  /** A failure rolls the whole rebind back. */
  method RebindProvisionalChannel(db: MessageDatabase, b: Binding) returns (rebound: Option<nat>)
    modifies db`rows, db`observations
    ensures db.Model() == Rebind(b, old(db.Model()))
    ensures rebound.Some? <==> TryRebind(b, old(db.Model())).Some?
    ensures rebound.Some? ==> rebound.value == if b.provisional == b.final then 0 else |OldIds(b, old(db.rows))|
  {
    if b.provisional == b.final {
      return Some(0);
    }
    var rows, observations := db.rows, db.observations;
    var ids := OldIds(b, rows);
    var i := 0;
    while i < |ids|
      invariant i <= |ids|
      invariant RebindIds(b, db.Model(), ids[i..]) == RebindIds(b, old(db.Model()), ids)
    {
      assert ids[i..][0] == ids[i] && ids[i..][1..] == ids[i + 1..];
      var ok := RebindRow(db, b, ids[i]);
      if !ok {
        db.rows, db.observations := rows, observations;
        return None;
      }
      i := i + 1;
    }
    rebound := Some(|ids|);
  }

  // ---------- Storing a stream of messages under one key ----------

  function Keyed(m: Message, key: string): Message {
    m.(key := key, route := RouteFor(m.kind, m.local, m.peer, key))
  }

  /** A message of the rebound channel is stored under the given key, any other under its own. */
  function Stored(b: Binding, m: Message, key: string): Message {
    if OfChannel(b, m) then Keyed(m, key) else m
  }

  function InsertAll(b: Binding, t: Tables, messages: seq<Message>, key: string): Tables
    decreases |messages|
  {
    if messages == [] then t else InsertAll(b, Insert(t, Stored(b, messages[0], key)).0, messages[1..], key)
  }

  // ---------- What is compared ----------

  ghost function Identities(t: Tables): set<Identity> {
    set r | r in t.rows && r.m.packet.Some? :: IdentityOf(r.m)
  }

  /** Rows without a packet ID have no unique identity, so their number counts. */
  ghost function Unnumbered(rows: seq<Row>): multiset<Identity> {
    if rows == [] then multiset{}
    else (if rows[0].m.packet.None? then multiset{IdentityOf(rows[0].m)} else multiset{}) + Unnumbered(rows[1..])
  }

  ghost function Sightings(t: Tables): set<(Identity, Sighting)> {
    set r, o | r in t.rows && o in t.observations && o.message == r.id :: (IdentityOf(r.m), SightingOf(o))
  }

  // The same three, with the provisional key read as the real one. They are what every
  // insertion extends alike under either key, and what rebinding never changes.

  predicate Mentions(b: Binding, route: Route) {
    || (route.PublicRoute? && route.local == b.local && route.key == b.provisional)
    || (route.DmRoute? && route.local == b.local && route.key == b.provisional)
  }

  function Settled(b: Binding, m: Message): Identity {
    if Mentions(b, m.route) then IdentityOf(m).(route := m.route.(key := b.final)) else IdentityOf(m)
  }

  ghost function SettledIdentities(b: Binding, t: Tables): set<Identity> {
    set r | r in t.rows && r.m.packet.Some? :: Settled(b, r.m)
  }

  ghost function SettledUnnumbered(b: Binding, rows: seq<Row>): multiset<Identity> {
    if rows == [] then multiset{}
    else (if rows[0].m.packet.None? then multiset{Settled(b, rows[0].m)} else multiset{}) + SettledUnnumbered(b, rows[1..])
  }

  ghost function SettledSightings(b: Binding, t: Tables): set<(Identity, Sighting)> {
    set r, o | r in t.rows && o in t.observations && o.message == r.id :: (Settled(b, r.m), SightingOf(o))
  }

  ghost predicate SameMessages(b: Binding, s: Tables, t: Tables) {
    && SettledIdentities(b, s) == SettledIdentities(b, t)
    && SettledUnnumbered(b, s.rows) == SettledUnnumbered(b, t.rows)
  }

  ghost predicate SameSettled(b: Binding, s: Tables, t: Tables) {
    SameMessages(b, s, t) && SettledSightings(b, s) == SettledSightings(b, t)
  }

  /** Rows under the provisional key are exactly those whose conversation names it. */
  ghost predicate RouteMatchesKey(b: Binding, m: Message) {
    && (IsOld(b, m) <==> Mentions(b, m.route))
    && (IsOld(b, m) ==> m.route == RouteFor(m.kind, b.local, m.peer, b.provisional))
  }

  ghost predicate ChannelMatches(b: Binding, t: Tables, o: Observation) {
    forall r | r in t.rows && r.id == o.message && IsOld(b, r.m) :: o.channel == b.channel
  }

  ghost predicate Routed(b: Binding, t: Tables) {
    forall r | r in t.rows :: RouteMatchesKey(b, r.m)
  }

  /** The provisional rows were observed on the rebound channel only. */
  ghost predicate Channelled(b: Binding, t: Tables) {
    forall o | o in t.observations :: ChannelMatches(b, t, o)
  }

  ghost predicate Bound(b: Binding, t: Tables) {
    Routed(b, t) && Channelled(b, t)
  }

  ghost predicate NothingOld(b: Binding, t: Tables) {
    forall r | r in t.rows :: !IsOld(b, r.m) && !Mentions(b, r.m.route)
  }

  predicate OfChannel(b: Binding, m: Message) {
    m.local == b.local && m.channel == b.channel
  }

  /** A message of another channel or node: it is not stored under the provisional key. */
  predicate Elsewhere(b: Binding, m: Message) {
    !IsOld(b, Resolve(m)) && !Mentions(b, Resolve(m).route)
  }

  lemma {:induction false} UnnumberedAppend(b: Binding, rows: seq<Row>, r: Row)
    ensures SettledUnnumbered(b, rows + [r])
         == SettledUnnumbered(b, rows) + if r.m.packet.None? then multiset{Settled(b, r.m)} else multiset{}
  {
    if rows == [] {
      assert rows + [r] == [r];
    } else {
      assert (rows + [r])[1..] == rows[1..] + [r];
      UnnumberedAppend(b, rows[1..], r);
    }
  }

  lemma {:induction false} UnnumberedReplace(b: Binding, rows: seq<Row>, i: nat, r: Row)
    requires i < |rows| && r.m.packet == rows[i].m.packet && Settled(b, r.m) == Settled(b, rows[i].m)
    ensures SettledUnnumbered(b, rows[i := r]) == SettledUnnumbered(b, rows)
  {
    if i == 0 {
      assert rows[0 := r][1..] == rows[1..];
    } else {
      assert rows[i := r][1..] == rows[1..][i - 1 := r];
      UnnumberedReplace(b, rows[1..], i - 1, r);
    }
  }

  lemma {:induction false} UnnumberedDrop(b: Binding, rows: seq<Row>, i: nat)
    requires i < |rows| && rows[i].m.packet.Some?
    ensures SettledUnnumbered(b, rows[..i] + rows[i + 1..]) == SettledUnnumbered(b, rows)
  {
    if i == 0 {
      assert rows[..0] + rows[1..] == rows[1..];
    } else {
      assert (rows[..i] + rows[i + 1..])[1..] == rows[1..][..i - 1] + rows[1..][i..];
      UnnumberedDrop(b, rows[1..], i - 1);
    }
  }

  // ---------- Insertion ----------

  lemma KeyedSettles(b: Binding, message: Message, key: string)
    requires Changes(b) && message.local == b.local && (key == b.provisional || key == b.final)
    ensures Resolve(Keyed(message, key)) == Keyed(message, key)
    ensures Settled(b, Keyed(message, key)) == IdentityOf(Keyed(message, b.final))
  {
  }

  lemma IdentitiesAfterAppend(b: Binding, t: Tables, t': Tables, r: Row)
    requires t'.rows == t.rows + [r]
    ensures SettledIdentities(b, t') == SettledIdentities(b, t) + if r.m.packet.Some? then {Settled(b, r.m)} else {}
  {
    assert t'.rows[|t.rows|] == r;
    assert forall x | x in t'.rows :: x in t.rows || x == r;
    assert forall x | x in t.rows :: x in t'.rows;
  }

  /** Inserting under either key extends the three settled views by the same element. */
  lemma InsertSettled(b: Binding, t: Tables, message: Message, key: string)
    requires Changes(b) && Wf(t) && OfChannel(b, message) && (key == b.provisional || key == b.final)
    ensures var t' := Insert(t, Keyed(message, key)).0;
            var v := IdentityOf(Keyed(message, b.final));
            && SettledIdentities(b, t') == SettledIdentities(b, t) + (if message.packet.Some? then {v} else {})
            && SettledUnnumbered(b, t'.rows)
               == SettledUnnumbered(b, t.rows) + (if message.packet.None? then multiset{v} else multiset{})
            && SettledSightings(b, t')
               == SettledSightings(b, t) + {(v, Sighting(message.local, message.profile, message.channel, message.transport))}
  {
    var m := Keyed(message, key);
    KeyedSettles(b, message, key);
    InsertKeepsWf(t, m);
    var (t', result) := Insert(t, m);
    var v := IdentityOf(Keyed(message, b.final));
    match result {
      case Inserted(id) =>
        var r := Row(id, m);
        UnnumberedAppend(b, t.rows, r);
        IdentitiesAfterAppend(b, t, t', r);
        assert t'.rows[|t.rows|] == r;
        SightingsAfterInsert(b, t, t', ObservationOf(m, id), v, r);
      case Existing(id) =>
        var i := IndexOfIdentity(t.rows, IdentityOf(m), None).value;
        assert t.rows[i] in t.rows && Settled(b, t.rows[i].m) == v;
        SightingsAfterInsert(b, t, t', ObservationOf(m, id), v, t.rows[i]);
      case NoLocalNode => assert false;
    }
  }

  /** So does a message of another channel, stored alike in both cases. */
  lemma InsertElsewhere(b: Binding, t: Tables, message: Message)
    requires Changes(b) && Wf(t) && Elsewhere(b, message)
    ensures var (t', m) := (Insert(t, message).0, Resolve(message));
            var v := IdentityOf(m);
            if m.local == "" then t' == t
            else
              && SettledIdentities(b, t') == SettledIdentities(b, t) + (if message.packet.Some? then {v} else {})
              && SettledUnnumbered(b, t'.rows)
                 == SettledUnnumbered(b, t.rows) + (if message.packet.None? then multiset{v} else multiset{})
              && SettledSightings(b, t') == SettledSightings(b, t) + {(v, Sighting(m.local, m.profile, m.channel, m.transport))}
  {
    var m := Resolve(message);
    InsertKeepsWf(t, message);
    var (t', result) := Insert(t, message);
    match result {
      case Inserted(id) =>
        var r := Row(id, m);
        UnnumberedAppend(b, t.rows, r);
        IdentitiesAfterAppend(b, t, t', r);
        assert t'.rows[|t.rows|] == r;
        SightingsAfterInsert(b, t, t', ObservationOf(m, id), IdentityOf(m), r);
      case Existing(id) =>
        var i := IndexOfIdentity(t.rows, IdentityOf(m), None).value;
        assert t.rows[i] in t.rows && Settled(b, t.rows[i].m) == IdentityOf(m);
        SightingsAfterInsert(b, t, t', ObservationOf(m, id), IdentityOf(m), t.rows[i]);
      case NoLocalNode =>
    }
  }

  lemma SightingsGrow(b: Binding, t: Tables, t': Tables)
    requires (forall r | r in t.rows :: r in t'.rows) && forall o | o in t.observations :: o in t'.observations
    ensures SettledSightings(b, t) <= SettledSightings(b, t')
  {
    forall p | p in SettledSightings(b, t) ensures p in SettledSightings(b, t') {
      var r, y :| r in t.rows && y in t.observations && y.message == r.id && p == (Settled(b, r.m), SightingOf(y));
      assert r in t'.rows && y in t'.observations;
    }
  }

  lemma SightingsBounded(b: Binding, t: Tables, t': Tables, o: Observation, target: Row)
    requires Wf(t) && IdsAscend(t'.rows, t'.nextId) && (forall r | r in t.rows :: r in t'.rows)
    requires target in t'.rows && target.id == o.message
    requires forall y | y in t'.observations :: y in t.observations || (y.message == o.message && SightingOf(y) == SightingOf(o))
    ensures SettledSightings(b, t') <= SettledSightings(b, t) + {(Settled(b, target.m), SightingOf(o))}
  {
    forall p | p in SettledSightings(b, t') ensures p in SettledSightings(b, t) + {(Settled(b, target.m), SightingOf(o))} {
      var r, y :| r in t'.rows && y in t'.observations && y.message == r.id && p == (Settled(b, r.m), SightingOf(y));
      if y in t.observations {
        var r0 :| r0 in t.rows && r0.id == y.message;
        SameIdSameRow(t', r, r0);
      } else {
        SameIdSameRow(t', r, target);
      }
    }
  }

  lemma SightingsAfterInsert(b: Binding, t: Tables, t': Tables, o: Observation, v: Identity, target: Row)
    requires Wf(t) && Wf(t')
    requires t'.rows == t.rows || t'.rows == t.rows + [target]
    requires target in t'.rows && target.id == o.message && Settled(b, target.m) == v
    requires t'.observations == AddObservation(t.observations, o)
    ensures SettledSightings(b, t') == SettledSightings(b, t) + {(v, SightingOf(o))}
  {
    AddObservationFacts(t.observations, o);
    SightingsGrow(b, t, t');
    SightingsBounded(b, t, t', o, target);
    NewSighting(b, t, t', o, v, target);
  }

  lemma NewSighting(b: Binding, t: Tables, t': Tables, o: Observation, v: Identity, target: Row)
    requires Wf(t) && target in t'.rows && target.id == o.message && Settled(b, target.m) == v
    requires t'.observations == AddObservation(t.observations, o)
    ensures (v, SightingOf(o)) in SettledSightings(b, t')
  {
    AddObservationFacts(t.observations, o);
    var x :| x in t'.observations && SameSighting(x, o);
    assert (v, SightingOf(o)) == (Settled(b, target.m), SightingOf(x));
  }

  lemma SameIdSameRow(t: Tables, r: Row, s: Row)
    requires IdsAscend(t.rows, t.nextId) && r in t.rows && s in t.rows && r.id == s.id
    ensures r == s
  {
    var i :| 0 <= i < |t.rows| && t.rows[i] == r;
    var j :| 0 <= j < |t.rows| && t.rows[j] == s;
  }

  lemma InsertKeepsBound(b: Binding, t: Tables, message: Message, key: string)
    requires Changes(b) && Wf(t) && Bound(b, t) && OfChannel(b, message) && (key == b.provisional || key == b.final)
    ensures Bound(b, Insert(t, Keyed(message, key)).0)
  {
    var m := Keyed(message, key);
    assert Resolve(m) == m;
    var (t', result) := Insert(t, m);
    AddObservationFacts(t.observations, ObservationOf(m, result.id));
    forall o | o in t'.observations ensures ChannelMatches(b, t', o) {
      if o in t.observations {
        assert ChannelMatches(b, t, o);
        var r0 :| r0 in t.rows && r0.id == o.message;
      }
    }
  }

  lemma ElsewhereKeepsBound(b: Binding, t: Tables, message: Message)
    requires Changes(b) && Wf(t) && Bound(b, t) && Elsewhere(b, message)
    ensures Bound(b, Insert(t, message).0)
    ensures NothingOld(b, t) ==> NothingOld(b, Insert(t, message).0)
  {
    var m := Resolve(message);
    var (t', result) := Insert(t, message);
    if !result.NoLocalNode? {
      AddObservationFacts(t.observations, ObservationOf(m, result.id));
      forall o | o in t'.observations ensures ChannelMatches(b, t', o) {
        if o in t.observations {
          assert ChannelMatches(b, t, o);
          var r0 :| r0 in t.rows && r0.id == o.message;
        } else if result.Existing? {
          var i := IndexOfIdentity(t.rows, IdentityOf(m), None).value;
          assert t.rows[i] in t.rows && RouteMatchesKey(b, t.rows[i].m) && !IsOld(b, t.rows[i].m);
          forall r | r in t'.rows && r.id == o.message ensures !IsOld(b, r.m) {
            SameIdSameRow(t, r, t.rows[i]);
          }
        }
      }
    }
  }

  lemma InsertKeepsNothingOld(b: Binding, t: Tables, message: Message)
    requires Changes(b) && Wf(t) && NothingOld(b, t) && OfChannel(b, message)
    ensures NothingOld(b, Insert(t, Keyed(message, b.final)).0)
  {
    assert Resolve(Keyed(message, b.final)) == Keyed(message, b.final);
  }

  lemma NothingOldIsBound(b: Binding, t: Tables)
    requires NothingOld(b, t)
    ensures Bound(b, t)
  {
  }

  /** Two tables with the same settled views keep them when one stores a stream provisionally. */
  lemma {:induction false} InsertAllSettled(b: Binding, s: Tables, t: Tables, messages: seq<Message>)
    requires Changes(b) && Wf(s) && Wf(t) && Bound(b, s) && NothingOld(b, t) && SameSettled(b, s, t)
    requires forall m | m in messages :: OfChannel(b, m) || Elsewhere(b, m)
    ensures var s' := InsertAll(b, s, messages, b.provisional);
            var t' := InsertAll(b, t, messages, b.final);
            Wf(s') && Wf(t') && Bound(b, s') && NothingOld(b, t') && SameSettled(b, s', t')
    decreases |messages|
  {
    if messages != [] {
      var m := messages[0];
      InsertKeepsWf(s, Stored(b, m, b.provisional));
      InsertKeepsWf(t, Stored(b, m, b.final));
      if OfChannel(b, m) {
        InsertSettled(b, s, m, b.provisional);
        InsertSettled(b, t, m, b.final);
        InsertKeepsBound(b, s, m, b.provisional);
        InsertKeepsNothingOld(b, t, m);
      } else {
        InsertElsewhere(b, s, m);
        InsertElsewhere(b, t, m);
        ElsewhereKeepsBound(b, s, m);
        NothingOldIsBound(b, t);
        ElsewhereKeepsBound(b, t, m);
      }
      InsertAllSettled(b, Insert(s, Stored(b, m, b.provisional)).0, Insert(t, Stored(b, m, b.final)).0, messages[1..]);
    }
  }

  // ---------- Rebinding one row ----------

  lemma {:induction false} CopyFacts(
    b: Binding, observations: seq<Observation>, source: seq<Observation>, id: nat, target: nat)
    requires ObservationsUnique(observations)
    ensures var copied := CopyObservations(b, observations, source, id, target);
            && ObservationsUnique(copied)
            && (forall o | o in observations :: o in copied)
            && (forall o | o in copied ::
                  o in observations || exists x | x in source :: x.message == id && o == CopyOf(b, x, target))
            && (forall x | x in source && x.message == id ::
                  exists o | o in copied :: SameSighting(o, CopyOf(b, x, target)))
    decreases |source|
  {
    if source != [] {
      var head := source[0];
      var next := if head.message == id then AddObservation(observations, CopyOf(b, head, target)) else observations;
      if head.message == id {
        AddObservationFacts(observations, CopyOf(b, head, target));
      }
      CopyFacts(b, next, source[1..], id, target);
      var copied := CopyObservations(b, observations, source, id, target);
      forall o | o in copied
        ensures o in observations || exists x | x in source :: x.message == id && o == CopyOf(b, x, target)
      {
        if o !in next {
          var x :| x in source[1..] && x.message == id && o == CopyOf(b, x, target);
          assert x in source;
        } else if o !in observations {
          assert head in source && o == CopyOf(b, head, target);
        }
      }
      forall x | x in source && x.message == id
        ensures exists o | o in copied :: SameSighting(o, CopyOf(b, x, target))
      {
        if x !in source[1..] {
          assert x == head;
          var o :| o in next && SameSighting(o, CopyOf(b, head, target));
          assert o in copied;
        }
      }
    }
  }

  lemma {:induction false} DropFacts(observations: seq<Observation>, id: nat)
    requires ObservationsUnique(observations)
    ensures ObservationsUnique(DropObservations(observations, id))
    ensures forall o :: o in DropObservations(observations, id) <==> o in observations && o.message != id
  {
    if observations != [] {
      DropFacts(observations[1..], id);
      var rest := DropObservations(observations[1..], id);
      if observations[0].message != id {
        forall j | 0 <= j < |rest| ensures !SameSighting(observations[0], rest[j]) {
          assert rest[j] in observations[1..];
          var k :| 0 <= k < |observations[1..]| && observations[1..][k] == rest[j];
          assert observations[k + 1] == rest[j];
        }
      }
    }
  }

  /** One row of the provisional key, at index `i`, and no other such row, is moved or merged. */
  ghost predicate IsStep(b: Binding, t: Tables, id: nat, i: nat) {
    && Changes(b) && Wf(t) && Routed(b, t)
    && i < |t.rows| && t.rows[i].id == id && IsOld(b, t.rows[i].m)
  }

  lemma StepSettles(b: Binding, t: Tables, id: nat, i: nat)
    requires IsStep(b, t, id, i)
    ensures Settled(b, Rebound(b, t.rows[i].m)) == Settled(b, t.rows[i].m)
    ensures RouteMatchesKey(b, Rebound(b, t.rows[i].m)) && !IsOld(b, Rebound(b, t.rows[i].m))
    ensures !Mentions(b, Rebound(b, t.rows[i].m).route)
  {
    assert t.rows[i] in t.rows && RouteMatchesKey(b, t.rows[i].m);
  }

  // Both indexes and the foreign key, whatever the observations.

  /** Relabelled observations keep their index exactly when there were no twins. */
  lemma RelabelUniqueIff(b: Binding, observations: seq<Observation>, id: nat)
    requires ObservationsUnique(observations)
    ensures ObservationsUnique(Relabel(b, observations, id)) <==> !HasTwins(observations, id)
  {
    var relabelled := Relabel(b, observations, id);
    forall k, l | 0 <= k < l < |observations|
      ensures SameSighting(relabelled[k], relabelled[l]) <==> Twins(observations[k], observations[l], id)
    {
      assert !SameSighting(observations[k], observations[l]);
    }
  }

  lemma MovedIsUnique(b: Binding, t: Tables, t': Tables, id: nat, i: nat)
    requires Wf(t) && i < |t.rows| && t.rows[i].id == id
    requires t'.rows == t.rows[i := Row(id, Rebound(b, t.rows[i].m))] && t'.nextId == t.nextId
    requires IndexOfIdentity(t.rows, IdentityOf(Rebound(b, t.rows[i].m)), Some(id)).None?
    ensures MessagesUnique(t'.rows) && IdsAscend(t'.rows, t'.nextId)
  {
    forall j, k | 0 <= j < k < |t'.rows| && t'.rows[j].m.packet.Some?
      ensures IdentityOf(t'.rows[j].m) != IdentityOf(t'.rows[k].m)
    {
      assert t.rows[j] in t.rows && t.rows[k] in t.rows;
    }
  }

  lemma MovedReferences(b: Binding, t: Tables, t': Tables, id: nat, i: nat)
    requires References(t) && i < |t.rows| && t.rows[i].id == id
    requires t'.rows == t.rows[i := Row(id, Rebound(b, t.rows[i].m))] && t'.observations == Relabel(b, t.observations, id)
    ensures References(t')
  {
    forall o | o in t'.observations ensures exists r | r in t'.rows :: r.id == o.message {
      var k :| 0 <= k < |t.observations| && t'.observations[k] == o;
      assert t.observations[k] in t.observations;
      var r :| r in t.rows && r.id == o.message;
      var j :| 0 <= j < |t.rows| && t.rows[j] == r;
      assert t'.rows[j] in t'.rows;
    }
  }

  lemma WithoutFacts(t: Tables, i: nat)
    requires i < |t.rows| && IdsAscend(t.rows, t.nextId)
    ensures forall r :: r in Without(t.rows, i) <==> r in t.rows && r.id != t.rows[i].id
    ensures IdsAscend(Without(t.rows, i), t.nextId)
  {
    var rest := Without(t.rows, i);
    assert forall k | 0 <= k < |rest| :: rest[k] == t.rows[if k < i then k else k + 1];
    forall r | r in t.rows && r.id != t.rows[i].id ensures r in rest {
      var k :| 0 <= k < |t.rows| && t.rows[k] == r;
      assert rest[if k < i then k else k - 1] == r;
    }
  }

  lemma WithoutIsUnique(rows: seq<Row>, i: nat)
    requires i < |rows| && MessagesUnique(rows)
    ensures MessagesUnique(Without(rows, i))
  {
    var rest := Without(rows, i);
    assert forall k | 0 <= k < |rest| :: rest[k] == rows[if k < i then k else k + 1];
  }

  lemma MergedIsWf(b: Binding, t: Tables, id: nat, i: nat, j: nat)
    requires Wf(t) && i < |t.rows| && t.rows[i].id == id && j < |t.rows| && t.rows[j].id != id
    ensures var copied := CopyObservations(b, t.observations, t.observations, id, t.rows[j].id);
            Wf(Tables(Without(t.rows, i), DropObservations(copied, id), t.nextId))
  {
    var copied := CopyObservations(b, t.observations, t.observations, id, t.rows[j].id);
    var t' := Tables(Without(t.rows, i), DropObservations(copied, id), t.nextId);
    CopyFacts(b, t.observations, t.observations, id, t.rows[j].id);
    DropFacts(copied, id);
    WithoutFacts(t, i);
    WithoutIsUnique(t.rows, i);
    forall o | o in t'.observations ensures exists r | r in t'.rows :: r.id == o.message {
      if o in t.observations {
        var r :| r in t.rows && r.id == o.message;
        assert r in t'.rows;
      } else {
        assert o.message == t.rows[j].id && t.rows[j] in t'.rows;
      }
    }
  }

  /** Any step that succeeds keeps the tables well formed, and every row of another ID as it is. */
  lemma StepKeepsWf(b: Binding, t: Tables, id: nat)
    requires Wf(t) && RebindOne(b, t, id).Some?
    ensures Wf(RebindOne(b, t, id).value) && RebindOne(b, t, id).value.nextId == t.nextId
    ensures forall r: Row | r.id != id :: r in RebindOne(b, t, id).value.rows <==> r in t.rows
    ensures forall r | r in RebindOne(b, t, id).value.rows && r.id == id :: exists before | before in t.rows :: before.id == id && r.m == Rebound(b, before.m)
  {
    var index := IndexOfId(t.rows, id);
    if index.Some? {
      var i := index.value;
      var duplicate := IndexOfIdentity(t.rows, IdentityOf(Rebound(b, t.rows[i].m)), Some(id));
      if duplicate.Some? {
        MergedIsWf(b, t, id, i, duplicate.value);
        WithoutFacts(t, i);
      } else {
        var t' := RebindOne(b, t, id).value;
        MovedIsUnique(b, t, t', id, i);
        MovedReferences(b, t, t', id, i);
        RelabelUniqueIff(b, t.observations, id);
        ReplacedRows(t, i, Rebound(b, t.rows[i].m));
        assert t.rows[i] in t.rows;
      }
    }
  }

  lemma ReplacedRows(t: Tables, i: nat, m: Message)
    requires i < |t.rows| && IdsAscend(t.rows, t.nextId)
    ensures var moved := t.rows[i := Row(t.rows[i].id, m)];
            forall r :: r in moved <==> (r in t.rows && r.id != t.rows[i].id) || r == Row(t.rows[i].id, m)
  {
    var moved := t.rows[i := Row(t.rows[i].id, m)];
    forall r | r in t.rows && r.id != t.rows[i].id ensures r in moved {
      var l :| 0 <= l < |t.rows| && t.rows[l] == r;
      assert moved[l] == r;
    }
    forall r | r in moved && r != Row(t.rows[i].id, m) ensures r in t.rows && r.id != t.rows[i].id {
      var l :| 0 <= l < |moved| && moved[l] == r;
      assert l != i && t.rows[l] == r;
    }
    assert moved[i] == Row(t.rows[i].id, m);
  }

  // What a step keeps of the messages and their observations.

  lemma PointwiseMessages(b: Binding, t: Tables, t': Tables)
    requires |t.rows| == |t'.rows|
    requires forall k | 0 <= k < |t.rows| ::
               Settled(b, t'.rows[k].m) == Settled(b, t.rows[k].m) && t'.rows[k].m.packet == t.rows[k].m.packet
    ensures SettledIdentities(b, t) <= SettledIdentities(b, t')
  {
    forall v | v in SettledIdentities(b, t) ensures v in SettledIdentities(b, t') {
      var r :| r in t.rows && r.m.packet.Some? && v == Settled(b, r.m);
      var k :| 0 <= k < |t.rows| && t.rows[k] == r;
      assert t'.rows[k] in t'.rows;
    }
  }

  lemma PointwiseSightings(b: Binding, t: Tables, t': Tables)
    requires |t.rows| == |t'.rows| && |t.observations| == |t'.observations|
    requires forall k | 0 <= k < |t.rows| :: t'.rows[k].id == t.rows[k].id && Settled(b, t'.rows[k].m) == Settled(b, t.rows[k].m)
    requires forall k | 0 <= k < |t.observations| ::
               t'.observations[k].message == t.observations[k].message
               && SightingOf(t'.observations[k]) == SightingOf(t.observations[k])
    ensures SettledSightings(b, t) <= SettledSightings(b, t')
  {
    forall p | p in SettledSightings(b, t) ensures p in SettledSightings(b, t') {
      var r, o :| r in t.rows && o in t.observations && o.message == r.id && p == (Settled(b, r.m), SightingOf(o));
      var k :| 0 <= k < |t.rows| && t.rows[k] == r;
      var l :| 0 <= l < |t.observations| && t.observations[l] == o;
      assert t'.rows[k] in t'.rows && t'.observations[l] in t'.observations;
    }
  }

  lemma MoveKeepsMessages(b: Binding, t: Tables, id: nat, i: nat, t': Tables)
    requires IsStep(b, t, id, i) && t'.rows == t.rows[i := Row(id, Rebound(b, t.rows[i].m))]
    ensures SameMessages(b, t, t') && Routed(b, t')
    ensures forall k | 0 <= k < |t.rows| ::
              t'.rows[k].id == t.rows[k].id && Settled(b, t'.rows[k].m) == Settled(b, t.rows[k].m)
              && t'.rows[k].m.packet == t.rows[k].m.packet
  {
    StepSettles(b, t, id, i);
    UnnumberedReplace(b, t.rows, i, Row(id, Rebound(b, t.rows[i].m)));
    PointwiseMessages(b, t, t');
    PointwiseMessages(b, t', t);
    ReplacedRows(t, i, Rebound(b, t.rows[i].m));
  }

  lemma MoveKeepsSightings(b: Binding, t: Tables, id: nat, i: nat, t': Tables)
    requires IsStep(b, t, id, i) && Channelled(b, t)
    requires t'.rows == t.rows[i := Row(id, Rebound(b, t.rows[i].m))] && t'.observations == Relabel(b, t.observations, id)
    ensures SettledSightings(b, t) == SettledSightings(b, t') && Channelled(b, t')
  {
    MoveKeepsMessages(b, t, id, i, t');
    StepSettles(b, t, id, i);
    ReplacedRows(t, i, Rebound(b, t.rows[i].m));
    forall k | 0 <= k < |t.observations|
      ensures t'.observations[k].message == t.observations[k].message
      ensures SightingOf(t'.observations[k]) == SightingOf(t.observations[k])
    {
      assert t.observations[k] in t.observations && ChannelMatches(b, t, t.observations[k]);
      assert t.rows[i] in t.rows;
    }
    PointwiseSightings(b, t, t');
    PointwiseSightings(b, t', t);
    forall o | o in t'.observations ensures ChannelMatches(b, t', o) {
      var k :| 0 <= k < |t.observations| && t'.observations[k] == o;
      assert t.observations[k] in t.observations && ChannelMatches(b, t, t.observations[k]);
      assert SightingOf(o).channel == SightingOf(t.observations[k]).channel;
    }
  }

  lemma ChannelledHasNoTwins(b: Binding, t: Tables, id: nat, i: nat)
    requires IsStep(b, t, id, i) && Channelled(b, t)
    ensures !HasTwins(t.observations, id)
  {
    forall k, l | 0 <= k < l < |t.observations| ensures !Twins(t.observations[k], t.observations[l], id) {
      assert t.rows[i] in t.rows && ChannelMatches(b, t, t.observations[k]) && ChannelMatches(b, t, t.observations[l]);
      assert !SameSighting(t.observations[k], t.observations[l]);
    }
  }

  lemma MergeKeeps(b: Binding, t: Tables, id: nat, i: nat, j: nat)
    requires IsStep(b, t, id, i) && j < |t.rows| && t.rows[j].id != id && t.rows[i].m.packet.Some?
    requires IdentityOf(t.rows[j].m) == IdentityOf(Rebound(b, t.rows[i].m))
    ensures var copied := CopyObservations(b, t.observations, t.observations, id, t.rows[j].id);
            var t' := Tables(Without(t.rows, i), DropObservations(copied, id), t.nextId);
            && SameMessages(b, t, t') && Routed(b, t')
            && (Channelled(b, t) ==> SettledSightings(b, t) == SettledSightings(b, t') && Channelled(b, t'))
  {
    var target := t.rows[j];
    var copied := CopyObservations(b, t.observations, t.observations, id, target.id);
    var t' := Tables(Without(t.rows, i), DropObservations(copied, id), t.nextId);
    StepSettles(b, t, id, i);
    CopyFacts(b, t.observations, t.observations, id, target.id);
    DropFacts(copied, id);
    WithoutFacts(t, i);
    UnnumberedDrop(b, t.rows, i);
    assert target in t.rows && target in t'.rows && RouteMatchesKey(b, target.m);
    assert !IsOld(b, target.m) && Settled(b, target.m) == Settled(b, t.rows[i].m);
    MergedIdentities(b, t, t', i, target);
    if Channelled(b, t) {
      MergedObservations(b, t, t', id, i, target, copied);
    }
  }

  lemma MergedIdentities(b: Binding, t: Tables, t': Tables, i: nat, target: Row)
    requires i < |t.rows| && t.rows[i].m.packet.Some? && target.m.packet.Some?
    requires forall r :: r in t'.rows <==> r in t.rows && r.id != t.rows[i].id
    requires target in t'.rows && Settled(b, target.m) == Settled(b, t.rows[i].m)
    requires IdsAscend(t.rows, t.nextId)
    ensures SettledIdentities(b, t) == SettledIdentities(b, t')
  {
    forall v | v in SettledIdentities(b, t) ensures v in SettledIdentities(b, t') {
      var r :| r in t.rows && r.m.packet.Some? && v == Settled(b, r.m);
      if r.id == t.rows[i].id {
        SameIdSameRow(t, r, t.rows[i]);
      }
    }
    forall v | v in SettledIdentities(b, t') ensures v in SettledIdentities(b, t) {
      var r :| r in t'.rows && r.m.packet.Some? && v == Settled(b, r.m);
    }
  }

  lemma MergedObservations(
    b: Binding, t: Tables, t': Tables, id: nat, i: nat, target: Row, copied: seq<Observation>)
    requires IsStep(b, t, id, i) && Channelled(b, t) && !IsOld(b, target.m) && Settled(b, target.m) == Settled(b, t.rows[i].m)
    requires target in t'.rows && forall r :: r in t'.rows <==> r in t.rows && r.id != id
    requires forall o | o in t.observations :: o in copied
    requires forall o | o in copied ::
               o in t.observations || exists x | x in t.observations :: x.message == id && o == CopyOf(b, x, target.id)
    requires forall x | x in t.observations && x.message == id ::
               exists o | o in copied :: SameSighting(o, CopyOf(b, x, target.id))
    requires forall o :: o in t'.observations <==> o in copied && o.message != id
    ensures SettledSightings(b, t) == SettledSightings(b, t') && Channelled(b, t')
  {
    var row := t.rows[i];
    assert row in t.rows && target in t.rows;
    forall p | p in SettledSightings(b, t) ensures p in SettledSightings(b, t') {
      var r, o :| r in t.rows && o in t.observations && o.message == r.id && p == (Settled(b, r.m), SightingOf(o));
      if r.id == id {
        SameIdSameRow(t, r, row);
        assert ChannelMatches(b, t, o);
        var x :| x in copied && SameSighting(x, CopyOf(b, o, target.id));
        assert x in t'.observations;
      } else {
        assert r in t'.rows && o in t'.observations;
      }
    }
    forall o | o in t'.observations ensures ChannelMatches(b, t', o) {
      if o in t.observations {
        assert ChannelMatches(b, t, o);
      } else {
        var x :| x in t.observations && x.message == id && o == CopyOf(b, x, target.id);
      }
    }
    forall p | p in SettledSightings(b, t') ensures p in SettledSightings(b, t) {
      var r, o :| r in t'.rows && o in t'.observations && o.message == r.id && p == (Settled(b, r.m), SightingOf(o));
      if o !in t.observations {
        var x :| x in t.observations && x.message == id && o == CopyOf(b, x, target.id);
        assert ChannelMatches(b, t, x);
        SameIdSameRow(t, r, target);
        assert SightingOf(x) == SightingOf(o);
        assert row in t.rows && x.message == row.id;
      }
    }
  }

  /** After the step no other provisional row is gone, and this one no longer is provisional. */
  ghost predicate OneLess(b: Binding, t: Tables, t': Tables, id: nat) {
    && (forall r | r in t'.rows && IsOld(b, r.m) :: r in t.rows && r.id != id)
    && (forall r | r in t.rows && r.id != id :: r in t'.rows)
  }

  lemma IndexOfIdIs(t: Tables, id: nat, i: nat)
    requires IdsAscend(t.rows, t.nextId) && i < |t.rows| && t.rows[i].id == id
    ensures IndexOfId(t.rows, id) == Some(i)
  {
    assert t.rows[i] in t.rows;
  }

  /** A provisional row with no message under the real key is moved, and fails exactly when it has twins. */
  lemma StepFailsIff(b: Binding, t: Tables, id: nat, i: nat)
    requires IsStep(b, t, id, i)
    ensures RebindOne(b, t, id).None? <==> !HasDuplicate(b, t, t.rows[i]) && HasTwins(t.observations, id)
  {
    IndexOfIdIs(t, id, i);
  }

  /** The message is stored under the real key already. */
  predicate HasDuplicate(b: Binding, t: Tables, r: Row) {
    IndexOfIdentity(t.rows, IdentityOf(Rebound(b, r.m)), Some(r.id)).Some?
  }

  /** What one step keeps, and that it leaves one provisional row less. */
  lemma StepKeeps(b: Binding, t: Tables, id: nat, i: nat)
    requires IsStep(b, t, id, i)
    ensures Channelled(b, t) ==> RebindOne(b, t, id).Some?
    ensures RebindOne(b, t, id).Some? ==>
              var t' := RebindOne(b, t, id).value;
              && Wf(t') && Routed(b, t') && SameMessages(b, t, t') && OneLess(b, t, t', id)
              && (Channelled(b, t) ==> Channelled(b, t') && SameSettled(b, t, t'))
  {
    IndexOfIdIs(t, id, i);
    StepSettles(b, t, id, i);
    if Channelled(b, t) {
      ChannelledHasNoTwins(b, t, id, i);
    }
    if RebindOne(b, t, id).Some? {
      var t' := RebindOne(b, t, id).value;
      StepKeepsWf(b, t, id);
      var duplicate := IndexOfIdentity(t.rows, IdentityOf(Rebound(b, t.rows[i].m)), Some(id));
      if duplicate.Some? {
        MergeKeeps(b, t, id, i, duplicate.value);
        WithoutFacts(t, i);
      } else {
        MoveKeepsMessages(b, t, id, i, t');
        ReplacedRows(t, i, Rebound(b, t.rows[i].m));
        if Channelled(b, t) {
          MoveKeepsSightings(b, t, id, i, t');
        }
      }
    }
  }

  // ---------- The whole rebind ----------

  ghost predicate Ascending(ids: seq<nat>) {
    forall k, l | 0 <= k < l < |ids| :: ids[k] < ids[l]
  }

  ghost predicate AreOld(b: Binding, t: Tables, ids: seq<nat>) {
    && (forall id | id in ids :: exists r | r in t.rows :: r.id == id && IsOld(b, r.m))
    && (forall r | r in t.rows && IsOld(b, r.m) :: r.id in ids)
  }

  lemma {:induction false} OldIdsAreIds(b: Binding, rows: seq<Row>)
    ensures forall id | id in OldIds(b, rows) :: exists r | r in rows :: r.id == id && IsOld(b, r.m)
    ensures forall r | r in rows && IsOld(b, r.m) :: r.id in OldIds(b, rows)
  {
    if rows != [] {
      OldIdsAreIds(b, rows[1..]);
      forall id | id in OldIds(b, rows) ensures exists r | r in rows :: r.id == id && IsOld(b, r.m) {
        if id in OldIds(b, rows[1..]) {
          var r :| r in rows[1..] && r.id == id && IsOld(b, r.m);
          assert r in rows;
        } else {
          assert rows[0] in rows;
        }
      }
    }
  }

  lemma {:induction false} OldIdsAscend(b: Binding, rows: seq<Row>, nextId: nat)
    requires IdsAscend(rows, nextId)
    ensures Ascending(OldIds(b, rows))
  {
    if rows != [] {
      OldIdsAscend(b, rows[1..], nextId);
      OldIdsAreIds(b, rows[1..]);
      var rest := OldIds(b, rows[1..]);
      forall k | 0 <= k < |rest| ensures rows[0].id < rest[k] {
        assert rest[k] in rest;
        var r :| r in rows[1..] && r.id == rest[k] && IsOld(b, r.m);
        var l :| 0 <= l < |rows[1..]| && rows[1..][l] == r;
        assert rows[l + 1] == r;
      }
    }
  }

  lemma RemainingAreOld(b: Binding, t: Tables, t': Tables, ids: seq<nat>)
    requires ids != [] && Ascending(ids) && AreOld(b, t, ids) && OneLess(b, t, t', ids[0])
    ensures AreOld(b, t', ids[1..]) && Ascending(ids[1..])
  {
    forall id | id in ids[1..] ensures exists r | r in t'.rows :: r.id == id && IsOld(b, r.m) {
      var k :| 0 <= k < |ids[1..]| && ids[1..][k] == id;
      assert ids[k + 1] == id && id in ids;
      var r :| r in t.rows && r.id == id && IsOld(b, r.m);
      assert r in t'.rows;
    }
    forall r | r in t'.rows && IsOld(b, r.m) ensures r.id in ids[1..] {
      assert r.id in ids && r.id != ids[0];
    }
  }

  lemma OldRowAt(b: Binding, t: Tables, ids: seq<nat>) returns (i: nat)
    requires ids != [] && AreOld(b, t, ids)
    ensures i < |t.rows| && t.rows[i].id == ids[0] && IsOld(b, t.rows[i].m)
  {
    assert ids[0] in ids;
    var row :| row in t.rows && row.id == ids[0] && IsOld(b, row.m);
    i :| 0 <= i < |t.rows| && t.rows[i] == row;
  }

  lemma {:induction false} RebindIdsKeeps(b: Binding, t: Tables, ids: seq<nat>)
    requires Changes(b) && Wf(t) && Routed(b, t) && AreOld(b, t, ids) && Ascending(ids)
    ensures Channelled(b, t) ==> RebindIds(b, t, ids).Some?
    ensures RebindIds(b, t, ids).Some? ==>
              var t' := RebindIds(b, t, ids).value;
              && Wf(t') && NothingOld(b, t') && SameMessages(b, t, t')
              && (Channelled(b, t) ==> SameSettled(b, t, t'))
    decreases |ids|
  {
    if ids == [] {
      forall r | r in t.rows ensures !IsOld(b, r.m) && !Mentions(b, r.m.route) {
        assert RouteMatchesKey(b, r.m);
      }
    } else {
      var i := OldRowAt(b, t, ids);
      StepKeeps(b, t, ids[0], i);
      if RebindOne(b, t, ids[0]).Some? {
        var t1 := RebindOne(b, t, ids[0]).value;
        RemainingAreOld(b, t, t1, ids);
        RebindIdsKeeps(b, t1, ids[1..]);
      }
    }
  }

  // When the rebind fails.

  /** A provisional row that will be moved and has twins. */
  ghost predicate Fails(b: Binding, t: Tables, id: nat) {
    exists r | r in t.rows :: r.id == id && IsOld(b, r.m) && !HasDuplicate(b, t, r) && HasTwins(t.observations, id)
  }

  /** Different provisional messages stay different under the real key. */
  lemma ReboundDiffer(b: Binding, t: Tables, r: Row, x: Row)
    requires Wf(t) && Routed(b, t) && r in t.rows && x in t.rows && r.id != x.id && IsOld(b, r.m) && IsOld(b, x.m)
    ensures r.m.packet.Some? ==> IdentityOf(Rebound(b, r.m)) != IdentityOf(Rebound(b, x.m))
  {
    assert RouteMatchesKey(b, r.m) && RouteMatchesKey(b, x.m);
    var i :| 0 <= i < |t.rows| && t.rows[i] == r;
    var j :| 0 <= j < |t.rows| && t.rows[j] == x;
    assert r.m.packet.Some? && IdentityOf(r.m) == IdentityOf(x.m) ==> r.m.packet == x.m.packet;
    if i < j {
      assert r.m.packet.Some? ==> IdentityOf(t.rows[i].m) != IdentityOf(t.rows[j].m);
    } else {
      assert x.m.packet.Some? ==> IdentityOf(t.rows[j].m) != IdentityOf(t.rows[i].m);
    }
  }

  lemma DuplicateIff(b: Binding, t: Tables, r: Row)
    ensures HasDuplicate(b, t, r) <==>
              r.m.packet.Some? && exists x | x in t.rows :: x.id != r.id && IdentityOf(x.m) == IdentityOf(Rebound(b, r.m))
  {
    var found := IndexOfIdentity(t.rows, IdentityOf(Rebound(b, r.m)), Some(r.id));
    if found.Some? {
      assert t.rows[found.value] in t.rows;
    }
  }

  /** A step on another row changes neither whether a row is merged nor its observations. */
  lemma StepKeepsFailure(b: Binding, t: Tables, id: nat, i: nat, r: Row)
    requires IsStep(b, t, id, i) && RebindOne(b, t, id).Some? && r in t.rows && r.id != id && IsOld(b, r.m)
    ensures var t' := RebindOne(b, t, id).value;
            HasDuplicate(b, t', r) == HasDuplicate(b, t, r) && HasTwins(t'.observations, r.id) == HasTwins(t.observations, r.id)
  {
    var t' := RebindOne(b, t, id).value;
    var row := t.rows[i];
    assert row in t.rows && RouteMatchesKey(b, row.m) && RouteMatchesKey(b, r.m);
    IndexOfIdIs(t, id, i);
    StepKeepsWf(b, t, id);
    DuplicateIff(b, t, r);
    DuplicateIff(b, t', r);
    ReboundDiffer(b, t, r, row);
    assert IdentityOf(row.m) != IdentityOf(Rebound(b, r.m));
    forall x | x in t'.rows && x.id == id ensures r.m.packet.Some? ==> IdentityOf(x.m) != IdentityOf(Rebound(b, r.m)) {
      var before :| before in t.rows && before.id == id && x.m == Rebound(b, before.m);
      SameIdSameRow(t, before, row);
    }
    forall x | x in t.rows && x.id == id ensures IdentityOf(x.m) != IdentityOf(Rebound(b, r.m)) {
      SameIdSameRow(t, x, row);
    }
    StepKeepsTwins(b, t, id, i, r);
  }

  lemma StepKeepsTwins(b: Binding, t: Tables, id: nat, i: nat, r: Row)
    requires IsStep(b, t, id, i) && RebindOne(b, t, id).Some? && r in t.rows && r.id != id && IsOld(b, r.m)
    ensures HasTwins(RebindOne(b, t, id).value.observations, r.id) == HasTwins(t.observations, r.id)
  {
    IndexOfIdIs(t, id, i);
    var duplicate := IndexOfIdentity(t.rows, IdentityOf(Rebound(b, t.rows[i].m)), Some(id));
    if duplicate.Some? {
      var target := t.rows[duplicate.value];
      StepSettles(b, t, id, i);
      assert target in t.rows && RouteMatchesKey(b, target.m) && !IsOld(b, target.m);
      if r.id == target.id {
        SameIdSameRow(t, r, target);
      }
      CopyElsewhere(b, t.observations, t.observations, id, target.id, r.id);
      DropElsewhere(CopyObservations(b, t.observations, t.observations, id, target.id), id, r.id);
      TwinsOf(t.observations, r.id);
      TwinsOf(DropObservations(CopyObservations(b, t.observations, t.observations, id, target.id), id), r.id);
    } else {
      var relabelled := Relabel(b, t.observations, id);
      forall k, l | 0 <= k < l < |t.observations|
        ensures Twins(relabelled[k], relabelled[l], r.id) <==> Twins(t.observations[k], t.observations[l], r.id)
      {
      }
    }
  }

  /** The observations of one message, in order. */
  function ObservationsOf(observations: seq<Observation>, id: nat): seq<Observation> {
    if observations == [] then []
    else if observations[0].message == id then [observations[0]] + ObservationsOf(observations[1..], id)
    else ObservationsOf(observations[1..], id)
  }

  lemma {:induction false} ObservationsOfAppend(observations: seq<Observation>, o: Observation, id: nat)
    ensures ObservationsOf(observations + [o], id) == ObservationsOf(observations, id) + if o.message == id then [o] else []
  {
    if observations == [] {
      assert observations + [o] == [o];
    } else {
      assert (observations + [o])[1..] == observations[1..] + [o];
      ObservationsOfAppend(observations[1..], o, id);
    }
  }

  lemma {:induction false} CopyElsewhere(
    b: Binding, observations: seq<Observation>, source: seq<Observation>, id: nat, target: nat, other: nat)
    requires other != target
    ensures ObservationsOf(CopyObservations(b, observations, source, id, target), other) == ObservationsOf(observations, other)
    decreases |source|
  {
    if source != [] {
      var copy := CopyOf(b, source[0], target);
      ObservationsOfAppend(observations, copy, other);
      CopyElsewhere(
        b, if source[0].message == id then AddObservation(observations, copy) else observations, source[1..], id, target, other);
    }
  }

  lemma {:induction false} DropElsewhere(observations: seq<Observation>, id: nat, other: nat)
    requires other != id
    ensures ObservationsOf(DropObservations(observations, id), other) == ObservationsOf(observations, other)
  {
    if observations != [] {
      DropElsewhere(observations[1..], id, other);
      var rest := DropObservations(observations[1..], id);
      assert [] + rest == rest && ([observations[0]] + rest)[1..] == rest;
    }
  }

  /** Whether a message has twins depends on its own observations only. */
  lemma {:induction false} TwinsOf(observations: seq<Observation>, id: nat)
    ensures HasTwins(observations, id) <==> HasTwins(ObservationsOf(observations, id), id)
  {
    if observations != [] {
      var rest := observations[1..];
      TwinsOf(rest, id);
      ObservationsOfFacts(rest, id);
      HeadTwins(observations, id);
      if observations[0].message == id {
        var all := ObservationsOf(observations, id);
        HeadTwins(all, id);
        assert all[1..] == ObservationsOf(rest, id);
      }
    }
  }

  lemma HeadTwins(observations: seq<Observation>, id: nat)
    requires observations != []
    ensures HasTwins(observations, id) <==>
              HasTwins(observations[1..], id) || exists o | o in observations[1..] :: Twins(observations[0], o, id)
  {
    var rest := observations[1..];
    if k, l :| 0 <= k < l < |rest| && Twins(rest[k], rest[l], id) {
      assert Twins(observations[k + 1], observations[l + 1], id);
    }
    if o :| o in rest && Twins(observations[0], o, id) {
      var k :| 0 <= k < |rest| && rest[k] == o;
      assert Twins(observations[0], observations[k + 1], id);
    }
    if k, l :| 0 <= k < l < |observations| && Twins(observations[k], observations[l], id) {
      assert observations[l] == rest[l - 1] && rest[l - 1] in rest;
      assert k > 0 ==> Twins(rest[k - 1], rest[l - 1], id);
    }
  }

  lemma {:induction false} ObservationsOfFacts(observations: seq<Observation>, id: nat)
    ensures forall o :: o in ObservationsOf(observations, id) <==> o in observations && o.message == id
  {
    if observations != [] {
      ObservationsOfFacts(observations[1..], id);
      var head, rest := observations[0], ObservationsOf(observations[1..], id);
      assert forall o :: o in observations <==> o == head || o in observations[1..];
      assert forall o :: o in [head] + rest <==> o == head || o in rest;
    }
  }

  lemma {:induction false} IdsFailIff(b: Binding, t: Tables, ids: seq<nat>)
    requires Changes(b) && Wf(t) && Routed(b, t) && AreOld(b, t, ids) && Ascending(ids)
    ensures RebindIds(b, t, ids).None? <==> exists id | id in ids :: Fails(b, t, id)
    decreases |ids|
  {
    if ids != [] {
      var i := OldRowAt(b, t, ids);
      HeadFailsIff(b, t, ids[0], i);
      assert ids[0] in ids;
      if RebindOne(b, t, ids[0]).Some? {
        var t1 := RebindOne(b, t, ids[0]).value;
        StepKeeps(b, t, ids[0], i);
        RemainingAreOld(b, t, t1, ids);
        IdsFailIff(b, t1, ids[1..]);
        forall id | id in ids[1..] ensures Fails(b, t1, id) <==> Fails(b, t, id) {
          FailureIsKept(b, t, t1, ids, i, id);
        }
        SomeInTail(ids, (id: nat) => Fails(b, t, id), (id: nat) => Fails(b, t1, id));
      }
    }
  }

  lemma SomeInTail(ids: seq<nat>, f: nat -> bool, g: nat -> bool)
    requires ids != [] && !f(ids[0]) && forall id | id in ids[1..] :: f(id) == g(id)
    ensures (exists id | id in ids :: f(id)) <==> exists id | id in ids[1..] :: g(id)
  {
    assert forall id :: id in ids <==> id == ids[0] || id in ids[1..];
  }

  lemma HeadFailsIff(b: Binding, t: Tables, id: nat, i: nat)
    requires IsStep(b, t, id, i)
    ensures Fails(b, t, id) <==> RebindOne(b, t, id).None?
  {
    var head := t.rows[i];
    StepFailsIff(b, t, id, i);
    assert head in t.rows;
    forall r | r in t.rows && r.id == id ensures r == head {
      SameIdSameRow(t, r, head);
    }
  }

  lemma FailureIsKept(b: Binding, t: Tables, t1: Tables, ids: seq<nat>, i: nat, id: nat)
    requires ids != [] && Ascending(ids) && id in ids[1..] && IsStep(b, t, ids[0], i) && RebindOne(b, t, ids[0]) == Some(t1)
    ensures Fails(b, t1, id) <==> Fails(b, t, id)
  {
    var k :| 0 <= k < |ids[1..]| && ids[1..][k] == id;
    assert ids[k + 1] == id && id != ids[0];
    StepKeepsWf(b, t, ids[0]);
    forall r | r in t.rows && r.id == id && IsOld(b, r.m)
      ensures HasDuplicate(b, t1, r) == HasDuplicate(b, t, r) && HasTwins(t1.observations, id) == HasTwins(t.observations, id)
    {
      StepKeepsFailure(b, t, ids[0], i, r);
    }
  }

  /**
   The rebind fails, and is rolled back, exactly when some provisional message is not stored under the
   real key yet and was observed twice with nothing but the channel index to tell the observations apart.
   */
  lemma RebindFailsIff(b: Binding, t: Tables)
    requires Changes(b) && Wf(t) && Routed(b, t)
    ensures TryRebind(b, t).None? <==>
              exists r | r in t.rows :: IsOld(b, r.m) && !HasDuplicate(b, t, r) && HasTwins(t.observations, r.id)
  {
    OldIdsAreIds(b, t.rows);
    OldIdsAscend(b, t.rows, t.nextId);
    IdsFailIff(b, t, OldIds(b, t.rows));
    if r :| r in t.rows && IsOld(b, r.m) && !HasDuplicate(b, t, r) && HasTwins(t.observations, r.id) {
      assert Fails(b, t, r.id);
    }
  }

  /** The number the index on observations gives to a channel that could not be read. */
  const UNREADABLE_CHANNEL := -1

  /**
   One direct message received twice under the provisional key of channel 0, first with a channel that
   could not be read and then on channel 0, stops the rebind.
   */
  lemma TwinsStopRebind(b: Binding, m: Message) returns (t: Tables)
    requires Changes(b) && IsOld(b, m) && m.kind.Dm? && m.packet.Some? && m.channel == 0
    requires m.route == RouteFor(m.kind, b.local, m.peer, b.provisional)
    ensures t == Insert(Insert(Tables([], [], 1), m.(channel := UNREADABLE_CHANNEL)).0, m).0
    ensures Wf(t) && Routed(b, t) && TryRebind(b, t).None?
  {
    var first := m.(channel := UNREADABLE_CHANNEL);
    assert Resolve(first) == first && Resolve(m) == m;
    var t1 := StoredOnce(first);
    InsertKeepsWf(t1, m);
    StoredTwice(t1, m, first);
    t := Insert(t1, m).0;
    TwinsFail(b, t, first);
  }

  lemma TwinsFail(b: Binding, t: Tables, first: Message)
    requires Changes(b) && Wf(t) && IsOld(b, first) && first.route == RouteFor(first.kind, b.local, first.peer, b.provisional)
    requires t.rows == [Row(1, first)] && |t.observations| == 2 && Twins(t.observations[0], t.observations[1], 1)
    ensures Routed(b, t) && TryRebind(b, t).None?
  {
    assert t.rows[0] in t.rows;
    RebindFailsIff(b, t);
  }

  lemma StoredOnce(m: Message) returns (t: Tables)
    requires m.local != "" && Resolve(m) == m
    ensures t == Insert(Tables([], [], 1), m).0 && Wf(t) && t.rows == [Row(1, m)] && t.observations == [ObservationOf(m, 1)]
  {
    InsertKeepsWf(Tables([], [], 1), m);
    t := Insert(Tables([], [], 1), m).0;
  }

  lemma StoredTwice(t: Tables, m: Message, first: Message)
    requires t.rows == [Row(1, first)] && t.observations == [ObservationOf(first, 1)] && first == m.(channel := first.channel)
    requires m.packet.Some? && m.local != "" && Resolve(m) == m && first.channel != m.channel
    ensures Insert(t, m).0 == t.(observations := [ObservationOf(first, 1), ObservationOf(m, 1)])
  {
  }

  lemma {:induction false} SettledIsPlain(b: Binding, t: Tables, rows: seq<Row>)
    requires NothingOld(b, t) && forall r | r in rows :: r in t.rows
    ensures SettledUnnumbered(b, rows) == Unnumbered(rows)
    ensures SettledIdentities(b, t) == Identities(t) && SettledSightings(b, t) == Sightings(t)
    decreases |rows|
  {
    forall p | p in Sightings(t) ensures p in SettledSightings(b, t) {
      var r, o :| r in t.rows && o in t.observations && o.message == r.id && p == (IdentityOf(r.m), SightingOf(o));
      assert p == (Settled(b, r.m), SightingOf(o));
    }
    forall p | p in SettledSightings(b, t) ensures p in Sightings(t) {
      var r, o :| r in t.rows && o in t.observations && o.message == r.id && p == (Settled(b, r.m), SightingOf(o));
      assert p == (IdentityOf(r.m), SightingOf(o));
    }
    forall v | v in Identities(t) ensures v in SettledIdentities(b, t) {
      var r :| r in t.rows && r.m.packet.Some? && v == IdentityOf(r.m);
      assert v == Settled(b, r.m);
    }
    forall v | v in SettledIdentities(b, t) ensures v in Identities(t) {
      var r :| r in t.rows && r.m.packet.Some? && v == Settled(b, r.m);
      assert v == IdentityOf(r.m);
    }
    if rows != [] {
      assert rows[0] in rows;
      SettledIsPlain(b, t, rows[1..]);
    }
  }

  /** Both indexes hold after any rebind, failed or not; rows it does not move keep their place, and no ID is new. */
  lemma {:induction false} IdsKeepWf(b: Binding, t: Tables, ids: seq<nat>)
    requires Wf(t) && RebindIds(b, t, ids).Some?
    ensures var t' := RebindIds(b, t, ids).value;
            && Wf(t') && t'.nextId == t.nextId && (forall r: Row | r.id !in ids :: r in t'.rows <==> r in t.rows)
            && forall r | r in t'.rows :: exists before | before in t.rows :: before.id == r.id
    decreases |ids|
  {
    if ids != [] {
      var t1 := RebindOne(b, t, ids[0]).value;
      StepKeepsWf(b, t, ids[0]);
      IdsKeepWf(b, t1, ids[1..]);
      assert ids == [ids[0]] + ids[1..];
    }
  }

  lemma RebindKeepsWf(b: Binding, t: Tables)
    requires Wf(t)
    ensures var t' := Rebind(b, t);
            && Wf(t') && t'.nextId == t.nextId && (forall r | r in t.rows && !IsOld(b, r.m) :: r in t'.rows)
            && forall r | r in t'.rows :: exists before | before in t.rows :: before.id == r.id
  {
    if TryRebind(b, t).Some? && b.provisional != b.final {
      var ids := OldIds(b, t.rows);
      OldIdsAreIds(b, t.rows);
      IdsKeepWf(b, t, ids);
      forall r | r in t.rows && !IsOld(b, r.m) ensures r.id !in ids {
        forall x | x in t.rows && x.id == r.id ensures x == r {
          SameIdSameRow(t, x, r);
        }
      }
    }
  }

  /**
   Rebinding keeps both unique indexes, and a second rebind changes nothing. When it succeeds nothing
   provisional is left and the messages are the same; when the provisional rows were observed on
   their one channel it does succeed, and the observations are the same too.
   */
  lemma RebindKeepsIndexes(b: Binding, t: Tables)
    requires Changes(b) && Wf(t) && Routed(b, t)
    ensures Wf(Rebind(b, t)) && SameMessages(b, t, Rebind(b, t)) && Rebind(b, Rebind(b, t)) == Rebind(b, t)
    ensures TryRebind(b, t).Some? ==> NothingOld(b, Rebind(b, t))
    ensures Channelled(b, t) ==> TryRebind(b, t).Some? && SameSettled(b, t, Rebind(b, t))
  {
    OldIdsAreIds(b, t.rows);
    OldIdsAscend(b, t.rows, t.nextId);
    RebindIdsKeeps(b, t, OldIds(b, t.rows));
    if TryRebind(b, t).Some? {
      NothingOldNoIds(b, Rebind(b, t).rows);
    }
  }

  // What becomes of each row.

  /** The message under the real key: its channel index, key and route are the only things that change. */
  ghost predicate MovedTo(b: Binding, m: Message, m': Message) {
    m' == m.(channel := b.channel, key := b.final,
             route := if m.kind.Public? then PublicRoute(b.local, b.final) else DmRoute(b.local, m.peer, b.final))
  }

  /** A later row is an earlier one, or the moved form of a provisional one. */
  ghost predicate ComesFrom(b: Binding, t: Tables, r: Row) {
    r in t.rows || exists x | x in t.rows :: x.id == r.id && IsOld(b, x.m) && MovedTo(b, x.m, r.m)
  }

  /** A provisional row stays, is moved, or goes because its message is stored under the real key already. */
  ghost predicate GoesTo(b: Binding, t': Tables, x: Row) {
    || x in t'.rows
    || (exists r | r in t'.rows :: r.id == x.id && MovedTo(b, x.m, r.m))
    || (x.m.packet.Some? && exists r | r in t'.rows :: !IsOld(b, r.m) && IdentityOf(r.m) == IdentityOf(Rebound(b, x.m)))
  }

  ghost predicate RowsMove(b: Binding, t: Tables, t': Tables) {
    && (forall r | r in t'.rows :: ComesFrom(b, t, r))
    && (forall x | x in t.rows && !IsOld(b, x.m) :: x in t'.rows)
    && (forall x | x in t.rows && IsOld(b, x.m) :: GoesTo(b, t', x))
  }

  lemma StepMoves(b: Binding, t: Tables, id: nat, i: nat)
    requires Changes(b) && Wf(t) && Routed(b, t) && i < |t.rows| && t.rows[i].id == id && IsOld(b, t.rows[i].m)
    requires RebindOne(b, t, id).Some?
    ensures RowsMove(b, t, RebindOne(b, t, id).value)
  {
    var t', m := RebindOne(b, t, id).value, Rebound(b, t.rows[i].m);
    IndexIsUnique(t, id, i);
    var found := IndexOfIdentity(t.rows, IdentityOf(m), Some(id));
    if found.Some? {
      assert t.rows[found.value] in t.rows && RouteMatchesKey(b, t.rows[found.value].m);
      MergedMoves(b, t, t', i, t.rows[found.value]);
    } else {
      ReboundMoves(b, t, t', i);
    }
  }

  lemma MergedMoves(b: Binding, t: Tables, t': Tables, i: nat, target: Row)
    requires i < |t.rows| && IsOld(b, t.rows[i].m) && t'.rows == Without(t.rows, i) && t.rows[i].m.packet.Some?
    requires target in t.rows && target != t.rows[i] && !IsOld(b, target.m)
    requires IdentityOf(target.m) == IdentityOf(Rebound(b, t.rows[i].m))
    ensures RowsMove(b, t, t')
  {
    forall k | 0 <= k < |t.rows| && k != i ensures t.rows[k] in t'.rows {
      assert t'.rows[if k < i then k else k - 1] == t.rows[k];
    }
    forall r | r in t'.rows ensures r in t.rows {
      var k :| 0 <= k < |t'.rows| && t'.rows[k] == r;
      assert r == t.rows[if k < i then k else k + 1];
    }
  }

  lemma ReboundMoves(b: Binding, t: Tables, t': Tables, i: nat)
    requires i < |t.rows| && IsOld(b, t.rows[i].m) && t'.rows == t.rows[i := Row(t.rows[i].id, Rebound(b, t.rows[i].m))]
    ensures RowsMove(b, t, t')
  {
    assert t'.rows[i] in t'.rows && t.rows[i] in t.rows;
    forall k | 0 <= k < |t.rows| && k != i ensures t.rows[k] in t'.rows {
      assert t'.rows[k] == t.rows[k];
    }
  }

  lemma IndexIsUnique(t: Tables, id: nat, i: nat)
    requires IdsAscend(t.rows, t.nextId) && i < |t.rows| && t.rows[i].id == id
    ensures IndexOfId(t.rows, id) == Some(i)
  {
    assert t.rows[i] in t.rows;
  }

  lemma MovesCompose(b: Binding, t: Tables, t1: Tables, t2: Tables)
    requires Changes(b) && RowsMove(b, t, t1) && RowsMove(b, t1, t2)
    ensures RowsMove(b, t, t2)
  {
    forall r | r in t2.rows ensures ComesFrom(b, t, r) {
      if r !in t1.rows {
        var x :| x in t1.rows && x.id == r.id && IsOld(b, x.m) && MovedTo(b, x.m, r.m);
        assert ComesFrom(b, t, x);
      }
    }
    forall x | x in t.rows && IsOld(b, x.m) ensures GoesTo(b, t2, x) {
      if x !in t1.rows {
        assert GoesTo(b, t1, x);
        if r :| r in t1.rows && r.id == x.id && MovedTo(b, x.m, r.m) {
          assert !IsOld(b, r.m) && r in t2.rows;
        }
      }
    }
  }

  /** The row with this ID exists and is provisional. */
  ghost predicate HasOld(b: Binding, rows: seq<Row>, id: nat) {
    exists r | r in rows :: r.id == id && IsOld(b, r.m)
  }

  lemma RestToMove(b: Binding, t: Tables, ids: seq<nat>, i: nat)
    requires Wf(t) && ids != [] && ToMove(b, t, ids) && i < |t.rows| && t.rows[i].id == ids[0] && RebindOne(b, t, ids[0]).Some?
    ensures ToMove(b, RebindOne(b, t, ids[0]).value, ids[1..])
  {
    var rest, rows' := ids[1..], RebindOne(b, t, ids[0]).value.rows;
    assert ids == [ids[0]] + rest;
    forall id | id in rest ensures HasOld(b, rows', id) {
      assert id in ids && id != ids[0];
      assert HasOld(b, t.rows, id);
      var x :| x in t.rows && x.id == id && IsOld(b, x.m);
      OtherOldStays(b, t, ids[0], i, x);
    }
  }

  /** The rows to move exist, are provisional and differ. */
  ghost predicate ToMove(b: Binding, t: Tables, ids: seq<nat>) {
    && (forall id | id in ids :: HasOld(b, t.rows, id))
    && forall k, l | 0 <= k < l < |ids| :: ids[k] != ids[l]
  }

  lemma FirstMoves(b: Binding, t: Tables, ids: seq<nat>) returns (t1: Tables)
    requires Changes(b) && Wf(t) && Routed(b, t) && ids != [] && ToMove(b, t, ids) && RebindOne(b, t, ids[0]).Some?
    ensures t1 == RebindOne(b, t, ids[0]).value && Wf(t1) && Routed(b, t1) && RowsMove(b, t, t1) && ToMove(b, t1, ids[1..])
  {
    t1 := RebindOne(b, t, ids[0]).value;
    var i := FirstKeeps(b, t, ids[0]);
    RestToMove(b, t, ids, i);
  }

  lemma FirstKeeps(b: Binding, t: Tables, id: nat) returns (i: nat)
    requires Changes(b) && Wf(t) && Routed(b, t) && RebindOne(b, t, id).Some?
    requires HasOld(b, t.rows, id)
    ensures var t1 := RebindOne(b, t, id).value; Wf(t1) && Routed(b, t1) && RowsMove(b, t, t1)
    ensures i < |t.rows| && t.rows[i].id == id
  {
    var r :| r in t.rows && r.id == id && IsOld(b, r.m);
    i :| 0 <= i < |t.rows| && t.rows[i] == r;
    StepMoves(b, t, id, i);
    StepKeeps(b, t, id, i);
  }

  lemma IdsUnfold(b: Binding, t: Tables, ids: seq<nat>)
    requires ids != [] && RebindIds(b, t, ids).Some?
    ensures RebindOne(b, t, ids[0]).Some? && RebindIds(b, t, ids) == RebindIds(b, RebindOne(b, t, ids[0]).value, ids[1..])
  {
  }

  lemma {:induction false} IdsMove(b: Binding, t: Tables, ids: seq<nat>)
    requires Changes(b) && Wf(t) && Routed(b, t) && RebindIds(b, t, ids).Some? && ToMove(b, t, ids)
    ensures RowsMove(b, t, RebindIds(b, t, ids).value)
    decreases |ids|
  {
    if ids != [] {
      IdsUnfold(b, t, ids);
      var t1 := FirstMoves(b, t, ids);
      IdsMove(b, t1, ids[1..]);
      MovesCompose(b, t, t1, RebindIds(b, t1, ids[1..]).value);
    } else {
      NothingMoves(b, t);
    }
  }

  lemma NothingMoves(b: Binding, t: Tables)
    ensures RowsMove(b, t, t)
  {
  }

  lemma OtherOldStays(b: Binding, t: Tables, id: nat, i: nat, x: Row)
    requires Wf(t) && i < |t.rows| && t.rows[i].id == id && RebindOne(b, t, id).Some? && x in t.rows && x.id != id
    ensures x in RebindOne(b, t, id).value.rows
  {
    IndexIsUnique(t, id, i);
    var k :| 0 <= k < |t.rows| && t.rows[k] == x;
    var rows' := RebindOne(b, t, id).value.rows;
    assert rows'[if |rows'| < |t.rows| && k > i then k - 1 else k] == x;
  }

  /**
   A rebind that succeeds moves every provisional row to the real key, or drops it because the same message is
   stored there already; every other row is untouched, and no row is new.
   */
  lemma RebindMovesRows(b: Binding, t: Tables)
    requires Changes(b) && Wf(t) && Routed(b, t) && TryRebind(b, t).Some?
    ensures var t' := TryRebind(b, t).value;
            && RowsMove(b, t, t') && forall r | r in t'.rows :: !IsOld(b, r.m)
  {
    OldIdsAreIds(b, t.rows);
    OldIdsAscend(b, t.rows, t.nextId);
    RebindKeepsIndexes(b, t);
    var ids := OldIds(b, t.rows);
    assert forall id | id in ids :: HasOld(b, t.rows, id);
    if b.provisional != b.final {
      IdsMove(b, t, ids);
    }
  }

  /** An observation carries the channel and the key of the rebinding. */
  ghost predicate Labelled(b: Binding, o: Observation) {
    o.channel == b.channel && o.key == b.final
  }

  lemma {:induction false} CopiesAreLabelled(
    b: Binding, observations: seq<Observation>, source: seq<Observation>, id: nat, target: nat)
    ensures forall o | o in CopyObservations(b, observations, source, id, target) :: o in observations || Labelled(b, o)
    decreases |source|
  {
    if source != [] {
      var next := if source[0].message == id then AddObservation(observations, CopyOf(b, source[0], target)) else observations;
      CopiesAreLabelled(b, next, source[1..], id, target);
    }
  }

  lemma {:induction false} DroppedAreGone(observations: seq<Observation>, id: nat)
    ensures forall o :: o in DropObservations(observations, id) <==> o in observations && o.message != id
  {
    if observations != [] {
      DroppedAreGone(observations[1..], id);
      assert observations == [observations[0]] + observations[1..];
    }
  }

  lemma StepLabels(b: Binding, t: Tables, id: nat)
    requires RebindOne(b, t, id).Some?
    ensures forall o | o in RebindOne(b, t, id).value.observations ::
              Labelled(b, o) || (o in t.observations && (o.message == id ==> IndexOfId(t.rows, id).None?))
  {
    var index := IndexOfId(t.rows, id);
    if index.Some? {
      var duplicate := IndexOfIdentity(t.rows, IdentityOf(Rebound(b, t.rows[index.value].m)), Some(id));
      if duplicate.Some? {
        var target := t.rows[duplicate.value].id;
        CopiesAreLabelled(b, t.observations, t.observations, id, target);
        DroppedAreGone(CopyObservations(b, t.observations, t.observations, id, target), id);
      }
    }
  }

  lemma {:induction false} IdsLabel(b: Binding, t: Tables, ids: seq<nat>)
    requires Changes(b) && Wf(t) && Routed(b, t) && ToMove(b, t, ids) && RebindIds(b, t, ids).Some?
    ensures LabelledOrOther(b, t.observations, ids, RebindIds(b, t, ids).value.observations)
    decreases |ids|
  {
    if ids != [] {
      var t1 := FirstLabels(b, t, ids);
      IdsLabel(b, t1, ids[1..]);
      LabelsCompose(b, t.observations, ids, t1.observations, RebindIds(b, t1, ids[1..]).value.observations);
    }
  }

  /** Every observation is labelled, or was there before and belongs to no message of `ids`. */
  ghost predicate LabelledOrOther(b: Binding, before: seq<Observation>, ids: seq<nat>, after: seq<Observation>) {
    forall o | o in after :: Labelled(b, o) || (o in before && o.message !in ids)
  }

  lemma LabelsCompose(b: Binding, before: seq<Observation>, ids: seq<nat>, between: seq<Observation>, after: seq<Observation>)
    requires ids != [] && LabelledOrOther(b, before, [ids[0]], between) && LabelledOrOther(b, between, ids[1..], after)
    ensures LabelledOrOther(b, before, ids, after)
  {
    assert ids == [ids[0]] + ids[1..];
  }

  lemma FirstLabels(b: Binding, t: Tables, ids: seq<nat>) returns (t1: Tables)
    requires Changes(b) && Wf(t) && Routed(b, t) && ids != [] && ToMove(b, t, ids) && RebindOne(b, t, ids[0]).Some?
    ensures Some(t1) == RebindOne(b, t, ids[0]) && Wf(t1) && Routed(b, t1) && ToMove(b, t1, ids[1..])
    ensures LabelledOrOther(b, t.observations, [ids[0]], t1.observations)
  {
    t1 := FirstMoves(b, t, ids);
    StepLabels(b, t, ids[0]);
  }

  /**
   After a rebind that succeeds every observation of a message that was provisional carries the real channel and key,
   also those that moved to the message it was merged with; the other observations are the ones there were.
   */
  lemma RebindLabelsObservations(b: Binding, t: Tables)
    requires Changes(b) && Wf(t) && Routed(b, t) && TryRebind(b, t).Some?
    ensures forall o | o in TryRebind(b, t).value.observations ::
              || (o.channel == b.channel && o.key == b.final)
              || (o in t.observations && forall r | r in t.rows && r.id == o.message :: !(r.m.local == b.local && r.m.key == b.provisional))
  {
    OldIdsAreIds(b, t.rows);
    OldIdsAscend(b, t.rows, t.nextId);
    var ids := OldIds(b, t.rows);
    assert forall id | id in ids :: HasOld(b, t.rows, id);
    IdsLabel(b, t, ids);
  }

  /** Rebinding to the same key does nothing. */
  lemma SameKeyIsLeft(b: Binding, t: Tables)
    requires b.provisional == b.final
    ensures Rebind(b, t) == t && TryRebind(b, t).Some?
  {
  }

  lemma {:induction false} NothingOldNoIds(b: Binding, rows: seq<Row>)
    requires forall r | r in rows :: !IsOld(b, r.m)
    ensures OldIds(b, rows) == []
  {
    if rows != [] {
      NothingOldNoIds(b, rows[1..]);
    }
  }

  /**
   Provisional storage followed by a rebind equals storage under the real key, also when messages of
   other channels and nodes come in between: the same identities, the same number of messages
   without a packet ID, and the same observations.
   */
  lemma RebindEqualsDirectStorage(b: Binding, t: Tables, messages: seq<Message>)
    requires Changes(b) && Wf(t) && NothingOld(b, t)
    requires forall m | m in messages :: OfChannel(b, m) || Elsewhere(b, m)
    ensures var stored := InsertAll(b, t, messages, b.provisional);
            var direct := InsertAll(b, t, messages, b.final);
            && TryRebind(b, stored).Some?
            && var later := TryRebind(b, stored).value;
               && Wf(later) && Wf(direct)
               && Identities(later) == Identities(direct)
               && Unnumbered(later.rows) == Unnumbered(direct.rows)
               && Sightings(later) == Sightings(direct)
  {
    InsertAllSettled(b, t, t, messages);
    var stored := InsertAll(b, t, messages, b.provisional);
    var direct := InsertAll(b, t, messages, b.final);
    RebindKeepsIndexes(b, stored);
    var later := Rebind(b, stored);
    SettledIsPlain(b, later, later.rows);
    SettledIsPlain(b, direct, direct.rows);
  }
}
