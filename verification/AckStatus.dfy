/**
 Acknowledgement handling: which status a routing packet means, and why applying such statuses
 to the stored message is a join, so that order and repetition do not matter.
 */
module AckStatus {
  import opened Options
  import opened MessageStore

  /** A routing packet: its error reason, if it reports one, and its sender. */
  datatype RoutingPacket = RoutingPacket(error: Option<string>, sender: string)

  datatype Ack = Ack(status: Status, reason: Option<string>)

  /** `destination` is a lower-case node ID. A failing packet carries its reason, others carry none. */
  function AckOf(packet: RoutingPacket, destination: string): Ack {
    if packet.error.Some? then Ack(Failed, packet.error)
    else if packet.sender != "" && destination != "" && packet.sender == destination then Ack(Delivered, None)
    else Ack(Acknowledged, None)
  }

  function Rank(status: Status): int {
    match status
    case Queued => 0
    case Confirmed => 0
    case Acknowledged => 1
    case Failed => 2
    case Delivered => 3
    case Received => -1
    case Uncertain => -1
  }

  predicate IsAckStatus(status: Status) {
    status.Acknowledged? || status.Failed? || status.Delivered?
  }

  function Join(current: Status, status: Status): Status {
    if 0 <= Rank(current) < Rank(status) then status else current
  }

  function ApplyAck(rows: seq<Row>, packet: int, local: string, ack: Ack): seq<Row> {
    UpdateStatus(rows, packet, ack.status, Some(local), ack.reason).0
  }

  function ApplyAll(rows: seq<Row>, packet: int, local: string, acks: seq<Ack>): seq<Row>
    decreases |acks|
  {
    if acks == [] then rows else ApplyAll(ApplyAck(rows, packet, local, acks[0]), packet, local, acks[1..])
  }

  predicate Addressed(r: Row, packet: int, local: string) {
    r.m.packet == Some(packet) && r.m.outgoing && r.m.local == local
  }

  /** Row `i` is the only outgoing row of this packet and local node. */
  ghost predicate OnlyRow(rows: seq<Row>, packet: int, local: string, i: nat) {
    i < |rows| && forall j | 0 <= j < |rows| :: Addressed(rows[j], packet, local) <==> j == i
  }

  ghost predicate ReasonsOnlyOnFailures(rows: seq<Row>) {
    forall r | r in rows :: r.m.reason.Some? ==> r.m.status.Failed?
  }

  predicate FromPacket(ack: Ack) {
    IsAckStatus(ack.status) && (ack.reason.Some? ==> ack.status.Failed?)
  }

  lemma AckOfIsFromPacket(packet: RoutingPacket, destination: string)
    ensures FromPacket(AckOf(packet, destination))
    ensures AckOf(packet, destination).status.Failed? <==> packet.error.Some?
  {
  }

  /** One update of the single matching row is a join in the order queued < ACK < failed < delivered. */
  lemma UpdateIsJoin(rows: seq<Row>, packet: int, local: string, ack: Ack, i: nat)
    requires OnlyRow(rows, packet, local, i) && IsAckStatus(ack.status)
    ensures var rows' := ApplyAck(rows, packet, local, ack);
            && OnlyRow(rows', packet, local, i) && |rows'| == |rows|
            && rows'[i].m.status == Join(rows[i].m.status, ack.status)
            && forall j | 0 <= j < |rows| && j != i :: rows'[j] == rows[j]
  {
    var found := NewestEligible(rows, packet, ack.status, Some(local));
    if found.None? {
      assert rows[i] in rows;
    } else {
      assert Addressed(rows[found.value], packet, local);
    }
  }

  function JoinAll(current: Status, acks: seq<Ack>): Status
    decreases |acks|
  {
    if acks == [] then current else JoinAll(Join(current, acks[0].status), acks[1..])
  }

  lemma {:induction false} ApplyAllIsJoin(rows: seq<Row>, packet: int, local: string, acks: seq<Ack>, i: nat)
    requires OnlyRow(rows, packet, local, i) && forall a | a in acks :: IsAckStatus(a.status)
    ensures var rows' := ApplyAll(rows, packet, local, acks);
            OnlyRow(rows', packet, local, i) && rows'[i].m.status == JoinAll(rows[i].m.status, acks)
    decreases |acks|
  {
    if acks != [] {
      UpdateIsJoin(rows, packet, local, acks[0], i);
      ApplyAllIsJoin(ApplyAck(rows, packet, local, acks[0]), packet, local, acks[1..], i);
    }
  }

  function Statuses(acks: seq<Ack>): set<Status> {
    set a | a in acks :: a.status
  }

  /** `JoinAll` is the least upper bound: at least every argument, and one of them. */
  lemma {:induction false} JoinAllIsMaximum(current: Status, acks: seq<Ack>)
    requires Rank(current) >= 0 && forall a | a in acks :: IsAckStatus(a.status)
    ensures Rank(JoinAll(current, acks)) >= Rank(current)
    ensures forall a | a in acks :: Rank(JoinAll(current, acks)) >= Rank(a.status)
    ensures JoinAll(current, acks) == current || exists a | a in acks :: a.status == JoinAll(current, acks)
    decreases |acks|
  {
    if acks != [] {
      JoinAllIsMaximum(Join(current, acks[0].status), acks[1..]);
      assert acks[0] in acks;
      forall a | a in acks ensures Rank(JoinAll(current, acks)) >= Rank(a.status) {
        assert a == acks[0] || a in acks[1..];
      }
    }
  }

  /** A row that is uncertain (or was received) never moves, whatever acknowledgements arrive. */
  lemma {:induction false} UncertainNeverMoves(
    rows: seq<Row>, packet: int, local: string, acks: seq<Ack>, j: nat)
    requires j < |rows| && Rank(rows[j].m.status) < 0
    ensures var rows' := ApplyAll(rows, packet, local, acks); |rows'| == |rows| && rows'[j] == rows[j]
    decreases |acks|
  {
    if acks != [] {
      UncertainNeverMoves(ApplyAck(rows, packet, local, acks[0]), packet, local, acks[1..], j);
    }
  }

  /**
   Any order and any repetition of the same acknowledgements ends in the same stored status,
   from every status a stored row can have.
   */
  lemma OrderAndRepetitionDoNotMatter(
    rows: seq<Row>, packet: int, local: string, acks: seq<Ack>, others: seq<Ack>, i: nat)
    requires OnlyRow(rows, packet, local, i)
    requires forall a | a in acks :: IsAckStatus(a.status)
    requires forall a | a in others :: IsAckStatus(a.status)
    requires Statuses(acks) == Statuses(others)
    ensures i < |ApplyAll(rows, packet, local, acks)| && i < |ApplyAll(rows, packet, local, others)|
    ensures ApplyAll(rows, packet, local, acks)[i].m.status == ApplyAll(rows, packet, local, others)[i].m.status
  {
    ApplyAllIsJoin(rows, packet, local, acks, i);
    ApplyAllIsJoin(rows, packet, local, others, i);
    var current := rows[i].m.status;
    if Rank(current) < 0 {
      UncertainNeverMoves(rows, packet, local, acks, i);
      UncertainNeverMoves(rows, packet, local, others, i);
    } else {
      JoinBelow(current, acks, others);
      JoinBelow(current, others, acks);
      JoinAllIsMaximum(current, acks);
      JoinAllIsMaximum(current, others);
    }
  }

  lemma JoinBelow(current: Status, acks: seq<Ack>, others: seq<Ack>)
    requires Rank(current) >= 0
    requires forall a | a in acks :: IsAckStatus(a.status)
    requires forall a | a in others :: IsAckStatus(a.status)
    requires Statuses(acks) == Statuses(others)
    ensures Rank(JoinAll(current, acks)) <= Rank(JoinAll(current, others))
  {
    JoinAllIsMaximum(current, acks);
    JoinAllIsMaximum(current, others);
    var joined := JoinAll(current, acks);
    if joined != current {
      assert joined in Statuses(acks);
      assert joined in Statuses(others);
      var b :| b in others && b.status == joined;
    }
  }

  /**
   The status a message ends with, whatever the order: delivered once any packet said so, else failed, else
   acknowledged; a message that is uncertain, or was received, keeps its status.
   */
  lemma FinalStatus(rows: seq<Row>, packet: int, local: string, acks: seq<Ack>, i: nat)
    requires OnlyRow(rows, packet, local, i) && forall a | a in acks :: IsAckStatus(a.status)
    ensures i < |ApplyAll(rows, packet, local, acks)|
    ensures var before, after := rows[i].m.status, ApplyAll(rows, packet, local, acks)[i].m.status;
            var seen := Statuses(acks) + {before};
            after == if before.Uncertain? || before.Received? then before
                     else if Delivered in seen then Delivered
                     else if Failed in seen then Failed
                     else if Acknowledged in seen then Acknowledged
                     else before
  {
    ApplyAllIsJoin(rows, packet, local, acks, i);
    var before := rows[i].m.status;
    if Rank(before) < 0 {
      UncertainNeverMoves(rows, packet, local, acks, i);
    } else {
      JoinAllIsMaximum(before, acks);
      forall s | s in Statuses(acks) ensures Rank(JoinAll(before, acks)) >= Rank(s) {
      }
      if JoinAll(before, acks) != before {
        var a :| a in acks && a.status == JoinAll(before, acks);
        assert a.status in Statuses(acks);
      }
    }
  }

  /** A stored failure reason only ever accompanies the failed status. */
  lemma {:induction false} ReasonsStayOnFailures(rows: seq<Row>, packet: int, local: string, acks: seq<Ack>)
    requires ReasonsOnlyOnFailures(rows) && forall a | a in acks :: FromPacket(a)
    ensures ReasonsOnlyOnFailures(ApplyAll(rows, packet, local, acks))
    decreases |acks|
  {
    if acks != [] {
      var ack := acks[0];
      var rows' := ApplyAck(rows, packet, local, ack);
      assert FromPacket(ack);
      forall r | r in rows' ensures r.m.reason.Some? ==> r.m.status.Failed? {
        var j :| 0 <= j < |rows'| && rows'[j] == r;
        assert rows[j] in rows;
      }
      ReasonsStayOnFailures(rows', packet, local, acks[1..]);
    }
  }

  function CountEligible(rows: seq<Row>, packet: int, status: Status, local: Option<string>): nat {
    if rows == [] then 0
    else
      var last := |rows| - 1;
      CountEligible(rows[..last], packet, status, local) + (if Eligible(rows[last], packet, status, local) then 1 else 0)
  }

  lemma {:induction false} NoneEligible(rows: seq<Row>, packet: int, status: Status, local: Option<string>)
    ensures CountEligible(rows, packet, status, local) == 0 <==> NewestEligible(rows, packet, status, local).None?
  {
    if rows != [] {
      NoneEligible(rows[..|rows| - 1], packet, status, local);
    }
  }

  lemma {:induction false} UpdateConsumesOne(
    rows: seq<Row>, packet: int, status: Status, local: Option<string>, reason: Option<string>)
    requires IsAckStatus(status) && CountEligible(rows, packet, status, local) > 0
    ensures CountEligible(UpdateStatus(rows, packet, status, local, reason).0, packet, status, local)
         == CountEligible(rows, packet, status, local) - 1
  {
    var last := |rows| - 1;
    var rows' := UpdateStatus(rows, packet, status, local, reason).0;
    if Eligible(rows[last], packet, status, local) {
      assert rows'[..last] == rows[..last];
    } else {
      UpdateConsumesOne(rows[..last], packet, status, local, reason);
      NoneEligible(rows[..last], packet, status, local);
      assert rows'[..last] == UpdateStatus(rows[..last], packet, status, local, reason).0;
    }
  }

  /**
   In general the update picks the newest row whose status still allows it, so repeating one
   acknowledgement is harmless exactly when at most one outgoing row could take it.
   */
  lemma RepeatIsHarmlessIff(rows: seq<Row>, packet: int, status: Status, local: Option<string>, reason: Option<string>)
    requires IsAckStatus(status)
    ensures var once := UpdateStatus(rows, packet, status, local, reason).0;
            UpdateStatus(once, packet, status, local, reason).0 == once
            <==> CountEligible(rows, packet, status, local) <= 1
  {
    var once := UpdateStatus(rows, packet, status, local, reason).0;
    NoneEligible(rows, packet, status, local);
    NoneEligible(once, packet, status, local);
    if CountEligible(rows, packet, status, local) > 0 {
      UpdateConsumesOne(rows, packet, status, local, reason);
    }
    if CountEligible(once, packet, status, local) > 0 {
      UpdateConsumesOne(once, packet, status, local, reason);
    }
  }

  /** Two messages stored under one packet ID differ in their text only: the repeated acknowledgement moves the older one. */
  lemma TwoRowsTakeOneAck(m: Message, text: string) returns (t: Tables)
    requires m.outgoing && m.packet.Some? && m.status.Queued? && m.local != "" && Resolve(m) == m && text != m.text
    ensures var (m', acked) := (m.(text := text), m.(status := Acknowledged, reason := None));
            var once := UpdateStatus(t.rows, m.packet.value, Acknowledged, Some(m.local), None).0;
            && t == Insert(Insert(Tables([], [], 1), m).0, m').0 && Wf(t) && t.rows == [Row(1, m), Row(2, m')]
            && once == [Row(1, m), Row(2, acked.(text := text))]
            && UpdateStatus(once, m.packet.value, Acknowledged, Some(m.local), None).0 == [Row(1, acked), Row(2, acked.(text := text))]
  {
    t := TwoInserted(m, m.(text := text));
    TwoUpdates([Row(1, m), Row(2, m.(text := text))], m.packet.value, m.local);
  }

  lemma TwoInserted(m: Message, m': Message) returns (t: Tables)
    requires m.packet.Some? && m.local != "" && m'.local != "" && Resolve(m) == m && Resolve(m') == m' && IdentityOf(m) != IdentityOf(m')
    ensures t == Insert(Insert(Tables([], [], 1), m).0, m').0 && Wf(t) && t.rows == [Row(1, m), Row(2, m')]
  {
    var first := NextInserted(Tables([], [], 1), m);
    t := NextInserted(first, m');
  }

  lemma NextInserted(t: Tables, m: Message) returns (t': Tables)
    requires Wf(t) && m.local != "" && Resolve(m) == m && forall k | 0 <= k < |t.rows| :: IdentityOf(t.rows[k].m) != IdentityOf(m)
    ensures t' == Insert(t, m).0 && Wf(t') && t'.rows == t.rows + [Row(t.nextId, m)] && t'.nextId == t.nextId + 1
  {
    InsertKeepsWf(t, m);
    assert IndexOfIdentity(t.rows, IdentityOf(m), None).None?;
    t' := Insert(t, m).0;
  }

  lemma TwoUpdates(rows: seq<Row>, packet: int, local: string)
    requires |rows| == 2 && forall r | r in rows :: Eligible(r, packet, Acknowledged, Some(local)) && r.m.status.Queued?
    ensures var acked := i requires 0 <= i < 2 => rows[i].(m := rows[i].m.(status := Acknowledged, reason := None));
            && UpdateStatus(rows, packet, Acknowledged, Some(local), None).0 == [rows[0], acked(1)]
            && UpdateStatus([rows[0], acked(1)], packet, Acknowledged, Some(local), None).0 == [acked(0), acked(1)]
  {
    assert rows[0] in rows && rows[1] in rows;
  }
}
