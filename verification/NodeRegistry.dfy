/**
 The node registry: reports from several gateways are merged into one row per local node and node,
 and a removed node keeps its row as a tombstone.
 */
module NodeRegistry {
  import opened NodeIds
  import opened Options

  datatype Attribute =
    LongName | ShortName | HwModel | Role | BatteryLevel | Voltage | Snr | Rssi | HopsAway | CanReceiveDm

  datatype Value = Text(text: string) | Number(number: int) | Decimal(decimal: real) | Flag(flag: bool)

  datatype Transport = Rf | Mqtt | Unknown

  /** What a caller reports of a node; an empty `updatedAt` means now. */
  datatype Report = Report(
    num: Option<int>, attributes: map<Attribute, Value>, lastHeard: Option<int>,
    transport: Transport, local: bool, updatedAt: string)

  /** A stored row; the attributes are the ten nullable columns that share one merge rule. */
  datatype NodeRow = NodeRow(
    num: Option<int>, attributes: map<Attribute, Value>, lastHeard: Option<int>,
    transport: Transport, local: bool, updatedAt: string,
    removedAt: Option<int>, seenRf: bool, seenMqtt: bool)

  datatype NodeKey = NodeKey(local: string, node: string)

  type Table = map<NodeKey, NodeRow>

  /** The stored time is absent, or the incoming one is present and not older; NULL compares as false. */
  predicate Fresh(incoming: Option<int>, stored: Option<int>) {
    stored.None? || (incoming.Some? && incoming.value >= stored.value)
  }

  function MergeAttributes(stored: map<Attribute, Value>, incoming: map<Attribute, Value>, newer: bool): map<Attribute, Value> {
    if newer then stored + incoming else incoming + stored
  }

  function NewRow(report: Report, stamp: string): NodeRow {
    NodeRow(report.num, report.attributes, report.lastHeard, report.transport, report.local, stamp, None, false, false)
  }

  /** The conflict clause of the insertion. */
  function Merge(row: NodeRow, report: Report, observed: bool, stamp: string): NodeRow {
    var newer := Fresh(report.lastHeard, row.lastHeard);
    row.(num := if report.num.Some? then report.num else row.num,
         attributes := MergeAttributes(row.attributes, report.attributes, newer),
         lastHeard := if report.lastHeard.Some? && newer then report.lastHeard else row.lastHeard,
         transport := if report.transport == Unknown || !newer then row.transport else report.transport,
         local := report.local,
         removedAt := if observed || Lifts(report, row.removedAt) then None else row.removedAt,
         updatedAt := if newer then stamp else row.updatedAt)
  }

  predicate Lifts(report: Report, removedAt: Option<int>) {
    report.lastHeard.Some? && removedAt.Some? && report.lastHeard.value > removedAt.value
  }

  function MarkSeen(row: NodeRow, transport: Transport): NodeRow {
    row.(seenRf := row.seenRf || transport == Rf, seenMqtt := row.seenMqtt || transport == Mqtt)
  }

  function Upsert(t: Table, key: NodeKey, report: Report, observed: bool, stamp: string): Table {
    var row := if key in t then Merge(t[key], report, observed, stamp) else NewRow(report, stamp);
    t[key := MarkSeen(row, report.transport)]
  }

  function RemovalTime(row: NodeRow, now: int): int {
    var heard := if row.lastHeard.Some? then row.lastHeard.value else 0;
    if now >= heard then now else heard
  }

  function Remove(t: Table, key: NodeKey, now: int): Table {
    if key in t && !t[key].local then t[key := t[key].(removedAt := Some(RemovalTime(t[key], now)))] else t
  }

  predicate Hidden(row: NodeRow) {
    row.removedAt.Some?
  }

  /** A removal is never older than what was heard. */
  ghost predicate RowInv(row: NodeRow) {
    row.removedAt.Some? && row.lastHeard.Some? ==> row.removedAt.value >= row.lastHeard.value
  }

  ghost predicate Inv(t: Table) {
    forall k | k in t :: RowInv(t[k])
  }

  class NodeStore {
    var nodes: Table

    constructor ()
      ensures nodes == map[] && Inv(nodes)
    {
      nodes := map[];
    }

    /** `stamp` is the time left in the caller's report. */
    method UpsertNode(report: Report, localNode: string, node: string, observed: bool, now: string) returns (stamp: string)
      requires Inv(nodes)
      modifies this
      ensures stamp == if report.updatedAt != "" then report.updatedAt else now
      ensures nodes == Upsert(old(nodes), NodeKey(Lower(localNode), node), report, observed, stamp)
      ensures Inv(nodes)
    {
      stamp := if report.updatedAt != "" then report.updatedAt else now;
      var key := NodeKey(Lower(localNode), node);
      if key in nodes {
        nodes := nodes[key := Merge(nodes[key], report, observed, stamp)];
      } else {
        nodes := nodes[key := NewRow(report, stamp)];
      }
      nodes := nodes[key := MarkSeen(nodes[key], report.transport)];
    }

    /** The removal compares the local node as given; only the insertion lowers its case. */
    method RemoveNodeFromList(node: string, localNode: string, now: int)
      requires Inv(nodes)
      modifies this
      ensures nodes == Remove(old(nodes), NodeKey(localNode, node), now)
      ensures Inv(nodes)
    {
      var key := NodeKey(localNode, node);
      if key in nodes && !nodes[key].local {
        var heard := if nodes[key].lastHeard.Some? then nodes[key].lastHeard.value else 0;
        nodes := nodes[key := nodes[key].(removedAt := Some(if now >= heard then now else heard))];
      }
    }
  }

  // ---------- Runs ----------

  datatype Event =
    | Reported(key: NodeKey, report: Report, observed: bool, stamp: string)
    | Removed(key: NodeKey, now: int)

  function Apply(t: Table, e: Event): Table {
    match e
    case Reported(key, report, observed, stamp) => Upsert(t, key, report, observed, stamp)
    case Removed(key, now) => Remove(t, key, now)
  }

  /** The registry after a run that starts empty. */
  function Run(es: seq<Event>): Table {
    if es == [] then map[] else Apply(Run(es[..|es| - 1]), es[|es| - 1])
  }

  ghost predicate HeardAtMost(a: Option<int>, b: Option<int>) {
    a.Some? ==> b.Some? && a.value <= b.value
  }

  /** What no event takes away from a row. */
  ghost predicate Forward(row: NodeRow, later: NodeRow) {
    && HeardAtMost(row.lastHeard, later.lastHeard)
    && row.attributes.Keys <= later.attributes.Keys
    && (row.num.Some? ==> later.num.Some?)
    && (row.transport != Unknown ==> later.transport != Unknown)
    && (row.seenRf ==> later.seenRf) && (row.seenMqtt ==> later.seenMqtt)
  }

  /** An event that makes a hidden node visible: a live observation, or news strictly newer than anything heard before. */
  ghost predicate Revives(e: Event, row: NodeRow) {
    e.Reported? && (e.observed ||
      (e.report.lastHeard.Some? && (row.lastHeard.None? || e.report.lastHeard.value > row.lastHeard.value)))
  }

  lemma StepGoesForward(t: Table, e: Event, k: NodeKey)
    requires Inv(t) && k in t
    ensures k in Apply(t, e) && Forward(t[k], Apply(t, e)[k]) && Inv(Apply(t, e))
    ensures k != e.key ==> Apply(t, e)[k] == t[k]
    ensures Hidden(t[k]) && !Hidden(Apply(t, e)[k]) ==> e.key == k && Revives(e, t[k])
  {
  }

  lemma {:induction false} RunGoesForward(es: seq<Event>, i: nat, k: NodeKey)
    requires i <= |es| && k in Run(es[..i])
    ensures k in Run(es) && Forward(Run(es[..i])[k], Run(es)[k])
  {
    if i < |es| {
      var before := es[..|es| - 1];
      assert before[..i] == es[..i];
      RunGoesForward(before, i, k);
      RunKeepsInv(before);
      StepGoesForward(Run(before), es[|es| - 1], k);
    } else {
      assert es[..i] == es;
    }
  }

  lemma {:induction false} RunKeepsInv(es: seq<Event>)
    ensures Inv(Run(es))
  {
    if es != [] {
      RunKeepsInv(es[..|es| - 1]);
    }
  }

  // The row as a function of the whole run, without the table.

  ghost predicate Reports(es: seq<Event>, i: int, k: NodeKey) {
    0 <= i < |es| && es[i].Reported? && es[i].key == k
  }

  ghost predicate HeardIn(es: seq<Event>, k: NodeKey, time: int) {
    exists i :: Reports(es, i, k) && es[i].report.lastHeard == Some(time)
  }

  ghost predicate SeenIn(es: seq<Event>, k: NodeKey, transport: Transport) {
    exists i :: Reports(es, i, k) && es[i].report.transport == transport
  }

  ghost predicate Supplies(es: seq<Event>, i: int, k: NodeKey, a: Attribute) {
    Reports(es, i, k) && a in es[i].report.attributes
  }

  lemma LastReports(es: seq<Event>, before: seq<Event>, k: NodeKey)
    requires es != [] && before == es[..|es| - 1]
    ensures forall i | i != |es| - 1 :: Reports(es, i, k) == Reports(before, i, k)
    ensures Reports(es, |es| - 1, k) <==> es[|es| - 1].Reported? && es[|es| - 1].key == k
  {
    forall i | i != |es| - 1 ensures Reports(es, i, k) == Reports(before, i, k) {
      if 0 <= i < |before| {
        assert before[i] == es[i];
      }
    }
  }

  /** A row exists exactly when a report of the node came in. */
  lemma {:induction false} RowIffReported(es: seq<Event>, k: NodeKey)
    ensures k in Run(es) <==> exists i :: Reports(es, i, k)
  {
    if es != [] {
      RowIffReported(es[..|es| - 1], k);
      LastReports(es, es[..|es| - 1], k);
    }
  }

  /** Whatever the order of the reports, the stored time is the latest of all that were reported. */
  lemma {:induction false} LastHeardIsMaximum(es: seq<Event>, k: NodeKey)
    requires k in Run(es)
    ensures Run(es)[k].lastHeard.None? ==> forall time :: !HeardIn(es, k, time)
    ensures Run(es)[k].lastHeard.Some? ==>
              HeardIn(es, k, Run(es)[k].lastHeard.value) && forall time | HeardIn(es, k, time) :: time <= Run(es)[k].lastHeard.value
  {
    var before, e := es[..|es| - 1], es[|es| - 1];
    LastReports(es, before, k);
    if k in Run(before) {
      LastHeardIsMaximum(before, k);
    } else {
      RowIffReported(before, k);
    }
    forall time ensures HeardIn(es, k, time) <==> HeardIn(before, k, time) || (e.Reported? && e.key == k && e.report.lastHeard == Some(time)) {
      if e.Reported? && e.key == k && e.report.lastHeard == Some(time) {
        assert Reports(es, |es| - 1, k);
      }
    }
  }

  /** The RF and MQTT flags say exactly whether any report came that way. */
  lemma {:induction false} FlagsAreExact(es: seq<Event>, k: NodeKey)
    requires k in Run(es)
    ensures Run(es)[k].seenRf <==> SeenIn(es, k, Rf)
    ensures Run(es)[k].seenMqtt <==> SeenIn(es, k, Mqtt)
  {
    var before, e := es[..|es| - 1], es[|es| - 1];
    LastReports(es, before, k);
    if k in Run(before) {
      FlagsAreExact(before, k);
    } else {
      RowIffReported(before, k);
    }
    forall transport ensures SeenIn(es, k, transport) <==> SeenIn(before, k, transport) || (e.Reported? && e.key == k && e.report.transport == transport) {
      if e.Reported? && e.key == k && e.report.transport == transport {
        assert Reports(es, |es| - 1, k);
      }
    }
  }

  /** Report i is at least as new as every earlier one of its node, or nothing was heard before. */
  ghost predicate FreshAt(es: seq<Event>, i: nat, k: NodeKey)
    requires i < |es| && es[i].Reported?
  {
    || (forall time :: !HeardIn(es[..i], k, time))
    || (es[i].report.lastHeard.Some? && forall time | HeardIn(es[..i], k, time) :: time <= es[i].report.lastHeard.value)
  }

  /**
   An attribute is known exactly when some report supplied it. Its value is from report j, which was
   either the first to supply it or fresh, and no fresh report after j supplied another.
   */
  ghost predicate ComesFrom(es: seq<Event>, k: NodeKey, a: Attribute, value: Value, j: nat) {
    && Supplies(es, j, k, a) && es[j].report.attributes[a] == value
    && (FreshAt(es, j, k) || forall i | 0 <= i < j :: !Supplies(es, i, k, a))
    && forall i | j < i < |es| && Supplies(es, i, k, a) :: !FreshAt(es, i, k)
  }

  lemma FreshIffMerged(es: seq<Event>, i: nat, k: NodeKey)
    requires i < |es| && es[i].Reported? && k in Run(es[..i])
    ensures FreshAt(es, i, k) <==> Fresh(es[i].report.lastHeard, Run(es[..i])[k].lastHeard)
  {
    LastHeardIsMaximum(es[..i], k);
  }

  lemma FreshAtPrefix(es: seq<Event>, n: nat, i: nat, k: NodeKey)
    requires i < n <= |es| && es[i].Reported?
    ensures FreshAt(es[..n], i, k) <==> FreshAt(es, i, k)
  {
    assert es[..n][..i] == es[..i];
  }

  /** The attributes of a row, none while there is no row. */
  ghost function KnownOf(t: Table, k: NodeKey): map<Attribute, Value> {
    if k in t then t[k].attributes else map[]
  }

  lemma {:induction false} AttributeIsNewestKnown(es: seq<Event>, k: NodeKey, a: Attribute)
    ensures a in KnownOf(Run(es), k) <==> exists i :: Supplies(es, i, k, a)
    ensures a in KnownOf(Run(es), k) ==> exists j: nat :: ComesFrom(es, k, a, KnownOf(Run(es), k)[a], j)
  {
    if es != [] {
      var n := |es| - 1;
      var before := es[..n];
      AttributeIsNewestKnown(before, k, a);
      LastReports(es, before, k);
      forall i ensures Supplies(es, i, k, a) == if i == n then Supplies(es, n, k, a) else Supplies(before, i, k, a) {
      }
      RowIffReported(before, k);
      if Supplies(es, n, k, a) && k in Run(before) {
        FreshIffMerged(es, n, k);
      }
      if Supplies(es, n, k, a) && (a !in KnownOf(Run(before), k) || FreshAt(es, n, k)) {
        assert KnownOf(Run(es), k)[a] == es[n].report.attributes[a];
        assert ComesFrom(es, k, a, es[n].report.attributes[a], n);
      } else if a in KnownOf(Run(before), k) {
        assert a in KnownOf(Run(es), k) && KnownOf(Run(es), k)[a] == KnownOf(Run(before), k)[a];
        var j: nat :| ComesFrom(before, k, a, KnownOf(Run(before), k)[a], j);
        StaysFrom(es, before, k, a, KnownOf(Run(before), k)[a], j);
      }
    }
  }

  lemma StaysFrom(es: seq<Event>, before: seq<Event>, k: NodeKey, a: Attribute, value: Value, j: nat)
    requires es != [] && before == es[..|es| - 1] && ComesFrom(before, k, a, value, j)
    requires !Supplies(es, |es| - 1, k, a) || !FreshAt(es, |es| - 1, k)
    ensures ComesFrom(es, k, a, value, j)
  {
    var n := |es| - 1;
    LastReports(es, before, k);
    FreshAtPrefix(es, n, j, k);
    forall i | j < i < |es| && Supplies(es, i, k, a) ensures !FreshAt(es, i, k) {
      if i < n {
        assert Supplies(before, i, k, a);
        FreshAtPrefix(es, n, i, k);
      }
    }
    forall i | 0 <= i < j ensures Supplies(es, i, k, a) == Supplies(before, i, k, a) {
    }
  }

  /** Report j was fresh, and no later one was. */
  ghost predicate LastFresh(es: seq<Event>, k: NodeKey, j: nat) {
    Reports(es, j, k) && FreshAt(es, j, k) && forall i | j < i < |es| && Reports(es, i, k) :: !FreshAt(es, i, k)
  }

  /** The stored time of change is that of the last fresh report. */
  lemma {:induction false} UpdatedAtIsLastFresh(es: seq<Event>, k: NodeKey)
    requires k in Run(es)
    ensures exists j: nat :: LastFresh(es, k, j) && Run(es)[k].updatedAt == es[j].stamp
  {
    var n := |es| - 1;
    var before := es[..n];
    LastReports(es, before, k);
    RowIffReported(before, k);
    if Reports(es, n, k) && k in Run(before) {
      FreshIffMerged(es, n, k);
    }
    if Reports(es, n, k) && (k !in Run(before) || FreshAt(es, n, k)) {
      assert FreshAt(es, n, k) by {
        assert k !in Run(before) ==> forall time :: !HeardIn(before, k, time);
      }
      assert LastFresh(es, k, n);
    } else {
      UpdatedAtIsLastFresh(before, k);
      var j: nat :| LastFresh(before, k, j) && Run(before)[k].updatedAt == before[j].stamp;
      LastFreshStays(es, before, k, j);
    }
  }

  lemma LastFreshStays(es: seq<Event>, before: seq<Event>, k: NodeKey, j: nat)
    requires es != [] && before == es[..|es| - 1] && LastFresh(before, k, j)
    requires Reports(es, |es| - 1, k) ==> !FreshAt(es, |es| - 1, k)
    ensures LastFresh(es, k, j) && es[j] == before[j]
  {
    var n := |es| - 1;
    LastReports(es, before, k);
    FreshAtPrefix(es, n, j, k);
    forall i | j < i < |es| && Reports(es, i, k) ensures !FreshAt(es, i, k) {
      if i < n {
        assert Reports(before, i, k);
        FreshAtPrefix(es, n, i, k);
      }
    }
  }

  // The fields that have one source: number, transport, and whether the node is the local one.

  ghost predicate Numbers(es: seq<Event>, i: int, k: NodeKey) {
    Reports(es, i, k) && es[i].report.num.Some?
  }

  /** Report i knows the way it came and is fresh. */
  ghost predicate Carries(es: seq<Event>, i: int, k: NodeKey) {
    Reports(es, i, k) && es[i].report.transport != Unknown && FreshAt(es, i, k)
  }

  ghost predicate LastNumber(es: seq<Event>, j: nat, k: NodeKey) {
    Numbers(es, j, k) && forall i | j < i < |es| :: !Numbers(es, i, k)
  }

  ghost predicate LastCarrier(es: seq<Event>, j: nat, k: NodeKey) {
    Carries(es, j, k) && forall i | j < i < |es| :: !Carries(es, i, k)
  }

  ghost predicate LastReport(es: seq<Event>, j: nat, k: NodeKey) {
    Reports(es, j, k) && forall i | j < i < |es| :: !Reports(es, i, k)
  }

  /** The stored number is that of the last report with one, however old. */
  lemma {:induction false} NumberIsLastReported(es: seq<Event>, k: NodeKey)
    requires k in Run(es)
    ensures Run(es)[k].num.Some? <==> exists i :: Numbers(es, i, k)
    ensures forall j: nat | LastNumber(es, j, k) :: Run(es)[k].num == es[j].report.num
  {
    var n := |es| - 1;
    var before := es[..n];
    LastReports(es, before, k);
    RowIffReported(before, k);
    if k in Run(before) {
      NumberIsLastReported(before, k);
    }
    forall i ensures Numbers(es, i, k) == if i == n then Numbers(es, n, k) else Numbers(before, i, k) {
    }
    if i :| Numbers(before, i, k) {
      assert Numbers(es, i, k);
    }
    assert Run(es)[k].num.Some? ==> Numbers(es, n, k) || exists i :: Numbers(before, i, k);
    forall j: nat | LastNumber(es, j, k) ensures Run(es)[k].num == es[j].report.num {
      if j < n {
        assert LastNumber(before, j, k) && !Numbers(es, n, k);
      }
    }
  }

  /** Whether a node is the local one is what its last report said. */
  lemma {:induction false} LocalIsLastReported(es: seq<Event>, k: NodeKey, j: nat)
    requires k in Run(es) && LastReport(es, j, k)
    ensures Run(es)[k].local == es[j].report.local
  {
    var n := |es| - 1;
    var before := es[..n];
    LastReports(es, before, k);
    if j < n {
      assert LastReport(before, j, k) && !Reports(es, n, k);
      RowIffReported(before, k);
      LocalIsLastReported(before, k, j);
    }
  }

  /** The stored transport is that of the last fresh report that knew its own. */
  lemma {:induction false} TransportIsLastFresh(es: seq<Event>, k: NodeKey)
    requires k in Run(es)
    ensures Run(es)[k].transport != Unknown <==> exists i :: Carries(es, i, k)
    ensures forall j: nat | LastCarrier(es, j, k) :: Run(es)[k].transport == es[j].report.transport
  {
    var n := |es| - 1;
    var before := es[..n];
    LastReports(es, before, k);
    RowIffReported(before, k);
    if k in Run(before) {
      TransportIsLastFresh(before, k);
      if Reports(es, n, k) {
        FreshIffMerged(es, n, k);
      }
    } else {
      assert forall time :: !HeardIn(before, k, time);
    }
    forall i ensures Carries(es, i, k) == if i == n then Carries(es, n, k) else Carries(before, i, k) {
      if Reports(before, i, k) {
        FreshAtPrefix(es, n, i, k);
      }
    }
    if i :| Carries(before, i, k) {
      assert Carries(es, i, k);
    }
    assert Run(es)[k].transport != Unknown ==> Carries(es, n, k) || exists i :: Carries(before, i, k);
    forall j: nat | LastCarrier(es, j, k) ensures Run(es)[k].transport == es[j].report.transport {
      if j < n {
        assert LastCarrier(before, j, k) && !Carries(es, n, k);
        assert before[j] == es[j];
      }
    }
  }

  /** A removal is stamped with its own time, or with what was heard of the node later than that. */
  lemma RemovalTimeIsMaximum(row: NodeRow, now: int)
    requires now >= 0
    ensures RemovalTime(row, now) >= now && (row.lastHeard.Some? ==> RemovalTime(row, now) >= row.lastHeard.value)
    ensures RemovalTime(row, now) == now || Some(RemovalTime(row, now)) == row.lastHeard
  {
  }

  /** Event i hid the node: a removal that found a row of a node other than the local one. */
  ghost predicate HidesAt(es: seq<Event>, i: nat, k: NodeKey) {
    i < |es| && es[i].Removed? && es[i].key == k && k in Run(es[..i]) && !Run(es[..i])[k].local
  }

  ghost predicate LiftsAt(es: seq<Event>, i: nat, k: NodeKey, removedAt: int) {
    Reports(es, i, k) && (es[i].observed || Lifts(es[i].report, Some(removedAt)))
  }

  ghost function RemovalAt(es: seq<Event>, i: nat, k: NodeKey): int {
    if HidesAt(es, i, k) then RemovalTime(Run(es[..i])[k], es[i].now) else 0
  }

  /** Event i is the last removal that hid the node, and nothing since has lifted it. */
  ghost predicate HiddenSince(es: seq<Event>, i: nat, k: NodeKey) {
    && HidesAt(es, i, k)
    && forall j: nat | i < j < |es| :: !HidesAt(es, j, k) && !LiftsAt(es, j, k, RemovalAt(es, i, k))
  }

  ghost function RemovedAt(t: Table, k: NodeKey): Option<int> {
    if k in t then t[k].removedAt else None
  }

  lemma PrefixAgrees(es: seq<Event>, before: seq<Event>, i: nat, k: NodeKey)
    requires es != [] && before == es[..|es| - 1] && i < |before|
    ensures HidesAt(es, i, k) == HidesAt(before, i, k) && RemovalAt(es, i, k) == RemovalAt(before, i, k)
    ensures forall time :: LiftsAt(es, i, k, time) == LiftsAt(before, i, k, time)
  {
    assert before[..i] == es[..i] && before[i] == es[i];
  }

  lemma HiddenSincePrefix(es: seq<Event>, before: seq<Event>, i: nat, k: NodeKey)
    requires es != [] && before == es[..|es| - 1] && i < |before|
    ensures HiddenSince(es, i, k) <==>
              (HiddenSince(before, i, k) && !HidesAt(es, |es| - 1, k) && !LiftsAt(es, |es| - 1, k, RemovalAt(before, i, k)))
  {
    forall j: nat | j < |before|
      ensures HidesAt(es, j, k) == HidesAt(before, j, k)
      ensures LiftsAt(es, j, k, RemovalAt(es, i, k)) == LiftsAt(before, j, k, RemovalAt(before, i, k))
    {
      PrefixAgrees(es, before, j, k);
      PrefixAgrees(es, before, i, k);
    }
    PrefixAgrees(es, before, i, k);
  }

  lemma RemovalStep(es: seq<Event>, before: seq<Event>, k: NodeKey)
    requires es != [] && before == es[..|es| - 1]
    ensures var n, was := |es| - 1, RemovedAt(Run(before), k);
            RemovedAt(Run(es), k) == if HidesAt(es, n, k) then Some(RemovalAt(es, n, k))
                                     else if was.Some? && LiftsAt(es, n, k, was.value) then None else was
  {
  }

  /** A node is hidden exactly when some removal hid it and nothing has lifted that removal since. */
  lemma {:induction false} HiddenIff(es: seq<Event>, k: NodeKey)
    ensures RemovedAt(Run(es), k).Some? <==> exists i: nat :: HiddenSince(es, i, k)
    ensures forall i: nat | HiddenSince(es, i, k) :: RemovedAt(Run(es), k) == Some(RemovalAt(es, i, k))
  {
    if es != [] {
      var n := |es| - 1;
      var before := es[..n];
      HiddenIff(before, k);
      RemovalStep(es, before, k);
      forall i: nat | i < n ensures
        && RemovalAt(es, i, k) == RemovalAt(before, i, k)
        && (HiddenSince(es, i, k) <==>
              (HiddenSince(before, i, k) && !HidesAt(es, n, k) && !LiftsAt(es, n, k, RemovalAt(before, i, k))))
      {
        PrefixAgrees(es, before, i, k);
        HiddenSincePrefix(es, before, i, k);
      }
      assert HiddenSince(es, n, k) == HidesAt(es, n, k);
    }
  }
}
