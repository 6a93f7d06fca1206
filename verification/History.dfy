/**
 Retention of one gateway's history: previewing a cleanup, executing it later against a database
 that may have changed in any way, and the batched maintenance that runs by itself.

 Instants are numbers; a stored timestamp that does not parse is `None`. The 16-byte digest of a
 node action is taken as injective, so a fingerprint is the triple it is computed from.
 */
module History {
  import opened Arithmetic
  import opened Options
  import MessageStore

  const MAX_CLEANUP_RECORDS: nat := 1_000_000
  const MAINTENANCE_BATCH_RECORDS: nat := 100_000
  const SECONDS_PER_DAY := 86400

  datatype Table = Messages | Telemetry | Positions | Actions

  const HISTORY_TABLES := [Messages, Telemetry, Positions, Actions]

  datatype ActionStatus = Started | Completed | Failed

  datatype Fingerprint = Fingerprint(action: string, started: string, finished: Option<string>)

  /** A row with its row ID and its parsed retention timestamp. */
  datatype Record =
    | MessageRecord(id: int, stamp: Option<int>, outgoing: bool, status: MessageStore.Status, wantAck: bool)
    | SampleRecord(id: int, stamp: Option<int>)
    | ActionRecord(id: int, stamp: Option<int>, fingerprint: Fingerprint, state: ActionStatus)

  /** One gateway's database: its tables in row-ID order and its retention policy. */
  datatype Gateway = Gateway(tables: map<Table, seq<Record>>, days: int, needsReview: bool)

  /** One previewed row; only node actions carry a fingerprint. */
  datatype Target = Target(id: int, fingerprint: Option<Fingerprint>)

  datatype Preview = Preview(targets: map<Table, seq<Target>>, policyDays: Option<int>)

  function Rows(g: Gateway, t: Table): seq<Record> {
    if t in g.tables then g.tables[t] else []
  }

  predicate Unresolved(r: Record) {
    r.MessageRecord? && r.outgoing && (r.status.Uncertain? || (r.status.Queued? && r.wantAck))
  }

  predicate OldEnough(r: Record, cutoff: Option<int>) {
    cutoff.None? || (r.stamp.Some? && r.stamp.value < cutoff.value)
  }

  predicate Eligible(r: Record, cutoff: Option<int>) {
    && OldEnough(r, cutoff) && !Unresolved(r)
    && (r.ActionRecord? ==> r.state != Started && r.fingerprint.finished.Some?)
  }

  function TargetOf(r: Record): Target {
    Target(r.id, if r.ActionRecord? then Some(r.fingerprint) else None)
  }

  function Targets(records: seq<Record>): seq<Target> {
    seq(|records|, i requires 0 <= i < |records| => TargetOf(records[i]))
  }

  /** The query of the preview: the first `limit` eligible rows in row-ID order. */
  function FirstEligible(rows: seq<Record>, cutoff: Option<int>, limit: nat): (first: seq<Record>)
    ensures |first| <= limit
  {
    if rows == [] || limit == 0 then []
    else if Eligible(rows[0], cutoff) then [rows[0]] + FirstEligible(rows[1..], cutoff, limit - 1)
    else FirstEligible(rows[1..], cutoff, limit)
  }

  /** `None` stands for the refusal of a selection above the maximum. */
  function Plan(g: Gateway, tables: seq<Table>, cutoff: Option<int>, remaining: nat, partial: bool):
    Option<map<Table, seq<Target>>>
  {
    if tables == [] || (partial && remaining == 0) then Some(map[])
    else
      var records := FirstEligible(Rows(g, tables[0]), cutoff, if partial then remaining else remaining + 1);
      if |records| > remaining then None
      else Merge(map[tables[0] := Targets(records)], Plan(g, tables[1..], cutoff, remaining - |records|, partial))
  }

  function Merge(snapshot: map<Table, seq<Target>>, rest: Option<map<Table, seq<Target>>>): Option<map<Table, seq<Target>>> {
    if rest.None? then None else Some(snapshot + rest.value)
  }

  lemma FirstStep(
    g: Gateway, tables: seq<Table>, cutoff: Option<int>, remaining: nat, partial: bool, records: seq<Record>)
    requires tables != [] && !(partial && remaining == 0)
    requires records == FirstEligible(Rows(g, tables[0]), cutoff, if partial then remaining else remaining + 1)
    ensures Plan(g, tables, cutoff, remaining, partial) ==
              if |records| > remaining then None
              else Merge(map[tables[0] := Targets(records)], Plan(g, tables[1..], cutoff, remaining - |records|, partial))
  {
  }

  /** The condition of the final delete: it looks at the row as it is now. */
  predicate Removable(r: Record, target: Target) {
    && r.id == target.id && !Unresolved(r)
    && (r.ActionRecord? ==> r.state != Started && Some(r.fingerprint) == target.fingerprint)
  }

  function RemoveOne(rows: seq<Record>, target: Target): seq<Record> {
    if rows == [] then []
    else if Removable(rows[0], target) then RemoveOne(rows[1..], target)
    else [rows[0]] + RemoveOne(rows[1..], target)
  }

  function RemoveAll(rows: seq<Record>, targets: seq<Target>): seq<Record>
    decreases |targets|
  {
    if targets == [] then rows else RemoveAll(RemoveOne(rows, targets[0]), targets[1..])
  }

  function TargetsFor(p: Preview, t: Table): seq<Target> {
    if t in p.targets then p.targets[t] else []
  }

  predicate PolicyChanged(g: Gateway, p: Preview) {
    p.policyDays.Some? && (g.needsReview || g.days != p.policyDays.value)
  }

  function CleanTables(g: Gateway, tables: seq<Table>, p: Preview): Gateway
    decreases |tables|
  {
    if tables == [] then g
    else
      var t := tables[0];
      CleanTables(g.(tables := g.tables[t := RemoveAll(Rows(g, t), TargetsFor(p, t))]), tables[1..], p)
  }

  function Cleanup(g: Gateway, p: Preview): Gateway {
    if PolicyChanged(g, p) then g else CleanTables(g, HISTORY_TABLES, p)
  }

  function Cutoff(now: int, days: int): Option<int> {
    if days == 0 then None else Some(now - days * SECONDS_PER_DAY)
  }

  function ScopeTables(whole: bool): seq<Table> {
    if whole then HISTORY_TABLES else [Messages]
  }

  function MaintenancePreview(g: Gateway, now: int): Preview {
    var targets := Plan(g, HISTORY_TABLES, Cutoff(now, g.days), MAINTENANCE_BATCH_RECORDS, true);
    Preview(if targets.Some? then targets.value else map[], Some(g.days))
  }

  function Maintain(g: Gateway, now: int): Gateway {
    if g.needsReview || g.days == 0 then g else Cleanup(g, MaintenancePreview(g, now))
  }

  lemma MergeFacts(a: map<Table, seq<Target>>, b: map<Table, seq<Target>>, rest: Option<map<Table, seq<Target>>>)
    ensures Merge(map[], rest) == rest
    ensures Merge(a, Merge(b, rest)) == Merge(a + b, rest)
  {
    if rest.Some? {
      assert map[] + rest.value == rest.value;
      assert a + (b + rest.value) == (a + b) + rest.value;
    }
  }

  /** The loop invariant of the preview: what is planned already, and what is still to plan. */
  ghost predicate PlannedSoFar(
    g: Gateway, selected: seq<Table>, i: nat, cutoff: Option<int>, remaining: nat, partial: bool,
    snapshot: map<Table, seq<Target>>, whole: Option<map<Table, seq<Target>>>)
  {
    i <= |selected| && whole == Merge(snapshot, Plan(g, selected[i..], cutoff, remaining, partial))
  }

  lemma PlanLoopStart(g: Gateway, selected: seq<Table>, cutoff: Option<int>, maximum: nat, partial: bool)
    ensures PlannedSoFar(g, selected, 0, cutoff, maximum, partial, map[], Plan(g, selected, cutoff, maximum, partial))
  {
    assert selected[0..] == selected;
    MergeFacts(map[], map[], Plan(g, selected, cutoff, maximum, partial));
  }

  /** The plan of the tables from `i` on. */
  lemma PlanFromHere(g: Gateway, selected: seq<Table>, i: nat, cutoff: Option<int>, remaining: nat, partial: bool)
    requires i < |selected| && !(partial && remaining == 0)
    ensures var records := FirstEligible(Rows(g, selected[i]), cutoff, if partial then remaining else remaining + 1);
            Plan(g, selected[i..], cutoff, remaining, partial) ==
              if |records| > remaining then None
              else Merge(map[selected[i] := Targets(records)], Plan(g, selected[i + 1..], cutoff, remaining - |records|, partial))
  {
    assert selected[i..][1..] == selected[i + 1..] && selected[i..][0] == selected[i];
    var records := FirstEligible(Rows(g, selected[i]), cutoff, if partial then remaining else remaining + 1);
    FirstStep(g, selected[i..], cutoff, remaining, partial, records);
  }

  lemma PlanLoopStep(
    g: Gateway, selected: seq<Table>, i: nat, cutoff: Option<int>, remaining: nat, partial: bool,
    snapshot: map<Table, seq<Target>>, whole: Option<map<Table, seq<Target>>>)
    requires PlannedSoFar(g, selected, i, cutoff, remaining, partial, snapshot, whole)
    requires i < |selected| && !(partial && remaining == 0)
    ensures var records := FirstEligible(Rows(g, selected[i]), cutoff, if partial then remaining else remaining + 1);
            if |records| > remaining then whole == None
            else PlannedSoFar(g, selected, i + 1, cutoff, remaining - |records|, partial,
                              snapshot + map[selected[i] := Targets(records)], whole)
  {
    var records := FirstEligible(Rows(g, selected[i]), cutoff, if partial then remaining else remaining + 1);
    PlanFromHere(g, selected, i, cutoff, remaining, partial);
    if |records| <= remaining {
      var head := map[selected[i] := Targets(records)];
      var rest := Plan(g, selected[i + 1..], cutoff, remaining - |records|, partial);
      calc {
        whole;
        Merge(snapshot, Plan(g, selected[i..], cutoff, remaining, partial));
        Merge(snapshot, Merge(head, rest));
        { MergeFacts(snapshot, head, rest); }
        Merge(snapshot + head, rest);
      }
    }
  }

  lemma PlanLoopEnd(
    g: Gateway, selected: seq<Table>, i: nat, cutoff: Option<int>, remaining: nat, partial: bool,
    snapshot: map<Table, seq<Target>>, whole: Option<map<Table, seq<Target>>>)
    requires PlannedSoFar(g, selected, i, cutoff, remaining, partial, snapshot, whole)
    requires i == |selected| || (partial && remaining == 0)
    ensures whole == Some(snapshot)
  {
    assert snapshot + map[] == snapshot;
  }

  /** The loop invariant of the cleanup: tables before `i` are cleaned and counted, the others untouched. */
  ghost predicate RemovedSoFar(g0: Gateway, g: Gateway, order: seq<Table>, i: nat, p: Preview, deleted: map<Table, int>) {
    && i <= |order| && CleanTables(g, order[i..], p) == CleanTables(g0, order, p)
    && (forall k | 0 <= k < i :: order[k] in deleted && deleted[order[k]] == |Rows(g0, order[k])| - |Rows(g, order[k])|)
    && (forall k | i <= k < |order| :: Rows(g, order[k]) == Rows(g0, order[k]))
  }

  lemma RemovedStep(
    g0: Gateway, g: Gateway, g': Gateway, order: seq<Table>, i: nat, p: Preview, deleted: map<Table, int>, count: int)
    requires Distinct(order) && i < |order| && RemovedSoFar(g0, g, order, i, p, deleted)
    requires g' == g.(tables := g.tables[order[i] := RemoveAll(Rows(g, order[i]), TargetsFor(p, order[i]))])
    requires count == |Rows(g, order[i])| - |Rows(g', order[i])|
    ensures RemovedSoFar(g0, g', order, i + 1, p, deleted[order[i] := count])
  {
    assert order[i..][0] == order[i] && order[i..][1..] == order[i + 1..];
    forall k | 0 <= k < |order| && k != i ensures Rows(g', order[k]) == Rows(g, order[k]) {
    }
  }

  // ---------- The database object ----------

  class GatewayDatabase {
    var tables: map<Table, seq<Record>>
    var days: int
    var needsReview: bool

    ghost function Model(): Gateway
      reads this
    {
      Gateway(tables, days, needsReview)
    }

    constructor (tables: map<Table, seq<Record>>, days: int, needsReview: bool)
      ensures Model() == Gateway(tables, days, needsReview)
    {
      this.tables, this.days, this.needsReview := tables, days, needsReview;
    }

    method SetHistoryPolicy(newDays: int)
      modifies this`days, this`needsReview
      ensures days == newDays && !needsReview
    {
      days, needsReview := newDays, false;
    }

    /** The loop over the rows of one query: it refuses at the first row above the maximum. */
    static method Collect(records: seq<Record>, maximum: nat) returns (ids: Option<seq<Target>>)
      ensures ids == if |records| > maximum then None else Some(Targets(records))
    {
      var targets: seq<Target> := [];
      var remaining := maximum;
      while |targets| < |records|
        invariant |targets| <= |records| && targets == Targets(records)[..|targets|] && remaining == maximum - |targets|
      {
        if remaining == 0 {
          return None;
        }
        targets := targets + [TargetOf(records[|targets|])];
        remaining := remaining - 1;
      }
      assert targets == Targets(records);
      ids := Some(targets);
    }

    /** The whole history or the messages only, from a number of days on; zero days take rows of any age. */
    method PreviewHistoryCleanup(whole: bool, days: int, now: int, maximum: nat, partial: bool)
      returns (targets: Option<map<Table, seq<Target>>>)
      ensures targets == Plan(Model(), ScopeTables(whole), Cutoff(now, days), maximum, partial)
    {
      var cutoff := if days == 0 then None else Some(now - days * SECONDS_PER_DAY);
      targets := PreviewTables(if whole then HISTORY_TABLES else [Messages], cutoff, maximum, partial);
    }

    method PreviewTables(selected: seq<Table>, cutoff: Option<int>, maximum: nat, partial: bool)
      returns (targets: Option<map<Table, seq<Target>>>)
      ensures targets == Plan(Model(), selected, cutoff, maximum, partial)
    {
      var snapshot: map<Table, seq<Target>> := map[];
      var remaining: nat := maximum;
      var i := 0;
      ghost var g := Model();
      ghost var whole := Plan(g, selected, cutoff, maximum, partial);
      PlanLoopStart(g, selected, cutoff, maximum, partial);
      while i < |selected|
        invariant i <= |selected|
        invariant PlannedSoFar(g, selected, i, cutoff, remaining, partial, snapshot, whole)
      {
        if partial && remaining == 0 {
          break;
        }
        var rows := if selected[i] in tables then tables[selected[i]] else [];
        var records := FirstEligible(rows, cutoff, if partial then remaining else remaining + 1);
        PlanLoopStep(g, selected, i, cutoff, remaining, partial, snapshot, whole);
        var ids := Collect(records, remaining);
        if ids.None? {
          return None;
        }
        remaining := remaining - |records|;
        snapshot := snapshot + map[selected[i] := ids.value];
        i := i + 1;
      }
      PlanLoopEnd(g, selected, i, cutoff, remaining, partial, snapshot, whole);
      targets := Some(snapshot);
    }

    method RemoveTargets(t: Table, targets: seq<Target>) returns (deleted: int)
      modifies this`tables
      ensures tables == old(tables)[t := RemoveAll(Rows(old(Model()), t), targets)]
      ensures forall u | u != t :: Rows(Model(), u) == Rows(old(Model()), u)
      ensures deleted == |Rows(old(Model()), t)| - |tables[t]|
    {
      var rows := if t in tables then tables[t] else [];
      deleted := 0;
      var i := 0;
      while i < |targets|
        invariant i <= |targets| && tables == old(tables)
        invariant RemoveAll(rows, targets[i..]) == RemoveAll(Rows(old(Model()), t), targets)
        invariant deleted == |Rows(old(Model()), t)| - |rows|
      {
        var kept := RemoveOne(rows, targets[i]);
        deleted := deleted + |rows| - |kept|;
        rows := kept;
        assert targets[i..][1..] == targets[i + 1..];
        i := i + 1;
      }
      tables := tables[t := rows];
    }

    method RemoveFrom(order: seq<Table>, preview: Preview) returns (deleted: map<Table, int>)
      requires Distinct(order)
      modifies this`tables
      ensures Model() == CleanTables(old(Model()), order, preview)
      ensures forall t | t in order :: t in deleted && deleted[t] == |Rows(old(Model()), t)| - |Rows(Model(), t)|
    {
      deleted := map[];
      var i := 0;
      assert order[0..] == order;
      while i < |order|
        invariant RemovedSoFar(old(Model()), Model(), order, i, preview, deleted)
      {
        ghost var before := Model();
        var count := RemoveTargets(order[i], TargetsFor(preview, order[i]));
        RemovedStep(old(Model()), before, Model(), order, i, preview, deleted, count);
        deleted := deleted[order[i] := count];
        i := i + 1;
      }
    }

    method CleanupHistory(preview: Preview) returns (deleted: map<Table, int>)
      modifies this`tables
      ensures Model() == Cleanup(old(Model()), preview)
      ensures forall t | t in HISTORY_TABLES ::
                t in deleted && deleted[t] == |Rows(old(Model()), t)| - |Rows(Model(), t)|
    {
      if preview.policyDays.Some? && (needsReview || days != preview.policyDays.value) {
        return map t | t in HISTORY_TABLES :: 0;
      }
      deleted := RemoveFrom(HISTORY_TABLES, preview);
    }

    method MaintainHistory(now: int)
      modifies this`tables
      ensures Model() == Maintain(old(Model()), now)
    {
      if needsReview || days == 0 {
        return;
      }
      var targets := PreviewHistoryCleanup(true, days, now, MAINTENANCE_BATCH_RECORDS, true);
      var _ := CleanupHistory(Preview(if targets.Some? then targets.value else map[], Some(days)));
    }
  }

  lemma {:induction false} CleanTablesRows(g: Gateway, tables: seq<Table>, p: Preview, t: Table)
    requires Distinct(tables)
    ensures Rows(CleanTables(g, tables, p), t)
         == if t in tables then RemoveAll(Rows(g, t), TargetsFor(p, t)) else Rows(g, t)
    ensures CleanTables(g, tables, p).days == g.days && CleanTables(g, tables, p).needsReview == g.needsReview
    decreases |tables|
  {
    if tables != [] {
      var u := tables[0];
      assert u !in tables[1..];
      CleanTablesRows(g.(tables := g.tables[u := RemoveAll(Rows(g, u), TargetsFor(p, u))]), tables[1..], p, t);
    }
  }

  // ---------- What a cleanup removes, for any database it meets ----------

  predicate AnyRemoves(r: Record, targets: seq<Target>) {
    exists t | t in targets :: Removable(r, t)
  }

  /** Reference definition: the rows no target may remove, in order. */
  function Kept(rows: seq<Record>, targets: seq<Target>): seq<Record> {
    if rows == [] then []
    else if AnyRemoves(rows[0], targets) then Kept(rows[1..], targets)
    else [rows[0]] + Kept(rows[1..], targets)
  }

  lemma {:induction false} KeptWithoutTargets(rows: seq<Record>)
    ensures Kept(rows, []) == rows
  {
    if rows != [] {
      KeptWithoutTargets(rows[1..]);
    }
  }

  lemma {:induction false} KeptAfterRemoveOne(rows: seq<Record>, targets: seq<Target>)
    requires targets != []
    ensures Kept(RemoveOne(rows, targets[0]), targets[1..]) == Kept(rows, targets)
  {
    if rows != [] {
      KeptAfterRemoveOne(rows[1..], targets);
      assert targets == [targets[0]] + targets[1..];
      assert AnyRemoves(rows[0], targets) <==> Removable(rows[0], targets[0]) || AnyRemoves(rows[0], targets[1..]);
      var rest := RemoveOne(rows[1..], targets[0]);
      assert ([rows[0]] + rest)[1..] == rest;
    }
  }

  /** Executing the targets one by one removes exactly the rows that some target may remove. */
  lemma {:induction false} RemoveAllIsKept(rows: seq<Record>, targets: seq<Target>)
    ensures RemoveAll(rows, targets) == Kept(rows, targets)
    decreases |targets|
  {
    if targets == [] {
      KeptWithoutTargets(rows);
    } else {
      RemoveAllIsKept(RemoveOne(rows, targets[0]), targets[1..]);
      KeptAfterRemoveOne(rows, targets);
    }
  }

  lemma {:induction false} KeptMembers(rows: seq<Record>, targets: seq<Target>)
    ensures forall r :: r in Kept(rows, targets) <==> r in rows && !AnyRemoves(r, targets)
  {
    if rows != [] {
      KeptMembers(rows[1..], targets);
      assert forall r :: r in rows <==> r == rows[0] || r in rows[1..];
    }
  }

  /**
   For every preview and every database it meets later: a row goes only if it was previewed; an
   unresolved outgoing message, a running action and an action other than the previewed one that
   now has its row ID stay; and nothing goes when the policy the preview rests on has changed.
   */
  lemma CleanupRemovesOnlyPreviewed(g: Gateway, p: Preview, t: Table, r: Record)
    requires t in HISTORY_TABLES && r in Rows(g, t) && r !in Rows(Cleanup(g, p), t)
    ensures !PolicyChanged(g, p)
    ensures exists target | target in TargetsFor(p, t) :: target.id == r.id
              && (r.ActionRecord? ==> target.fingerprint == Some(r.fingerprint))
    ensures !Unresolved(r) && (r.ActionRecord? ==> r.state != Started)
  {
    var targets := TargetsFor(p, t);
    CleanTablesRows(g, HISTORY_TABLES, p, t);
    RemoveAllIsKept(Rows(g, t), targets);
    KeptMembers(Rows(g, t), targets);
    var target :| target in targets && Removable(r, target);
  }

  /** And the other way: with the policy unchanged, every previewed row that may still be removed goes. */
  lemma CleanupRemovesEveryRemovable(g: Gateway, p: Preview, t: Table, r: Record, target: Target)
    requires t in HISTORY_TABLES && !PolicyChanged(g, p)
    requires target in TargetsFor(p, t) && Removable(r, target)
    ensures r !in Rows(Cleanup(g, p), t)
  {
    CleanTablesRows(g, HISTORY_TABLES, p, t);
    RemoveAllIsKept(Rows(g, t), TargetsFor(p, t));
    KeptMembers(Rows(g, t), TargetsFor(p, t));
  }

  // ---------- Repeated maintenance ----------

  ghost predicate IdsAscend(rows: seq<Record>) {
    forall i, j | 0 <= i < j < |rows| :: rows[i].id < rows[j].id
  }

  ghost predicate Wf(g: Gateway) {
    forall t | t in HISTORY_TABLES :: IdsAscend(Rows(g, t))
  }

  function CountEligible(rows: seq<Record>, cutoff: Option<int>): nat {
    if rows == [] then 0 else (if Eligible(rows[0], cutoff) then 1 else 0) + CountEligible(rows[1..], cutoff)
  }

  function Minus(a: nat, b: nat): nat {
    if a < b then 0 else a - b
  }

  /** The rows without their first `limit` eligible ones. */
  function WithoutFirst(rows: seq<Record>, cutoff: Option<int>, limit: nat): seq<Record> {
    if rows == [] || limit == 0 then rows
    else if Eligible(rows[0], cutoff) then WithoutFirst(rows[1..], cutoff, limit - 1)
    else [rows[0]] + WithoutFirst(rows[1..], cutoff, limit)
  }

  lemma {:induction false} FirstEligibleFacts(rows: seq<Record>, cutoff: Option<int>, limit: nat)
    ensures |FirstEligible(rows, cutoff, limit)| == Min(limit, CountEligible(rows, cutoff))
    ensures forall r | r in FirstEligible(rows, cutoff, limit) :: r in rows && Eligible(r, cutoff)
  {
    if rows != [] && limit != 0 {
      FirstEligibleFacts(rows[1..], cutoff, if Eligible(rows[0], cutoff) then limit - 1 else limit);
    }
  }

  lemma {:induction false} WithoutFirstCounts(rows: seq<Record>, cutoff: Option<int>, limit: nat)
    ensures |WithoutFirst(rows, cutoff, limit)| == |rows| - Min(limit, CountEligible(rows, cutoff))
    ensures CountEligible(WithoutFirst(rows, cutoff, limit), cutoff) == Minus(CountEligible(rows, cutoff), limit)
  {
    if rows != [] && limit != 0 {
      WithoutFirstCounts(rows[1..], cutoff, if Eligible(rows[0], cutoff) then limit - 1 else limit);
      var rest := WithoutFirst(rows[1..], cutoff, limit);
      assert ([rows[0]] + rest)[1..] == rest;
    }
  }

  lemma {:induction false} WithoutFirstMembers(rows: seq<Record>, cutoff: Option<int>, limit: nat)
    ensures forall r | r in WithoutFirst(rows, cutoff, limit) :: r in rows
    ensures forall r | r in rows && !Eligible(r, cutoff) :: r in WithoutFirst(rows, cutoff, limit)
    ensures IdsAscend(rows) ==> IdsAscend(WithoutFirst(rows, cutoff, limit))
  {
    if rows != [] && limit != 0 {
      var tail := rows[1..];
      var rest := WithoutFirst(tail, cutoff, if Eligible(rows[0], cutoff) then limit - 1 else limit);
      assert rows == [rows[0]] + tail;
      WithoutFirstMembers(tail, cutoff, if Eligible(rows[0], cutoff) then limit - 1 else limit);
      if IdsAscend(rows) {
        assert forall r | r in tail :: rows[0].id < r.id;
        PrependAscends(rows[0], rest);
      }
    }
  }

  lemma PrependAscends(r: Record, rows: seq<Record>)
    requires IdsAscend(rows) && forall x | x in rows :: r.id < x.id
    ensures IdsAscend([r] + rows)
  {
  }

  lemma {:induction false} UnusedTarget(rows: seq<Record>, target: Target, targets: seq<Target>)
    requires forall r | r in rows :: r.id != target.id
    ensures Kept(rows, [target] + targets) == Kept(rows, targets)
  {
    if rows != [] {
      UnusedTarget(rows[1..], target, targets);
      assert rows[0] in rows;
      assert forall t :: t in [target] + targets <==> t == target || t in targets;
    }
  }

  /** Cleaning up right after the preview removes exactly the previewed rows. */
  lemma {:induction false} ImmediateCleanup(rows: seq<Record>, cutoff: Option<int>, limit: nat)
    requires IdsAscend(rows)
    ensures Kept(rows, Targets(FirstEligible(rows, cutoff, limit))) == WithoutFirst(rows, cutoff, limit)
  {
    if rows == [] || limit == 0 {
      assert Targets([]) == [];
      KeptWithoutTargets(rows);
    } else {
      var tail := rows[1..];
      assert forall r | r in tail :: rows[0].id < r.id;
      if Eligible(rows[0], cutoff) {
        ImmediateCleanup(tail, cutoff, limit - 1);
        HeadIsTaken(rows, cutoff, limit);
      } else {
        ImmediateCleanup(tail, cutoff, limit);
        HeadIsKept(rows, cutoff, limit);
      }
    }
  }

  lemma HeadIsTaken(rows: seq<Record>, cutoff: Option<int>, limit: nat)
    requires IdsAscend(rows) && rows != [] && limit > 0 && Eligible(rows[0], cutoff)
    ensures Kept(rows, Targets(FirstEligible(rows, cutoff, limit)))
         == Kept(rows[1..], Targets(FirstEligible(rows[1..], cutoff, limit - 1)))
  {
    var tail := rows[1..];
    var first := FirstEligible(tail, cutoff, limit - 1);
    assert forall r | r in tail :: rows[0].id < r.id;
    assert Targets([rows[0]] + first) == [TargetOf(rows[0])] + Targets(first);
    UnusedTarget(tail, TargetOf(rows[0]), Targets(first));
    assert TargetOf(rows[0]) in Targets(FirstEligible(rows, cutoff, limit));
    assert Removable(rows[0], TargetOf(rows[0]));
  }

  lemma HeadIsKept(rows: seq<Record>, cutoff: Option<int>, limit: nat)
    requires IdsAscend(rows) && rows != [] && limit > 0 && !Eligible(rows[0], cutoff)
    ensures Kept(rows, Targets(FirstEligible(rows, cutoff, limit)))
         == [rows[0]] + Kept(rows[1..], Targets(FirstEligible(rows[1..], cutoff, limit)))
  {
    var tail := rows[1..];
    var first := FirstEligible(tail, cutoff, limit);
    assert forall r | r in tail :: rows[0].id < r.id;
    FirstEligibleFacts(tail, cutoff, limit);
    forall t | t in Targets(first) ensures !Removable(rows[0], t) {
      var k :| 0 <= k < |first| && Targets(first)[k] == t;
      assert first[k] in first;
    }
  }

  function TotalEligible(g: Gateway, tables: seq<Table>, cutoff: Option<int>): nat {
    if tables == [] then 0 else CountEligible(Rows(g, tables[0]), cutoff) + TotalEligible(g, tables[1..], cutoff)
  }

  function TotalRows(g: Gateway, tables: seq<Table>): nat {
    if tables == [] then 0 else |Rows(g, tables[0])| + TotalRows(g, tables[1..])
  }

  ghost predicate Distinct(tables: seq<Table>) {
    forall i, j | 0 <= i < j < |tables| :: tables[i] != tables[j]
  }

  /** Table `t` loses its first `limit` eligible rows. */
  ghost predicate TableStep(g: Gateway, g': Gateway, t: Table, cutoff: Option<int>, limit: nat) {
    Rows(g', t) == WithoutFirst(Rows(g, t), cutoff, limit)
  }

  ghost predicate PlanStep(g: Gateway, g': Gateway, tables: seq<Table>, cutoff: Option<int>) {
    && (forall t | t in tables :: IdsAscend(Rows(g', t)))
    && (forall t, r | t in tables && r in Rows(g, t) && !Eligible(r, cutoff) :: r in Rows(g', t))
    && (forall t, r | t in tables && r in Rows(g', t) :: r in Rows(g, t))
  }

  /** The planned targets of every table, executed at once, leave the rows `Kept` keeps. */
  ghost predicate Executed(g: Gateway, g': Gateway, tables: seq<Table>, plan: map<Table, seq<Target>>) {
    forall t | t in tables :: Rows(g', t) == Kept(Rows(g, t), if t in plan then plan[t] else [])
  }

  ghost predicate AllAscend(g: Gateway, tables: seq<Table>) {
    forall t | t in tables :: IdsAscend(Rows(g, t))
  }

  lemma PlanHead(g: Gateway, tables: seq<Table>, cutoff: Option<int>, remaining: nat, plan: map<Table, seq<Target>>)
    returns (left: nat, rest: map<Table, seq<Target>>)
    requires tables != [] && Plan(g, tables, cutoff, remaining, true) == Some(plan)
    ensures left == remaining - |FirstEligible(Rows(g, tables[0]), cutoff, remaining)|
    ensures Plan(g, tables[1..], cutoff, left, true) == Some(rest)
    ensures if remaining == 0 then plan == map[] && rest == map[]
            else plan == map[tables[0] := Targets(FirstEligible(Rows(g, tables[0]), cutoff, remaining))] + rest
  {
    if remaining == 0 {
      left, rest := 0, map[];
      PlanIsEmpty(g, tables, cutoff);
      PlanIsEmpty(g, tables[1..], cutoff);
    } else {
      left, rest := PlanTail(g, tables, cutoff, remaining, plan);
    }
  }

  lemma PlanTail(g: Gateway, tables: seq<Table>, cutoff: Option<int>, remaining: nat, plan: map<Table, seq<Target>>)
    returns (left: nat, rest: map<Table, seq<Target>>)
    requires tables != [] && remaining > 0 && Plan(g, tables, cutoff, remaining, true) == Some(plan)
    ensures left == remaining - |FirstEligible(Rows(g, tables[0]), cutoff, remaining)|
    ensures Plan(g, tables[1..], cutoff, left, true) == Some(rest)
    ensures plan == map[tables[0] := Targets(FirstEligible(Rows(g, tables[0]), cutoff, remaining))] + rest
  {
    var records := FirstEligible(Rows(g, tables[0]), cutoff, remaining);
    left := remaining - |records|;
    PlanKeys(g, tables[1..], cutoff, left);
    FirstStep(g, tables, cutoff, remaining, true, records);
    rest := Plan(g, tables[1..], cutoff, left, true).value;
    MergeIs(map[tables[0] := Targets(records)], rest);
  }

  lemma MergeIs(snapshot: map<Table, seq<Target>>, rest: map<Table, seq<Target>>)
    ensures Merge(snapshot, Some(rest)) == Some(snapshot + rest)
  {
  }

  lemma FirstTableStep(g: Gateway, g': Gateway, tables: seq<Table>, cutoff: Option<int>, remaining: nat, plan: map<Table, seq<Target>>)
    returns (left: nat, rest: map<Table, seq<Target>>)
    requires tables != [] && Distinct(tables) && AllAscend(g, tables)
    requires Plan(g, tables, cutoff, remaining, true) == Some(plan) && Executed(g, g', tables, plan)
    ensures TableStep(g, g', tables[0], cutoff, remaining)
    ensures left == remaining - Min(remaining, CountEligible(Rows(g, tables[0]), cutoff))
    ensures Plan(g, tables[1..], cutoff, left, true) == Some(rest) && Executed(g, g', tables[1..], rest)
    ensures AllAscend(g, tables[1..])
  {
    var t := tables[0];
    var rows := Rows(g, t);
    left, rest := PlanHead(g, tables, cutoff, remaining, plan);
    FirstEligibleFacts(rows, cutoff, remaining);
    PlanKeys(g, tables[1..], cutoff, left);
    assert t !in tables[1..] && forall u | u in tables[1..] :: u in tables && u != t;
    assert t in tables;
    if remaining == 0 {
      KeptWithoutTargets(rows);
    } else {
      ImmediateCleanup(rows, cutoff, remaining);
    }
  }

  /** What the partial plan removes, table by table, when it is executed at once. */
  lemma {:induction false} PlanCounts(g: Gateway, g': Gateway, tables: seq<Table>, cutoff: Option<int>, remaining: nat, plan: map<Table, seq<Target>>)
    requires Distinct(tables) && AllAscend(g, tables)
    requires Plan(g, tables, cutoff, remaining, true) == Some(plan) && Executed(g, g', tables, plan)
    ensures TotalEligible(g', tables, cutoff) == Minus(TotalEligible(g, tables, cutoff), remaining)
    ensures TotalRows(g', tables) == TotalRows(g, tables) - Min(TotalEligible(g, tables, cutoff), remaining)
    decreases |tables|
  {
    if tables != [] {
      var left, rest := FirstTableStep(g, g', tables, cutoff, remaining, plan);
      WithoutFirstCounts(Rows(g, tables[0]), cutoff, remaining);
      PlanCounts(g, g', tables[1..], cutoff, left, rest);
      CountsAdd(g, g', tables, cutoff, remaining, left);
    }
  }

  lemma CountsAdd(g: Gateway, g': Gateway, tables: seq<Table>, cutoff: Option<int>, remaining: nat, left: nat)
    requires tables != [] && left == remaining - Min(remaining, CountEligible(Rows(g, tables[0]), cutoff))
    requires CountEligible(Rows(g', tables[0]), cutoff) == Minus(CountEligible(Rows(g, tables[0]), cutoff), remaining)
    requires |Rows(g', tables[0])| == |Rows(g, tables[0])| - Min(remaining, CountEligible(Rows(g, tables[0]), cutoff))
    requires TotalEligible(g', tables[1..], cutoff) == Minus(TotalEligible(g, tables[1..], cutoff), left)
    requires TotalRows(g', tables[1..]) == TotalRows(g, tables[1..]) - Min(TotalEligible(g, tables[1..], cutoff), left)
    ensures TotalEligible(g', tables, cutoff) == Minus(TotalEligible(g, tables, cutoff), remaining)
    ensures TotalRows(g', tables) == TotalRows(g, tables) - Min(TotalEligible(g, tables, cutoff), remaining)
  {
  }

  lemma {:induction false} PlanMembers(g: Gateway, g': Gateway, tables: seq<Table>, cutoff: Option<int>, remaining: nat, plan: map<Table, seq<Target>>)
    requires Distinct(tables) && AllAscend(g, tables)
    requires Plan(g, tables, cutoff, remaining, true) == Some(plan) && Executed(g, g', tables, plan)
    ensures PlanStep(g, g', tables, cutoff)
    decreases |tables|
  {
    if tables != [] {
      var left, rest := FirstTableStep(g, g', tables, cutoff, remaining, plan);
      WithoutFirstMembers(Rows(g, tables[0]), cutoff, remaining);
      PlanMembers(g, g', tables[1..], cutoff, left, rest);
      assert forall t | t in tables :: t == tables[0] || t in tables[1..];
    }
  }

  lemma PlanIsEmpty(g: Gateway, tables: seq<Table>, cutoff: Option<int>)
    ensures Plan(g, tables, cutoff, 0, true) == Some(map[])
  {
  }

  lemma MergeKeys(tables: seq<Table>, targets: seq<Target>, rest: Option<map<Table, seq<Target>>>)
    requires tables != [] && rest.Some? && forall t | t in rest.value :: t in tables[1..]
    ensures Merge(map[tables[0] := targets], rest).Some?
    ensures forall t | t in Merge(map[tables[0] := targets], rest).value :: t in tables
  {
  }

  lemma {:induction false} PlanKeys(g: Gateway, tables: seq<Table>, cutoff: Option<int>, remaining: nat)
    ensures Plan(g, tables, cutoff, remaining, true).Some?
    ensures forall t | t in Plan(g, tables, cutoff, remaining, true).value :: t in tables
  {
    if tables != [] && remaining != 0 {
      var records := FirstEligible(Rows(g, tables[0]), cutoff, remaining);
      FirstStep(g, tables, cutoff, remaining, true, records);
      var rest := Plan(g, tables[1..], cutoff, remaining - |records|, true);
      PlanKeys(g, tables[1..], cutoff, remaining - |records|);
      MergeKeys(tables, Targets(records), rest);
    }
  }

  // ---------- The plan of a user's preview ----------

  /** Reference definition: every eligible row, in row-ID order. */
  function EligibleRows(rows: seq<Record>, cutoff: Option<int>): seq<Record> {
    if rows == [] then []
    else if Eligible(rows[0], cutoff) then [rows[0]] + EligibleRows(rows[1..], cutoff)
    else EligibleRows(rows[1..], cutoff)
  }

  lemma {:induction false} EligibleRowsFacts(rows: seq<Record>, cutoff: Option<int>)
    ensures forall r :: r in EligibleRows(rows, cutoff) <==> r in rows && Eligible(r, cutoff)
    ensures |EligibleRows(rows, cutoff)| == CountEligible(rows, cutoff)
  {
    if rows != [] {
      EligibleRowsFacts(rows[1..], cutoff);
      assert rows == [rows[0]] + rows[1..];
    }
  }

  lemma {:induction false} FirstIsAll(rows: seq<Record>, cutoff: Option<int>, limit: nat)
    requires CountEligible(rows, cutoff) <= limit
    ensures FirstEligible(rows, cutoff, limit) == EligibleRows(rows, cutoff)
  {
    if rows != [] {
      if limit == 0 {
        EligibleRowsFacts(rows, cutoff);
      } else {
        FirstIsAll(rows[1..], cutoff, if Eligible(rows[0], cutoff) then limit - 1 else limit);
      }
    }
  }

  /** The first step of a plan that may refuse. */
  lemma WholePlan(g: Gateway, tables: seq<Table>, cutoff: Option<int>, maximum: nat)
    requires tables != []
    ensures var count := CountEligible(Rows(g, tables[0]), cutoff);
            Plan(g, tables, cutoff, maximum, false) ==
              if count > maximum then None
              else Merge(map[tables[0] := Targets(EligibleRows(Rows(g, tables[0]), cutoff))],
                         Plan(g, tables[1..], cutoff, maximum - count, false))
  {
    var records := FirstEligible(Rows(g, tables[0]), cutoff, maximum + 1);
    WholeQuery(Rows(g, tables[0]), cutoff, maximum);
    FirstStep(g, tables, cutoff, maximum, false, records);
  }

  lemma WholeQuery(rows: seq<Record>, cutoff: Option<int>, maximum: nat)
    ensures var records := FirstEligible(rows, cutoff, maximum + 1);
            if CountEligible(rows, cutoff) > maximum then |records| > maximum
            else records == EligibleRows(rows, cutoff) && |records| == CountEligible(rows, cutoff)
  {
    FirstEligibleFacts(rows, cutoff, maximum + 1);
    if CountEligible(rows, cutoff) <= maximum {
      FirstIsAll(rows, cutoff, maximum + 1);
    }
  }

  function WholeSelection(g: Gateway, tables: seq<Table>, cutoff: Option<int>): map<Table, seq<Target>> {
    if tables == [] then map[]
    else map[tables[0] := Targets(EligibleRows(Rows(g, tables[0]), cutoff))] + WholeSelection(g, tables[1..], cutoff)
  }

  lemma {:induction false} SelectionFacts(g: Gateway, tables: seq<Table>, cutoff: Option<int>)
    ensures forall t :: t in WholeSelection(g, tables, cutoff) <==> t in tables
    ensures forall t | t in tables :: WholeSelection(g, tables, cutoff)[t] == Targets(EligibleRows(Rows(g, t), cutoff))
  {
    if tables != [] {
      SelectionFacts(g, tables[1..], cutoff);
      assert forall t :: t in tables <==> t == tables[0] || t in tables[1..];
    }
  }

  lemma {:induction false} PlanIsSelection(g: Gateway, tables: seq<Table>, cutoff: Option<int>, maximum: nat)
    ensures Plan(g, tables, cutoff, maximum, false) ==
              if TotalEligible(g, tables, cutoff) > maximum then None else Some(WholeSelection(g, tables, cutoff))
    decreases |tables|
  {
    if tables != [] {
      var count := CountEligible(Rows(g, tables[0]), cutoff);
      WholePlan(g, tables, cutoff, maximum);
      if count <= maximum {
        calc {
          Plan(g, tables, cutoff, maximum, false);
          Merge(map[tables[0] := Targets(EligibleRows(Rows(g, tables[0]), cutoff))],
                Plan(g, tables[1..], cutoff, maximum - count, false));
          { PlanIsSelection(g, tables[1..], cutoff, maximum - count); }
          if TotalEligible(g, tables, cutoff) > maximum then None else Some(WholeSelection(g, tables, cutoff));
        }
      }
    }
  }

  /**
   A preview is refused exactly when more rows are eligible than the maximum; an accepted one holds every
   eligible row of every chosen table, and nothing else.
   */
  lemma PreviewRefusesIff(g: Gateway, tables: seq<Table>, cutoff: Option<int>, maximum: nat)
    ensures var plan := Plan(g, tables, cutoff, maximum, false);
            && (plan.None? <==> TotalEligible(g, tables, cutoff) > maximum)
            && (plan.Some? ==>
                  && (forall t :: t in plan.value <==> t in tables)
                  && forall t | t in tables :: plan.value[t] == Targets(EligibleRows(Rows(g, t), cutoff)))
  {
    PlanIsSelection(g, tables, cutoff, maximum);
    SelectionFacts(g, tables, cutoff);
  }

  /** Carrying out an accepted preview at once removes every eligible row of the chosen tables, and no other row. */
  lemma AcceptedPreviewRemovesAll(g: Gateway, tables: seq<Table>, cutoff: Option<int>, maximum: nat, p: Preview, t: Table)
    requires Distinct(tables) && t in tables && IdsAscend(Rows(g, t))
    requires Plan(g, tables, cutoff, maximum, false) == Some(p.targets)
    ensures forall r :: r in Rows(CleanTables(g, tables, p), t) <==> r in Rows(g, t) && !Eligible(r, cutoff)
  {
    PreviewRefusesIff(g, tables, cutoff, maximum);
    CleanTablesRows(g, tables, p, t);
    RemoveAllIsKept(Rows(g, t), p.targets[t]);
    SelectedAreKept(Rows(g, t), cutoff);
  }

  lemma {:induction false} NoneEligible(rows: seq<Record>, cutoff: Option<int>)
    requires CountEligible(rows, cutoff) == 0
    ensures forall r | r in rows :: !Eligible(r, cutoff)
  {
    if rows != [] {
      NoneEligible(rows[1..], cutoff);
      assert rows == [rows[0]] + rows[1..];
    }
  }

  // ---------- Rounds of maintenance ----------

  predicate Unreviewed(g: Gateway) {
    g.needsReview || g.days == 0
  }

  /** A round removes the smaller of `batch` and the number of eligible rows, all of them eligible, and nothing else. */
  ghost predicate RemovesBatch(g: Gateway, g': Gateway, tables: seq<Table>, cutoff: Option<int>, batch: nat) {
    && g'.days == g.days && g'.needsReview == g.needsReview
    && TotalEligible(g', tables, cutoff) == Minus(TotalEligible(g, tables, cutoff), batch)
    && TotalRows(g', tables) == TotalRows(g, tables) - Min(TotalEligible(g, tables, cutoff), batch)
    && PlanStep(g, g', tables, cutoff)
  }

  /** Executing the partial plan for any set of tables at once. */
  lemma CleanRound(g: Gateway, tables: seq<Table>, cutoff: Option<int>, remaining: nat, p: Preview)
    requires Distinct(tables) && AllAscend(g, tables) && tables != []
    requires Plan(g, tables, cutoff, remaining, true) == Some(p.targets)
    ensures RemovesBatch(g, CleanTables(g, tables, p), tables, cutoff, remaining)
  {
    var g' := CleanTables(g, tables, p);
    CleanTablesRows(g, tables, p, tables[0]);
    forall t | t in tables ensures Rows(g', t) == Kept(Rows(g, t), TargetsFor(p, t)) {
      CleanTablesRows(g, tables, p, t);
      RemoveAllIsKept(Rows(g, t), TargetsFor(p, t));
    }
    PlanCounts(g, g', tables, cutoff, remaining, p.targets);
    PlanMembers(g, g', tables, cutoff, remaining, p.targets);
  }

  /** One round removes min(100 000, eligible) rows, all of them eligible, and nothing else. */
  lemma MaintenanceRound(g: Gateway, now: int)
    requires Wf(g) && !Unreviewed(g)
    ensures RemovesBatch(g, Maintain(g, now), HISTORY_TABLES, Cutoff(now, g.days), MAINTENANCE_BATCH_RECORDS)
    ensures Wf(Maintain(g, now))
  {
    var p := MaintainCleans(g, now);
    CleanRound(g, HISTORY_TABLES, Cutoff(now, g.days), MAINTENANCE_BATCH_RECORDS, p);
  }

  lemma MaintainCleans(g: Gateway, now: int) returns (p: Preview)
    requires Wf(g) && !Unreviewed(g)
    ensures Maintain(g, now) == CleanTables(g, HISTORY_TABLES, p)
    ensures Plan(g, HISTORY_TABLES, Cutoff(now, g.days), MAINTENANCE_BATCH_RECORDS, true) == Some(p.targets)
  {
    p := MaintenancePreview(g, now);
    PlanKeys(g, HISTORY_TABLES, Cutoff(now, g.days), MAINTENANCE_BATCH_RECORDS);
  }

  /** Nothing is deleted on its own until the policy was reviewed, nor when rows are kept for ever. */
  lemma UnreviewedIsLeft(g: Gateway, now: int)
    requires g.needsReview || g.days == 0
    ensures Maintain(g, now) == g
  {
  }

  /** A cleanup planned under one policy does nothing once that policy awaits review or keeps rows for another time. */
  lemma OtherPolicyIsLeft(g: Gateway, p: Preview)
    requires p.policyDays.Some? && (g.needsReview || p.policyDays != Some(g.days))
    ensures Cleanup(g, p) == g
  {
  }

  function MaintainTimes(g: Gateway, now: int, rounds: nat): Gateway
    decreases rounds
  {
    if rounds == 0 then g else MaintainTimes(Maintain(g, now), now, rounds - 1)
  }

  /** With a fixed clock and no new rows, enough rounds leave nothing eligible. */
  lemma {:induction false} MaintenanceConverges(g: Gateway, now: int, rounds: nat)
    requires Wf(g) && !Unreviewed(g)
    ensures TotalEligible(MaintainTimes(g, now, rounds), HISTORY_TABLES, Cutoff(now, g.days))
         == Minus(TotalEligible(g, HISTORY_TABLES, Cutoff(now, g.days)), rounds * MAINTENANCE_BATCH_RECORDS)
    decreases rounds
  {
    if rounds > 0 {
      MaintenanceRound(g, now);
      MaintenanceConverges(Maintain(g, now), now, rounds - 1);
    }
  }

  // ---------- What is left, in days ----------

  /** The row is older than the given number of days; zero days stand for any age. */
  ghost predicate Aged(r: Record, now: int, days: int) {
    days == 0 || (r.stamp.Some? && r.stamp.value + days * 86400 < now)
  }

  /** An outgoing message that is uncertain or awaits its acknowledgement, and an action that has not finished. */
  ghost predicate Protected(r: Record) {
    || (r.MessageRecord? && r.outgoing && (r.status == MessageStore.Uncertain || (r.status == MessageStore.Queued && r.wantAck)))
    || (r.ActionRecord? && (r.state == Started || r.fingerprint.finished.None?))
  }

  lemma EligibleIs(r: Record, now: int, days: int)
    ensures Eligible(r, Cutoff(now, days)) <==> Aged(r, now, days) && !Protected(r)
  {
  }

  /** Whatever a round removes is older than the retention time of a reviewed policy, and not protected. */
  lemma MaintenanceRemovesOnlyOld(g: Gateway, now: int, t: Table, r: Record)
    requires Wf(g) && t in HISTORY_TABLES && r in Rows(g, t) && r !in Rows(Maintain(g, now), t)
    ensures !g.needsReview && g.days != 0 && r.stamp.Some? && r.stamp.value + g.days * 86400 < now
    ensures !Protected(r)
  {
    if !Unreviewed(g) {
      MaintenanceRound(g, now);
      EligibleIs(r, now, g.days);
    }
  }

  lemma {:induction false} TotalIsZero(g: Gateway, tables: seq<Table>, cutoff: Option<int>, t: Table)
    requires TotalEligible(g, tables, cutoff) == 0 && t in tables
    ensures forall r | r in Rows(g, t) :: !Eligible(r, cutoff)
  {
    if t == tables[0] {
      NoneEligible(Rows(g, t), cutoff);
    } else {
      TotalIsZero(g, tables[1..], cutoff, t);
    }
  }

  lemma {:induction false} EligibleAreRows(g: Gateway, tables: seq<Table>, cutoff: Option<int>)
    ensures TotalEligible(g, tables, cutoff) <= TotalRows(g, tables)
  {
    if tables != [] {
      CountIsBounded(Rows(g, tables[0]), cutoff);
      EligibleAreRows(g, tables[1..], cutoff);
    }
  }

  lemma {:induction false} CountIsBounded(rows: seq<Record>, cutoff: Option<int>)
    ensures CountEligible(rows, cutoff) <= |rows|
  {
    if rows != [] {
      CountIsBounded(rows[1..], cutoff);
    }
  }

  lemma RoundMembers(g: Gateway, now: int, t: Table)
    requires Wf(g) && !Unreviewed(g) && t in HISTORY_TABLES
    ensures var g' := Maintain(g, now);
            && Wf(g') && !Unreviewed(g') && g'.days == g.days && (forall r | r in Rows(g', t) :: r in Rows(g, t))
            && forall r | r in Rows(g, t) && !Eligible(r, Cutoff(now, g.days)) :: r in Rows(g', t)
  {
    MaintenanceRound(g, now);
  }

  lemma {:induction false} RoundsMembers(g: Gateway, now: int, rounds: nat, t: Table)
    requires Wf(g) && !Unreviewed(g) && t in HISTORY_TABLES
    ensures MaintainTimes(g, now, rounds).days == g.days
    ensures forall r | r in Rows(MaintainTimes(g, now, rounds), t) :: r in Rows(g, t)
    ensures forall r | r in Rows(g, t) && !Eligible(r, Cutoff(now, g.days)) :: r in Rows(MaintainTimes(g, now, rounds), t)
    decreases rounds
  {
    if rounds > 0 {
      RoundMembers(g, now, t);
      RoundsMembers(Maintain(g, now), now, rounds - 1, t);
    }
  }

  /** Enough rounds with a fixed clock leave exactly the rows that are younger than the policy or protected. */
  lemma MaintenanceLeavesExactly(g: Gateway, now: int, rounds: nat, t: Table, r: Record)
    requires Wf(g) && !g.needsReview && g.days != 0 && t in HISTORY_TABLES
    requires rounds * 100_000 >= TotalRows(g, HISTORY_TABLES)
    ensures r in Rows(MaintainTimes(g, now, rounds), t) <==>
              r in Rows(g, t) && ((r.stamp.Some? ==> r.stamp.value + g.days * 86400 >= now) || Protected(r))
  {
    RoundsMembers(g, now, rounds, t);
    EligibleIs(r, now, g.days);
    NothingLeft(g, now, rounds, t);
  }

  lemma NothingLeft(g: Gateway, now: int, rounds: nat, t: Table)
    requires Wf(g) && !Unreviewed(g) && t in HISTORY_TABLES && rounds * 100_000 >= TotalRows(g, HISTORY_TABLES)
    ensures forall r | r in Rows(MaintainTimes(g, now, rounds), t) :: !Eligible(r, Cutoff(now, g.days))
  {
    EligibleAreRows(g, HISTORY_TABLES, Cutoff(now, g.days));
    MaintenanceConverges(g, now, rounds);
    TotalIsZero(MaintainTimes(g, now, rounds), HISTORY_TABLES, Cutoff(now, g.days), t);
  }

  /**
   A user's cleanup, carried out as it was previewed, leaves exactly the rows outside its scope, the younger ones and
   the protected ones.
   */
  lemma CleanupLeavesExactly(g: Gateway, whole: bool, days: int, now: int, p: Preview, t: Table, r: Record)
    requires Wf(g) && t in HISTORY_TABLES && p.policyDays.None?
    requires Plan(g, ScopeTables(whole), Cutoff(now, days), MAX_CLEANUP_RECORDS, false) == Some(p.targets)
    ensures r in Rows(Cleanup(g, p), t) <==>
              r in Rows(g, t) && ((!whole && t != Messages) || !Aged(r, now, days) || Protected(r))
  {
    EligibleIs(r, now, days);
    ScopeHolds(whole, t);
    CleanupRows(g, p, t);
    SelectionRows(g, ScopeTables(whole), Cutoff(now, days), p, t);
  }

  lemma ScopeHolds(whole: bool, t: Table)
    ensures t in HISTORY_TABLES ==> (t in ScopeTables(whole) <==> whole || t == Messages)
  {
  }

  lemma CleanupRows(g: Gateway, p: Preview, t: Table)
    requires t in HISTORY_TABLES && p.policyDays.None?
    ensures Rows(Cleanup(g, p), t) == Kept(Rows(g, t), TargetsFor(p, t))
  {
    CleanTablesRows(g, HISTORY_TABLES, p, t);
    RemoveAllIsKept(Rows(g, t), TargetsFor(p, t));
  }

  /** The rows of one table that the targets of an accepted plan leave. */
  lemma SelectionRows(g: Gateway, tables: seq<Table>, cutoff: Option<int>, p: Preview, t: Table)
    requires IdsAscend(Rows(g, t)) && Plan(g, tables, cutoff, MAX_CLEANUP_RECORDS, false) == Some(p.targets)
    ensures forall r :: r in Kept(Rows(g, t), TargetsFor(p, t)) <==> r in Rows(g, t) && (t !in tables || !Eligible(r, cutoff))
  {
    PreviewRefusesIff(g, tables, cutoff, MAX_CLEANUP_RECORDS);
    if t in tables {
      SelectedAreKept(Rows(g, t), cutoff);
    } else {
      KeptWithoutTargets(Rows(g, t));
    }
  }

  lemma SelectedAreKept(rows: seq<Record>, cutoff: Option<int>)
    requires IdsAscend(rows)
    ensures forall r :: r in Kept(rows, Targets(EligibleRows(rows, cutoff))) <==> r in rows && !Eligible(r, cutoff)
  {
    var limit := CountEligible(rows, cutoff);
    FirstIsAll(rows, cutoff, limit);
    ImmediateCleanup(rows, cutoff, limit);
    WithoutFirstCounts(rows, cutoff, limit);
    WithoutFirstMembers(rows, cutoff, limit);
    NoneEligible(WithoutFirst(rows, cutoff, limit), cutoff);
  }
}
