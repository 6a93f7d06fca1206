/**
 Idempotent browser writes.

 Every caller presents an operation ID and a payload. The first caller with an ID becomes
 the owner and executes the IPC call; later callers with the same payload wait for, or are
 handed, the owner's answer. The model has two layers: the fields guarded by the operation
 lock (`Ledger`, mirrored by the class `WebApplication`), and a machine of concurrent callers
 in which every lock-protected region is one step.
 */
module WebDispatch {
  import opened Options

  const RETENTION_SECONDS := 3600
  const MAX_RESULTS: nat := 1024
  const OK_STATUS := 200
  const UNAVAILABLE_STATUS := 503
  const UNREADABLE := "Svaret frå daemonen kunne ikkje lesast."
  const CHECK_HISTORY :=
    " Kontroller historikken før du prøver handlinga på nytt; daemonen kan ha motteke førespurnaden."

  /** What the IPC call does: it answers, or it fails in an unexpected way. */
  datatype Outcome = Answered(status: int, body: string) | Raised

  datatype Reply = Reply(status: int, body: string)

  /** A registered operation; `response` is set exactly when its event is. */
  datatype Operation = Operation(id: string, fingerprint: string, response: Option<Reply>)

  /** A retained answer. `operation` records which registration produced it; no branch reads it. */
  datatype Retained = Retained(id: string, time: int, fingerprint: string, reply: Reply, operation: nat)

  /** The fields guarded by the operation lock. `results` is in insertion order. */
  datatype Ledger = Ledger(operations: seq<Operation>, pending: map<string, nat>, results: seq<Retained>)

  datatype Admission = Conflict | Replay(operation: nat, reply: Reply) | Join(operation: nat) | Own(operation: nat)

  datatype OperationState = Completed(reply: Reply) | InProgress | Unknown

  function FinalReply(outcome: Outcome): Reply {
    match outcome
    case Answered(status, body) =>
      if status == OK_STATUS then Reply(status, body) else Reply(status, body + CHECK_HISTORY)
    case Raised => Reply(UNAVAILABLE_STATUS, UNREADABLE + CHECK_HISTORY)
  }

  function Expire(results: seq<Retained>, cutoff: int): seq<Retained> {
    if results != [] && results[0].time < cutoff then Expire(results[1..], cutoff) else results
  }

  function IndexOf(results: seq<Retained>, id: string): (index: Option<nat>)
    ensures index.Some? ==> index.value < |results| && results[index.value].id == id
    ensures index.None? ==> forall r | r in results :: r.id != id
  {
    if results == [] then None
    else if results[0].id == id then Some(0)
    else match IndexOf(results[1..], id)
      case None => None
      case Some(i) => Some(i + 1)
  }

  function Evict(results: seq<Retained>): seq<Retained> {
    if |results| > MAX_RESULTS then results[|results| - MAX_RESULTS..] else results
  }

  /** Assignment to an ordered dictionary: an existing key keeps its position. */
  function Store(results: seq<Retained>, entry: Retained): seq<Retained> {
    match IndexOf(results, entry.id)
    case Some(i) => results[i := entry]
    case None => results + [entry]
  }

  /** The first lock region of a dispatch. */
  function Admit(ledger: Ledger, id: string, fingerprint: string, now: int): (Ledger, Admission)
    requires forall k | k in ledger.pending :: ledger.pending[k] < |ledger.operations|
  {
    var results := Expire(ledger.results, now - RETENTION_SECONDS);
    var expired := ledger.(results := results);
    match IndexOf(results, id)
    case Some(i) =>
      if results[i].fingerprint != fingerprint then (expired, Conflict)
      else (expired, Replay(results[i].operation, results[i].reply))
    case None =>
      if id in ledger.pending then
        var op := ledger.pending[id];
        if ledger.operations[op].fingerprint != fingerprint then (expired, Conflict) else (expired, Join(op))
      else
        var op := |ledger.operations|;
        (Ledger(ledger.operations + [Operation(id, fingerprint, None)], ledger.pending[id := op], results), Own(op))
  }

  /** The lock region in which the owner publishes its answer. */
  function Publish(ledger: Ledger, op: nat, started: int, reply: Reply): Ledger
    requires op < |ledger.operations|
  {
    var o := ledger.operations[op];
    Ledger(
      ledger.operations[op := o.(response := Some(reply))],
      ledger.pending - {o.id},
      Evict(Store(ledger.results, Retained(o.id, started, o.fingerprint, reply, op))))
  }

  function StateOf(ledger: Ledger, id: string): OperationState {
    match IndexOf(ledger.results, id)
    case Some(i) => Completed(ledger.results[i].reply)
    case None => if id in ledger.pending then InProgress else Unknown
  }

  // ---------- The object with its fields updated in place ----------

  class WebApplication {
    var operations: seq<Operation>
    var pending: map<string, nat>
    var results: seq<Retained>

    ghost function Model(): Ledger
      reads this
    {
      Ledger(operations, pending, results)
    }

    ghost predicate Valid()
      reads this
    {
      forall k | k in pending :: pending[k] < |operations|
    }

    constructor ()
      ensures Valid() && Model() == Ledger([], map[], [])
    {
      operations, pending, results := [], map[], [];
    }

    method ExpireResults(now: int)
      modifies this`results
      ensures results == Expire(old(results), now - RETENTION_SECONDS)
    {
      var cutoff := now - RETENTION_SECONDS;
      while results != [] && results[0].time < cutoff
        invariant Expire(results, cutoff) == Expire(old(results), cutoff)
        decreases |results|
      {
        results := results[1..];
      }
    }

    method Register(id: string, fingerprint: string, now: int) returns (admission: Admission)
      requires Valid()
      modifies this
      ensures Valid()
      ensures (Model(), admission) == Admit(old(Model()), id, fingerprint, now)
    {
      ExpireResults(now);
      var previous := IndexOf(results, id);
      if previous.Some? {
        var entry := results[previous.value];
        if entry.fingerprint != fingerprint {
          return Conflict;
        }
        return Replay(entry.operation, entry.reply);
      }
      if id !in pending {
        admission := Own(|operations|);
        pending := pending[id := |operations|];
        operations := operations + [Operation(id, fingerprint, None)];
      } else if operations[pending[id]].fingerprint != fingerprint {
        admission := Conflict;
      } else {
        admission := Join(pending[id]);
      }
    }

    method Complete(op: nat, started: int, outcome: Outcome)
      requires Valid() && op < |operations|
      modifies this
      ensures Valid()
      ensures Model() == Publish(old(Model()), op, started, FinalReply(outcome))
    {
      var reply := FinalReply(outcome);
      var o := operations[op];
      results := Store(results, Retained(o.id, started, o.fingerprint, reply, op));
      operations := operations[op := o.(response := Some(reply))];
      pending := pending - {o.id};
      ghost var stored := results;
      while |results| > MAX_RESULTS
        invariant Evict(results) == Evict(stored)
        invariant operations == old(operations)[op := o.(response := Some(reply))]
        invariant pending == old(pending) - {o.id}
        decreases |results|
      {
        results := results[1..];
      }
    }

    method Query(id: string, now: int) returns (state: OperationState)
      requires Valid()
      modifies this`results
      ensures Model() == old(Model()).(results := Expire(old(results), now - RETENTION_SECONDS))
      ensures state == StateOf(Model(), id)
    {
      ExpireResults(now);
      var previous := IndexOf(results, id);
      if previous.Some? {
        state := Completed(results[previous.value].reply);
      } else if id in pending {
        state := InProgress;
      } else {
        state := Unknown;
      }
    }
  }

  // ---------- Facts about the ordered result cache ----------

  ghost predicate InTimeOrder(results: seq<Retained>) {
    forall i, j | 0 <= i < j < |results| :: results[i].time <= results[j].time
  }

  ghost predicate DistinctIds(results: seq<Retained>) {
    forall i, j | 0 <= i < j < |results| :: results[i].id != results[j].id
  }

  /** Reference definition: every entry that is still inside the retention window, in order. */
  function Unexpired(results: seq<Retained>, cutoff: int): seq<Retained> {
    if results == [] then []
    else if results[0].time >= cutoff then [results[0]] + Unexpired(results[1..], cutoff)
    else Unexpired(results[1..], cutoff)
  }

  lemma {:induction false} UnexpiredKeepsFresh(results: seq<Retained>, cutoff: int)
    requires forall r | r in results :: r.time >= cutoff
    ensures Unexpired(results, cutoff) == results
  {
    if results != [] {
      assert results[0] in results;
      UnexpiredKeepsFresh(results[1..], cutoff);
    }
  }

  /** Popping expired entries from the head only removes exactly the expired ones. */
  lemma {:induction false} HeadExpiryIsExact(results: seq<Retained>, cutoff: int)
    requires InTimeOrder(results)
    ensures Expire(results, cutoff) == Unexpired(results, cutoff)
  {
    if results == [] {
    } else if results[0].time < cutoff {
      HeadExpiryIsExact(results[1..], cutoff);
    } else {
      forall r | r in results ensures r.time >= cutoff {
        var i :| 0 <= i < |results| && results[i] == r;
      }
      UnexpiredKeepsFresh(results, cutoff);
    }
  }

  lemma {:induction false} ExpireIsSuffix(results: seq<Retained>, cutoff: int)
    ensures exists n: nat | n <= |results| :: Expire(results, cutoff) == results[n..]
  {
    if results != [] && results[0].time < cutoff {
      ExpireIsSuffix(results[1..], cutoff);
      var n: nat :| n <= |results[1..]| && Expire(results[1..], cutoff) == results[1..][n..];
      assert results[1..][n..] == results[n + 1..];
    } else {
      assert results[0..] == results;
    }
  }

  // ---------- Concurrent callers ----------

  datatype Stage =
    | Idle
    | Waiting(operation: nat)
    | Queued(operation: nat)
    | Running(operation: nat, started: int)
    | Answering(operation: nat, started: int, reply: Reply)
    | Rejected
    | Replied(operation: nat, reply: Reply)

  datatype Caller = Caller(id: string, fingerprint: string, stage: Stage)

  /**
   All callers of one process. `writer` is the holder of the write lock. `calls` and `owners`
   count the IPC executions and name the owning caller of each operation; no step reads them.
   */
  datatype World = World(
    ledger: Ledger, callers: seq<Caller>, writer: Option<nat>, clock: int,
    calls: seq<nat>, owners: seq<nat>)

  datatype Event =
    | Arrive(caller: nat)
    | TakeWriteLock(caller: nat)
    | Execute(caller: nat, outcome: Outcome)
    | Answer(caller: nat)
    | Wake(caller: nat)
    | AskStatus
    | Tick(clock: int)

  function Owned(stage: Stage): Option<nat> {
    match stage
    case Queued(op) => Some(op)
    case Running(op, _) => Some(op)
    case Answering(op, _, _) => Some(op)
    case _ => None
  }

  predicate Finished(stage: Stage) {
    stage.Rejected? || stage.Replied?
  }

  predicate HoldsWriteLock(stage: Stage) {
    stage.Running? || stage.Answering?
  }

  predicate Known(w: World, op: nat) {
    op < |w.ledger.operations| == |w.calls|
  }

  /** Whether a step can be taken now; `Known` bounds hold in every reachable state. */
  predicate Enabled(w: World, e: Event) {
    match e
    case Arrive(c) =>
      && c < |w.callers| && w.callers[c].stage.Idle?
      && forall id | id in w.ledger.pending :: w.ledger.pending[id] < |w.ledger.operations|
    case TakeWriteLock(c) => c < |w.callers| && w.callers[c].stage.Queued? && w.writer.None?
    case Execute(c, _) => c < |w.callers| && w.callers[c].stage.Running? && Known(w, w.callers[c].stage.operation)
    case Answer(c) => c < |w.callers| && w.callers[c].stage.Answering? && Known(w, w.callers[c].stage.operation)
    case Wake(c) =>
      && c < |w.callers| && w.callers[c].stage.Waiting? && Known(w, w.callers[c].stage.operation)
      && w.ledger.operations[w.callers[c].stage.operation].response.Some?
    case AskStatus => true
    case Tick(clock) => w.clock <= clock
  }

  function Move(w: World, c: nat, stage: Stage): seq<Caller>
    requires c < |w.callers|
  {
    w.callers[c := w.callers[c].(stage := stage)]
  }

  function StageAfter(admission: Admission): Stage {
    match admission
    case Conflict => Rejected
    case Replay(op, reply) => Replied(op, reply)
    case Join(op) => Waiting(op)
    case Own(op) => Queued(op)
  }

  function Apply(w: World, e: Event): World
    requires Enabled(w, e)
  {
    match e
    case Arrive(c) =>
      var (ledger, admission) := Admit(w.ledger, w.callers[c].id, w.callers[c].fingerprint, w.clock);
      var w1 := w.(ledger := ledger, callers := Move(w, c, StageAfter(admission)));
      if admission.Own? then w1.(calls := w.calls + [0], owners := w.owners + [c]) else w1
    case TakeWriteLock(c) =>
      w.(writer := Some(c), callers := Move(w, c, Running(w.callers[c].stage.operation, w.clock)))
    case Execute(c, outcome) =>
      var Running(op, started) := w.callers[c].stage;
      w.(calls := w.calls[op := w.calls[op] + 1],
         callers := Move(w, c, Answering(op, started, FinalReply(outcome))))
    case Answer(c) =>
      var Answering(op, started, reply) := w.callers[c].stage;
      w.(ledger := Publish(w.ledger, op, started, reply), writer := None,
         callers := Move(w, c, Replied(op, reply)))
    case Wake(c) =>
      var op := w.callers[c].stage.operation;
      w.(callers := Move(w, c, Replied(op, w.ledger.operations[op].response.value)))
    case AskStatus =>
      w.(ledger := w.ledger.(results := Expire(w.ledger.results, w.clock - RETENTION_SECONDS)))
    case Tick(clock) => w.(clock := clock)
  }

  ghost predicate Initial(w: World) {
    && w.ledger == Ledger([], map[], []) && w.writer.None? && w.calls == [] && w.owners == []
    && forall c | 0 <= c < |w.callers| :: w.callers[c].stage.Idle?
  }

  // The invariant, one concern at a time.

  /** No later registration of the same ID exists. */
  ghost predicate Latest(operations: seq<Operation>, op: nat)
    requires op < |operations|
  {
    forall j | op < j < |operations| :: operations[j].id != operations[op].id
  }

  ghost predicate PendingInv(l: Ledger) {
    && (forall id | id in l.pending ::
          l.pending[id] < |l.operations| && l.operations[l.pending[id]].id == id
          && l.operations[l.pending[id]].response.None? && Latest(l.operations, l.pending[id]))
    && (forall k | 0 <= k < |l.operations| && l.operations[k].response.None? ::
          l.operations[k].id in l.pending && l.pending[l.operations[k].id] == k)
  }

  ghost predicate Matches(l: Ledger, r: Retained) {
    && r.operation < |l.operations| && l.operations[r.operation].id == r.id
    && l.operations[r.operation].fingerprint == r.fingerprint
    && l.operations[r.operation].response == Some(r.reply)
    && Latest(l.operations, r.operation)
    && r.id !in l.pending
  }

  ghost predicate ResultsInv(l: Ledger, clock: int) {
    && InTimeOrder(l.results) && DistinctIds(l.results)
    && (forall r | r in l.results :: Matches(l, r) && r.time <= clock)
  }

  ghost predicate LedgerInv(l: Ledger, clock: int) {
    PendingInv(l) && ResultsInv(l, clock) && |l.results| <= MAX_RESULTS
  }

  ghost predicate CallerInv(w: World, c: nat)
    requires c < |w.callers| && |w.calls| == |w.ledger.operations| == |w.owners|
  {
    var caller := w.callers[c];
    var ops := w.ledger.operations;
    && (caller.stage.Waiting? || Owned(caller.stage).Some? || caller.stage.Replied? ==>
          caller.stage.operation < |ops| && ops[caller.stage.operation].id == caller.id
          && ops[caller.stage.operation].fingerprint == caller.fingerprint)
    && (Owned(caller.stage).Some? ==>
          ops[caller.stage.operation].response.None? && w.owners[caller.stage.operation] == c
          && w.calls[caller.stage.operation] == if caller.stage.Answering? then 1 else 0)
    && (HoldsWriteLock(caller.stage) ==>
          w.writer == Some(c) && caller.stage.started <= w.clock
          && forall r | r in w.ledger.results :: r.time <= caller.stage.started)
    && (caller.stage.Replied? ==> ops[caller.stage.operation].response == Some(caller.stage.reply))
  }

  ghost predicate OperationInv(w: World, k: nat)
    requires k < |w.ledger.operations| && |w.calls| == |w.ledger.operations| == |w.owners|
  {
    if w.ledger.operations[k].response.Some? then w.calls[k] == 1
    else w.owners[k] < |w.callers| && Owned(w.callers[w.owners[k]].stage) == Some(k)
  }

  ghost predicate Inv(w: World) {
    && |w.calls| == |w.ledger.operations| == |w.owners|
    && LedgerInv(w.ledger, w.clock)
    && (forall c | 0 <= c < |w.callers| :: CallerInv(w, c))
    && (forall k | 0 <= k < |w.ledger.operations| :: OperationInv(w, k))
    && (w.writer.Some? ==> w.writer.value < |w.callers| && HoldsWriteLock(w.callers[w.writer.value].stage))
  }

  lemma SuffixKeepsResultsInv(l: Ledger, n: nat, clock: int)
    requires ResultsInv(l, clock) && n <= |l.results|
    ensures ResultsInv(l.(results := l.results[n..]), clock)
    ensures forall r | r in l.results[n..] :: r in l.results
  {
    var shorter := l.(results := l.results[n..]);
    forall r | r in shorter.results ensures r in l.results && Matches(shorter, r) && r.time <= clock {
      assert Matches(l, r);
    }
  }

  lemma ExpireKeepsLedgerInv(l: Ledger, cutoff: int, clock: int)
    requires LedgerInv(l, clock)
    ensures LedgerInv(l.(results := Expire(l.results, cutoff)), clock)
    ensures forall r | r in Expire(l.results, cutoff) :: r in l.results
  {
    ExpireIsSuffix(l.results, cutoff);
    var n: nat :| n <= |l.results| && Expire(l.results, cutoff) == l.results[n..];
    SuffixKeepsResultsInv(l, n, clock);
  }

  /** Registering an ID that is neither retained nor pending. */
  lemma RegisterKeepsInv(l: Ledger, id: string, fingerprint: string, clock: int)
    requires LedgerInv(l, clock) && id !in l.pending && forall r | r in l.results :: r.id != id
    ensures LedgerInv(Ledger(l.operations + [Operation(id, fingerprint, None)], l.pending[id := |l.operations|], l.results), clock)
  {
    var l' := Ledger(l.operations + [Operation(id, fingerprint, None)], l.pending[id := |l.operations|], l.results);
    assert forall j | 0 <= j < |l.operations| :: l'.operations[j] == l.operations[j];
    forall r | r in l'.results ensures Matches(l', r) && r.time <= clock {
      assert Matches(l, r);
    }
    assert PendingInv(l');
  }

  lemma AdmitKeepsLedgerInv(l: Ledger, id: string, fingerprint: string, clock: int)
    requires LedgerInv(l, clock)
    ensures LedgerInv(Admit(l, id, fingerprint, clock).0, clock)
    ensures forall r | r in Admit(l, id, fingerprint, clock).0.results :: r in l.results
  {
    var e := l.(results := Expire(l.results, clock - RETENTION_SECONDS));
    ExpireKeepsLedgerInv(l, clock - RETENTION_SECONDS, clock);
    if IndexOf(e.results, id).None? && id !in l.pending {
      RegisterKeepsInv(e, id, fingerprint, clock);
    }
  }

  /** What the admitted caller learns about its operation. */
  ghost predicate Admitted(l: Ledger, admission: Admission, id: string, fingerprint: string) {
    match admission
    case Conflict => true
    case Replay(op, reply) => op < |l.operations| && l.operations[op] == Operation(id, fingerprint, Some(reply))
    case Join(op) => op < |l.operations| && l.operations[op].id == id && l.operations[op].fingerprint == fingerprint
    case Own(op) => op + 1 == |l.operations| && l.operations[op] == Operation(id, fingerprint, None)
  }

  lemma AdmitFacts(l: Ledger, id: string, fingerprint: string, clock: int)
    requires LedgerInv(l, clock)
    ensures var (l', admission) := Admit(l, id, fingerprint, clock);
            Admitted(l', admission, id, fingerprint) && l.operations <= l'.operations
            && (if admission.Own? then |l'.operations| == |l.operations| + 1 else l'.operations == l.operations)
  {
    ExpireKeepsLedgerInv(l, clock - RETENTION_SECONDS, clock);
    var results := Expire(l.results, clock - RETENTION_SECONDS);
    var found := IndexOf(results, id);
    if found.Some? {
      assert results[found.value] in results && Matches(l, results[found.value]);
    }
  }

  /** Setting the response and leaving the pending table, before anything is retained. */
  lemma SettleKeepsInv(l: Ledger, op: nat, reply: Reply, clock: int)
    requires PendingInv(l) && ResultsInv(l, clock) && op < |l.operations| && l.operations[op].response.None?
    ensures var o := l.operations[op];
            var settled := l.(operations := l.operations[op := o.(response := Some(reply))], pending := l.pending - {o.id});
            && PendingInv(settled) && ResultsInv(settled, clock) && Latest(settled.operations, op)
            && o.id !in settled.pending && forall r | r in l.results :: r.id != o.id
  {
    var o := l.operations[op];
    var settled := l.(operations := l.operations[op := o.(response := Some(reply))], pending := l.pending - {o.id});
    assert o.id in l.pending && l.pending[o.id] == op;
    assert forall j | 0 <= j < |l.operations| :: settled.operations[j].id == l.operations[j].id;
    forall r | r in l.results ensures r.id != o.id && Matches(settled, r) {
      assert Matches(l, r);
    }
  }

  lemma RetainKeepsInv(l: Ledger, entry: Retained, clock: int)
    requires PendingInv(l) && ResultsInv(l, clock) && Matches(l, entry)
    requires entry.time <= clock && forall r | r in l.results :: r.time <= entry.time && r.id != entry.id
    ensures ResultsInv(l.(results := l.results + [entry]), clock)
    ensures Store(l.results, entry) == l.results + [entry]
  {
    var full := l.(results := l.results + [entry]);
    forall r | r in full.results ensures Matches(full, r) && r.time <= clock {
      if r != entry {
        assert r in l.results && Matches(l, r);
      } else {
        assert Matches(l, entry);
      }
    }
  }

  lemma PublishKeepsLedgerInv(l: Ledger, op: nat, started: int, reply: Reply, clock: int)
    requires LedgerInv(l, clock) && op < |l.operations| && l.operations[op].response.None?
    requires started <= clock && forall r | r in l.results :: r.time <= started
    ensures LedgerInv(Publish(l, op, started, reply), clock)
  {
    var o := l.operations[op];
    var settled := l.(operations := l.operations[op := o.(response := Some(reply))], pending := l.pending - {o.id});
    var entry := Retained(o.id, started, o.fingerprint, reply, op);
    var full := settled.(results := l.results + [entry]);
    var n := if |full.results| > MAX_RESULTS then |full.results| - MAX_RESULTS else 0;
    SettledLedger(l, op, started, reply, clock, settled, entry);
    SuffixKeepsResultsInv(full, n, clock);
    assert full.results[0..] == full.results;
    assert Publish(l, op, started, reply) == full.(results := full.results[n..]);
  }

  lemma SettledLedger(l: Ledger, op: nat, started: int, reply: Reply, clock: int, settled: Ledger, entry: Retained)
    requires LedgerInv(l, clock) && op < |l.operations| && l.operations[op].response.None?
    requires started <= clock && forall r | r in l.results :: r.time <= started
    requires var o := l.operations[op];
             && settled == l.(operations := l.operations[op := o.(response := Some(reply))], pending := l.pending - {o.id})
             && entry == Retained(o.id, started, o.fingerprint, reply, op)
    ensures PendingInv(settled) && ResultsInv(settled.(results := l.results + [entry]), clock)
    ensures Store(l.results, entry) == l.results + [entry]
  {
    SettleKeepsInv(l, op, reply, clock);
    RetainKeepsInv(settled, entry, clock);
  }

  /** A caller that does not move is unaffected when operations are only added and results only dropped. */
  lemma BystanderKeepsInv(w: World, w': World, d: nat)
    requires |w.calls| == |w.ledger.operations| == |w.owners|
    requires |w'.calls| == |w'.ledger.operations| == |w'.owners|
    requires w.ledger.operations <= w'.ledger.operations && w.calls <= w'.calls && w.owners <= w'.owners
    requires forall r | r in w'.ledger.results :: r in w.ledger.results
    requires w.clock <= w'.clock && w.writer == w'.writer
    requires d < |w.callers| == |w'.callers| && w'.callers[d] == w.callers[d] && CallerInv(w, d)
    ensures CallerInv(w', d)
  {
  }

  /** What an arrival may change: at most one operation is added, owned by the arriving caller. */
  ghost predicate Extends(w: World, w': World, c: nat)
    requires c < |w.callers|
  {
    && w.ledger.operations <= w'.ledger.operations && w.calls <= w'.calls && w.owners <= w'.owners
    && |w'.calls| == |w'.ledger.operations| == |w'.owners| <= |w.calls| + 1
    && (forall r | r in w'.ledger.results :: r in w.ledger.results)
    && w'.clock == w.clock && w'.writer == w.writer
    && |w'.callers| == |w.callers| && (forall d | 0 <= d < |w.callers| && d != c :: w'.callers[d] == w.callers[d])
    && (|w'.calls| > |w.calls| ==> w'.owners[|w.calls|] == c && w'.callers[c].stage == Queued(|w.calls|)
                                   && w'.ledger.operations[|w.calls|].response.None?)
  }

  lemma ExtensionKeepsInv(w: World, w': World, c: nat)
    requires Inv(w) && c < |w.callers| && Owned(w.callers[c].stage).None? && Extends(w, w', c)
    requires LedgerInv(w'.ledger, w'.clock) && CallerInv(w', c)
    ensures Inv(w')
  {
    forall d | 0 <= d < |w'.callers| ensures CallerInv(w', d) {
      if d != c {
        assert CallerInv(w, d);
        BystanderKeepsInv(w, w', d);
      }
    }
    forall k | 0 <= k < |w'.ledger.operations| ensures OperationInv(w', k) {
      if k < |w.ledger.operations| {
        assert OperationInv(w, k);
      }
    }
  }

  lemma ArrivalExtends(w: World, c: nat)
    requires |w.calls| == |w.ledger.operations| == |w.owners| && Enabled(w, Arrive(c))
    ensures Extends(w, Apply(w, Arrive(c)), c)
  {
    ExpireIsSuffix(w.ledger.results, w.clock - RETENTION_SECONDS);
  }

  lemma ArrivalKeepsLedgerInv(w: World, c: nat)
    requires LedgerInv(w.ledger, w.clock) && Enabled(w, Arrive(c))
    ensures LedgerInv(Apply(w, Arrive(c)).ledger, Apply(w, Arrive(c)).clock)
  {
    AdmitKeepsLedgerInv(w.ledger, w.callers[c].id, w.callers[c].fingerprint, w.clock);
  }

  lemma ArriveKeepsInv(w: World, c: nat)
    requires Inv(w) && Enabled(w, Arrive(c))
    ensures Inv(Apply(w, Arrive(c)))
  {
    ArrivalKeepsLedgerInv(w, c);
    ArrivedCallerInv(w, c);
    ArrivalExtends(w, c);
    ExtensionKeepsInv(w, Apply(w, Arrive(c)), c);
  }

  lemma ArrivedCallerInv(w: World, c: nat)
    requires Inv(w) && Enabled(w, Arrive(c))
    ensures |Apply(w, Arrive(c)).calls| == |Apply(w, Arrive(c)).ledger.operations| == |Apply(w, Arrive(c)).owners|
    ensures CallerInv(Apply(w, Arrive(c)), c)
  {
    var caller := w.callers[c];
    AdmitFacts(w.ledger, caller.id, caller.fingerprint, w.clock);
    var (ledger, admission) := Admit(w.ledger, caller.id, caller.fingerprint, w.clock);
    var w' := Apply(w, Arrive(c));
    assert w'.ledger == ledger && w'.callers[c] == caller.(stage := StageAfter(admission));
    if admission.Own? {
      assert w'.calls[|w.calls|] == 0 && w'.owners[|w.calls|] == c;
    }
  }

  /** The effect of answering operation `op` on the parts other callers look at. */
  ghost predicate Answers(w: World, w': World, c: nat, op: nat, reply: Reply) {
    && op < |w.ledger.operations| && c < |w.callers|
    && w'.ledger.operations == w.ledger.operations[op := w.ledger.operations[op].(response := Some(reply))]
    && w'.callers == Move(w, c, Replied(op, reply)) && w'.calls == w.calls && w'.owners == w.owners
    && w'.writer.None? && w'.clock == w.clock
  }

  lemma AnsweredCallerInv(w: World, w': World, c: nat, op: nat, reply: Reply, d: nat)
    requires |w.calls| == |w.ledger.operations| == |w.owners| && Answers(w, w', c, op, reply) && d < |w.callers|
    requires CallerInv(w, c) && CallerInv(w, d) && w.callers[c].stage.Answering? && w.callers[c].stage.operation == op
    ensures CallerInv(w', d)
  {
    if d != c {
      assert !HoldsWriteLock(w.callers[d].stage);
      assert Owned(w.callers[d].stage) != Some(op);
    }
  }

  lemma AnsweredOperationInv(w: World, w': World, c: nat, op: nat, reply: Reply, k: nat)
    requires |w.calls| == |w.ledger.operations| == |w.owners| && Answers(w, w', c, op, reply) && k < |w.calls|
    requires CallerInv(w, c) && OperationInv(w, k) && w.callers[c].stage.Answering? && w.callers[c].stage.operation == op
    ensures OperationInv(w', k)
  {
  }

  lemma AnswerKeepsInv(w: World, c: nat)
    requires Inv(w) && Enabled(w, Answer(c))
    ensures Inv(Apply(w, Answer(c)))
  {
    assert CallerInv(w, c);
    var Answering(op, started, reply) := w.callers[c].stage;
    PublishKeepsLedgerInv(w.ledger, op, started, reply, w.clock);
    var w' := Apply(w, Answer(c));
    assert Answers(w, w', c, op, reply);
    forall d | 0 <= d < |w'.callers| ensures CallerInv(w', d) {
      AnsweredCallerInv(w, w', c, op, reply, d);
    }
    forall k | 0 <= k < |w'.ledger.operations| ensures OperationInv(w', k) {
      AnsweredOperationInv(w, w', c, op, reply, k);
    }
  }

  lemma WriterKeepsInv(w: World, e: Event)
    requires Inv(w) && Enabled(w, e) && (e.TakeWriteLock? || e.Execute?)
    ensures Inv(Apply(w, e))
  {
    var w' := Apply(w, e);
    assert CallerInv(w, e.caller);
    forall d | 0 <= d < |w'.callers| ensures CallerInv(w', d) {
      assert CallerInv(w, d);
    }
    forall k | 0 <= k < |w'.ledger.operations| ensures OperationInv(w', k) {
      assert OperationInv(w, k);
    }
  }

  lemma WakeKeepsInv(w: World, c: nat)
    requires Inv(w) && Enabled(w, Wake(c))
    ensures Inv(Apply(w, Wake(c)))
  {
    var w' := Apply(w, Wake(c));
    assert CallerInv(w, c);
    forall d | 0 <= d < |w'.callers| ensures CallerInv(w', d) {
      assert CallerInv(w, d);
    }
    forall k | 0 <= k < |w'.ledger.operations| ensures OperationInv(w', k) {
      assert OperationInv(w, k);
    }
  }

  lemma PassiveStepsKeepInv(w: World, e: Event)
    requires Inv(w) && Enabled(w, e) && (e.AskStatus? || e.Tick?)
    ensures Inv(Apply(w, e))
  {
    ExpireKeepsLedgerInv(w.ledger, w.clock - RETENTION_SECONDS, w.clock);
    var w' := Apply(w, e);
    forall d | 0 <= d < |w'.callers| ensures CallerInv(w', d) {
      BystanderKeepsInv(w, w', d);
    }
    forall k | 0 <= k < |w'.ledger.operations| ensures OperationInv(w', k) {
      assert OperationInv(w, k);
    }
  }

  lemma StepKeepsInv(w: World, e: Event)
    requires Inv(w) && Enabled(w, e)
    ensures Inv(Apply(w, e))
  {
    match e
    case Arrive(c) => ArriveKeepsInv(w, c);
    case Answer(c) => AnswerKeepsInv(w, c);
    case Wake(c) => WakeKeepsInv(w, c);
    case AskStatus => PassiveStepsKeepInv(w, e);
    case Tick(_) => PassiveStepsKeepInv(w, e);
    case _ => WriterKeepsInv(w, e);
  }

  // ---------- Whole runs ----------

  /** `trace` is the sequence of states of a run performing `events`. */
  ghost predicate IsRun(trace: seq<World>, events: seq<Event>) {
    && |trace| == |events| + 1 && Initial(trace[0])
    && forall i | 0 <= i < |events| ::
         Enabled(trace[i], events[i]) && trace[i + 1] == Apply(trace[i], events[i])
  }

  lemma {:induction false} RunKeepsInv(trace: seq<World>, events: seq<Event>, n: nat)
    requires IsRun(trace, events) && n < |trace|
    ensures Inv(trace[n])
  {
    if n > 0 {
      RunKeepsInv(trace, events, n - 1);
      StepKeepsInv(trace[n - 1], events[n - 1]);
    }
  }

  /**
   In every interleaving: an operation's IPC call runs at most once, it has run exactly once
   when an answer exists, and pending and retained IDs are disjoint, each naming the only
   live registration of that ID.
   */
  lemma ExactlyOnce(trace: seq<World>, events: seq<Event>, n: nat, op: nat)
    requires IsRun(trace, events) && n < |trace| && op < |trace[n].ledger.operations|
    ensures |trace[n].calls| == |trace[n].ledger.operations|
    ensures trace[n].calls[op] <= 1
    ensures trace[n].ledger.operations[op].response.Some? ==> trace[n].calls[op] == 1
    ensures forall r | r in trace[n].ledger.results ::
              r.id !in trace[n].ledger.pending && r.operation < |trace[n].calls| && trace[n].calls[r.operation] == 1
    ensures |trace[n].ledger.results| <= MAX_RESULTS
    ensures Expire(trace[n].ledger.results, trace[n].clock - RETENTION_SECONDS)
         == Unexpired(trace[n].ledger.results, trace[n].clock - RETENTION_SECONDS)
  {
    RunKeepsInv(trace, events, n);
    var w := trace[n];
    assert OperationInv(w, op);
    if w.ledger.operations[op].response.None? {
      assert CallerInv(w, w.owners[op]);
    }
    forall r | r in w.ledger.results
      ensures r.id !in w.ledger.pending && r.operation < |w.calls| && w.calls[r.operation] == 1
    {
      assert Matches(w.ledger, r);
      assert OperationInv(w, r.operation);
    }
    HeadExpiryIsExact(w.ledger.results, w.clock - RETENTION_SECONDS);
  }

  /** All callers served by one operation got the same reply, also after eviction, and asked the same thing. */
  lemma SameOperationSameReply(trace: seq<World>, events: seq<Event>, n: nat, c: nat, d: nat)
    requires IsRun(trace, events) && n < |trace| && c < |trace[n].callers| && d < |trace[n].callers|
    requires trace[n].callers[c].stage.Replied? && trace[n].callers[d].stage.Replied?
    requires trace[n].callers[c].stage.operation == trace[n].callers[d].stage.operation
    ensures trace[n].callers[c].stage.reply == trace[n].callers[d].stage.reply
    ensures trace[n].callers[c].fingerprint == trace[n].callers[d].fingerprint
    ensures trace[n].callers[c].id == trace[n].callers[d].id
  {
    RunKeepsInv(trace, events, n);
    assert CallerInv(trace[n], c) && CallerInv(trace[n], d);
  }

  // What a reply says.

  /** The reply tells what the IPC call did; every answer but a success carries the warning. */
  ghost predicate Tells(reply: Reply, outcome: Outcome) {
    && (reply.status == 200 <==> outcome.Answered? && outcome.status == 200)
    && (reply.status == 200 ==> reply.body == outcome.body)
    && (outcome.Answered? && outcome.status != 200 ==> reply.status == outcome.status && reply.body == outcome.body + CHECK_HISTORY)
    && (outcome.Raised? ==> reply.status == 503 && reply.body == UNREADABLE + CHECK_HISTORY)
  }

  /** Step `k` is the IPC call of the owner, and the reply tells its outcome. */
  ghost predicate CalledAt(events: seq<Event>, k: nat, owner: nat, reply: Reply) {
    k < |events| && events[k].Execute? && events[k].caller == owner && Tells(reply, events[k].outcome)
  }

  ghost predicate AnsweredFrom(trace: seq<World>, events: seq<Event>, n: nat, owner: nat, reply: Reply) {
    exists k | 0 <= k < n :: CalledAt(events, k, owner, reply)
  }

  /** Every answer, published or about to be, is the outcome of the owner's own call. */
  ghost predicate AnswersInv(trace: seq<World>, events: seq<Event>, n: nat)
    requires n < |trace| && Inv(trace[n])
  {
    var w := trace[n];
    && (forall c | 0 <= c < |w.callers| && w.callers[c].stage.Answering? ::
          AnsweredFrom(trace, events, n, c, w.callers[c].stage.reply))
    && (forall op | 0 <= op < |w.ledger.operations| && w.ledger.operations[op].response.Some? ::
          AnsweredFrom(trace, events, n, w.owners[op], w.ledger.operations[op].response.value))
  }

  /** A step only adds the answer of its own call, and publishes only what its caller holds. */
  lemma AnswerOrigin(w: World, e: Event)
    requires Inv(w) && Enabled(w, e)
    ensures var w' := Apply(w, e);
            && |w'.callers| == |w.callers| && w.owners <= w'.owners && |w.ledger.operations| <= |w'.ledger.operations|
            && (forall c | 0 <= c < |w.callers| && w'.callers[c].stage.Answering? && w'.callers[c] != w.callers[c] ::
                  e.Execute? && e.caller == c && Tells(w'.callers[c].stage.reply, e.outcome))
            && (forall op | 0 <= op < |w'.ledger.operations| && w'.ledger.operations[op].response.Some? ::
                  || (op < |w.ledger.operations| && w'.ledger.operations[op] == w.ledger.operations[op])
                  || (e.Answer? && op < |w.ledger.operations| && e.caller == w.owners[op] && w.callers[e.caller].stage.Answering?
                      && w'.ledger.operations[op].response == Some(w.callers[e.caller].stage.reply)))
  {
    if e.Answer? || e.Execute? {
      assert CallerInv(w, e.caller);
    } else if e.Arrive? {
      ArrivalExtends(w, e.caller);
    }
  }

  lemma {:induction false} RunKeepsAnswers(trace: seq<World>, events: seq<Event>, n: nat)
    requires IsRun(trace, events) && n < |trace|
    ensures Inv(trace[n]) && AnswersInv(trace, events, n)
  {
    RunKeepsInv(trace, events, n);
    if n > 0 {
      RunKeepsAnswers(trace, events, n - 1);
      AnswersStep(trace, events, n - 1);
    }
  }

  lemma AnswersStep(trace: seq<World>, events: seq<Event>, n: nat)
    requires n + 1 < |trace| && n < |events| && Inv(trace[n]) && Inv(trace[n + 1]) && AnswersInv(trace, events, n)
    requires Enabled(trace[n], events[n]) && trace[n + 1] == Apply(trace[n], events[n])
    ensures AnswersInv(trace, events, n + 1)
  {
    var w, w', e := trace[n], trace[n + 1], events[n];
    AnswerOrigin(w, e);
    forall c | 0 <= c < |w'.callers| && w'.callers[c].stage.Answering?
      ensures AnsweredFrom(trace, events, n + 1, c, w'.callers[c].stage.reply)
    {
      if w'.callers[c] == w.callers[c] {
        LaterAnswered(trace, events, n, c, w.callers[c].stage.reply);
      } else {
        assert CalledAt(events, n, c, w'.callers[c].stage.reply);
      }
    }
    forall op | 0 <= op < |w'.ledger.operations| && w'.ledger.operations[op].response.Some?
      ensures AnsweredFrom(trace, events, n + 1, w'.owners[op], w'.ledger.operations[op].response.value)
    {
      LaterAnswered(trace, events, n, w.owners[op], w'.ledger.operations[op].response.value);
    }
  }

  lemma LaterAnswered(trace: seq<World>, events: seq<Event>, n: nat, owner: nat, reply: Reply)
    requires AnsweredFrom(trace, events, n, owner, reply)
    ensures AnsweredFrom(trace, events, n + 1, owner, reply)
  {
    var k :| 0 <= k < n && CalledAt(events, k, owner, reply);
  }

  /** A caller that has made its call is answering or answered from then on. */
  lemma {:induction false} CalledBefore(trace: seq<World>, events: seq<Event>, k: nat, n: nat)
    requires IsRun(trace, events) && k < n < |trace| && events[k].Execute?
    ensures events[k].caller < |trace[n].callers|
    ensures trace[n].callers[events[k].caller].stage.Answering? || trace[n].callers[events[k].caller].stage.Replied?
  {
    if k + 1 < n {
      CalledBefore(trace, events, k, n - 1);
      StageStays(trace[n - 1], events[n - 1], events[k].caller);
    }
  }

  lemma StageStays(w: World, e: Event, c: nat)
    requires Enabled(w, e) && c < |w.callers| && (w.callers[c].stage.Answering? || w.callers[c].stage.Replied?)
    ensures c < |Apply(w, e).callers|
    ensures Apply(w, e).callers[c].stage.Answering? || Apply(w, e).callers[c].stage.Replied?
  {
  }

  /** Some caller was given the reply, or it is retained for the operation. */
  ghost predicate Gives(w: World, op: nat, reply: Reply) {
    || (exists c | 0 <= c < |w.callers| :: w.callers[c].stage == Replied(op, reply))
    || (exists r | r in w.ledger.results :: r.operation == op && r.reply == reply)
  }

  /**
   In every run, whatever reply a caller, a replay or a status query gets comes from the one IPC call that
   the owner of its operation made: a success is passed on as it is, any other answer keeps its status
   and carries the warning, and a call that raised is a 503 with the warning.
   */
  lemma ReplyTellsTheOutcome(trace: seq<World>, events: seq<Event>, n: nat, op: nat, reply: Reply) returns (k: nat)
    requires IsRun(trace, events) && n < |trace| && Gives(trace[n], op, reply)
    ensures op < |trace[n].owners| && k < n && events[k].Execute? && events[k].caller == trace[n].owners[op]
    ensures forall l | 0 <= l < n && events[l].Execute? && events[l].caller == trace[n].owners[op] :: l == k
    ensures var outcome := events[k].outcome;
            && (reply.status == 200 <==> outcome.Answered? && outcome.status == 200)
            && (reply.status == 200 ==> reply.body == outcome.body)
            && (outcome.Answered? && outcome.status != 200 ==> reply == Reply(outcome.status, outcome.body + CHECK_HISTORY))
            && (outcome.Raised? ==> reply == Reply(503, UNREADABLE + CHECK_HISTORY))
  {
    RunKeepsAnswers(trace, events, n);
    GivenIsPublished(trace[n], op, reply);
    k :| 0 <= k < n && CalledAt(events, k, trace[n].owners[op], reply);
    forall l | 0 <= l < n && events[l].Execute? && events[l].caller == trace[n].owners[op] ensures l == k {
      if l < k {
        CalledBefore(trace, events, l, k);
      } else if k < l {
        CalledBefore(trace, events, k, l);
      }
    }
  }

  lemma GivenIsPublished(w: World, op: nat, reply: Reply)
    requires Inv(w) && Gives(w, op, reply)
    ensures op < |w.ledger.operations| && w.ledger.operations[op].response == Some(reply)
  {
    if c :| 0 <= c < |w.callers| && w.callers[c].stage == Replied(op, reply) {
      assert CallerInv(w, c);
    } else {
      var r :| r in w.ledger.results && r.operation == op && r.reply == reply;
      assert Matches(w.ledger, r);
    }
  }

  /** The operation that currently stands for an ID: pending, or retained and not expired. */
  ghost predicate Live(w: World, id: string, op: nat) {
    || (id in w.ledger.pending && w.ledger.pending[id] == op)
    || exists r | r in w.ledger.results :: r.id == id && r.operation == op && r.time >= w.clock - RETENTION_SECONDS
  }

  lemma {:induction false} FreshSurvives(results: seq<Retained>, cutoff: int, r: Retained)
    requires r in results && r.time >= cutoff
    ensures r in Expire(results, cutoff)
  {
    if results[0].time < cutoff {
      FreshSurvives(results[1..], cutoff, r);
    }
  }

  /**
   While an ID is live, a caller with the same payload is attached to that very operation, a
   caller with another payload is rejected, and in both cases nothing new is registered.
   */
  lemma LiveOperationAdmitsNoSecond(w: World, c: nat, op: nat)
    requires Inv(w) && Enabled(w, Arrive(c)) && Live(w, w.callers[c].id, op)
    ensures op < |w.ledger.operations|
    ensures var w' := Apply(w, Arrive(c));
            && w'.ledger.operations == w.ledger.operations && w'.calls == w.calls
            && if w.ledger.operations[op].fingerprint == w.callers[c].fingerprint
               then w'.callers[c].stage == (if w.ledger.operations[op].response.Some?
                                            then Replied(op, w.ledger.operations[op].response.value)
                                            else Waiting(op))
               else w'.callers[c].stage == Rejected
  {
    var id := w.callers[c].id;
    var cutoff := w.clock - RETENTION_SECONDS;
    ExpireKeepsLedgerInv(w.ledger, cutoff, w.clock);
    var results := Expire(w.ledger.results, cutoff);
    if id in w.ledger.pending {
      forall r | r in w.ledger.results ensures r.id != id {
        assert Matches(w.ledger, r);
      }
      assert IndexOf(results, id).None?;
    } else {
      var r :| r in w.ledger.results && r.id == id && r.operation == op && r.time >= cutoff;
      FreshSurvives(w.ledger.results, cutoff, r);
      var i := IndexOf(results, id).value;
      assert results[i] in results && results[i] == r;
      assert Matches(w.ledger, r);
    }
  }

  /** An ID that is not live is registered anew: its caller owns the operation and will run the call. */
  lemma UnknownIdIsOwned(w: World, c: nat)
    requires Inv(w) && Enabled(w, Arrive(c)) && forall op: nat :: !Live(w, w.callers[c].id, op)
    ensures var (w', op) := (Apply(w, Arrive(c)), |w.ledger.operations|);
            && w'.ledger.operations == w.ledger.operations + [Operation(w.callers[c].id, w.callers[c].fingerprint, None)]
            && w'.calls == w.calls + [0] && w'.owners == w.owners + [c] && w'.callers[c].stage == Queued(op)
  {
    var id := w.callers[c].id;
    var cutoff := w.clock - RETENTION_SECONDS;
    assert id in w.ledger.pending ==> Live(w, id, w.ledger.pending[id]);
    ExpireKeepsFresh(w.ledger.results, cutoff);
    var results := Expire(w.ledger.results, cutoff);
    var found := IndexOf(results, id);
    if found.Some? {
      var r := results[found.value];
      assert r in results && Live(w, id, r.operation);
    }
  }

  // What a status query tells.

  /** The answer of a status query, which first expires old results. */
  function Told(w: World, id: string): OperationState {
    StateOf(Apply(w, AskStatus).ledger, id)
  }

  /** The retained answer of an ID, still inside the retention window. */
  ghost predicate Remembers(w: World, id: string, r: Retained) {
    r in w.ledger.results && r.id == id && r.time >= w.clock - RETENTION_SECONDS
  }

  /** Some caller is about to run, or is running, the IPC call of an ID, or has not published its answer yet. */
  ghost predicate IsCarriedOut(w: World, id: string) {
    exists c | 0 <= c < |w.callers| :: Owned(w.callers[c].stage).Some? && w.callers[c].id == id
  }

  /** Expiry leaves exactly the entries inside the retention window. */
  lemma ExpireKeepsFresh(results: seq<Retained>, cutoff: int)
    requires InTimeOrder(results)
    ensures forall r :: r in Expire(results, cutoff) <==> r in results && r.time >= cutoff
  {
    HeadExpiryIsExact(results, cutoff);
    forall r ensures r in Expire(results, cutoff) <==> r in results && r.time >= cutoff {
      UnexpiredIffFresh(results, cutoff, r);
    }
  }

  lemma {:induction false} UnexpiredIffFresh(results: seq<Retained>, cutoff: int, r: Retained)
    ensures r in Unexpired(results, cutoff) <==> r in results && r.time >= cutoff
  {
    if results != [] {
      UnexpiredIffFresh(results[1..], cutoff, r);
      assert results == [results[0]] + results[1..];
    }
  }

  lemma FoundIs(results: seq<Retained>, id: string, r: Retained)
    requires DistinctIds(results) && r in results && r.id == id
    ensures IndexOf(results, id).Some? && results[IndexOf(results, id).value] == r
  {
  }

  lemma ToldFacts(w: World, id: string)
    requires Inv(w)
    ensures forall r | Remembers(w, id, r) :: Told(w, id) == Completed(r.reply)
    ensures Told(w, id).Completed? ==> exists r :: Remembers(w, id, r)
    ensures Told(w, id).InProgress? <==> id in w.ledger.pending
  {
    var cutoff := w.clock - RETENTION_SECONDS;
    var results := Expire(w.ledger.results, cutoff);
    assert Apply(w, AskStatus).ledger == w.ledger.(results := results);
    ExpireKeepsLedgerInv(w.ledger, cutoff, w.clock);
    ExpireKeepsFresh(w.ledger.results, cutoff);
    forall r | Remembers(w, id, r) ensures Told(w, id) == Completed(r.reply) {
      FoundIs(results, id, r);
    }
    var found := IndexOf(results, id);
    if found.Some? {
      var r := results[found.value];
      assert r in results && Remembers(w, id, r) && Matches(w.ledger, r);
    }
  }

  lemma PendingIsCarriedOut(w: World, id: string)
    requires Inv(w)
    ensures id in w.ledger.pending <==> IsCarriedOut(w, id)
  {
    if id in w.ledger.pending {
      var op := w.ledger.pending[id];
      assert OperationInv(w, op);
      assert CallerInv(w, w.owners[op]);
    }
    if c :| 0 <= c < |w.callers| && Owned(w.callers[c].stage).Some? && w.callers[c].id == id {
      assert CallerInv(w, c);
    }
  }

  /** The call ran once, and every caller served by its operation got the remembered reply. */
  ghost predicate RememberedIsShared(w: World, r: Retained) {
    && r.operation < |w.calls| && w.calls[r.operation] == 1
    && forall c | 0 <= c < |w.callers| && w.callers[c].stage.Replied? && w.callers[c].stage.operation == r.operation ::
         w.callers[c].id == r.id && w.callers[c].stage.reply == r.reply
  }

  /**
   In every reachable state a status query tells the truth. `Completed` comes exactly with the answer
   remembered for the ID, which the one execution of its call gave to every caller it served; `InProgress`
   means exactly that some caller still carries the call out; `Unknown` that no operation of the ID is live.
   */
  lemma QueryTellsTruth(trace: seq<World>, events: seq<Event>, n: nat, id: string, reply: Reply)
    requires IsRun(trace, events) && n < |trace|
    ensures var w := trace[n];
            && (Told(w, id) == Completed(reply) <==> exists r :: Remembers(w, id, r) && r.reply == reply)
            && (Told(w, id).InProgress? <==> IsCarriedOut(w, id))
            && (Told(w, id).Unknown? <==> forall op: nat :: !Live(w, id, op))
    ensures var w := trace[n];
            forall r | Remembers(w, id, r) :: RememberedIsShared(w, r)
  {
    RunKeepsInv(trace, events, n);
    var w := trace[n];
    ToldFacts(w, id);
    PendingIsCarriedOut(w, id);
    UnknownIff(w, id);
    forall r | Remembers(w, id, r) ensures RememberedIsShared(w, r) {
      SharedReply(w, r);
    }
  }

  lemma UnknownIff(w: World, id: string)
    requires Inv(w)
    ensures (id in w.ledger.pending || exists r :: Remembers(w, id, r)) <==> exists op: nat :: Live(w, id, op)
  {
    if id in w.ledger.pending {
      assert Live(w, id, w.ledger.pending[id]);
    }
    if r :| Remembers(w, id, r) {
      assert Live(w, id, r.operation);
    }
    if op: nat :| Live(w, id, op) && id !in w.ledger.pending {
      var r :| r in w.ledger.results && r.id == id && r.operation == op && r.time >= w.clock - RETENTION_SECONDS;
      assert Remembers(w, id, r);
    }
  }

  lemma SharedReply(w: World, r: Retained)
    requires Inv(w) && r in w.ledger.results
    ensures RememberedIsShared(w, r)
  {
    assert Matches(w.ledger, r) && OperationInv(w, r.operation);
    forall c | 0 <= c < |w.callers| && w.callers[c].stage.Replied? && w.callers[c].stage.operation == r.operation
      ensures w.callers[c].id == r.id && w.callers[c].stage.reply == r.reply
    {
      assert CallerInv(w, c);
    }
  }

  // How long an answer is remembered.

  /** The number of answers published in the steps from `i` up to `j`. */
  function AnswersBetween(events: seq<Event>, i: nat, j: nat): nat
    requires i <= j <= |events|
  {
    if i == j then 0 else AnswersBetween(events, i, j - 1) + if events[j - 1].Answer? then 1 else 0
  }

  /** The entry has exactly `later` entries after it. */
  predicate EntryAt(results: seq<Retained>, entry: Retained, later: nat) {
    later < |results| && results[|results| - 1 - later] == entry
  }

  /** The entry is where `later` newer answers put it, or gone, and gone only for its age or their number. */
  ghost predicate Placed(w: World, entry: Retained, later: nat) {
    && (entry in w.ledger.results ==> EntryAt(w.ledger.results, entry, later))
    && (w.clock <= entry.time + 3600 && later < 1024 ==> EntryAt(w.ledger.results, entry, later))
  }

  lemma ExpiryPlaces(results: seq<Retained>, cutoff: int, entry: Retained, later: nat)
    requires InTimeOrder(results)
    ensures entry in Expire(results, cutoff) <==> entry in results && entry.time >= cutoff
    ensures EntryAt(results, entry, later) && entry.time >= cutoff ==> EntryAt(Expire(results, cutoff), entry, later)
  {
    HeadExpiryIsExact(results, cutoff);
    UnexpiredIffFresh(results, cutoff, entry);
    if EntryAt(results, entry, later) && entry.time >= cutoff {
      FreshPlace(results, cutoff, |results| - 1 - later);
    }
  }

  lemma FreshPlace(results: seq<Retained>, cutoff: int, i: nat)
    requires i < |results| && results[i].time >= cutoff
    ensures var kept := Expire(results, cutoff);
            |results| - i <= |kept| <= |results| && kept[|kept| - (|results| - i)] == results[i]
  {
    ExpireIsSuffix(results, cutoff);
    var n: nat :| n <= |results| && Expire(results, cutoff) == results[n..];
    if i < n {
      SuffixIsFresh(results, cutoff, n, i);
    }
  }

  /** What expiry drops from the head is expired. */
  lemma {:induction false} SuffixIsFresh(results: seq<Retained>, cutoff: int, n: nat, i: nat)
    requires i < n <= |results| && Expire(results, cutoff) == results[n..]
    ensures results[i].time < cutoff
  {
    assert |Expire(results, cutoff)| < |results|;
    if i > 0 {
      assert results[1..][n - 1..] == results[n..];
      SuffixIsFresh(results[1..], cutoff, n - 1, i - 1);
    }
  }

  /** Steps that do not publish leave the entry in its place. */
  lemma QuietStepPlaces(w: World, e: Event, entry: Retained, later: nat)
    requires Inv(w) && Enabled(w, e) && !e.Answer? && Placed(w, entry, later)
    ensures Placed(Apply(w, e), entry, later)
  {
    if e.Arrive? || e.AskStatus? {
      ExpiryPlaces(w.ledger.results, w.clock - RETENTION_SECONDS, entry, later);
      QuietResults(w, e);
    }
  }

  lemma QuietResults(w: World, e: Event)
    requires Enabled(w, e) && (e.Arrive? || e.AskStatus?)
    ensures Apply(w, e).ledger.results == Expire(w.ledger.results, w.clock - RETENTION_SECONDS) && Apply(w, e).clock == w.clock
  {
  }

  /** An answer is put behind all others, and the oldest beyond the limit goes. */
  lemma AnswerAppends(w: World, c: nat)
    requires Inv(w) && Enabled(w, Answer(c))
    ensures var o := w.ledger.operations[w.callers[c].stage.operation];
            var entry := Retained(o.id, w.callers[c].stage.started, o.fingerprint, w.callers[c].stage.reply, w.callers[c].stage.operation);
            var (all, results) := (w.ledger.results + [entry], Apply(w, Answer(c)).ledger.results);
            && results == (if |all| > 1024 then all[|all| - 1024..] else all)
            && (forall r | r in w.ledger.results :: r.operation != entry.operation)
  {
    assert CallerInv(w, c);
    var Answering(op, started, reply) := w.callers[c].stage;
    var o := w.ledger.operations[op];
    var settled := w.ledger.(operations := w.ledger.operations[op := o.(response := Some(reply))], pending := w.ledger.pending - {o.id});
    SettledLedger(w.ledger, op, started, reply, w.clock, settled, Retained(o.id, started, o.fingerprint, reply, op));
    forall r | r in w.ledger.results ensures r.operation != op {
      assert Matches(w.ledger, r);
    }
  }

  lemma AppendPlaces(results: seq<Retained>, added: Retained, entry: Retained, later: nat, results': seq<Retained>)
    requires DistinctIds(results) && |results| <= 1024 && entry != added
    requires results' == (if |results + [added]| > 1024 then (results + [added])[|results + [added]| - 1024..] else results + [added])
    ensures entry in results' ==> entry in results
    ensures EntryAt(results, entry, later) && (later + 1 < 1024 || entry in results') ==> EntryAt(results', entry, later + 1)
  {
    if entry in results' {
      var k :| 0 <= k < |results'| && results'[k] == entry;
      var i := if |results| == 1024 then k + 1 else k;
      assert results[i] == entry;
    }
  }

  lemma AnswerPlaces(w: World, c: nat, entry: Retained, later: nat)
    requires Inv(w) && Enabled(w, Answer(c)) && Placed(w, entry, later)
    requires entry.operation < |w.ledger.operations| && w.ledger.operations[entry.operation].response.Some?
    ensures Placed(Apply(w, Answer(c)), entry, later + 1)
  {
    AnswerAppends(w, c);
    assert CallerInv(w, c);
    var op := w.callers[c].stage.operation;
    var o := w.ledger.operations[op];
    var added := Retained(o.id, w.callers[c].stage.started, o.fingerprint, w.callers[c].stage.reply, op);
    AppendPlaces(w.ledger.results, added, entry, later, Apply(w, Answer(c)).ledger.results);
    assert Apply(w, Answer(c)).clock == w.clock;
  }

  lemma {:induction false} RunPlaces(trace: seq<World>, events: seq<Event>, i: nat, j: nat, entry: Retained)
    requires IsRun(trace, events) && i < j < |trace| && IsAnswer(trace, events, i, entry)
    ensures Placed(trace[j], entry, AnswersBetween(events, i + 1, j))
    ensures entry.operation < |trace[j].ledger.operations| && trace[j].ledger.operations[entry.operation].response.Some?
  {
    RunKeepsInv(trace, events, j - 1);
    if j == i + 1 {
      FirstPlace(trace, events, i, entry);
    } else {
      RunPlaces(trace, events, i, j - 1, entry);
      NextPlace(trace[j - 1], events[j - 1], entry, AnswersBetween(events, i + 1, j - 1));
    }
  }

  lemma FirstPlace(trace: seq<World>, events: seq<Event>, i: nat, entry: Retained)
    requires IsRun(trace, events) && i < |events| && IsAnswer(trace, events, i, entry) && Inv(trace[i])
    ensures Placed(trace[i + 1], entry, 0)
    ensures var operations := trace[i + 1].ledger.operations;
            entry.operation < |operations| && operations[entry.operation].response.Some?
  {
    var w, e := trace[i], events[i];
    StepKeepsInv(w, e);
    AnswerAppends(w, e.caller);
    assert Apply(w, e).ledger.results[|Apply(w, e).ledger.results| - 1] == entry;
    OnlyLast(Apply(w, e).ledger.results, entry);
  }

  lemma NextPlace(w: World, e: Event, entry: Retained, later: nat)
    requires Inv(w) && Enabled(w, e) && Placed(w, entry, later)
    requires entry.operation < |w.ledger.operations| && w.ledger.operations[entry.operation].response.Some?
    ensures Placed(Apply(w, e), entry, later + if e.Answer? then 1 else 0)
    ensures var operations := Apply(w, e).ledger.operations;
            entry.operation < |operations| && operations[entry.operation].response.Some?
  {
    StepKeepsInv(w, e);
    ResponseStays(w, e, entry.operation);
    if e.Answer? {
      AnswerPlaces(w, e.caller, entry, later);
    } else {
      QuietStepPlaces(w, e, entry, later);
    }
  }

  lemma OnlyLast(results: seq<Retained>, entry: Retained)
    requires results != [] && results[|results| - 1] == entry
    ensures EntryAt(results, entry, 0)
  {
  }

  lemma ResponseStays(w: World, e: Event, op: nat)
    requires Inv(w) && Enabled(w, e) && op < |w.ledger.operations| && w.ledger.operations[op].response.Some?
    ensures op < |Apply(w, e).ledger.operations| && Apply(w, e).ledger.operations[op].response.Some?
  {
    if e.Arrive? {
      ArrivalExtends(w, e.caller);
    }
  }

  /** Step `i` publishes the answer that is retained as `entry`. */
  ghost predicate IsAnswer(trace: seq<World>, events: seq<Event>, i: nat, entry: Retained)
    requires IsRun(trace, events) && i < |events|
  {
    && events[i].Answer?
    && var stage := trace[i].callers[events[i].caller].stage;
       && entry.operation == stage.operation && entry.time == stage.started && entry.reply == stage.reply
       && entry.id == trace[i].ledger.operations[stage.operation].id
       && entry.fingerprint == trace[i].ledger.operations[stage.operation].fingerprint
  }

  /**
   In every run, an answer is remembered exactly while its call began at most 3600 seconds ago and fewer
   than 1024 answers were published after it.
   */
  lemma AnswerIsRememberedIff(trace: seq<World>, events: seq<Event>, i: nat, j: nat, entry: Retained)
    requires IsRun(trace, events) && i < j < |trace| && IsAnswer(trace, events, i, entry)
    ensures Remembers(trace[j], entry.id, entry) <==>
              trace[j].clock - entry.time <= 3600 && AnswersBetween(events, i + 1, j) < 1024
  {
    RunPlaces(trace, events, i, j, entry);
    RunKeepsInv(trace, events, j);
  }

  // ---------- Progress ----------

  function Remaining(stage: Stage): nat {
    match stage
    case Idle => 4
    case Queued(_) => 3
    case Running(_, _) => 2
    case Answering(_, _, _) => 1
    case Waiting(_) => 1
    case _ => 0
  }

  function Work(callers: seq<Caller>): nat {
    if callers == [] then 0 else Remaining(callers[0].stage) + Work(callers[1..])
  }

  lemma {:induction false} WorkAfterMove(callers: seq<Caller>, c: nat, stage: Stage)
    requires c < |callers|
    ensures Work(callers[c := callers[c].(stage := stage)])
         == Work(callers) - Remaining(callers[c].stage) + Remaining(stage)
  {
    var moved := callers[c := callers[c].(stage := stage)];
    if c == 0 {
      assert moved[1..] == callers[1..];
    } else {
      assert moved[1..] == callers[1..][c - 1 := callers[1..][c - 1].(stage := stage)];
      WorkAfterMove(callers[1..], c - 1, stage);
    }
  }

  predicate IsCallerStep(e: Event) {
    !e.AskStatus? && !e.Tick?
  }

  /** Every caller's step brings the whole system closer to the state in which all are answered. */
  lemma CallerStepsDecreaseWork(w: World, e: Event)
    requires Inv(w) && Enabled(w, e) && IsCallerStep(e)
    ensures Work(Apply(w, e).callers) < Work(w.callers)
  {
    var c, w' := e.caller, Apply(w, e);
    var stage := w'.callers[c].stage;
    assert w'.callers == w.callers[c := w.callers[c].(stage := stage)];
    StepFinishesMore(w, e);
    WorkAfterMove(w.callers, c, stage);
  }

  lemma StepFinishesMore(w: World, e: Event)
    requires Enabled(w, e) && IsCallerStep(e)
    ensures Remaining(Apply(w, e).callers[e.caller].stage) < Remaining(w.callers[e.caller].stage)
  {
  }

  /** No deadlock: as long as somebody is unanswered, some caller can step. */
  lemma SomeCallerCanStep(w: World, c: nat) returns (e: Event)
    requires Inv(w) && c < |w.callers| && !Finished(w.callers[c].stage)
    ensures Enabled(w, e) && IsCallerStep(e)
  {
    if w.writer.Some? {
      var d := w.writer.value;
      assert CallerInv(w, d);
      return if w.callers[d].stage.Running? then Execute(d, Raised) else Answer(d);
    }
    assert CallerInv(w, c);
    match w.callers[c].stage {
      case Idle => return Arrive(c);
      case Queued(_) => return TakeWriteLock(c);
      case Waiting(op) =>
        if w.ledger.operations[op].response.Some? {
          return Wake(c);
        }
        assert OperationInv(w, op);
        assert CallerInv(w, w.owners[op]);
        return TakeWriteLock(w.owners[op]);
      case _ => assert false;
    }
  }
}
