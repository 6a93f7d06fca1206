/**
 The background removal of selected contacts from the radio's node list.

 One worker removes the contacts one after the other; each removal is confirmed against a newly
 downloaded registry before the contact is hidden. The connection can be lost, the registry can
 change, and any database or SDK call can fail, between any two of the worker's lock regions.
 */
module NodeRemoval {
  import opened Options

  datatype ContactStatus = Waiting | Sent | Removed | SentUnverified | Failed | Skipped
  datatype Contact = Contact(node: string, status: ContactStatus)
  datatype JobStatus = Started | Completed | JobFailed

  /** The action record. `finishes` counts its transitions out of `Started`; no step reads it. */
  datatype Job = Job(contacts: seq<Contact>, status: JobStatus, finishes: nat)

  function GiveUp(status: ContactStatus): ContactStatus {
    match status
    case Sent => SentUnverified
    case Waiting => Skipped
    case _ => status
  }

  function GiveUpAll(contacts: seq<Contact>): seq<Contact> {
    seq(|contacts|, i requires 0 <= i < |contacts| => contacts[i].(status := GiveUp(contacts[i].status)))
  }

  /** `_finish_node_action`: only a started action can finish, and an error settles open contacts. */
  function Finish(job: Job, error: bool): Job {
    if job.status != Started then job
    else if error then Job(GiveUpAll(job.contacts), JobFailed, job.finishes + 1)
    else job.(status := Completed, finishes := job.finishes + 1)
  }

  function SkipWaiting(contacts: seq<Contact>): seq<Contact> {
    seq(|contacts|, i requires 0 <= i < |contacts| =>
      if contacts[i].status == Waiting then contacts[i].(status := Skipped) else contacts[i])
  }

  /** The contacts after the worker's exception handler for contact `i` has marked them. */
  function MarkAborted(contacts: seq<Contact>, i: nat): seq<Contact>
    requires i < |contacts|
  {
    var item := contacts[i];
    SkipWaiting(contacts[i := item.(status := if item.status == Sent then SentUnverified else Failed)])
  }

  /** The handler; when its database write raises, the worker ends without finishing the action. */
  function Abort(job: Job, i: nat, recorded: bool): Job
    requires i < |job.contacts|
  {
    var marked := job.(contacts := MarkAborted(job.contacts, i));
    if recorded then Finish(marked, true) else marked
  }

  // ---------- The action record as an object ----------

  class RemovalAction {
    var contacts: seq<Contact>
    var status: JobStatus
    var finishes: nat

    ghost function Model(): Job
      reads this
    {
      Job(contacts, status, finishes)
    }

    constructor (nodes: seq<string>)
      ensures Model() == Job(seq(|nodes|, i requires 0 <= i < |nodes| => Contact(nodes[i], Waiting)), Started, 0)
    {
      contacts := seq(|nodes|, i requires 0 <= i < |nodes| => Contact(nodes[i], Waiting));
      status, finishes := Started, 0;
    }

    method FinishNodeAction(error: bool)
      modifies this
      ensures Model() == Finish(old(Model()), error)
    {
      if status != Started {
        return;
      }
      finishes := finishes + 1;
      if error {
        status := JobFailed;
        SettleOpenContacts();
      } else {
        status := Completed;
      }
    }

    method SettleOpenContacts()
      modifies this`contacts
      ensures contacts == GiveUpAll(old(contacts))
    {
      var i := 0;
      while i < |contacts|
        invariant i <= |contacts| == |old(contacts)|
        invariant forall k | 0 <= k < i :: contacts[k] == GiveUpAll(old(contacts))[k]
        invariant forall k | i <= k < |contacts| :: contacts[k] == old(contacts)[k]
      {
        if contacts[i].status == Sent {
          contacts := contacts[i := contacts[i].(status := SentUnverified)];
        } else if contacts[i].status == Waiting {
          contacts := contacts[i := contacts[i].(status := Skipped)];
        }
        i := i + 1;
      }
    }

    /** `recorded` tells whether the database write before the finish succeeds. */
    method HandleException(index: nat, recorded: bool)
      requires index < |contacts|
      modifies this
      ensures Model() == Abort(old(Model()), index, recorded)
    {
      var item := contacts[index];
      contacts := contacts[index := item.(status := if item.status == Sent then SentUnverified else Failed)];
      SkipWaitingContacts();
      if recorded {
        FinishNodeAction(true);
      }
    }

    method SkipWaitingContacts()
      modifies this`contacts
      ensures contacts == SkipWaiting(old(contacts))
    {
      var i := 0;
      while i < |contacts|
        invariant i <= |contacts| == |old(contacts)|
        invariant forall k | 0 <= k < i :: contacts[k] == SkipWaiting(old(contacts))[k]
        invariant forall k | i <= k < |contacts| :: contacts[k] == old(contacts)[k]
      {
        if contacts[i].status == Waiting {
          contacts := contacts[i := contacts[i].(status := Skipped)];
        }
        i := i + 1;
      }
    }
  }

  // ---------- The worker and its environment ----------

  /** What happened on the radio: removal calls and complete registry downloads; and contacts hidden in the database. */
  datatype Entry = Called(node: string) | Download(nodes: set<string>) | Hid(node: string)

  /** `mark` is the length of the log when the refresh began; `version` identifies the registry object then in use. */
  datatype Phase =
    | Next(index: nat)
    | Sending(index: nat)
    | Refresh(index: nat)
    | Refreshing(index: nat, version: nat, completed: bool, mark: nat)
    | Checking(index: nat, snapshot: set<string>, mark: nat)
    | Confirming(index: nat, mark: nat)
    | Broken(index: nat)
    | Ending
    | Finishing
    | Stopped

  /** Where a database or synchronisation call of the confirming region fails. */
  datatype Fault = NoFault | BeforeHiding | AfterHiding | AfterRemoval

  datatype SendResult = NotDone | SendOk | SendError

  /**
   `present`: the action's interface is the current, connected one. `registry` and `version`: the
   node list of that interface and the identity of the objects holding it. `inflight`: the contact
   whose removal call was handed to a thread that has not made it yet. `downloadAt`: where the
   newest download is in the log; no step reads it.
   */
  datatype State = State(
    job: Job, phase: Phase, present: bool, registry: set<string>, version: nat,
    inflight: Option<nat>, result: SendResult, log: seq<Entry>, downloadAt: nat)

  datatype Event =
    | Begin(recorded: bool)
    | CallRemoveNode(ok: bool)
    | SendReturned
    | StartRefresh(available: bool)
    | FinishRefresh
    | Check
    | Confirm(fault: Fault)
    | Fail(lost: bool)
    | Handle(recorded: bool)
    | End
    | Complete
    | ConfigComplete(nodes: Option<set<string>>)
    | RegistryGrows(node: string)
    | Connection(present: bool)
    | FailPending

  predicate InTrial(phase: Phase) {
    phase.Sending? || phase.Refresh? || phase.Refreshing? || phase.Checking? || phase.Confirming?
  }

  predicate Enabled(s: State, e: Event) {
    match e
    case Begin(_) => s.phase.Next? && s.phase.index < |s.job.contacts|
    case CallRemoveNode(_) => s.inflight.Some? && s.inflight.value < |s.job.contacts|
    case SendReturned => s.phase.Sending? && s.result != NotDone
    case StartRefresh(_) => s.phase.Refresh?
    case FinishRefresh => s.phase.Refreshing? && s.phase.completed
    case Check => s.phase.Checking? && s.phase.index < |s.job.contacts|
    case Confirm(_) => s.phase.Confirming? && s.phase.index < |s.job.contacts|
    case Fail(_) => InTrial(s.phase)
    case Handle(_) => s.phase.Broken? && s.phase.index < |s.job.contacts|
    case End => (s.phase.Next? && s.phase.index == |s.job.contacts|) || s.phase.Ending?
    case Complete => s.phase.Finishing?
    case ConfigComplete(_) => true
    case RegistryGrows(_) => true
    case Connection(_) => true
    case FailPending => true
  }

  function Mark(job: Job, i: nat, status: ContactStatus): Job
    requires i < |job.contacts|
  {
    job.(contacts := job.contacts[i := job.contacts[i].(status := status)])
  }

  function ConfirmRemoval(s: State, fault: Fault): State
    requires s.phase.Confirming? && s.phase.index < |s.job.contacts|
  {
    var i := s.phase.index;
    var node := s.job.contacts[i].node;
    if s.job.status != Started then s.(phase := Ending)
    else if !s.present || node in s.registry || fault.BeforeHiding? then s.(phase := Broken(i))
    else
      var hidden := s.(log := s.log + [Hid(node)]);
      if fault.AfterHiding? then hidden.(phase := Broken(i))
      else hidden.(job := Mark(s.job, i, Removed), phase := if fault.AfterRemoval? then Broken(i) else Next(i + 1))
  }

  function Advance(s: State, e: Event): State
    requires Enabled(s, e)
  {
    match e
    case Begin(recorded) =>
      var i := s.phase.index;
      if s.job.status != Started then s.(phase := Ending)
      else if !s.present then s.(phase := Broken(i))
      else if !recorded then s.(job := Mark(s.job, i, Sent), phase := Broken(i))
      else s.(job := Mark(s.job, i, Sent), phase := Sending(i), inflight := Some(i), result := NotDone)
    case CallRemoveNode(ok) =>
      s.(log := s.log + [Called(s.job.contacts[s.inflight.value].node)], inflight := None,
         result := if ok then SendOk else SendError)
    case SendReturned =>
      s.(phase := if s.result == SendOk then Refresh(s.phase.index) else Broken(s.phase.index))
    case StartRefresh(available) =>
      if !s.present || !available then s.(phase := Broken(s.phase.index))
      else s.(phase := Refreshing(s.phase.index, s.version, false, |s.log|))
    case FinishRefresh =>
      if !s.present || s.version == s.phase.version then s.(phase := Broken(s.phase.index))
      else s.(phase := Checking(s.phase.index, s.registry, s.phase.mark))
    case Check =>
      if s.job.contacts[s.phase.index].node in s.phase.snapshot then s.(phase := Broken(s.phase.index))
      else s.(phase := Confirming(s.phase.index, s.phase.mark))
    case Confirm(fault) => ConfirmRemoval(s, fault)
    case Fail(lost) => s.(phase := Broken(s.phase.index), present := s.present && !lost)
    case Handle(recorded) => s.(job := Abort(s.job, s.phase.index, recorded), phase := Stopped)
    case End =>
      if s.job.status != Started then s.(job := s.job.(contacts := GiveUpAll(s.job.contacts)), phase := Stopped)
      else s.(phase := Finishing)
    case Complete => s.(job := Finish(s.job, false), phase := Stopped)
    case ConfigComplete(nodes) =>
      var s1 := if s.phase.Refreshing? then s.(phase := s.phase.(completed := true)) else s;
      if nodes.None? then s1
      else s1.(version := s.version + 1, registry := nodes.value,
               log := s.log + [Download(nodes.value)], downloadAt := |s.log|)
    case RegistryGrows(node) => s.(registry := s.registry + {node})
    case Connection(present) => s.(present := present)
    case FailPending => s.(job := Finish(s.job, true))
  }

  ghost predicate Initial(s: State) {
    && s.job.contacts != [] && s.job.status == Started && s.job.finishes == 0
    && (forall c | c in s.job.contacts :: c.status == Waiting)
    && (forall i, j | 0 <= i < j < |s.job.contacts| :: s.job.contacts[i].node != s.job.contacts[j].node)
    && s.phase == Next(0) && s.inflight.None? && s.log == [] && s.version == 0 && s.downloadAt == 0
  }

  ghost predicate IsRun(trace: seq<State>, events: seq<Event>) {
    && |trace| == |events| + 1 && Initial(trace[0])
    && forall i | 0 <= i < |events| :: Enabled(trace[i], events[i]) && trace[i + 1] == Advance(trace[i], events[i])
  }

  // ---------- The invariant ----------

  predicate Open(status: ContactStatus) {
    status == Waiting || status == Sent
  }

  predicate Untouched(status: ContactStatus) {
    status == Waiting || status == Skipped
  }

  /** Everything before `i` is removed, everything after it is untouched. */
  ghost predicate SplitAt(contacts: seq<Contact>, i: nat) {
    && i <= |contacts|
    && (forall j | 0 <= j < i :: contacts[j].status == Removed)
    && (forall j | i < j < |contacts| :: Untouched(contacts[j].status))
  }

  ghost predicate AllSettled(contacts: seq<Contact>) {
    forall j | 0 <= j < |contacts| :: !Open(contacts[j].status)
  }

  ghost predicate ContactsInv(s: State) {
    var contacts := s.job.contacts;
    match s.phase
    case Next(i) => SplitAt(contacts, i) && (i < |contacts| ==> Untouched(contacts[i].status))
    case Broken(i) => SplitAt(contacts, i) && i < |contacts| && contacts[i].status != Failed
    case Ending => s.job.status != Started && exists i: nat :: i < |contacts| && SplitAt(contacts, i) && contacts[i].status != Removed
    case Finishing => forall j | 0 <= j < |contacts| :: contacts[j].status == Removed
    case Stopped =>
      && AllSettled(contacts)
      && exists i: nat :: SplitAt(contacts, i) && (i < |contacts| ==> contacts[i].status != Removed)
    case _ =>
      && SplitAt(contacts, s.phase.index) && s.phase.index < |contacts|
      && (contacts[s.phase.index].status == Sent || contacts[s.phase.index].status == SentUnverified)
  }

  ghost predicate JobInv(job: Job) {
    && job.finishes == (if job.status == Started then 0 else 1)
    && (job.status != Started ==> AllSettled(job.contacts))
    && (job.status == Completed ==> forall j | 0 <= j < |job.contacts| :: job.contacts[j].status == Removed)
    && (forall i, j | 0 <= i < j < |job.contacts| :: job.contacts[i].node != job.contacts[j].node)
  }

  /** While the worker runs, only it has touched the contacts of a started action. */
  ghost predicate WorkingInv(s: State) {
    s.job.status == Started && !s.phase.Stopped? ==>
      forall j | 0 <= j < |s.job.contacts| :: Open(s.job.contacts[j].status) || s.job.contacts[j].status == Removed
  }

  /** No removal of an untouched contact was ever requested. */
  ghost predicate CallsInv(s: State) {
    && (s.inflight.Some? ==>
          s.inflight.value < |s.job.contacts| && !Untouched(s.job.contacts[s.inflight.value].status))
    && (forall j | 0 <= j < |s.job.contacts| && Untouched(s.job.contacts[j].status) ::
          Called(s.job.contacts[j].node) !in s.log)
    && (s.phase.Sending? ==>
          if s.result == NotDone then s.inflight == Some(s.phase.index)
          else s.inflight.None? && s.phase.index < |s.job.contacts| && Called(s.job.contacts[s.phase.index].node) in s.log)
  }

  /** Entry `k` hides a contact that was removed on the radio and then missing from a later download. */
  ghost predicate Justified(log: seq<Entry>, k: nat)
    requires k < |log| && log[k].Hid?
  {
    exists a: nat, b: nat | a < b < k ::
      log[a] == Called(log[k].node) && log[b].Download? && log[k].node !in log[b].nodes
  }

  ghost predicate RegistryInv(s: State) {
    && (s.version > 0 ==>
          s.downloadAt < |s.log| && s.log[s.downloadAt].Download? && s.log[s.downloadAt].nodes <= s.registry)
    && (s.phase.Refresh? ==>
          s.phase.index < |s.job.contacts| && Called(s.job.contacts[s.phase.index].node) in s.log)
    && (s.phase.Refreshing? || s.phase.Checking? || s.phase.Confirming? ==>
          s.phase.index < |s.job.contacts| && s.phase.mark <= |s.log|
          && Called(s.job.contacts[s.phase.index].node) in s.log[..s.phase.mark])
    && (s.phase.Refreshing? ==> s.version >= s.phase.version && (s.version > s.phase.version ==> s.downloadAt >= s.phase.mark))
    && (s.phase.Checking? || s.phase.Confirming? ==> s.version > 0 && s.downloadAt >= s.phase.mark)
  }

  ghost predicate HiddenInv(s: State) {
    && (forall k | 0 <= k < |s.log| && s.log[k].Hid? :: Justified(s.log, k))
    && (forall j | 0 <= j < |s.job.contacts| && s.job.contacts[j].status == Removed :: Hid(s.job.contacts[j].node) in s.log)
  }

  ghost predicate Inv(s: State) {
    && ContactsInv(s) && JobInv(s.job) && WorkingInv(s) && CallsInv(s) && RegistryInv(s) && HiddenInv(s)
    && (s.job.status == Completed ==> s.phase.Stopped?)
  }

  lemma JustifiedGrows(log: seq<Entry>, more: seq<Entry>, k: nat)
    requires k < |log| && log[k].Hid? && Justified(log, k)
    ensures Justified(log + more, k)
  {
    var a: nat, b: nat :| a < b < k && log[a] == Called(log[k].node) && log[b].Download? && log[k].node !in log[b].nodes;
    assert (log + more)[a] == log[a] && (log + more)[b] == log[b];
  }

  lemma ConfirmIsJustified(s: State, fault: Fault)
    requires Inv(s) && s.phase.Confirming?
    requires s.job.contacts[s.phase.index].node !in s.registry
    ensures var log := s.log + [Hid(s.job.contacts[s.phase.index].node)]; Justified(log, |s.log|)
  {
    var node := s.job.contacts[s.phase.index].node;
    var a: nat :| a < s.phase.mark && s.log[..s.phase.mark][a] == Called(node);
    var log := s.log + [Hid(node)];
    assert log[a] == Called(node) && log[s.downloadAt] == s.log[s.downloadAt];
  }

  lemma GrownLogKeepsHidden(s: State, s': State, more: seq<Entry>)
    requires HiddenInv(s) && s'.log == s.log + more && forall e | e in more :: !e.Hid?
    requires s'.job.contacts == s.job.contacts
    ensures HiddenInv(s')
  {
    forall k | 0 <= k < |s'.log| && s'.log[k].Hid? ensures Justified(s'.log, k) {
      if k < |s.log| {
        JustifiedGrows(s.log, more, k);
      }
    }
  }

  lemma BeginKeepsInv(s: State, recorded: bool)
    requires Inv(s) && Enabled(s, Begin(recorded))
    ensures Inv(Advance(s, Begin(recorded)))
  {
    var s' := Advance(s, Begin(recorded));
    var i := s.phase.index;
    if s.job.status != Started {
      assert SplitAt(s.job.contacts, i);
    }
  }

  lemma HidingKeepsJustified(s: State, fault: Fault)
    requires Inv(s) && s.phase.Confirming? && s.job.contacts[s.phase.index].node !in s.registry
    ensures var log := s.log + [Hid(s.job.contacts[s.phase.index].node)];
            forall k | 0 <= k < |log| && log[k].Hid? :: Justified(log, k)
  {
    var entry := Hid(s.job.contacts[s.phase.index].node);
    ConfirmIsJustified(s, fault);
    forall k | 0 <= k < |s.log| && s.log[k].Hid? ensures Justified(s.log + [entry], k) {
      JustifiedGrows(s.log, [entry], k);
    }
  }

  /** Every part of the invariant but the justification of hidden contacts. */
  lemma HiddenContactKeepsRest(s: State, s': State)
    requires Inv(s) && s.phase.Confirming? && s.job.status == Started
    requires var i := s.phase.index;
             && s'.log == s.log + [Hid(s.job.contacts[i].node)] && s'.inflight == s.inflight && s'.result == s.result
             && s'.version == s.version && s'.registry == s.registry && s'.downloadAt == s.downloadAt
             && ((s'.job == s.job && s'.phase == Broken(i))
                 || (s'.job == Mark(s.job, i, Removed) && (s'.phase == Broken(i) || s'.phase == Next(i + 1))))
    ensures ContactsInv(s') && JobInv(s'.job) && WorkingInv(s') && CallsInv(s') && RegistryInv(s')
    ensures forall j | 0 <= j < |s'.job.contacts| && s'.job.contacts[j].status == Removed :: Hid(s'.job.contacts[j].node) in s'.log
  {
    var entry := Hid(s.job.contacts[s.phase.index].node);
    assert s'.log[|s.log|] == entry;
    assert forall e :: e in s'.log <==> e in s.log || e == entry;
  }

  lemma ConfirmKeepsInv(s: State, fault: Fault)
    requires Inv(s) && Enabled(s, Confirm(fault))
    ensures Inv(Advance(s, Confirm(fault)))
  {
    var s' := Advance(s, Confirm(fault));
    if s.job.status != Started {
      assert SplitAt(s.job.contacts, s.phase.index);
    } else if s'.log != s.log {
      HidingKeepsJustified(s, fault);
      HiddenContactKeepsRest(s, s');
    }
  }

  lemma CallKeepsCalls(s: State, ok: bool)
    requires CallsInv(s) && Enabled(s, CallRemoveNode(ok))
    requires forall i, j | 0 <= i < j < |s.job.contacts| :: s.job.contacts[i].node != s.job.contacts[j].node
    ensures CallsInv(Advance(s, CallRemoveNode(ok)))
  {
    var s' := Advance(s, CallRemoveNode(ok));
    var entry := Called(s.job.contacts[s.inflight.value].node);
    assert s'.log[|s.log|] == entry;
    assert forall e :: e in s'.log <==> e in s.log || e == entry;
  }

  /** A longer log still holds what the registry part of the invariant names. */
  lemma LongerLogKeepsRegistry(s: State, s': State, entry: Entry)
    requires RegistryInv(s) && s' == s.(log := s.log + [entry], inflight := s'.inflight, result := s'.result)
    ensures RegistryInv(s')
  {
    assert forall e | e in s.log :: e in s'.log;
    if s.phase.Refreshing? || s.phase.Checking? || s.phase.Confirming? {
      assert s'.log[..s.phase.mark] == s.log[..s.phase.mark];
    }
  }

  lemma CallKeepsInv(s: State, ok: bool)
    requires Inv(s) && Enabled(s, CallRemoveNode(ok))
    ensures Inv(Advance(s, CallRemoveNode(ok)))
  {
    var s' := Advance(s, CallRemoveNode(ok));
    var entry := Called(s.job.contacts[s.inflight.value].node);
    GrownLogKeepsHidden(s, s', [entry]);
    CallKeepsCalls(s, ok);
    LongerLogKeepsRegistry(s, s', entry);
  }

  lemma DownloadKeepsInv(s: State, nodes: Option<set<string>>)
    requires Inv(s) && Enabled(s, ConfigComplete(nodes))
    ensures Inv(Advance(s, ConfigComplete(nodes)))
  {
    var s' := Advance(s, ConfigComplete(nodes));
    if nodes.Some? {
      GrownLogKeepsHidden(s, s', [Download(nodes.value)]);
      assert forall e :: e in s'.log <==> e in s.log || e == Download(nodes.value);
      if s.phase.Refreshing? || s.phase.Checking? || s.phase.Confirming? {
        assert s'.log[..s.phase.mark] == s.log[..s.phase.mark];
      }
    }
  }

  lemma GiveUpKeepsSplit(contacts: seq<Contact>, i: nat)
    requires SplitAt(contacts, i)
    ensures SplitAt(GiveUpAll(contacts), i) && AllSettled(GiveUpAll(contacts))
  {
  }

  lemma FailPendingKeepsInv(s: State)
    requires Inv(s)
    ensures Inv(Advance(s, FailPending))
  {
    if s.job.status == Started {
      var s' := Advance(s, FailPending);
      if InTrial(s.phase) || s.phase.Next? || s.phase.Broken? {
        GiveUpKeepsSplit(s.job.contacts, s.phase.index);
      } else if s.phase.Stopped? {
        assert s'.job.contacts == s.job.contacts;
      }
    }
  }

  /** The handler leaves the removed prefix, marks the contact it was working on and skips the rest. */
  lemma AbortFacts(job: Job, i: nat, recorded: bool)
    requires i < |job.contacts| && SplitAt(job.contacts, i)
    ensures var contacts := Abort(job, i, recorded).contacts;
            && |contacts| == |job.contacts|
            && (forall j | 0 <= j < |contacts| :: contacts[j].node == job.contacts[j].node)
            && (forall j | 0 <= j < i :: contacts[j].status == Removed)
            && contacts[i].status == (if job.contacts[i].status == Sent then SentUnverified else Failed)
            && (forall j | i < j < |contacts| :: contacts[j].status == Skipped)
    ensures Abort(job, i, recorded).status == if job.status == Started && recorded then JobFailed else job.status
    ensures Abort(job, i, recorded).finishes == if job.status == Started && recorded then job.finishes + 1 else job.finishes
  {
  }

  lemma HandledContacts(job: Job, i: nat, recorded: bool)
    requires i < |job.contacts| && SplitAt(job.contacts, i) && JobInv(job) && job.status != Completed
    ensures JobInv(Abort(job, i, recorded)) && AllSettled(Abort(job, i, recorded).contacts)
    ensures SplitAt(Abort(job, i, recorded).contacts, i) && Abort(job, i, recorded).contacts[i].status != Removed
  {
    AbortFacts(job, i, recorded);
  }

  lemma HandleKeepsInv(s: State, recorded: bool)
    requires Inv(s) && Enabled(s, Handle(recorded))
    ensures Inv(Advance(s, Handle(recorded)))
  {
    var i := s.phase.index;
    var s' := Advance(s, Handle(recorded));
    HandledContacts(s.job, i, recorded);
    HandledCalls(s, s', i, recorded);
  }

  lemma HandledCalls(s: State, s': State, i: nat, recorded: bool)
    requires CallsInv(s) && HiddenInv(s) && i < |s.job.contacts| && SplitAt(s.job.contacts, i)
    requires s' == s.(job := Abort(s.job, i, recorded), phase := Stopped)
    ensures CallsInv(s') && HiddenInv(s')
  {
    AbortFacts(s.job, i, recorded);
    forall j | 0 <= j < |s'.job.contacts| && Untouched(s'.job.contacts[j].status)
      ensures Called(s'.job.contacts[j].node) !in s'.log
    {
      assert Untouched(s.job.contacts[j].status);
    }
  }

  lemma EndKeepsInv(s: State)
    requires Inv(s) && Enabled(s, End)
    ensures Inv(Advance(s, End))
  {
    if s.job.status != Started {
      var s' := Advance(s, End);
      assert s'.job.contacts == s.job.contacts;
      if s.phase.Next? {
        assert SplitAt(s'.job.contacts, s.phase.index);
      } else {
        var i: nat :| i < |s.job.contacts| && SplitAt(s.job.contacts, i) && s.job.contacts[i].status != Removed;
        assert SplitAt(s'.job.contacts, i);
      }
    }
  }

  lemma CompleteKeepsInv(s: State)
    requires Inv(s) && Enabled(s, Complete)
    ensures Inv(Advance(s, Complete))
  {
    assert SplitAt(Advance(s, Complete).job.contacts, |s.job.contacts|);
  }

  lemma RefreshKeepsRegistry(s: State, e: Event)
    requires Inv(s) && Enabled(s, e) && OnlyMoves(e)
    ensures RegistryInv(Advance(s, e))
  {
    assert s.log[..|s.log|] == s.log;
  }

  predicate OnlyMoves(e: Event) {
    e.SendReturned? || e.StartRefresh? || e.FinishRefresh? || e.Check? || e.Fail? || e.RegistryGrows? || e.Connection?
  }

  lemma RefreshKeepsInv(s: State, e: Event)
    requires Inv(s) && Enabled(s, e) && OnlyMoves(e)
    ensures Inv(Advance(s, e))
  {
    RefreshKeepsRegistry(s, e);
    RefreshKeepsContacts(s, e);
    assert Advance(s, e).log == s.log;
  }

  lemma RefreshKeepsContacts(s: State, e: Event)
    requires Inv(s) && Enabled(s, e) && OnlyMoves(e)
    ensures ContactsInv(Advance(s, e)) && WorkingInv(Advance(s, e)) && CallsInv(Advance(s, e)) && Advance(s, e).job == s.job
  {
  }

  lemma StepKeepsInv(s: State, e: Event)
    requires Inv(s) && Enabled(s, e)
    ensures Inv(Advance(s, e))
  {
    match e
    case Begin(recorded) => BeginKeepsInv(s, recorded);
    case CallRemoveNode(ok) => CallKeepsInv(s, ok);
    case Confirm(fault) => ConfirmKeepsInv(s, fault);
    case Handle(recorded) => HandleKeepsInv(s, recorded);
    case End => EndKeepsInv(s);
    case Complete => CompleteKeepsInv(s);
    case ConfigComplete(nodes) => DownloadKeepsInv(s, nodes);
    case FailPending => FailPendingKeepsInv(s);
    case _ => RefreshKeepsInv(s, e);
  }

  lemma {:induction false} RunKeepsInv(trace: seq<State>, events: seq<Event>, n: nat)
    requires IsRun(trace, events) && n < |trace|
    ensures Inv(trace[n])
  {
    if n > 0 {
      RunKeepsInv(trace, events, n - 1);
      StepKeepsInv(trace[n - 1], events[n - 1]);
    } else {
      forall j | 0 <= j < |trace[0].job.contacts| ensures trace[0].job.contacts[j].status == Waiting {
        assert trace[0].job.contacts[j] in trace[0].job.contacts;
      }
    }
  }

  // ---------- Main results ----------

  /** In every run the removed contacts form a prefix, and at most one contact is being tried. */
  lemma RemovedContactsFormPrefix(trace: seq<State>, events: seq<Event>, n: nat, i: nat, j: nat)
    requires IsRun(trace, events) && n < |trace| && i < j < |trace[n].job.contacts|
    ensures trace[n].job.contacts[j].status == Removed ==> trace[n].job.contacts[i].status == Removed
    ensures !(trace[n].job.contacts[i].status == Sent && trace[n].job.contacts[j].status == Sent)
  {
    RunKeepsInv(trace, events, n);
  }

  /** A contact that is waiting or skipped was never sent to the radio, nor can a late thread still send it. */
  lemma SkippedWasNeverSent(trace: seq<State>, events: seq<Event>, n: nat, j: nat)
    requires IsRun(trace, events) && n < |trace| && j < |trace[n].job.contacts|
    requires Untouched(trace[n].job.contacts[j].status)
    ensures Called(trace[n].job.contacts[j].node) !in trace[n].log
    ensures trace[n].inflight != Some(j)
  {
    RunKeepsInv(trace, events, n);
  }

  /**
   A contact is hidden only after its own removal call on this interface and a later complete
   download without it; a contact reported as removed is hidden.
   */
  lemma HiddenOnlyAfterFreshAbsence(trace: seq<State>, events: seq<Event>, n: nat, k: nat)
    requires IsRun(trace, events) && n < |trace| && k < |trace[n].log| && trace[n].log[k].Hid?
    ensures Justified(trace[n].log, k)
    ensures forall j | 0 <= j < |trace[n].job.contacts| && trace[n].job.contacts[j].status == Removed ::
              Hid(trace[n].job.contacts[j].node) in trace[n].log
  {
    RunKeepsInv(trace, events, n);
  }

  /** Some step before state n was the handler's failed write. */
  ghost predicate WriteFailed(events: seq<Event>, n: nat) {
    exists i | 0 <= i < n && i < |events| :: events[i] == Handle(false)
  }

  /** Some step before state n failed every pending action. */
  ghost predicate PendingFailed(events: seq<Event>, n: nat) {
    exists i | 0 <= i < n && i < |events| :: events[i] == FailPending
  }

  lemma WriteFailedStep(events: seq<Event>, n: nat)
    requires n < |events|
    ensures WriteFailed(events, n + 1) <==> WriteFailed(events, n) || events[n] == Handle(false)
    ensures PendingFailed(events, n + 1) <==> PendingFailed(events, n) || events[n] == FailPending
  {
  }

  /** Only the handler's failed write leaves an action unfinished when its worker has ended. */
  lemma {:induction false} UnfinishedOnlyByWrite(trace: seq<State>, events: seq<Event>, n: nat)
    requires IsRun(trace, events) && n < |trace|
    ensures PendingFailed(events, n) ==> trace[n].job.status != Started
    ensures WriteFailed(events, n) ==> trace[n].phase.Stopped?
    ensures !PendingFailed(events, n) && (WriteFailed(events, n) || !trace[n].phase.Stopped?) ==> trace[n].job.status == Started
    ensures trace[n].phase.Stopped? && trace[n].job.status == Started ==> WriteFailed(events, n)
  {
    if n > 0 {
      UnfinishedOnlyByWrite(trace, events, n - 1);
      WriteFailedStep(events, n - 1);
      StatusStep(trace[n - 1], events[n - 1]);
    }
  }

  lemma StatusStep(s: State, e: Event)
    requires Enabled(s, e)
    ensures var s' := Advance(s, e);
            && (s.job.status != Started ==> s'.job.status != Started) && (s.phase.Stopped? ==> s'.phase.Stopped?)
            && (e == FailPending ==> s'.job.status != Started) && (e == Handle(false) ==> s'.phase.Stopped?)
            && (s.job.status == Started && e != FailPending && (!s'.phase.Stopped? || s.phase.Stopped? || e == Handle(false)) ==>
                  s'.job.status == Started)
            && (s'.phase.Stopped? && s'.job.status == Started ==> s.phase.Stopped? || e == Handle(false))
  {
  }

  /**
   The action finishes at most once, completed means all removed, and no contact is open when the
   worker has ended. Its action has then finished exactly when the handler's database write did not
   fail, or the pending actions were failed before or after it.
   */
  lemma FinishesExactlyOnce(trace: seq<State>, events: seq<Event>, n: nat)
    requires IsRun(trace, events) && n < |trace|
    ensures trace[n].job.finishes == if trace[n].job.status == Started then 0 else 1
    ensures trace[n].job.status == Completed ==> forall c | c in trace[n].job.contacts :: c.status == Removed
    ensures trace[n].phase.Stopped? ==> forall c | c in trace[n].job.contacts :: !Open(c.status)
    ensures trace[n].phase.Stopped? ==>
              (trace[n].job.finishes == 1 <==> !WriteFailed(events, n) || PendingFailed(events, n))
  {
    RunKeepsInv(trace, events, n);
    UnfinishedOnlyByWrite(trace, events, n);
  }

  /** A run in which both writes fail: the worker has ended and its action is still started. */
  lemma UnfinishedRun(node: string, registry: set<string>) returns (trace: seq<State>, events: seq<Event>)
    ensures IsRun(trace, events)
    ensures var last := trace[|trace| - 1]; last.phase.Stopped? && last.job.status == Started && last.job.finishes == 0
  {
    var s0 := State(Job([Contact(node, Waiting)], Started, 0), Next(0), true, registry, 0, None, NotDone, [], 0);
    var s1 := Advance(s0, Begin(false));
    var s2 := Advance(s1, Handle(false));
    trace, events := [s0, s1, s2], [Begin(false), Handle(false)];
  }

  /** The worker is never stuck: from any state it can stop, by finishing, breaking off or handling an error. */
  lemma WorkerCanAlwaysProceed(s: State) returns (e: Event)
    requires Inv(s) && !s.phase.Stopped?
    ensures Enabled(s, e) && (e.Begin? || e.Fail? || e.Handle? || e.End? || e.Complete?)
  {
    match s.phase
    case Next(i) => e := if i < |s.job.contacts| then Begin(true) else End;
    case Broken(_) => e := Handle(true);
    case Ending => e := End;
    case Finishing => e := Complete;
    case _ => e := Fail(false);
  }

  // ---------- What precedes a hidden contact ----------

  function Nodes(job: Job): seq<string> {
    seq(|job.contacts|, i requires 0 <= i < |job.contacts| => job.contacts[i].node)
  }

  /** How a worker comes into the middle of a trial; no step changes which contacts are to be removed. */
  ghost predicate Progress(s: State, e: Event, s': State) {
    && Nodes(s'.job) == Nodes(s.job)
    && match s'.phase
       case Sending(i) =>
         if e.Begin? then e.recorded && s.phase == Next(i) && s.job.status == Started && s.present && s'.result != SendOk
         else s.phase == Sending(i) && (s'.result == SendOk ==> s.result == SendOk || e == CallRemoveNode(true))
       case Refresh(i) =>
         if e.SendReturned? then s.phase == Sending(i) && s.result == SendOk else s.phase == s'.phase
       case Refreshing(i, version, completed, _) =>
         if e.StartRefresh? then e.available && s.phase == Refresh(i) && s.present && version == s.version && !completed
         else s.phase.Refreshing? && s.phase.index == i && s.phase.version == version
              && (completed ==> s.phase.completed || e.ConfigComplete?)
       case Checking(i, snapshot, _) =>
         if e.FinishRefresh? then
           && s.phase.Refreshing? && s.phase.index == i && s.phase.completed && s.present
           && s.version != s.phase.version && snapshot == s.registry
         else s.phase == s'.phase
       case Confirming(i, _) =>
         if e.Check? then
           s.phase.Checking? && s.phase.index == i && i < |s.job.contacts| && s.job.contacts[i].node !in s.phase.snapshot
         else s.phase == s'.phase
       case _ => true
  }

  lemma StepProgresses(s: State, e: Event)
    requires Enabled(s, e)
    ensures Progress(s, e, Advance(s, e))
  {
  }

  ghost predicate Progresses(trace: seq<State>, events: seq<Event>) {
    && |trace| == |events| + 1 && trace[0].phase.Next?
    && forall k | 0 <= k < |events| :: Progress(trace[k], events[k], trace[k + 1])
  }

  lemma RunProgresses(trace: seq<State>, events: seq<Event>)
    requires IsRun(trace, events)
    ensures Progresses(trace, events)
  {
    forall k | 0 <= k < |events| ensures Progress(trace[k], events[k], trace[k + 1]) {
      StepProgresses(trace[k], events[k]);
    }
  }

  /** Contact `i` was taken up at step `a`: recorded as sent while the action ran on the current interface. */
  ghost predicate TakenUp(trace: seq<State>, events: seq<Event>, a: nat, i: nat)
    requires |trace| == |events| + 1
  {
    a < |events| && events[a].Begin? && trace[a].phase == Next(i) && trace[a].job.status == Started && trace[a].present
  }

  lemma {:induction false} SendingWasTakenUp(trace: seq<State>, events: seq<Event>, n: nat) returns (a: nat)
    requires Progresses(trace, events) && n < |trace| && trace[n].phase.Sending?
    ensures a < n && TakenUp(trace, events, a, trace[n].phase.index) && events[a].recorded
    ensures trace[n].result == SendOk ==> exists x | a < x < n :: events[x] == CallRemoveNode(true)
  {
    assert Progress(trace[n - 1], events[n - 1], trace[n]);
    if events[n - 1].Begin? {
      a := n - 1;
    } else {
      a := SendingWasTakenUp(trace, events, n - 1);
      if trace[n].result == SendOk && events[n - 1] != CallRemoveNode(true) {
        var x :| a < x < n - 1 && events[x] == CallRemoveNode(true);
      }
    }
  }

  /** The contact was taken up at step `a`, the radio then accepted its removal, and the worker learned so at step `b`. */
  ghost predicate Accepted(trace: seq<State>, events: seq<Event>, i: nat, a: nat, b: nat)
    requires |trace| == |events| + 1
  {
    && a < b < |events| && TakenUp(trace, events, a, i) && events[a].recorded && events[b] == SendReturned
    && exists x | a < x < b :: events[x] == CallRemoveNode(true)
  }

  lemma {:induction false} RefreshWasAccepted(trace: seq<State>, events: seq<Event>, n: nat) returns (a: nat, b: nat)
    requires Progresses(trace, events) && n < |trace| && trace[n].phase.Refresh?
    ensures b < n && Accepted(trace, events, trace[n].phase.index, a, b)
  {
    assert Progress(trace[n - 1], events[n - 1], trace[n]);
    if events[n - 1].SendReturned? {
      a := SendingWasTakenUp(trace, events, n - 1);
      b := n - 1;
    } else {
      a, b := RefreshWasAccepted(trace, events, n - 1);
    }
  }

  /** A download was requested at step `c` on the current interface. */
  ghost predicate Requested(trace: seq<State>, events: seq<Event>, i: nat, a: nat, b: nat, c: nat)
    requires |trace| == |events| + 1
  {
    Accepted(trace, events, i, a, b) && b < c < |events| && events[c] == StartRefresh(true) && trace[c].present
  }

  lemma {:induction false} RefreshingWasRequested(trace: seq<State>, events: seq<Event>, n: nat)
    returns (a: nat, b: nat, c: nat)
    requires Progresses(trace, events) && n < |trace| && trace[n].phase.Refreshing?
    ensures c < n && Requested(trace, events, trace[n].phase.index, a, b, c) && trace[n].phase.version == trace[c].version
    ensures trace[n].phase.completed ==> exists y | c < y < n :: events[y].ConfigComplete?
  {
    assert Progress(trace[n - 1], events[n - 1], trace[n]);
    if events[n - 1].StartRefresh? {
      a, b := RefreshWasAccepted(trace, events, n - 1);
      c := n - 1;
    } else {
      a, b, c := RefreshingWasRequested(trace, events, n - 1);
      if trace[n].phase.completed && !events[n - 1].ConfigComplete? {
        var y :| c < y < n - 1 && events[y].ConfigComplete?;
      }
    }
  }

  /** At step `d`, still on the current interface, a completed download had replaced the registry of the request. */
  ghost predicate Downloaded(trace: seq<State>, events: seq<Event>, i: nat, a: nat, b: nat, c: nat, d: nat)
    requires |trace| == |events| + 1
  {
    && Requested(trace, events, i, a, b, c) && c < d < |events| && events[d] == FinishRefresh && trace[d].present
    && (exists y | c < y < d :: events[y].ConfigComplete?) && trace[d].version != trace[c].version
  }

  lemma {:induction false} CheckingWasDownloaded(trace: seq<State>, events: seq<Event>, n: nat)
    returns (a: nat, b: nat, c: nat, d: nat)
    requires Progresses(trace, events) && n < |trace| && trace[n].phase.Checking?
    ensures d < n && Downloaded(trace, events, trace[n].phase.index, a, b, c, d)
    ensures trace[n].phase.snapshot == trace[d].registry && Nodes(trace[n].job) == Nodes(trace[d].job)
  {
    assert Progress(trace[n - 1], events[n - 1], trace[n]);
    if events[n - 1].FinishRefresh? {
      a, b, c := RefreshingWasRequested(trace, events, n - 1);
      d := n - 1;
    } else {
      a, b, c, d := CheckingWasDownloaded(trace, events, n - 1);
    }
  }

  lemma {:induction false} ConfirmingWasMissing(trace: seq<State>, events: seq<Event>, n: nat)
    returns (a: nat, b: nat, c: nat, d: nat)
    requires Progresses(trace, events) && n < |trace| && trace[n].phase.Confirming?
    ensures d < n && Downloaded(trace, events, trace[n].phase.index, a, b, c, d)
    ensures Nodes(trace[n].job) == Nodes(trace[d].job) && trace[n].phase.index < |trace[d].job.contacts|
    ensures trace[d].job.contacts[trace[n].phase.index].node !in trace[d].registry
  {
    assert Progress(trace[n - 1], events[n - 1], trace[n]);
    if events[n - 1].Check? {
      a, b, c, d := CheckingWasDownloaded(trace, events, n - 1);
      SameNode(trace[n - 1].job, trace[d].job, trace[n].phase.index);
    } else {
      a, b, c, d := ConfirmingWasMissing(trace, events, n - 1);
    }
  }

  lemma SameNode(job: Job, earlier: Job, i: nat)
    requires Nodes(job) == Nodes(earlier) && i < |job.contacts|
    ensures i < |earlier.contacts| && job.contacts[i].node == earlier.contacts[i].node
  {
    assert |Nodes(job)| == |Nodes(earlier)| && Nodes(job)[i] == Nodes(earlier)[i];
  }

  /**
   A step that hides a contact ends a whole trial of it: it was recorded as sent, the radio accepted the removal, a
   download requested after that was completed and replaced the registry, and the contact was missing from
   the new registry then and is missing now, with the action still running on the current interface.
   */
  lemma HiddenAfterWholeTrial(trace: seq<State>, events: seq<Event>, n: nat) returns (i: nat, a: nat, b: nat, c: nat, d: nat)
    requires IsRun(trace, events) && n < |events|
    requires exists node :: Hid(node) in trace[n + 1].log && Hid(node) !in trace[n].log
    ensures d < n && Downloaded(trace, events, i, a, b, c, d)
    ensures Nodes(trace[n].job) == Nodes(trace[d].job) && i < |trace[d].job.contacts|
    ensures trace[d].job.contacts[i].node !in trace[d].registry
    ensures HidesContact(trace[n], events[n], trace[n + 1], i)
  {
    RunProgresses(trace, events);
    StepHides(trace[n], events[n]);
    i := trace[n].phase.index;
    a, b, c, d := ConfirmingWasMissing(trace, events, n);
  }

  /** Contact `i` is hidden, and marked as removed unless the database failed in between. */
  ghost predicate HidesContact(s: State, e: Event, s': State, i: nat) {
    && e.Confirm? && e.fault != BeforeHiding && s.job.status == Started && s.present
    && |s'.job.contacts| == |s.job.contacts| > i && s.job.contacts[i].node !in s.registry
    && s'.log == s.log + [Hid(s.job.contacts[i].node)]
    && s'.job.contacts[i].status == (if e.fault == AfterHiding then s.job.contacts[i].status else Removed)
  }

  lemma StepHides(s: State, e: Event)
    requires Enabled(s, e)
    ensures (exists node :: Hid(node) in Advance(s, e).log && Hid(node) !in s.log) ==>
              s.phase.Confirming? && HidesContact(s, e, Advance(s, e), s.phase.index)
  {
  }

  /** Failing the pending actions settles a started one: what may have reached the radio stays unverified. */
  lemma PendingFailureSettles(s: State)
    requires s.job.status == Started
    ensures var job := Advance(s, FailPending).job;
            && job.status == JobFailed && job.finishes == s.job.finishes + 1 && Nodes(job) == Nodes(s.job)
            && forall j | 0 <= j < |job.contacts| ::
                 && (s.job.contacts[j].status == Sent ==> job.contacts[j].status == SentUnverified)
                 && (s.job.contacts[j].status == Waiting ==> job.contacts[j].status == Skipped)
                 && (!Open(s.job.contacts[j].status) ==> job.contacts[j] == s.job.contacts[j])
  {
  }

  /** Some step before state n took contact `j` up. */
  ghost predicate Tried(trace: seq<State>, events: seq<Event>, n: nat, j: nat)
    requires |trace| == |events| + 1
  {
    exists a: nat | a < n :: TakenUp(trace, events, a, j)
  }

  /** The status of a contact tells whether it was tried; a failed one may or may not have been. */
  ghost predicate TellsTrial(status: ContactStatus, tried: bool) {
    && (tried ==> status == Sent || status == SentUnverified || status == Removed || status == Failed)
    && (!tried ==> status == Waiting || status == Skipped || status == Failed)
  }

  lemma {:induction false} StatusTellsTrial(trace: seq<State>, events: seq<Event>, n: nat, j: nat)
    requires IsRun(trace, events) && n < |trace| && j < |trace[n].job.contacts|
    ensures TellsTrial(trace[n].job.contacts[j].status, Tried(trace, events, n, j))
  {
    if n > 0 {
      var s, e := trace[n - 1], events[n - 1];
      StepProgresses(s, e);
      assert |Nodes(trace[n].job)| == |Nodes(s.job)|;
      StatusTellsTrial(trace, events, n - 1, j);
      RunKeepsInv(trace, events, n - 1);
      assert Tried(trace, events, n, j) <==> Tried(trace, events, n - 1, j) || TakenUp(trace, events, n - 1, j);
      TrialStep(s, e, j, Tried(trace, events, n - 1, j));
    } else {
      InitialIsOpen(trace[0]);
      assert trace[0].job.contacts[j] in trace[0].job.contacts;
    }
  }

  lemma TrialStep(s: State, e: Event, j: nat, tried: bool)
    requires Inv(s) && Enabled(s, e) && j < |s.job.contacts| && TellsTrial(s.job.contacts[j].status, tried)
    ensures j < |Advance(s, e).job.contacts|
    ensures TellsTrial(Advance(s, e).job.contacts[j].status,
                       tried || (e.Begin? && s.phase == Next(j) && s.job.status == Started && s.present))
  {
  }

  // ---------- What the reported statuses are worth ----------

  /** Some step before state n marked a contact as removed and then failed to record it. */
  ghost predicate RecordingFailed(events: seq<Event>, n: nat) {
    exists i | 0 <= i < n && i < |events| :: events[i] == Confirm(AfterRemoval)
  }

  /** No failed contact was or can be sent to the radio. */
  ghost predicate FailedInv(s: State) {
    forall j | 0 <= j < |s.job.contacts| && s.job.contacts[j].status == Failed ::
      Called(s.job.contacts[j].node) !in s.log && s.inflight != Some(j)
  }

  /** The contact in hand is waiting or sent while the action runs, except after a removal that could not be recorded. */
  ghost predicate InHandInv(s: State) {
    s.phase.Broken? && s.job.status == Started ==>
      s.phase.index < |s.job.contacts|
      && (s.job.contacts[s.phase.index].status == Waiting || s.job.contacts[s.phase.index].status == Sent)
  }

  lemma FailedStep(s: State, e: Event)
    requires Inv(s) && Enabled(s, e) && FailedInv(s) && InHandInv(s)
    requires s.job.status == Started || s.phase.Stopped?
    requires e != FailPending && e != Confirm(AfterRemoval)
    ensures FailedInv(Advance(s, e)) && InHandInv(Advance(s, e))
  {
    if e.Handle? {
      HandledFailed(s, Advance(s, e), e.recorded);
    } else if e.CallRemoveNode? {
      CalledFailed(s, e.ok);
    } else if e.Confirm? || e.ConfigComplete? {
      LoggedNoCall(s, Advance(s, e), e);
      LoggedFailed(s, e);
    } else {
      QuietFailed(s, e);
    }
  }

  lemma CalledFailed(s: State, ok: bool)
    requires Inv(s) && Enabled(s, CallRemoveNode(ok)) && FailedInv(s) && InHandInv(s)
    ensures FailedInv(Advance(s, CallRemoveNode(ok))) && InHandInv(Advance(s, CallRemoveNode(ok)))
  {
    var entry := Called(s.job.contacts[s.inflight.value].node);
    assert forall x :: x in s.log + [entry] <==> x in s.log || x == entry;
  }

  lemma LoggedFailed(s: State, e: Event)
    requires Inv(s) && Enabled(s, e) && FailedInv(s) && InHandInv(s) && e != Confirm(AfterRemoval)
    requires s.job.status == Started || s.phase.Stopped?
    requires e.Confirm? || e.ConfigComplete?
    requires forall node :: Called(node) in Advance(s, e).log <==> Called(node) in s.log
    ensures FailedInv(Advance(s, e)) && InHandInv(Advance(s, e))
  {
  }

  lemma QuietFailed(s: State, e: Event)
    requires Inv(s) && Enabled(s, e) && FailedInv(s) && InHandInv(s) && (s.job.status == Started || s.phase.Stopped?)
    requires e != FailPending && !e.Confirm? && !e.ConfigComplete? && !e.CallRemoveNode? && !e.Handle?
    ensures FailedInv(Advance(s, e)) && InHandInv(Advance(s, e))
  {
  }

  lemma LoggedNoCall(s: State, s': State, e: Event)
    requires Enabled(s, e) && s' == Advance(s, e) && (e.Confirm? || e.ConfigComplete?)
    ensures forall node :: Called(node) in s'.log <==> Called(node) in s.log
  {
  }

  lemma HandledFailed(s: State, s': State, recorded: bool)
    requires Inv(s) && s.phase.Broken? && s.job.status == Started && FailedInv(s) && InHandInv(s)
    requires s' == s.(job := Abort(s.job, s.phase.index, recorded), phase := Stopped)
    ensures FailedInv(s')
  {
    AbortFacts(s.job, s.phase.index, recorded);
    var i := s.phase.index;
    forall j | 0 <= j < |s'.job.contacts| && s'.job.contacts[j].status == Failed
      ensures Called(s'.job.contacts[j].node) !in s'.log && s'.inflight != Some(j)
    {
      assert j == i && s.job.contacts[i].status == Waiting;
    }
  }

  /** A finished action is completed exactly when all its contacts were removed. */
  ghost predicate CompletedIffAllRemoved(job: Job) {
    job.status != Started ==> (job.status == Completed <==> forall c | c in job.contacts :: c.status == Removed)
  }

  /**
   A contact reported as failed was never sent to the radio, as long as no removal failed to be recorded and the
   pending actions were not failed meanwhile; a finished action then is completed exactly when all were removed.
   */
  lemma {:induction false} FailedWasNeverSent(trace: seq<State>, events: seq<Event>, n: nat)
    requires IsRun(trace, events) && n < |trace| && !PendingFailed(events, n) && !RecordingFailed(events, n)
    ensures FailedInv(trace[n]) && InHandInv(trace[n]) && CompletedIffAllRemoved(trace[n].job)
  {
    if n > 0 {
      var s, e := trace[n - 1], events[n - 1];
      WriteFailedStep(events, n - 1);
      assert !PendingFailed(events, n - 1) && !RecordingFailed(events, n - 1);
      FailedWasNeverSent(trace, events, n - 1);
      RunKeepsInv(trace, events, n - 1);
      UnfinishedOnlyByWrite(trace, events, n - 1);
      FailedStep(s, e);
      CompletionStep(s, e);
      assert trace[n] == Advance(s, e);
    } else {
      InitialIsOpen(trace[0]);
    }
  }

  lemma InitialIsOpen(s: State)
    requires Initial(s)
    ensures FailedInv(s) && InHandInv(s)
  {
    forall j | 0 <= j < |s.job.contacts| ensures s.job.contacts[j].status == Waiting {
      assert s.job.contacts[j] in s.job.contacts;
    }
  }

  lemma CompletionStep(s: State, e: Event)
    requires Inv(s) && Enabled(s, e) && e != FailPending && (s.job.status == Started || s.phase.Stopped?)
    requires CompletedIffAllRemoved(s.job)
    ensures CompletedIffAllRemoved(Advance(s, e).job)
  {
    if e.Handle? && s.job.status == Started {
      AbortFacts(s.job, s.phase.index, e.recorded);
      var contacts := Advance(s, e).job.contacts;
      assert contacts[s.phase.index] in contacts;
    }
  }

  /** Both exceptions happen: a contact that was sent, and even one that was removed and hidden, is reported as failed. */
  lemma RemovedIsReportedFailed(node: string, other: string) returns (trace: seq<State>, events: seq<Event>)
    requires node != other
    ensures IsRun(trace, events)
    ensures var last := trace[|trace| - 1];
            && last.job.contacts == [Contact(node, Failed)] && Called(node) in last.log && Hid(node) in last.log
            && last.job.status == JobFailed
  {
    var s0 := State(Job([Contact(node, Waiting)], Started, 0), Next(0), true, {node, other}, 0, None, NotDone, [], 0);
    trace, events := RemovalRun(s0, {other}, AfterRemoval);
    var s8 := trace[8];
    var s9 := Advance(s8, Handle(true));
    assert s9.job.contacts == [Contact(node, Failed)];
    trace, events := Extended(trace, events, Handle(true), s9);
  }

  lemma SentIsReportedFailed(node: string) returns (trace: seq<State>, events: seq<Event>)
    ensures IsRun(trace, events)
    ensures var last := trace[|trace| - 1]; last.job.contacts == [Contact(node, Failed)] && Called(node) in last.log
  {
    var s0 := State(Job([Contact(node, Waiting)], Started, 0), Next(0), true, {node}, 0, None, NotDone, [], 0);
    var s1 := Advance(s0, Begin(true));
    var s2 := Advance(s1, CallRemoveNode(false));
    var s3 := Advance(s2, FailPending);
    var s4 := Advance(s3, SendReturned);
    var s5 := Advance(s4, Handle(true));
    assert s3.job.contacts == [Contact(node, SentUnverified)];
    assert s5.job.contacts == [Contact(node, Failed)];
    assert IsRun([s0], []);
    trace, events := Extended([s0], [], Begin(true), s1);
    trace, events := Extended(trace, events, CallRemoveNode(false), s2);
    trace, events := Extended(trace, events, FailPending, s3);
    trace, events := Extended(trace, events, SendReturned, s4);
    trace, events := Extended(trace, events, Handle(true), s5);
  }

  lemma Extended(trace: seq<State>, events: seq<Event>, e: Event, s: State) returns (trace': seq<State>, events': seq<Event>)
    requires IsRun(trace, events) && Enabled(trace[|events|], e) && s == Advance(trace[|events|], e)
    ensures trace' == trace + [s] && events' == events + [e] && IsRun(trace', events')
    ensures trace'[|events'|] == s && |trace'| == |trace| + 1
  {
    trace', events' := trace + [s], events + [e];
  }

  // ---------- Success ----------

  /** The states of a trial in which nothing fails until its end. */
  function Trial(s: State, nodes: set<string>, fault: Fault): seq<Event> {
    [Begin(true), CallRemoveNode(true), SendReturned, StartRefresh(true), ConfigComplete(Some(nodes)), FinishRefresh, Check,
     Confirm(fault)]
  }

  /** A contact that the radio removes, as a complete download shows, is removed and hidden, and the next one follows. */
  lemma TrialRemoves(s: State, nodes: set<string>) returns (trace: seq<State>)
    requires s.phase.Next? && s.phase.index < |s.job.contacts| && s.job.status == Started && s.present
    requires s.job.contacts[s.phase.index].node !in nodes
    ensures |trace| == 9 && trace[0] == s
    ensures forall k | 0 <= k < 8 :: Enabled(trace[k], Trial(s, nodes, NoFault)[k])
                                    && trace[k + 1] == Advance(trace[k], Trial(s, nodes, NoFault)[k])
    ensures var i := s.phase.index;
            && trace[8].phase == Next(i + 1) && trace[8].present && trace[8].job == Mark(s.job, i, Removed)
            && Hid(s.job.contacts[i].node) in trace[8].log
  {
    trace := TrialTrace(s, nodes, NoFault);
    assert Mark(Mark(s.job, s.phase.index, Sent), s.phase.index, Removed).contacts == Mark(s.job, s.phase.index, Removed).contacts;
  }

  lemma TrialTrace(s: State, nodes: set<string>, fault: Fault) returns (trace: seq<State>)
    requires s.phase.Next? && s.phase.index < |s.job.contacts| && s.job.status == Started && s.present
    requires s.job.contacts[s.phase.index].node !in nodes && (fault == NoFault || fault == AfterRemoval)
    ensures |trace| == 9 && trace[0] == s
    ensures forall k | 0 <= k < 8 :: Enabled(trace[k], Trial(s, nodes, fault)[k])
                                    && trace[k + 1] == Advance(trace[k], Trial(s, nodes, fault)[k])
    ensures var i := s.phase.index;
            && trace[8].phase == (if fault == NoFault then Next(i + 1) else Broken(i)) && trace[8].present
            && trace[8].job == Mark(Mark(s.job, i, Sent), i, Removed)
            && trace[8].log == s.log + [Called(s.job.contacts[i].node)] + [Download(nodes)] + [Hid(s.job.contacts[i].node)]
  {
    var s3, first := TrialSend(s);
    var s5, second := TrialRefresh(s3, nodes);
    var third := TrialConfirm(s5, fault);
    var events: seq<Event>;
    trace, events := Joined(first, [Begin(true), CallRemoveNode(true), SendReturned],
                            second, [StartRefresh(true), ConfigComplete(Some(nodes))]);
    trace, events := Joined(trace, events, third, [FinishRefresh, Check, Confirm(fault)]);
    assert events == Trial(s, nodes, fault);
  }

  ghost predicate Path(trace: seq<State>, events: seq<Event>) {
    && |trace| == |events| + 1
    && forall k | 0 <= k < |events| :: Enabled(trace[k], events[k]) && trace[k + 1] == Advance(trace[k], events[k])
  }

  lemma Joined(trace: seq<State>, events: seq<Event>, more: seq<State>, steps: seq<Event>)
    returns (trace': seq<State>, events': seq<Event>)
    requires Path(trace, events) && Path(more, steps) && more[0] == trace[|events|]
    ensures trace' == trace + more[1..] && events' == events + steps && Path(trace', events')
    ensures trace'[0] == trace[0] && trace'[|events'|] == more[|steps|]
  {
    trace', events' := trace + more[1..], events + steps;
    forall k | 0 <= k < |events'| ensures Enabled(trace'[k], events'[k]) && trace'[k + 1] == Advance(trace'[k], events'[k]) {
      if k >= |events| {
        assert trace'[k] == more[k - |events|] && trace'[k + 1] == more[k - |events| + 1];
      }
    }
  }

  lemma TrialSend(s: State) returns (s3: State, trace: seq<State>)
    requires s.phase.Next? && s.phase.index < |s.job.contacts| && s.job.status == Started && s.present
    ensures Path(trace, [Begin(true), CallRemoveNode(true), SendReturned]) && trace[0] == s && trace[3] == s3
    ensures var i := s.phase.index;
            s3 == s.(job := Mark(s.job, i, Sent), phase := Refresh(i), inflight := None, result := SendOk,
                     log := s.log + [Called(s.job.contacts[i].node)])
  {
    var s1 := Advance(s, Begin(true));
    var s2 := Advance(s1, CallRemoveNode(true));
    s3 := Advance(s2, SendReturned);
    trace := [s, s1, s2, s3];
  }

  lemma TrialRefresh(s: State, nodes: set<string>) returns (s2: State, trace: seq<State>)
    requires s.phase.Refresh? && s.present
    ensures Path(trace, [StartRefresh(true), ConfigComplete(Some(nodes))]) && trace[0] == s && trace[2] == s2
    ensures s2.phase.Refreshing? && s2.phase.index == s.phase.index && s2.phase.completed && s2.version != s2.phase.version
    ensures s2.registry == nodes && s2.log == s.log + [Download(nodes)] && s2.job == s.job && s2.present
  {
    var s1 := Advance(s, StartRefresh(true));
    s2 := Advance(s1, ConfigComplete(Some(nodes)));
    trace := [s, s1, s2];
  }

  lemma TrialConfirm(s: State, fault: Fault) returns (trace: seq<State>)
    requires s.phase.Refreshing? && s.phase.completed && s.phase.index < |s.job.contacts| && s.job.status == Started && s.present
    requires s.version != s.phase.version && s.job.contacts[s.phase.index].node !in s.registry
    requires fault == NoFault || fault == AfterRemoval
    ensures Path(trace, [FinishRefresh, Check, Confirm(fault)]) && trace[0] == s
    ensures var i := s.phase.index;
            && trace[3].phase == (if fault == NoFault then Next(i + 1) else Broken(i)) && trace[3].present == s.present
            && trace[3].job == Mark(s.job, i, Removed) && trace[3].log == s.log + [Hid(s.job.contacts[i].node)]
  {
    var s1 := Advance(s, FinishRefresh);
    var s2 := Advance(s1, Check);
    trace := [s, s1, s2, Advance(s2, Confirm(fault))];
  }

  lemma RemovalRun(s: State, nodes: set<string>, fault: Fault) returns (trace: seq<State>, events: seq<Event>)
    requires Initial(s) && s.present && s.job.contacts[0].node !in nodes && (fault == NoFault || fault == AfterRemoval)
    ensures IsRun(trace, events) && |trace| == 9 && trace[0] == s
    ensures trace[8].phase == (if fault == NoFault then Next(1) else Broken(0)) && trace[8].present
    ensures trace[8].job == Mark(Mark(s.job, 0, Sent), 0, Removed)
    ensures trace[8].log == [Called(s.job.contacts[0].node), Download(nodes), Hid(s.job.contacts[0].node)]
  {
    assert s.job.contacts[0] in s.job.contacts;
    trace := TrialTrace(s, nodes, fault);
    events := Trial(s, nodes, fault);
  }

  /** From any point between two contacts the rest can be removed, and the action completes. */
  lemma {:induction false} RestCanBeRemoved(trace: seq<State>, events: seq<Event>) returns (trace': seq<State>, events': seq<Event>)
    requires IsRun(trace, events) && trace[|events|].phase.Next? && trace[|events|].present && trace[|events|].job.status == Started
    ensures IsRun(trace', events') && trace <= trace'
    ensures trace'[|events'|].job.status == Completed && trace'[|events'|].phase.Stopped?
    ensures forall c | c in trace'[|events'|].job.contacts :: c.status == Removed
    decreases |trace[|events|].job.contacts| - trace[|events|].phase.index
  {
    var s := trace[|events|];
    RunKeepsInv(trace, events, |events|);
    if s.phase.index < |s.job.contacts| {
      var more := TrialRemoves(s, {});
      trace', events' := Appended(trace, events, more, Trial(s, {}, NoFault));
      trace', events' := RestCanBeRemoved(trace', events');
    } else {
      var s1 := Advance(s, End);
      var s2 := Advance(s1, Complete);
      trace', events' := Extended(trace, events, End, s1);
      trace', events' := Extended(trace', events', Complete, s2);
    }
  }

  lemma Appended(trace: seq<State>, events: seq<Event>, more: seq<State>, steps: seq<Event>)
    returns (trace': seq<State>, events': seq<Event>)
    requires IsRun(trace, events) && |more| == |steps| + 1 && more[0] == trace[|events|]
    requires forall k | 0 <= k < |steps| :: Enabled(more[k], steps[k]) && more[k + 1] == Advance(more[k], steps[k])
    ensures IsRun(trace', events') && trace <= trace' && |events'| == |events| + |steps| && trace'[|events'|] == more[|steps|]
  {
    trace', events' := Joined(trace, events, more, steps);
  }
}
