/** What the daemon answers, told by its history: what was submitted, found, ended and replied
    (crates/premonition-daemon/src/lib.rs:63-606). */
module ServiceHistory {
  import opened Text
  import opened Worlds
  import opened Staging
  import opened ServiceState
  import opened ServiceRuns
  import opened ServiceInvariants
  import opened ServiceLaws

  function Last<T>(log: seq<T>): T
    requires log != []
  {
    log[|log| - 1]
  }

  // ---- the proposal at hand ----

  /** What the last finished job and the last submission make of the proposal at hand. */
  function LatestRecord(s: Daemon): ProposalRecord
    requires s.issued != [] && s.submissions != [] && s.findings != []
  {
    var job, found := Last(s.submissions), Last(s.findings);
    ProposalRecord(Last(s.issued), job.correlationId, job.repositoryId, found.createdMs,
                   found.candidate.rationale, found.candidate.evidence, found.candidate.proposal)
  }

  /** The running job is the last one submitted; the proposal at hand is what it found. */
  predicate Held(s: Daemon) {
    && |s.findings| == |s.issued|
    && (s.inner.active.Some? ==> s.submissions != [])
    && (s.inner.active.Some? && s.inner.active.value.Working? ==>
          Last(s.submissions) == Job(s.inner.active.value.correlationId, s.inner.active.value.repositoryId))
    && (s.inner.active.Some? && s.inner.active.value.Ready? ==>
          s.issued != [] && s.inner.active.value.record == LatestRecord(s))
  }

  lemma HeldStep(cfg: Config, s: Daemon, e: Event)
    requires Routed(s.pc) && Enabled(s, e) && Slotted(s) && Held(s)
    ensures Held(Step(cfg, s, e))
  {
    match e
    case Finish(job, low, medium, ms, createdMs) => HeldFinish(s, job, Completion(low, medium), ms, createdMs);
    case Advance(ms) =>
      if s.pc.Section? {
        HeldSection(cfg, s, ms);
      } else {
        HeldAdvance(cfg, s, ms);
      }
    case _ =>
  }

  lemma HeldFinish(s: Daemon, job: nat, done: Result<Candidate, JobError>, ms: nat, createdMs: nat)
    requires job < |s.jobs| && ms < U64_LIMIT && Slotted(s) && Held(s)
    ensures Held(JobDone(s, job, done, ms, createdMs))
  {
    GeneratedIdIsSafe(ms, (s.inner.sequence + 1) % U64_LIMIT);
    hide Pushed, IsSafeId, ProposalId, FailedJob;
  }

  lemma HeldSection(cfg: Config, s: Daemon, ms: nat)
    requires s.pc.Section? && Routed(s.pc) && Held(s)
    ensures Held(InSection(cfg, s, ms))
  {
    hide Pushed, StatusOf, BodyOf, HasEnded, SummaryOf, EndRecord;
  }

  lemma HeldAdvance(cfg: Config, s: Daemon, ms: nat)
    requires Routed(s.pc) && Enabled(s, Advance(ms)) && Held(s) && !s.pc.Section?
    ensures Held(Advanced(cfg, s, ms))
  {
    hide Recalled, Objection, HasEnded, Pushed, MapApplyError, SummaryOf, EndRecord;
  }

  // ---- answers and ends ----

  /** Who is told of an end can find it on record. */
  predicate Backed(p: Payload, log: seq<TerminalRecord>) {
    && (p.AppliedReply? ==> TerminalRecord(p.proposalId, TerminalOutcome.Applied) in log)
    && (p.DismissedReply? ==> TerminalRecord(p.proposalId, TerminalOutcome.Dismissed) in log)
  }

  predicate EndsBacked(s: Daemon) {
    && (forall k | 0 <= k < |s.replies| :: Backed(s.replies[k].payload, s.terminalLog))
    && (forall k | 0 <= k < |s.inner.requests| :: Backed(s.inner.requests[k].response.payload, s.terminalLog))
    && (s.pc.Reply? ==> Backed(s.pc.payload, s.terminalLog))
  }

  lemma BackedLonger(p: Payload, log: seq<TerminalRecord>, more: seq<TerminalRecord>)
    requires Backed(p, log)
    ensures Backed(p, log + more)
  {
  }

  /** What the daemon still holds of the ends is part of what it recorded. */
  lemma HeldEndsAreRecorded(s: Daemon, id: string, outcome: TerminalOutcome)
    requires Histories(s) && HasEnded(s.inner, id, outcome)
    ensures TerminalRecord(id, outcome) in s.terminalLog
  {
  }

  lemma BackedStep(cfg: Config, s: Daemon, e: Event)
    requires Routed(s.pc) && Enabled(s, e) && Histories(s) && EndsBacked(s)
    ensures EndsBacked(Step(cfg, s, e))
  {
    match e
    case Finish(job, low, medium, ms, createdMs) =>
      JobDoneIssuesNothingElse(s, job, Completion(low, medium), ms, createdMs);
    case Advance(ms) =>
      if s.pc.Section? {
        BackedSection(cfg, s, ms);
      } else {
        BackedAdvance(cfg, s, ms);
      }
    case _ =>
    hide Backed, JobDone, InSection, Advanced;
  }

  lemma JobDoneIssuesNothingElse(s: Daemon, job: nat, done: Result<Candidate, JobError>, ms: nat, createdMs: nat)
    requires job < |s.jobs|
    ensures var t := JobDone(s, job, done, ms, createdMs);
            && t.terminalLog == s.terminalLog && t.replies == s.replies && t.inner.requests == s.inner.requests
            && t.pc == s.pc && t.calls == s.calls && t.called == s.called && t.cacheLog == s.cacheLog
            && t.inner.terminal == s.inner.terminal
            && (s.inner.state != State.RecoveryRequired ==> t.inner.state != State.RecoveryRequired)
  {
    hide Pushed, IsSafeId, ProposalId, MapCoreError;
  }

  lemma BackedSection(cfg: Config, s: Daemon, ms: nat)
    requires s.pc.Section? && Routed(s.pc) && Histories(s) && EndsBacked(s)
    ensures EndsBacked(InSection(cfg, s, ms))
  {
    var t := InSection(cfg, s, ms);
    SectionReplies(cfg, s, ms);
    SectionIsBacked(cfg, s, ms);
    forall p: Payload | Backed(p, s.terminalLog) ensures Backed(p, t.terminalLog) {
      BackedLonger(p, s.terminalLog, t.terminalLog[|s.terminalLog|..]);
    }
    hide Backed, InSection, Histories;
  }

  lemma SectionIsBacked(cfg: Config, s: Daemon, ms: nat)
    requires s.pc.Section? && Routed(s.pc) && Histories(s)
    ensures var t := InSection(cfg, s, ms);
            && t.pc.Reply? && Backed(t.pc.payload, t.terminalLog) && s.terminalLog <= t.terminalLog
  {
    if s.pc.request.operation.ProposalDismiss? {
      var id := s.pc.request.operation.proposalId;
      if HasEnded(s.inner, id, TerminalOutcome.Dismissed) {
        HeldEndsAreRecorded(s, id, TerminalOutcome.Dismissed);
      }
    }
    hide Pushed, HasEnded, SummaryOf, Histories;
  }

  lemma BackedAdvance(cfg: Config, s: Daemon, ms: nat)
    requires Routed(s.pc) && Enabled(s, Advance(ms)) && Histories(s) && EndsBacked(s) && !s.pc.Section?
    ensures EndsBacked(Advanced(cfg, s, ms))
  {
    hide Advanced, EndsBacked, Histories;
    match s.pc
    case Lookup(r) => BackedLookup(cfg, s, ms);
    case Reply(r, p) => BackedReply(cfg, s, ms);
    case ApplyDone(r, record, result) => BackedDone(cfg, s, ms);
    case _ => BackedOther(cfg, s, ms);
  }

  lemma BackedLookup(cfg: Config, s: Daemon, ms: nat)
    requires s.pc.Lookup? && Enabled(s, Advance(ms)) && EndsBacked(s)
    ensures EndsBacked(Advanced(cfg, s, ms))
  {
    var found := Find(s.inner.requests, s.pc.request.requestId);
    hide Find, Backed, Objection;
    if found.Some? {
      var k :| 0 <= k < |s.inner.requests| && s.inner.requests[k] == found.value;
    } else {
      assert Recalled(s.inner, s.pc.request, cfg.digest(s.pc.request)) == None;
    }
    RefusalIsBacked(RequestIdReuse, s.terminalLog);
    forall code ensures Backed(Refusal(code), s.terminalLog) {
      RefusalIsBacked(code, s.terminalLog);
    }
  }

  lemma RefusalIsBacked(code: ErrorCode, log: seq<TerminalRecord>)
    ensures Backed(Refusal(code), log)
  {
  }

  lemma BackedReply(cfg: Config, s: Daemon, ms: nat)
    requires s.pc.Reply? && Enabled(s, Advance(ms)) && EndsBacked(s)
    ensures EndsBacked(Advanced(cfg, s, ms))
  {
    var t, q := Advanced(cfg, s, ms), s.inner.requests;
    hide Backed;
    forall k | 0 <= k < |t.inner.requests| ensures Backed(t.inner.requests[k].response.payload, t.terminalLog) {
      assert t.inner.requests[k].response.payload == s.pc.payload
          || (k < |q| && t.inner.requests[k] == q[k]) || (k + 1 < |q| && t.inner.requests[k] == q[k + 1]);
    }
  }

  lemma BackedDone(cfg: Config, s: Daemon, ms: nat)
    requires Routed(s.pc) && s.pc.ApplyDone? && Enabled(s, Advance(ms)) && EndsBacked(s)
    ensures EndsBacked(Advanced(cfg, s, ms))
  {
    var t := Advanced(cfg, s, ms);
    var more := if s.pc.result.Ok? then [EndRecord(s.pc.record, true)] else [];
    assert t.terminalLog == s.terminalLog + more && t.replies == s.replies && t.inner.requests == s.inner.requests;
    assert Backed(t.pc.payload, t.terminalLog);
    forall p: Payload | Backed(p, s.terminalLog) ensures Backed(p, t.terminalLog) {
      BackedLonger(p, s.terminalLog, more);
    }
    hide Backed, Advanced;
  }

  lemma BackedOther(cfg: Config, s: Daemon, ms: nat)
    requires Routed(s.pc) && Enabled(s, Advance(ms)) && Histories(s) && EndsBacked(s)
    requires !s.pc.Section? && !s.pc.Lookup? && !s.pc.Reply? && !s.pc.ApplyDone?
    ensures EndsBacked(Advanced(cfg, s, ms))
  {
    OtherIsBacked(cfg, s, ms);
    hide Advanced, Backed, Histories;
  }

  lemma OtherIsBacked(cfg: Config, s: Daemon, ms: nat)
    requires Routed(s.pc) && Enabled(s, Advance(ms)) && Histories(s)
    requires !s.pc.Section? && !s.pc.Lookup? && !s.pc.Reply? && !s.pc.ApplyDone?
    ensures var t := Advanced(cfg, s, ms);
            && t.replies == s.replies && t.inner.requests == s.inner.requests && t.terminalLog == s.terminalLog
            && (t.pc.Reply? ==> Backed(t.pc.payload, t.terminalLog))
  {
    if s.pc.ApplyCheck? && HasEnded(s.inner, s.pc.request.operation.proposalId, TerminalOutcome.Applied) {
      HeldEndsAreRecorded(s, s.pc.request.operation.proposalId, TerminalOutcome.Applied);
    }
    hide HasEnded, Histories;
  }

  // ---- every run ----

  predicate Told(cfg: Config, s: Daemon) {
    Inv(cfg, s) && Held(s) && EndsBacked(s)
  }

  lemma {:induction false} ToldInRuns(cfg: Config, s: Daemon, es: seq<Event>)
    requires Told(cfg, s) && IsRun(cfg, s, es)
    ensures Told(cfg, Run(cfg, s, es))
    decreases |es|
  {
    if es != [] {
      StepHolds(cfg, s, es[0]);
      HeldStep(cfg, s, es[0]);
      BackedStep(cfg, s, es[0]);
      hide Inv, Held, EndsBacked, Step, Enabled;
      ToldInRuns(cfg, Step(cfg, s, es[0]), es[1..]);
    }
  }

  /** In every run from a start: nobody is told of an end that is not on record, and the job or
      proposal at hand is the last one submitted, with all it was submitted and found with. */
  lemma EveryEndIsRecorded(cfg: Config, s: Daemon, es: seq<Event>)
    requires IsStart(cfg, s) && IsRun(cfg, s, es)
    ensures var t := Run(cfg, s, es);
            && Told(cfg, t)
            && forall k | 0 <= k < |t.replies| ::
                 && (t.replies[k].payload.AppliedReply? ==>
                       TerminalRecord(t.replies[k].payload.proposalId, TerminalOutcome.Applied) in t.terminalLog)
                 && (t.replies[k].payload.DismissedReply? ==>
                       TerminalRecord(t.replies[k].payload.proposalId, TerminalOutcome.Dismissed) in t.terminalLog)
  {
    StartHolds(cfg, s);
    ToldInRuns(cfg, s, es);
    var t := Run(cfg, s, es);
    forall k | 0 <= k < |t.replies| ensures Backed(t.replies[k].payload, t.terminalLog) {
      assert EndsBacked(t);
    }
    hide Inv, Held, Run, IsRun;
  }
}
