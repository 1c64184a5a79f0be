/** What each kind of request is answered with, told by the history of the daemon
    (crates/premonition-daemon/src/lib.rs:108-433). */
module ServiceAnswers {
  import opened Text
  import opened Patches
  import opened Worlds
  import opened Staging
  import opened ServiceState
  import opened ServiceRuns
  import opened ServiceInvariants
  import opened ServiceLaws
  import opened ServiceHistory

  // ---- asking again ----

  /** A request to apply, or else to dismiss, this proposal. */
  predicate Asks(r: Request, id: string, apply: bool) {
    r.operation == if apply then ProposalApply(id) else ProposalDismiss(id)
  }

  function EndOf(id: string, apply: bool): TerminalRecord {
    TerminalRecord(id, if apply then TerminalOutcome.Applied else TerminalOutcome.Dismissed)
  }

  /** The answer to who asks again. */
  function Again(id: string, apply: bool): Payload {
    if apply then AppliedReply(id, true) else DismissedReply(id, true)
  }

  /** This end is among the last twenty on record. */
  ghost predicate AmongLastEnds(s: Daemon, id: string, apply: bool) {
    exists k | 0 <= k < |s.terminalLog| :: |s.terminalLog| <= k + 20 && s.terminalLog[k] == EndOf(id, apply)
  }

  lemma LastEndsAreHeld(s: Daemon, id: string, apply: bool)
    requires Histories(s) && AmongLastEnds(s, id, apply)
    ensures HasEnded(s.inner, id, EndOf(id, apply).outcome)
  {
    var k :| 0 <= k < |s.terminalLog| && |s.terminalLog| <= k + 20 && s.terminalLog[k] == EndOf(id, apply);
    assert s.inner.terminal[k - (|s.terminalLog| - |s.inner.terminal|)] == EndOf(id, apply);
  }

  /** Between the arrival of `r` in `s0` and its answer: nothing done, and the answer is sure.
      `still` says that no job has finished meanwhile. */
  predicate OnItsWay(s0: Daemon, s: Daemon, r: Request, id: string, apply: bool, still: bool) {
    && s.calls == s0.calls && s.called == s0.called && s.terminalLog == s0.terminalLog
    && s.inner.terminal == s0.inner.terminal && s.inner.state != State.RecoveryRequired
    && (still ==> s.inner.(requests := s0.inner.requests) == s0.inner)
    && if s.pc.Free? then s.replies == s0.replies + [Response(r.requestId, Again(id, apply))]
       else && s.replies == s0.replies && s.inner.requests == s0.inner.requests
            && (s.pc in {Lookup(r), Dispatch(r), if apply then ApplyCheck(r) else Section(r)}
                || s.pc == Reply(r, Again(id, apply)))
  }

  lemma OneStepFurther(cfg: Config, s0: Daemon, s: Daemon, e: Event, r: Request, id: string, apply: bool, still: bool)
    requires OnItsWay(s0, s, r, id, apply, still) && Routed(s.pc) && Enabled(s, e) && !e.Arrive?
    requires Asks(r, id, apply) && Objection(r).None? && Find(s0.inner.requests, r.requestId).None?
    requires HasEnded(s0.inner, id, EndOf(id, apply).outcome)
    ensures OnItsWay(s0, Step(cfg, s, e), r, id, apply, still && !e.Finish?)
  {
    match e
    case Finish(job, low, medium, ms, createdMs) =>
      JobDoneIssuesNothingElse(s, job, Completion(low, medium), ms, createdMs);
      hide JobDone;
    case Advance(ms) => OneSectionFurther(cfg, s0, s, ms, r, id, apply, still);
    case _ =>
  }

  lemma OneSectionFurther(
      cfg: Config, s0: Daemon, s: Daemon, ms: nat, r: Request, id: string, apply: bool, still: bool)
    requires OnItsWay(s0, s, r, id, apply, still) && Routed(s.pc) && Enabled(s, Advance(ms))
    requires Asks(r, id, apply) && Objection(r).None? && Find(s0.inner.requests, r.requestId).None?
    requires HasEnded(s0.inner, id, EndOf(id, apply).outcome)
    ensures OnItsWay(s0, Advanced(cfg, s, ms), r, id, apply, still)
  {
    hide Pushed, Find, Objection;
  }

  lemma {:induction false} AllTheWay(
      cfg: Config, s0: Daemon, s: Daemon, es: seq<Event>, r: Request, id: string, apply: bool, still: bool)
    requires OnItsWay(s0, s, r, id, apply, still) && IsRun(cfg, s, es) && forall e | e in es :: !e.Arrive?
    requires Asks(r, id, apply) && Objection(r).None? && Find(s0.inner.requests, r.requestId).None?
    requires HasEnded(s0.inner, id, EndOf(id, apply).outcome)
    ensures OnItsWay(s0, Run(cfg, s, es), r, id, apply, still && forall e | e in es :: !e.Finish?)
    decreases |es|
  {
    if es != [] {
      assert es == [es[0]] + es[1..];
      OneStepFurther(cfg, s0, s, es[0], r, id, apply, still);
      hide OnItsWay, Step, Objection, Find, HasEnded, Asks;
      AllTheWay(cfg, s0, Step(cfg, s, es[0]), es[1..], r, id, apply, still && !es[0].Finish?);
    }
  }

  /** Apply and Dismiss are idempotent: a new request to do again what is among the last twenty
      ends on record is answered that it is already done, whatever jobs finish meanwhile; the
      engine is not called, nothing ends, and but for the cache memory stays as it is. */
  lemma AskedAgain(cfg: Config, s: Daemon, es: seq<Event>, r: Request, id: string, apply: bool)
    requires Inv(cfg, s) && s.pc.Free? && s.inner.state != State.RecoveryRequired
    requires r.contractVersion == 1
    requires r.operation == if apply then ProposalApply(id) else ProposalDismiss(id)
    requires forall k | 0 <= k < |s.inner.requests| :: s.inner.requests[k].requestId != r.requestId
    requires AmongLastEnds(s, id, apply)
    requires IsRun(cfg, s, [Arrive(r)] + es) && forall e | e in es :: !e.Arrive?
    ensures var t := Run(cfg, s, [Arrive(r)] + es);
            && t.calls == s.calls && t.called == s.called && t.terminalLog == s.terminalLog
            && (t.pc.Free? ==>
                  t.replies == s.replies + [Response(r.requestId, if apply then AppliedReply(id, true)
                                                                  else DismissedReply(id, true))])
            && (!t.pc.Free? ==> t.replies == s.replies)
            && ((forall e | e in es :: !e.Finish?) ==> t.inner.(requests := s.inner.requests) == s.inner)
  {
    LastEndsAreHeld(s, id, apply);
    var t := Step(cfg, s, Arrive(r));
    assert ([Arrive(r)] + es)[1..] == es;
    assert OnItsWay(s, t, r, id, apply, true);
    hide Step, Inv, Find, HasEnded, AmongLastEnds;
    AllTheWay(cfg, s, t, es, r, id, apply, true);
  }

  /** Who was answered that a proposal is applied or dismissed can rely on it: the end is on
      record from then on. */
  lemma AnsweredIsOnRecord(cfg: Config, s: Daemon, es: seq<Event>, k: nat, id: string, apply: bool)
    requires IsStart(cfg, s) && IsRun(cfg, s, es) && k < |Run(cfg, s, es).replies|
    requires Run(cfg, s, es).replies[k].payload
          == if apply then AppliedReply(id, false) else DismissedReply(id, false)
    ensures EndOf(id, apply) in Run(cfg, s, es).terminalLog
  {
    EveryEndIsRecorded(cfg, s, es);
    hide Run, IsRun, IsStart, Told;
  }

  /** Ends are only ever added. */
  lemma EndsGrow(cfg: Config, s: Daemon, e: Event)
    requires Routed(s.pc) && Enabled(s, e)
    ensures s.terminalLog <= Step(cfg, s, e).terminalLog
  {
    match e
    case Finish(job, low, medium, ms, createdMs) =>
      JobDoneIssuesNothingElse(s, job, Completion(low, medium), ms, createdMs);
    case Advance(ms) =>
      if s.pc.Section? {
        SectionNumbers(cfg, s, ms);
      } else {
        AdvanceGrows(cfg, s, ms);
      }
    case _ =>
    hide JobDone, InSection, Advanced;
  }

  lemma AdvanceGrows(cfg: Config, s: Daemon, ms: nat)
    requires Routed(s.pc) && Enabled(s, Advance(ms)) && !s.pc.Section?
    ensures s.terminalLog <= Advanced(cfg, s, ms).terminalLog
  {
    hide Recalled, Objection, Remembered, ApplyAnswer, Awaiting, MapApplyError, Pushed;
  }

  lemma {:induction false} EndsGrowInRuns(cfg: Config, s: Daemon, es: seq<Event>)
    requires IsRun(cfg, s, es)
    ensures s.terminalLog <= Run(cfg, s, es).terminalLog
    decreases |es|
  {
    if es != [] {
      EndsGrow(cfg, s, es[0]);
      hide Step;
      EndsGrowInRuns(cfg, Step(cfg, s, es[0]), es[1..]);
    }
  }

  /** An Apply that succeeds is answered and recorded in the same step, and from then on, until
      twenty further ends, asking again finds it among the last ones. */
  lemma AppliedStaysAmongLast(cfg: Config, s: Daemon, ms: nat, es: seq<Event>)
    requires s.pc.ApplyDone? && s.pc.result.Ok? && IsRun(cfg, s, [Advance(ms)] + es)
    requires |Run(cfg, s, [Advance(ms)] + es).terminalLog| <= |s.terminalLog| + 20
    ensures Step(cfg, s, Advance(ms)).pc == Reply(s.pc.request, AppliedReply(s.pc.record.proposalId, false))
    ensures AmongLastEnds(Run(cfg, s, [Advance(ms)] + es), s.pc.record.proposalId, true)
  {
    var t := Step(cfg, s, Advance(ms));
    assert ([Advance(ms)] + es)[1..] == es;
    assert t.terminalLog == s.terminalLog + [EndOf(s.pc.record.proposalId, true)];
    hide Step;
    EndsGrowInRuns(cfg, t, es);
    assert Run(cfg, t, es).terminalLog[|s.terminalLog|] == EndOf(s.pc.record.proposalId, true);
  }

  /** And so is a Dismiss. */
  lemma DismissedStaysAmongLast(cfg: Config, s: Daemon, ms: nat, es: seq<Event>)
    requires s.pc.Section? && s.pc.request.operation.ProposalDismiss? && IsRun(cfg, s, [Advance(ms)] + es)
    requires var id := s.pc.request.operation.proposalId;
             Awaiting(s.inner, id).Some? && !HasEnded(s.inner, id, TerminalOutcome.Dismissed)
    requires |Run(cfg, s, [Advance(ms)] + es).terminalLog| <= |s.terminalLog| + 20
    ensures var id := s.pc.request.operation.proposalId;
            && Step(cfg, s, Advance(ms)).pc == Reply(s.pc.request, DismissedReply(id, false))
            && AmongLastEnds(Run(cfg, s, [Advance(ms)] + es), id, false)
  {
    var id, t := s.pc.request.operation.proposalId, Step(cfg, s, Advance(ms));
    assert ([Advance(ms)] + es)[1..] == es;
    assert t.pc == Reply(s.pc.request, DismissedReply(id, false));
    assert t.terminalLog == s.terminalLog + [EndOf(id, false)];
    hide Step, HasEnded;
    EndsGrowInRuns(cfg, t, es);
    assert Run(cfg, t, es).terminalLog[|s.terminalLog|] == EndOf(id, false);
  }

  // ---- Status, Show, Copy and Cancel ----

  /** Status reports the state, its code, the last twenty outcomes, and of the job or proposal at
      hand exactly what was submitted, issued and found. */
  lemma StatusTells(cfg: Config, s: Daemon, ms: nat)
    requires Told(cfg, s) && Coherent(s) && s.pc.Section? && s.pc.request.operation.Status? && ms < U64_LIMIT
    ensures var t := Step(cfg, s, Advance(ms));
            && t == s.(pc := t.pc) && t.pc.Reply? && t.pc.payload.StatusReport?
            && var p := t.pc.payload;
               && p.state == s.inner.state && p.failureCode == s.inner.failure
               && p.recent == (if |s.recentLog| <= 20 then s.recentLog else s.recentLog[|s.recentLog| - 20..])
               && if s.inner.state == State.Ready
                  then && p.shownProposal == Some(Last(s.issued))
                       && p.shownCorrelation == Some(Last(s.submissions).correlationId)
                       && p.shownRepository == Some(Last(s.submissions).repositoryId)
                       && p.shownCreatedMs == Some(Last(s.findings).createdMs)
                       && p.patchBytes == Some(|Last(s.findings).candidate.proposal.patch.raw|)
                       && p.files == Some(|Last(s.findings).candidate.proposal.patch.files|)
                  else && p.shownProposal == None && p.shownCreatedMs == None
                       && p.patchBytes == None && p.files == None
                       && if s.inner.state == State.Working
                          then && p.shownCorrelation == Some(Last(s.submissions).correlationId)
                               && p.shownRepository == Some(Last(s.submissions).repositoryId)
                          else p.shownCorrelation == None && p.shownRepository == None
  {
    assert Histories(s) && Held(s);
    hide Inv, EndsBacked, Pushed;
  }

  /** Show and Copy hand out what the last job found, to who names the proposal at hand, and
      nothing to anybody else; Show the whole proposal, Copy the patch alone. */
  lemma BodiesTell(cfg: Config, s: Daemon, ms: nat, id: string, copy: bool)
    requires Told(cfg, s) && Coherent(s) && s.pc.Section? && ms < U64_LIMIT
    requires s.pc.request.operation == if copy then ProposalCopy(id) else ProposalShow(id)
    ensures var t := Step(cfg, s, Advance(ms));
            && t == s.(pc := t.pc) && t.pc.Reply?
            && if s.inner.state == State.Ready && Last(s.issued) == id
               then var found, job := Last(s.findings), Last(s.submissions);
                    t.pc.payload ==
                      if copy then CopyPayload(id, found.candidate.proposal.patch.raw)
                      else ProposalBody(id, job.repositoryId, found.candidate.proposal.patch.raw,
                                        found.candidate.rationale, |found.candidate.proposal.patch.files|,
                                        found.createdMs, found.candidate.evidence)
               else t.pc.payload == Refusal(UnknownProposal)
  {
    assert Held(s);
    hide Inv, EndsBacked;
  }

  /** Cancel flags the running job and says that it runs; without one it says so and changes
      nothing. */
  lemma CancelTells(cfg: Config, s: Daemon, ms: nat)
    requires Told(cfg, s) && Coherent(s) && s.pc.Section? && s.pc.request.operation.Cancel? && ms < U64_LIMIT
    ensures var t := Step(cfg, s, Advance(ms));
            t == if s.inner.state == State.Working
                 then s.(pc := Reply(s.pc.request, CancelledReply(false)),
                         inner := s.inner.(active := Some(Active.Working(Last(s.submissions).correlationId,
                                                                         Last(s.submissions).repositoryId, true))))
                 else s.(pc := Reply(s.pc.request, CancelledReply(true)))
  {
    assert Held(s);
    hide Inv, EndsBacked;
  }

  /** Health tells whether recovery is due and whether there is an executor, Repositories what is
      configured. */
  lemma HealthTells(cfg: Config, s: Daemon, ms: nat)
    requires Routed(s.pc) && s.pc.Section? && ms < U64_LIMIT
    ensures s.pc.request.operation.Health? ==>
              Step(cfg, s, Advance(ms)) == s.(pc := Reply(s.pc.request,
                HealthReport(s.inner.state == State.RecoveryRequired, cfg.executor)))
    ensures s.pc.request.operation.Repositories? ==>
              Step(cfg, s, Advance(ms)) == s.(pc := Reply(s.pc.request, RepositoryList(cfg.repositories)))
  {
  }

  // ---- what is refused at the door ----

  /** Which requests are refused unseen, and how. */
  lemma RefusedUnseen(r: Request)
    ensures r.contractVersion != 1 ==> Objection(r) == Some(UnsupportedContract)
    ensures r.contractVersion == 1 && !r.operation.Submit? ==> Objection(r) == None
    ensures r.contractVersion == 1 && r.operation.Submit? ==>
              var n := |r.operation.input|;
              && (n == 0 ==> Objection(r) == Some(InvalidRequest))
              && (n > 32768 ==> Objection(r) == Some(InputTooLarge))
              && (0 < n <= 32768 ==>
                    Objection(r) == if '\0' in r.operation.input then Some(InvalidRequest) else None)
  {
  }

  /** In RecoveryRequired only Status and Health are served; without an executor no submission. */
  lemma RefusedAtDispatch(cfg: Config, s: Daemon, ms: nat)
    requires s.pc.Dispatch? && ms < U64_LIMIT
    ensures var r, t := s.pc.request, Step(cfg, s, Advance(ms));
            && t == s.(pc := t.pc)
            && (t.pc == Reply(r, Refusal(ErrorCode.RecoveryRequired)) <==>
                  s.inner.state == State.RecoveryRequired && !r.operation.Status? && !r.operation.Health?)
            && (t.pc == Reply(r, Refusal(ErrorCode.RuntimeMissing)) <==>
                  s.inner.state != State.RecoveryRequired && r.operation.Submit? && !cfg.executor)
            && (t.pc.Reply? ==> t.pc.payload in {Refusal(ErrorCode.RecoveryRequired), Refusal(ErrorCode.RuntimeMissing)})
  {
  }

  /** A submission is refused as Busy exactly while something is under way; otherwise it begins,
      unless the repository refuses. */
  lemma SubmitTells(cfg: Config, s: Daemon, ms: nat)
    requires Told(cfg, s) && Coherent(s) && s.pc.SubmitCheck? && ms < U64_LIMIT
    ensures var t := Step(cfg, s, Advance(ms));
            t == s.(pc := if s.inner.active.Some? then Reply(s.pc.request, Refusal(Busy)) else Investigate(s.pc.request))
  {
    hide Inv, EndsBacked, Held;
  }

  // ---- how a job ends ----

  /** The Low attempt counts, unless what it found was malformed, no valid diff, or not
      applicable: then, and only then, the Medium one does. */
  lemma AttemptThatCounts(low: Result<Candidate, JobError>, medium: Result<Candidate, JobError>)
    ensures low.Ok? ==> Completion(low, medium) == low
    ensures low in {Err(Executor(MalformedOutput)), Err(Core(BadDiff)), Err(Core(NotApplicable))} ==>
              Completion(low, medium) == medium
    ensures low.Err? && low !in {Err(Executor(MalformedOutput)), Err(Core(BadDiff)), Err(Core(NotApplicable))} ==>
              Completion(low, medium) == low
  {
  }

  /** A job that fails for the executor: state, code and outcome. */
  lemma ExecutorFailures()
    ensures FailedJob(Executor(ExecutorError.Cancelled)) == (State.Idle, ErrorCode.Cancelled, RecentOutcome.Cancelled)
    ensures FailedJob(Executor(Configuration)) == FailedJob(Executor(Spawn))
         == (State.RuntimeMissing, ErrorCode.RuntimeMissing, RecentOutcome.Error)
    ensures FailedJob(Executor(MalformedOutput)) == FailedJob(Executor(OutputLimit))
         == (State.Invalid, CandidateInvalid, RecentOutcome.Invalid)
    ensures FailedJob(Executor(Timeout)) == (State.Error, ExecutorTimeout, RecentOutcome.Error)
    ensures FailedJob(Executor(Input)) == (State.Error, ErrorCode.InputTooLarge, RecentOutcome.Error)
    ensures FailedJob(Executor(ExecutorError.Repository)) == (State.Error, RepositoryUnsafe, RecentOutcome.Error)
    ensures FailedJob(Executor(Io)) == FailedJob(Executor(ExecutorError.Crash))
         == (State.Error, Internal, RecentOutcome.Error)
  {
  }

  /** A job whose candidate is refused is Invalid, with the code of the refusal. */
  lemma CandidateRefusals()
    ensures forall e :: FailedJob(Core(e)).0 == State.Invalid && FailedJob(Core(e)).2 == RecentOutcome.Invalid
    ensures FailedJob(Core(CoreError.UnknownRepository)).1 == ErrorCode.UnknownRepository
    ensures FailedJob(Core(CoreError.SnapshotTooLarge)).1 == ErrorCode.SnapshotTooLarge
    ensures FailedJob(Core(SnapshotStale)).1 == ErrorCode.Stale
    ensures FailedJob(Core(BadDiff)).1 == CandidateInvalid
    ensures FailedJob(Core(NotApplicable)).1 == ApplyCheckFailed
    ensures FailedJob(Core(OtherRepository)).1 == FailedJob(Core(OtherSnapshot)).1 == RepositoryUnsafe
  {
  }

  /** The running job ends once, with what it was submitted and found with: a candidate becomes
      the proposal at hand under the next identifier, a failure the state, code and outcome that
      belong to it. */
  lemma JobEnds(s: Daemon, job: nat, done: Result<Candidate, JobError>, ms: nat, createdMs: nat)
    requires job < |s.jobs| && ms < U64_LIMIT && Coherent(s) && Held(s)
    ensures var t := JobDone(s, job, done, ms, createdMs);
            && s.inner.state == State.Working && t.jobs == []
            && if done.Ok?
               then && t.inner.state == State.Ready && t.inner.failure == None && t.recentLog == s.recentLog
                    && t.issued == s.issued + ["p-" + Decimal(ms) + "-" + Decimal((s.inner.sequence + 1) % U64_LIMIT)]
                    && t.inner.active == Some(Active.Ready(ProposalRecord(
                         Last(t.issued), Last(s.submissions).correlationId, Last(s.submissions).repositoryId, createdMs,
                         done.value.rationale, done.value.evidence, done.value.proposal)))
               else && t.inner.active == None && t.issued == s.issued && t.inner.state == FailedJob(done.error).0
                    && t.inner.failure == (if done.error == Executor(ExecutorError.Cancelled) then None
                                           else Some(FailedJob(done.error).1))
                    && t.recentLog == s.recentLog + [RecentSummary(
                         Last(s.submissions).correlationId, Last(s.submissions).repositoryId,
                         FailedJob(done.error).2, ms)]
  {
    GeneratedIdIsSafe(ms, (s.inner.sequence + 1) % U64_LIMIT);
    hide Pushed, IsSafeId, MapExecutorError, MapCoreError, Decimal;
  }

  /** The code an Apply is refused with. */
  lemma ApplyRefusals()
    ensures MapApplyError(ApplyError.Stale) == ErrorCode.Stale
    ensures MapApplyError(ApplyError.Git) == ApplyCheckFailed
    ensures MapApplyError(ApplyError.RecoveryRequired) == MapApplyError(ApplyError.State) == ErrorCode.RecoveryRequired
    ensures MapApplyError(ApplyError.Repository) == MapApplyError(ApplyError.Snapshot) == RepositoryUnsafe
    ensures MapApplyError(ApplyError.Identifier) == MapApplyError(ApplyError.TransactionExists) == Internal
  {
  }

  /** An Apply claims the proposal at hand and hands the engine what the last job found; it
      claims nothing under any other name. */
  lemma ApplyClaims(cfg: Config, s: Daemon, ms: nat)
    requires Told(cfg, s) && Coherent(s) && s.pc.ApplyTake? && ms < U64_LIMIT
    ensures var t, id := Step(cfg, s, Advance(ms)), s.pc.request.operation.proposalId;
            if s.inner.state == State.Ready && Last(s.issued) == id
            then t.pc == Engine(s.pc.request, LatestRecord(s)) && t.inner == s.inner.(state := State.Applying)
            else t == s.(pc := Reply(s.pc.request, Refusal(UnknownProposal)))
  {
    assert Held(s);
    hide Inv, EndsBacked;
  }

  /** How an Apply ends: with an empty slot and an outcome on both records, or with the code of
      the engine's error. */
  lemma ApplyEnds(cfg: Config, s: Daemon, ms: nat)
    requires Routed(s.pc) && s.pc.ApplyDone? && ms < U64_LIMIT
    ensures var t, record := Step(cfg, s, Advance(ms)), s.pc.record;
            && t.inner.active == None
            && if s.pc.result.Ok?
               then && t.inner.state == (if cfg.executor then State.Idle else State.RuntimeMissing)
                    && t.inner.failure == None
                    && t.terminalLog == s.terminalLog + [TerminalRecord(record.proposalId, TerminalOutcome.Applied)]
                    && t.recentLog == s.recentLog + [RecentSummary(record.correlationId, record.repositoryId,
                                                                   RecentOutcome.Applied, ms)]
                    && t.pc == Reply(s.pc.request, AppliedReply(record.proposalId, false))
               else && t.inner.failure == Some(MapApplyError(s.pc.result.error))
                    && t.inner.state == (if s.pc.result.error in {ApplyError.State, ApplyError.RecoveryRequired}
                                         then State.RecoveryRequired else State.Error)
                    && t.terminalLog == s.terminalLog && t.recentLog == s.recentLog
                    && t.pc == Reply(s.pc.request, Refusal(MapApplyError(s.pc.result.error)))
  {
    hide Pushed;
  }
}
