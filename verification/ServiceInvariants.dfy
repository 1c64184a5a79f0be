/** What holds of the daemon in every reachable state, however requests and jobs interleave. */
module ServiceInvariants {
  import opened Text
  import Journals
  import opened Patches
  import opened Worlds
  import opened Staging
  import opened ServiceState
  import opened ServiceRuns

  // ---- the single slot ----

  predicate InApply(pc: Phase) {
    pc.Engine? || pc.ApplyDone?
  }

  predicate InSubmit(pc: Phase) {
    pc.SubmitCheck? || pc.Investigate? || pc.SubmitBegin?
  }

  /** The job the active record stands for. */
  function JobsOf(i: Inner): seq<Job> {
    match i.active
    case Some(Working(c, r, _)) => [Job(c, r)]
    case _ => []
  }

  /** State and slot agree: Working means exactly one job, the active one; Ready and Applying
      mean a proposal; Applying means the gate is inside Apply, with that proposal. */
  predicate Coherent(s: Daemon) {
    var i := s.inner;
    && Agrees(i)
    && (i.state == State.Applying <==> InApply(s.pc))
    && (InApply(s.pc) ==> i.active == Some(Active.Ready(s.pc.record)))
    && s.jobs == JobsOf(i)
    && (InSubmit(s.pc) ==> i.state != State.RecoveryRequired)
    && (s.pc.Investigate? || s.pc.SubmitBegin? ==> !IsBusy(i.state))
  }

  /** The state the literal Dismiss can leave behind: Working for ever, with nothing active. */
  predicate Wedged(s: Daemon) {
    && s.inner.state == State.Working && s.inner.active == None && s.inner.failure == None
    && |s.jobs| <= 1
    && !InApply(s.pc) && !s.pc.Investigate? && !s.pc.SubmitBegin?
  }

  lemma RoutedStep(cfg: Config, s: Daemon, e: Event)
    requires Routed(s.pc) && Enabled(s, e)
    ensures Routed(Step(cfg, s, e).pc)
  {
    match e
    case Advance(ms) =>
      if s.pc.Section? {
        SectionReplies(cfg, s, ms);
      } else {
        AdvanceRouted(cfg, s, ms);
      }
    case _ =>
  }

  lemma SectionReplies(cfg: Config, s: Daemon, ms: nat)
    requires s.pc.Section? && Routed(s.pc)
    ensures var t := InSection(cfg, s, ms);
            t.pc.Reply? && t.replies == s.replies && t.inner.requests == s.inner.requests
  {
    hide Pushed, StatusOf, BodyOf, HasEnded;
  }

  lemma AdvanceRouted(cfg: Config, s: Daemon, ms: nat)
    requires Routed(s.pc) && Enabled(s, Advance(ms)) && !s.pc.Section?
    ensures Routed(Advanced(cfg, s, ms).pc)
  {
    hide Recalled, Objection, ApplyAnswer, MapApplyError, Remembered, Ended, Awaiting;
  }

  /** Whether this step is a Dismiss that drops the record of a running job. */
  predicate Drops(cfg: Config, s: Daemon, e: Event) {
    && !cfg.restores && e.Advance? && s.pc.Section? && s.pc.request.operation.ProposalDismiss?
    && s.inner.active.Some? && s.inner.active.value.Working?
    && !HasEnded(s.inner, s.pc.request.operation.proposalId, TerminalOutcome.Dismissed)
  }

  /** Every step keeps state and slot in agreement, except exactly the one that wedges. */
  lemma CoherentStep(cfg: Config, s: Daemon, e: Event)
    requires Routed(s.pc) && Enabled(s, e) && Coherent(s)
    ensures Coherent(Step(cfg, s, e)) <==> !Drops(cfg, s, e)
    ensures Drops(cfg, s, e) ==> Wedged(Step(cfg, s, e))
  {
    match e
    case Finish(job, low, medium, ms, createdMs) => CoherentFinish(s, job, Completion(low, medium), ms, createdMs);
    case Advance(ms) =>
      if s.pc.Section? {
        CoherentSection(cfg, s, ms);
      } else {
        CoherentAdvance(cfg, s, ms);
      }
    case _ =>
  }

  lemma CoherentFinish(s: Daemon, job: nat, done: Result<Candidate, JobError>, ms: nat, createdMs: nat)
    requires job < |s.jobs| && Coherent(s)
    ensures Coherent(JobDone(s, job, done, ms, createdMs))
  {
    hide Decimal, Pushed, IsSafeId, MapCoreError, MapExecutorError;
    assert s.jobs[..job] + s.jobs[job + 1..] == [];
  }

  lemma CoherentSection(cfg: Config, s: Daemon, ms: nat)
    requires s.pc.Section? && Routed(s.pc) && Coherent(s)
    ensures Coherent(InSection(cfg, s, ms)) <==> !Drops(cfg, s, Advance(ms))
    ensures Drops(cfg, s, Advance(ms)) ==> Wedged(InSection(cfg, s, ms))
  {
    hide Pushed, StatusOf, BodyOf, HasEnded, SummaryOf, EndRecord;
    if s.pc.request.operation.ProposalDismiss? {
      CoherentDismiss(cfg, s, ms);
    }
  }

  lemma CoherentDismiss(cfg: Config, s: Daemon, ms: nat)
    requires s.pc.Section? && s.pc.request.operation.ProposalDismiss? && Coherent(s)
    ensures Coherent(InSection(cfg, s, ms)) <==> !Drops(cfg, s, Advance(ms))
    ensures Drops(cfg, s, Advance(ms)) ==> Wedged(InSection(cfg, s, ms))
  {
    hide Pushed, HasEnded, SummaryOf, EndRecord;
  }

  lemma CoherentAdvance(cfg: Config, s: Daemon, ms: nat)
    requires Routed(s.pc) && Enabled(s, Advance(ms)) && Coherent(s) && !s.pc.Section?
    ensures Coherent(Advanced(cfg, s, ms))
  {
    hide Advanced, Coherent, Routed;
    match s.pc
    case ApplyDone(_, _, _) => CoherentDone(cfg, s, ms);
    case SubmitBegin(_) => CoherentBegin(cfg, s, ms);
    case _ => CoherentOther(cfg, s, ms);
  }

  lemma CoherentDone(cfg: Config, s: Daemon, ms: nat)
    requires Routed(s.pc) && Enabled(s, Advance(ms)) && Coherent(s) && s.pc.ApplyDone?
    ensures Coherent(Advanced(cfg, s, ms))
  {
    hide Pushed, MapApplyError, SummaryOf, EndRecord;
  }

  lemma CoherentBegin(cfg: Config, s: Daemon, ms: nat)
    requires Routed(s.pc) && Enabled(s, Advance(ms)) && Coherent(s) && s.pc.SubmitBegin?
    ensures Coherent(Advanced(cfg, s, ms))
  {
  }

  lemma CoherentOther(cfg: Config, s: Daemon, ms: nat)
    requires Routed(s.pc) && Enabled(s, Advance(ms)) && Coherent(s)
    requires !s.pc.Section? && !s.pc.ApplyDone? && !s.pc.SubmitBegin?
    ensures Coherent(Advanced(cfg, s, ms))
  {
    hide Pushed, Find, Objection, HasEnded, ApplyClosed;
  }

  /** Once wedged, always wedged: no event ever leaves Working again. */
  lemma WedgedStep(cfg: Config, s: Daemon, e: Event)
    requires Routed(s.pc) && Enabled(s, e) && Wedged(s)
    ensures Wedged(Step(cfg, s, e))
  {
  }

  predicate Slotted(s: Daemon) {
    Coherent(s) || Wedged(s)
  }

  // ---- histories ----

  /** The bounded queues are the newest part of everything ever recorded. */
  predicate Histories(s: Daemon) {
    && s.inner.recent == Newest(s.recentLog, MAX_RECENT)
    && s.inner.terminal == Newest(s.terminalLog, TERMINAL_LIMIT)
    && s.inner.requests == Newest(s.cacheLog, REQUEST_CACHE_LIMIT)
  }

  lemma HistoriesStep(cfg: Config, s: Daemon, e: Event)
    requires Routed(s.pc) && Enabled(s, e) && Histories(s)
    ensures Histories(Step(cfg, s, e))
  {
    match e
    case Advance(ms) =>
      if s.pc.Section? {
        SectionHistories(cfg, s, ms);
      } else {
        AdvanceHistories(cfg, s, ms);
      }
    case Finish(job, low, medium, ms, createdMs) =>
      FinishHistories(s, job, Completion(low, medium), ms, createdMs);
    case _ =>
  }

  lemma FinishHistories(s: Daemon, job: nat, done: Result<Candidate, JobError>, ms: nat, createdMs: nat)
    requires job < |s.jobs| && Histories(s)
    ensures Histories(JobDone(s, job, done, ms, createdMs))
  {
    if done.Err? {
      var Job(c, repository) := s.jobs[job];
      PushedIsNewest(s.recentLog, MAX_RECENT, RecentSummary(c, repository, FailedJob(done.error).2, ms));
    }
    hide Pushed, Newest, Decimal, IsSafeId, MapCoreError, MapExecutorError;
  }

  /** The queues and their logs move together. */
  predicate Records(s: Daemon, t: Daemon, summary: RecentSummary, end: TerminalRecord) {
    && t.inner.requests == s.inner.requests && t.cacheLog == s.cacheLog
    && ((t.inner.recent == s.inner.recent && t.recentLog == s.recentLog
         && t.inner.terminal == s.inner.terminal && t.terminalLog == s.terminalLog)
        || (t.inner.recent == Pushed(s.inner.recent, MAX_RECENT, summary) && t.recentLog == s.recentLog + [summary]
            && t.inner.terminal == Pushed(s.inner.terminal, TERMINAL_LIMIT, end)
            && t.terminalLog == s.terminalLog + [end]))
  }

  lemma RecordsHistories(s: Daemon, t: Daemon, summary: RecentSummary, end: TerminalRecord)
    requires Histories(s) && Records(s, t, summary, end)
    ensures Histories(t)
  {
    PushedIsNewest(s.recentLog, MAX_RECENT, summary);
    PushedIsNewest(s.terminalLog, TERMINAL_LIMIT, end);
    hide Pushed, Newest;
  }

  function EndSummary(record: ProposalRecord, applied: bool, ms: nat): RecentSummary {
    SummaryOf(record, if applied then RecentOutcome.Applied else RecentOutcome.Dismissed, ms)
  }

  lemma SectionHistories(cfg: Config, s: Daemon, ms: nat)
    requires s.pc.Section? && Routed(s.pc) && Histories(s)
    ensures Histories(InSection(cfg, s, ms))
  {
    var id := if s.pc.request.operation.ProposalDismiss? then s.pc.request.operation.proposalId else "";
    var record := Awaiting(s.inner, id);
    if record.Some? && s.pc.request.operation.ProposalDismiss? {
      SectionRecords(cfg, s, record.value, ms);
      RecordsHistories(s, InSection(cfg, s, ms), EndSummary(record.value, false, ms), EndRecord(record.value, false));
    } else {
      SectionKeeps(cfg, s, ms);
    }
    hide InSection, Newest;
  }

  lemma SectionRecords(cfg: Config, s: Daemon, record: ProposalRecord, ms: nat)
    requires s.pc.Section? && s.pc.request.operation.ProposalDismiss?
    requires Awaiting(s.inner, s.pc.request.operation.proposalId) == Some(record)
    ensures Records(s, InSection(cfg, s, ms), EndSummary(record, false, ms), EndRecord(record, false))
  {
    hide Pushed, HasEnded;
  }

  lemma SectionKeeps(cfg: Config, s: Daemon, ms: nat)
    requires s.pc.Section? && Routed(s.pc)
    requires s.pc.request.operation.ProposalDismiss? ==>
               Awaiting(s.inner, s.pc.request.operation.proposalId).None?
    ensures var t := InSection(cfg, s, ms);
            && t.inner.requests == s.inner.requests && t.cacheLog == s.cacheLog
            && t.inner.recent == s.inner.recent && t.recentLog == s.recentLog
            && t.inner.terminal == s.inner.terminal && t.terminalLog == s.terminalLog
  {
    hide Pushed, HasEnded, StatusOf, BodyOf;
  }

  lemma AdvanceHistories(cfg: Config, s: Daemon, ms: nat)
    requires Routed(s.pc) && Enabled(s, Advance(ms)) && Histories(s) && !s.pc.Section?
    ensures Histories(Advanced(cfg, s, ms))
  {
    match s.pc
    case ApplyDone(_, record, result) =>
      DoneRecords(cfg, s, ms);
      RecordsHistories(s, Advanced(cfg, s, ms), EndSummary(record, true, ms), EndRecord(record, true));
    case Reply(r, p) =>
      PushedIsNewest(s.cacheLog, REQUEST_CACHE_LIMIT,
                     CachedRequest(r.requestId, cfg.digest(r), Response(r.requestId, p)));
    case _ =>
  }

  lemma DoneRecords(cfg: Config, s: Daemon, ms: nat)
    requires Routed(s.pc) && Enabled(s, Advance(ms)) && s.pc.ApplyDone?
    ensures Records(s, Advanced(cfg, s, ms), EndSummary(s.pc.record, true, ms), EndRecord(s.pc.record, true))
  {
    hide Pushed, MapApplyError;
  }

  // ---- accounting ----

  /** Every accepted submission is an outcome on record, a failed Apply, or still under way. */
  predicate Accounting(s: Daemon) {
    |s.submissions| == |s.recentLog| + s.failedApplies + (if IsBusy(s.inner.state) then 1 else 0)
  }

  /** A generated identifier is always a safe one, and one Apply accepts. */
  lemma GeneratedIdIsSafe(ms: nat, sequence: nat)
    requires ms < U64_LIMIT && sequence < U64_LIMIT
    ensures IsSafeId(ProposalId(ms, sequence))
    ensures Journals.ValidTransactionId(ProposalId(ms, sequence))
  {
    DecimalLength64(ms);
    DecimalLength64(sequence);
    var m, n := Decimal(ms), Decimal(sequence);
    assert AllDigits(m) && AllDigits(n);
    hide Decimal;
    forall c | c in ProposalId(ms, sequence) ensures Journals.IsIdByte(c) {
      assert c in m || c in n || c == 'p' || c == '-';
      assert c in m ==> IsDigit(c);
      assert c in n ==> IsDigit(c);
    }
    forall c | c in ProposalId(ms, sequence) ensures IsAlphanumeric(c) || c == '.' || c == '_' || c == '-' {
      assert Journals.IsIdByte(c);
    }
  }

  lemma AccountingStep(cfg: Config, s: Daemon, e: Event)
    requires Routed(s.pc) && Enabled(s, e) && Slotted(s) && Accounting(s)
    ensures Accounting(Step(cfg, s, e))
  {
    match e
    case Finish(job, low, medium, ms, createdMs) =>
      AccountingFinish(s, job, Completion(low, medium), ms, createdMs);
    case Advance(ms) => AccountingAdvance(cfg, s, ms);
    case _ =>
  }

  lemma AccountingFinish(s: Daemon, job: nat, done: Result<Candidate, JobError>, ms: nat, createdMs: nat)
    requires job < |s.jobs| && ms < U64_LIMIT && Slotted(s) && Accounting(s)
    ensures Accounting(JobDone(s, job, done, ms, createdMs))
  {
    GeneratedIdIsSafe(ms, (s.inner.sequence + 1) % U64_LIMIT);
    hide Pushed, IsSafeId, ProposalId, MapCoreError, MapExecutorError;
  }

  lemma AccountingAdvance(cfg: Config, s: Daemon, ms: nat)
    requires Routed(s.pc) && Enabled(s, Advance(ms)) && Slotted(s) && Accounting(s)
    ensures Accounting(Advanced(cfg, s, ms))
  {
    if s.pc.Section? {
      AccountingSection(cfg, s, ms);
    }
    hide Pushed, Find, Objection, InSection, MapApplyError, Remembered, HasEnded, EndRecord, SummaryOf;
  }

  lemma AccountingSection(cfg: Config, s: Daemon, ms: nat)
    requires s.pc.Section? && Routed(s.pc) && Slotted(s) && Accounting(s)
    ensures Accounting(InSection(cfg, s, ms))
  {
    hide Pushed, StatusOf, BodyOf, HasEnded, EndRecord, SummaryOf;
  }

  // ---- the request cache ----

  predicate PastLookup(pc: Phase) {
    !pc.Free? && !pc.Lookup?
  }

  /** Request identifiers in the cache are pairwise distinct, each answer is filed under its own
      request, and no proposal body is ever kept. */
  predicate Caching(cfg: Config, s: Daemon) {
    && (forall a, b | 0 <= a < b < |s.inner.requests| ::
          s.inner.requests[a].requestId != s.inner.requests[b].requestId)
    && (PastLookup(s.pc) ==> Find(s.inner.requests, s.pc.request.requestId).None?)
    && |s.asked| == |s.cacheLog|
    && forall k | 0 <= k < |s.cacheLog| ::
         && s.cacheLog[k].requestId == s.asked[k].requestId == s.cacheLog[k].response.requestId
         && s.cacheLog[k].digest == cfg.digest(s.asked[k])
         && !ContainsBody(s.cacheLog[k].response.payload)
  }

  /** Only the reply section writes the cache. */
  lemma CacheFrame(cfg: Config, s: Daemon, e: Event)
    requires Routed(s.pc) && Enabled(s, e) && !(s.pc.Reply? && e.Advance?)
    ensures var t := Step(cfg, s, e);
            && t.inner.requests == s.inner.requests && t.cacheLog == s.cacheLog && t.asked == s.asked
            && (PastLookup(t.pc) && !(s.pc.Lookup? && e.Advance?)
                ==> PastLookup(s.pc) && t.pc.request == s.pc.request)
  {
    hide Pushed, Find, Objection, StatusOf, BodyOf, MapApplyError, IsSafeId, Decimal;
    if e.Advance? {
      match s.pc
      case Section(r) =>
      case _ =>
    }
  }

  lemma CachingStep(cfg: Config, s: Daemon, e: Event)
    requires Routed(s.pc) && Enabled(s, e) && Caching(cfg, s)
    ensures Caching(cfg, Step(cfg, s, e))
  {
    if !(s.pc.Reply? && e.Advance?) {
      CacheFrame(cfg, s, e);
      hide Find, Objection;
      if s.pc.Lookup? && e.Advance? {
        assert Step(cfg, s, e) == Advanced(cfg, s, e.ms);
      }
    }
  }

  /** Replay: a request whose identifier is among the last 64 on record is answered from the
      record without any change of state, with the very same answer if it is the same request
      and with RequestIdReuse if it is another. */
  lemma Replayed(cfg: Config, s: Daemon, ms: nat, k: nat)
    requires Histories(s) && Caching(cfg, s) && s.pc.Lookup? && ms < U64_LIMIT
    requires k < |s.cacheLog| <= k + REQUEST_CACHE_LIMIT
    requires s.pc.request.requestId == s.asked[k].requestId
    requires forall a, b :: cfg.digest(a) == cfg.digest(b) ==> a == b
    ensures var answer := if s.pc.request == s.asked[k] then s.cacheLog[k].response
                          else Response(s.pc.request.requestId, Refusal(RequestIdReuse));
            Step(cfg, s, Advance(ms)) == s.(pc := Free, replies := s.replies + [answer])
  {
    var q, r := s.inner.requests, s.pc.request;
    var at := k - (|s.cacheLog| - |q|);
    assert q[at] == s.cacheLog[k];
    var c := Find(q, r.requestId).value;
    var b :| 0 <= b < |q| && q[b] == c;
    assert b == at;
    assert cfg.digest(r) == c.digest <==> r == s.asked[k];
  }

  // ---- identifiers and ends ----

  predicate IssuedAs(id: string, sequence: nat) {
    exists ms | 0 <= ms < U64_LIMIT :: id == ProposalId(ms, sequence)
  }

  predicate Rising(numbers: seq<nat>, upto: nat) {
    && (forall a, b | 0 <= a < b < |numbers| :: numbers[a] < numbers[b])
    && forall a | 0 <= a < |numbers| :: 0 < numbers[a] <= upto
  }

  predicate Below(numbers: seq<nat>, limit: nat) {
    forall a | 0 <= a < |numbers| :: numbers[a] < limit
  }

  /** The numbers of the proposals in `ids`, rising. */
  predicate Tally(numbers: seq<nat>, ids: seq<string>, issued: seq<string>) {
    && Rising(numbers, |issued|) && |ids| == |numbers|
    && forall k | 0 <= k < |numbers| :: ids[k] == issued[numbers[k] - 1]
  }

  lemma TallyKept(numbers: seq<nat>, ids: seq<string>, issued: seq<string>, id: string)
    requires Tally(numbers, ids, issued)
    ensures Tally(numbers, ids, issued + [id]) && Below(numbers, |issued| + 1)
  {
  }

  lemma TallyGrows(numbers: seq<nat>, ids: seq<string>, issued: seq<string>)
    requires Tally(numbers, ids, issued) && Below(numbers, |issued|) && |issued| > 0
    ensures Tally(numbers + [|issued|], ids + [issued[|issued| - 1]], issued)
  {
  }

  function EndIds(log: seq<TerminalRecord>): (ids: seq<string>)
    ensures |ids| == |log| && forall k | 0 <= k < |log| :: ids[k] == log[k].proposalId
  {
    seq(|log|, k requires 0 <= k < |log| => log[k].proposalId)
  }

  lemma EndIdsPush(log: seq<TerminalRecord>, end: TerminalRecord)
    ensures EndIds(log + [end]) == EndIds(log) + [end.proposalId]
  {
  }

  predicate Numbered(sequence: nat, issued: seq<string>) {
    && sequence == |issued| % U64_LIMIT
    && forall k | 0 <= k < |issued| :: IssuedAs(issued[k], (k + 1) % U64_LIMIT)
  }

  lemma NumberedGrows(sequence: nat, issued: seq<string>, ms: nat)
    requires Numbered(sequence, issued) && ms < U64_LIMIT
    ensures var n := (sequence + 1) % U64_LIMIT; Numbered(n, issued + [ProposalId(ms, n)])
  {
    var n := (sequence + 1) % U64_LIMIT;
    assert n == (|issued| + 1) % U64_LIMIT;
    assert IssuedAs(ProposalId(ms, n), n);
    hide IssuedAs, ProposalId;
  }

  /** Proposals are numbered as they are issued; each is given to the engine at most once and
      ended at most once, in order, and the one at hand is the latest and has not ended. */
  predicate Issuing(s: Daemon) {
    && Numbered(s.inner.sequence, s.issued)
    && Tally(s.calls, s.called, s.issued)
    && Tally(s.ends, EndIds(s.terminalLog), s.issued)
    && (s.inner.active.Some? && s.inner.active.value.Ready? ==>
          && |s.issued| > 0 && s.inner.active.value.record.proposalId == s.issued[|s.issued| - 1]
          && ProposalOk(s.inner.active.value.record.proposal)
          && Below(s.ends, |s.issued|)
          && (!InApply(s.pc) ==> Below(s.calls, |s.issued|)))
  }

  lemma IssuingStep(cfg: Config, s: Daemon, e: Event)
    requires Routed(s.pc) && Enabled(s, e) && Slotted(s) && Issuing(s)
    ensures Issuing(Step(cfg, s, e))
  {
    hide CandidateOk, Numbered, Tally, Below, JobDone, InSection, Slotted, Completion;
    match e
    case Finish(job, low, medium, ms, createdMs) =>
      CompletionOk(low, medium);
      IssuingFinish(s, job, Completion(low, medium), ms, createdMs);
    case Advance(ms) =>
      if s.pc.Section? {
        IssuingSection(cfg, s, ms);
      } else {
        IssuingAdvance(cfg, s, ms);
      }
    case _ =>
  }

  lemma CompletionOk(low: Result<Candidate, JobError>, medium: Result<Candidate, JobError>)
    requires CandidateOk(low) && CandidateOk(medium)
    ensures CandidateOk(Completion(low, medium))
  {
  }

  lemma IssuingFinish(s: Daemon, job: nat, done: Result<Candidate, JobError>, ms: nat, createdMs: nat)
    requires job < |s.jobs| && ms < U64_LIMIT && CandidateOk(done) && Issuing(s) && Slotted(s)
    ensures Issuing(JobDone(s, job, done, ms, createdMs))
  {
    JobDoneIssues(s, job, done, ms, createdMs);
    if done.Ok? && IsRunning(s.inner, s.jobs[job].correlationId) {
      var id := ProposalId(ms, (s.inner.sequence + 1) % U64_LIMIT);
      TallyKept(s.calls, s.called, s.issued, id);
      TallyKept(s.ends, EndIds(s.terminalLog), s.issued, id);
      NumberedGrows(s.inner.sequence, s.issued, ms);
    }
    hide Tally, Numbered, JobDone, ProposalId, ProposalOk, Below, EndIds, Slotted;
  }

  /** What a finished job does to the numbering: a candidate takes the next number. */
  lemma JobDoneIssues(s: Daemon, job: nat, done: Result<Candidate, JobError>, ms: nat, createdMs: nat)
    requires job < |s.jobs| && ms < U64_LIMIT
    ensures var t, n := JobDone(s, job, done, ms, createdMs), (s.inner.sequence + 1) % U64_LIMIT;
            && t.calls == s.calls && t.called == s.called && t.ends == s.ends && t.terminalLog == s.terminalLog
            && t.pc == s.pc
            && if done.Ok? && IsRunning(s.inner, s.jobs[job].correlationId)
               then && t.issued == s.issued + [ProposalId(ms, n)] && t.inner.sequence == n
                    && t.inner.active.Some? && t.inner.active.value.Ready?
                    && t.inner.active.value.record.proposalId == ProposalId(ms, n)
                    && t.inner.active.value.record.proposal == done.value.proposal
               else && t.issued == s.issued && t.inner.sequence == s.inner.sequence
                    && (t.inner.active == s.inner.active || t.inner.active == None)
  {
    GeneratedIdIsSafe(ms, (s.inner.sequence + 1) % U64_LIMIT);
    hide Pushed, IsSafeId, ProposalId, FailedJob;
  }

  lemma IssuingSection(cfg: Config, s: Daemon, ms: nat)
    requires s.pc.Section? && Routed(s.pc) && Issuing(s)
    ensures Issuing(InSection(cfg, s, ms))
  {
    var t := InSection(cfg, s, ms);
    SectionNumbers(cfg, s, ms);
    if t.ends != s.ends {
      var record := s.inner.active.value.record;
      EndIdsPush(s.terminalLog, EndRecord(record, false));
      TallyGrows(s.ends, EndIds(s.terminalLog), s.issued);
    }
    hide InSection, Tally, Numbered, ProposalOk, Below, EndIds;
  }

  /** A section gives nobody a number; it can end the proposal at hand. */
  lemma SectionNumbers(cfg: Config, s: Daemon, ms: nat)
    requires s.pc.Section? && Routed(s.pc)
    ensures var t := InSection(cfg, s, ms);
            && t.inner.sequence == s.inner.sequence && t.issued == s.issued
            && t.calls == s.calls && t.called == s.called && !InApply(t.pc)
            && if t.ends == s.ends
               then t.terminalLog == s.terminalLog && (t.inner.active == s.inner.active || !Holds(t.inner))
               else && t.ends == s.ends + [|s.issued|] && Holds(s.inner) && !Holds(t.inner)
                    && t.terminalLog == s.terminalLog + [EndRecord(s.inner.active.value.record, false)]
  {
    hide Pushed, StatusOf, BodyOf, HasEnded;
  }

  /** A proposal is at hand. */
  predicate Holds(i: Inner) {
    i.active.Some? && i.active.value.Ready?
  }

  lemma IssuingAdvance(cfg: Config, s: Daemon, ms: nat)
    requires Routed(s.pc) && Enabled(s, Advance(ms)) && Issuing(s) && !s.pc.Section? && Slotted(s)
    ensures Issuing(Advanced(cfg, s, ms))
  {
    hide Slotted, Advanced, Numbered, Tally, Below, ProposalOk;
    match s.pc
    case ApplyTake(r) => IssuingTake(cfg, s, ms);
    case ApplyDone(r, record, result) => IssuingDone(cfg, s, ms);
    case _ => IssuingFrame(cfg, s, ms);
  }

  lemma IssuingFrame(cfg: Config, s: Daemon, ms: nat)
    requires Routed(s.pc) && Enabled(s, Advance(ms))
    requires !s.pc.Section? && !s.pc.ApplyTake? && !s.pc.ApplyDone?
    ensures var t := Advanced(cfg, s, ms);
            && t.inner.sequence == s.inner.sequence && t.issued == s.issued && t.calls == s.calls
            && t.called == s.called && t.ends == s.ends && t.terminalLog == s.terminalLog
            && (t.inner.active == s.inner.active || t.inner.active.value.Working?)
            && InApply(t.pc) == InApply(s.pc)
  {
    hide Pushed, Find, Objection, HasEnded;
  }

  lemma IssuingDone(cfg: Config, s: Daemon, ms: nat)
    requires Routed(s.pc) && Enabled(s, Advance(ms)) && Issuing(s) && s.pc.ApplyDone? && Slotted(s)
    ensures Issuing(Advanced(cfg, s, ms))
  {
    assert s.inner.active == Some(Active.Ready(s.pc.record));
    EndIdsPush(s.terminalLog, EndRecord(s.pc.record, true));
    TallyGrows(s.ends, EndIds(s.terminalLog), s.issued);
    hide Pushed, Tally, Numbered, ProposalOk, Below, EndIds, MapApplyError, Slotted;
  }

  lemma IssuingTake(cfg: Config, s: Daemon, ms: nat)
    requires Routed(s.pc) && Enabled(s, Advance(ms)) && Issuing(s) && s.pc.ApplyTake?
    ensures Issuing(Advanced(cfg, s, ms))
  {
    if Awaiting(s.inner, s.pc.request.operation.proposalId).Some? {
      TallyGrows(s.calls, s.called, s.issued);
    }
    hide Pushed, Numbered, Tally, ProposalOk, Below, EndIds;
  }

  lemma NumbersDiffer(sequence: nat, issued: seq<string>, a: nat, b: nat)
    requires Numbered(sequence, issued) && a < b < |issued| < U64_LIMIT
    ensures issued[a] != issued[b]
  {
    assert IssuedAs(issued[a], a + 1) && IssuedAs(issued[b], b + 1);
    hide Numbered, ProposalId;
    var m :| issued[a] == ProposalId(m, a + 1);
    var n :| issued[b] == ProposalId(n, b + 1);
    if issued[a] == issued[b] {
      ProposalIdInjective(m, a + 1, n, b + 1);
    }
  }

  /** Below 2^64 proposals the identifiers never repeat, so the engine is given no identifier
      twice, and no identifier ends twice: none is both Applied and Dismissed. */
  lemma EndsOnce(s: Daemon)
    requires Issuing(s) && |s.issued| < U64_LIMIT
    ensures forall a, b | 0 <= a < b < |s.issued| :: s.issued[a] != s.issued[b]
    ensures forall a, b | 0 <= a < b < |s.called| :: s.called[a] != s.called[b]
    ensures forall a, b | 0 <= a < b < |s.terminalLog| :: s.terminalLog[a].proposalId != s.terminalLog[b].proposalId
  {
    var ids := EndIds(s.terminalLog);
    forall a, b | 0 <= a < b < |s.issued| ensures s.issued[a] != s.issued[b] {
      NumbersDiffer(s.inner.sequence, s.issued, a, b);
    }
    hide Numbered, ProposalOk, EndIds;
    assert |ids| == |s.terminalLog| && forall k | 0 <= k < |ids| :: ids[k] == s.terminalLog[k].proposalId;
  }

  lemma ProposalIdInjective(ms: nat, k: nat, ms': nat, k': nat)
    requires ProposalId(ms, k) == ProposalId(ms', k')
    ensures k == k'
  {
    Journals.DecimalLacksDash(k);
    Journals.DecimalLacksDash(k');
    assert ProposalId(ms, k) == ("p-" + Decimal(ms)) + ['-'] + Decimal(k);
    assert ProposalId(ms', k') == ("p-" + Decimal(ms')) + ['-'] + Decimal(k');
    LastCutUnique("p-" + Decimal(ms), "p-" + Decimal(ms'), '-', Decimal(k), Decimal(k'));
    DecimalInjective(k, k');
  }

  // ---- answers ----

  /** No answer says ApplyInProgress, and a status shows a proposal exactly when it says Ready. */
  predicate Sound(p: Payload) {
    && p != Refusal(ApplyInProgress)
    && (p.StatusReport? ==> (p.shownProposal.Some? <==> p.state == State.Ready))
  }

  predicate Answers(s: Daemon) {
    && (forall k | 0 <= k < |s.replies| :: Sound(s.replies[k].payload))
    && (forall k | 0 <= k < |s.inner.requests| :: Sound(s.inner.requests[k].response.payload))
    && (s.pc.Reply? ==> Sound(s.pc.payload))
  }

  /** Requests are serialised: while Apply is publishing no other request is being served. */
  lemma AnswersStep(cfg: Config, s: Daemon, e: Event)
    requires Routed(s.pc) && Enabled(s, e) && Slotted(s) && Answers(s)
    ensures Answers(Step(cfg, s, e))
  {
    match e
    case Finish(job, low, medium, ms, createdMs) =>
      hide Decimal, Pushed, IsSafeId, ProposalId, FailedJob;
    case Advance(ms) =>
      if s.pc.Section? {
        AnswersSection(cfg, s, ms);
      } else {
        AnswersAdvance(cfg, s, ms);
      }
    case _ =>
  }

  lemma AnswersSection(cfg: Config, s: Daemon, ms: nat)
    requires s.pc.Section? && Routed(s.pc) && Slotted(s) && Answers(s)
    ensures Answers(InSection(cfg, s, ms))
  {
    SectionReplies(cfg, s, ms);
    SectionIsSound(cfg, s, ms);
    hide InSection, Sound, Slotted;
  }

  lemma SectionIsSound(cfg: Config, s: Daemon, ms: nat)
    requires s.pc.Section? && Routed(s.pc) && Slotted(s)
    ensures InSection(cfg, s, ms).pc.Reply? && Sound(InSection(cfg, s, ms).pc.payload)
  {
    hide Pushed, HasEnded, Ended, SummaryOf, EndRecord;
  }

  lemma AnswersAdvance(cfg: Config, s: Daemon, ms: nat)
    requires Routed(s.pc) && Enabled(s, Advance(ms)) && Slotted(s) && Answers(s) && !s.pc.Section?
    ensures Answers(Advanced(cfg, s, ms))
  {
    hide Advanced, Answers, Slotted;
    match s.pc
    case Lookup(r) => AnswersLookup(cfg, s, ms);
    case Reply(r, p) => AnswersReply(cfg, s, ms);
    case _ => AnswersOther(cfg, s, ms);
  }

  lemma AnswersReply(cfg: Config, s: Daemon, ms: nat)
    requires s.pc.Reply? && Enabled(s, Advance(ms)) && Answers(s)
    ensures Answers(Advanced(cfg, s, ms))
  {
    var t, q := Advanced(cfg, s, ms), s.inner.requests;
    hide Sound;
    forall k | 0 <= k < |t.inner.requests| ensures Sound(t.inner.requests[k].response.payload) {
      assert t.inner.requests[k].response.payload == s.pc.payload
          || (k < |q| && t.inner.requests[k] == q[k]) || (k + 1 < |q| && t.inner.requests[k] == q[k + 1]);
    }
  }

  lemma AnswersOther(cfg: Config, s: Daemon, ms: nat)
    requires Routed(s.pc) && Enabled(s, Advance(ms)) && Slotted(s) && Answers(s)
    requires !s.pc.Section? && !s.pc.Lookup? && !s.pc.Reply?
    ensures Answers(Advanced(cfg, s, ms))
  {
    OtherIsSound(cfg, s, ms);
    hide Advanced, Sound, Slotted;
  }

  lemma OtherIsSound(cfg: Config, s: Daemon, ms: nat)
    requires Routed(s.pc) && Enabled(s, Advance(ms)) && Slotted(s)
    requires !s.pc.Section? && !s.pc.Lookup? && !s.pc.Reply?
    ensures var t := Advanced(cfg, s, ms);
            && t.replies == s.replies && t.inner.requests == s.inner.requests
            && (t.pc.Reply? ==> Sound(t.pc.payload))
  {
    hide HasEnded, Pushed, Recalled, Objection;
  }

  lemma AnswersLookup(cfg: Config, s: Daemon, ms: nat)
    requires s.pc.Lookup? && Enabled(s, Advance(ms)) && Answers(s)
    ensures Answers(Advanced(cfg, s, ms))
  {
    var r := s.pc.request;
    var found := Find(s.inner.requests, r.requestId);
    hide Find;
    if found.Some? {
      var k :| 0 <= k < |s.inner.requests| && s.inner.requests[k] == found.value;
    }
  }
}
