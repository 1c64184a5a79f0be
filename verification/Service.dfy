/** The daemon's memory, updated in place by its locked sections
    (crates/premonition-daemon/src/lib.rs:53-606), against the functions that specify them. */
module Services {
  import opened Text
  import opened Worlds
  import opened Staging
  import opened ServiceState

  class Service {
    const executor: bool
    var state: State
    var active: Option<Active>
    var failure: Option<ErrorCode>
    var recent: seq<RecentSummary>
    var terminal: seq<TerminalRecord>
    var requests: seq<CachedRequest>
    var sequence: nat

    ghost function View(): Inner
      reads this
    {
      Inner(state, active, failure, recent, terminal, requests, sequence)
    }

    /** `new`, after recovery. */
    constructor (executor: bool, recovered: bool)
      ensures this.executor == executor
      ensures View() == Blank(if recovered then IdleState(executor) else State.RecoveryRequired)
    {
      this.executor := executor;
      state := if !recovered then State.RecoveryRequired else if executor then State.Idle else State.RuntimeMissing;
      active, failure, recent, terminal, requests, sequence := None, None, [], [], [], 0;
    }

    // ---- queues ----

    method PushRecent(record: ProposalRecord, outcome: RecentOutcome, ms: nat)
      modifies this`recent
      ensures recent == Pushed(old(recent), MAX_RECENT, SummaryOf(record, outcome, ms))
    {
      if |recent| == MAX_RECENT {
        recent := recent[1..];
      }
      recent := recent + [RecentSummary(record.correlationId, record.repositoryId, outcome, ms)];
    }

    method PushTerminal(proposalId: string, outcome: TerminalOutcome)
      modifies this`terminal
      ensures terminal == Pushed(old(terminal), TERMINAL_LIMIT, TerminalRecord(proposalId, outcome))
    {
      if |terminal| == TERMINAL_LIMIT {
        terminal := terminal[1..];
      }
      terminal := terminal + [TerminalRecord(proposalId, outcome)];
    }

    /** Whether an end is on record. */
    method HasEndedIn(proposalId: string, outcome: TerminalOutcome) returns (found: bool)
      ensures found <==> HasEnded(View(), proposalId, outcome)
    {
      for k := 0 to |terminal|
        invariant forall l | 0 <= l < k :: terminal[l] != TerminalRecord(proposalId, outcome)
      {
        if terminal[k].proposalId == proposalId && terminal[k].outcome == outcome {
          return true;
        }
      }
      return false;
    }

    // ---- the cache ----

    method Lookup(r: Request, digest: string) returns (answer: Option<Payload>)
      ensures answer == Recalled(View(), r, digest)
    {
      for k := 0 to |requests|
        invariant Find(requests, r.requestId) == Find(requests[k..], r.requestId)
      {
        if requests[k].requestId == r.requestId {
          return Some(if requests[k].digest == digest then requests[k].response.payload else Refusal(RequestIdReuse));
        }
        assert requests[k..][1..] == requests[k + 1..];
      }
      assert requests[|requests|..] == [];
      return None;
    }

    method Remember(r: Request, digest: string, p: Payload)
      modifies this`requests
      ensures View() == Remembered(old(View()), r, digest, p)
    {
      if !p.ProposalBody? && !p.CopyPayload? {
        if |requests| == REQUEST_CACHE_LIMIT {
          requests := requests[1..];
        }
        requests := requests + [CachedRequest(r.requestId, digest, Response(r.requestId, p))];
      }
    }

    // ---- Submit ----

    method BeginWork(correlationId: string, repositoryId: string)
      modifies this`state, this`failure, this`active
      ensures View() == Begun(old(View()), correlationId, repositoryId)
      ensures Agrees(View())
    {
      state := State.Working;
      failure := None;
      active := Some(Active.Working(correlationId, repositoryId, false));
    }

    // ---- Apply ----

    method ApplyLookup(proposalId: string) returns (answer: Option<Payload>)
      ensures answer == ApplyAnswer(View(), proposalId)
    {
      var applied := HasEndedIn(proposalId, TerminalOutcome.Applied);
      if applied {
        return Some(AppliedReply(proposalId, true));
      }
      if state == State.Applying {
        return Some(Refusal(ApplyInProgress));
      }
      return None;
    }

    method TakeProposal(proposalId: string) returns (record: Option<ProposalRecord>)
      modifies this`state
      ensures record == Awaiting(old(View()), proposalId)
      ensures View() == if record.Some? then old(View()).(state := State.Applying) else old(View())
      ensures Agrees(old(View())) ==> Agrees(View())
    {
      if active.None? || !active.value.Ready? {
        return None;
      }
      if active.value.record.proposalId != proposalId {
        return None;
      }
      state := State.Applying;
      return Some(active.value.record);
    }

    method CloseApply(record: ProposalRecord, result: Result<nat, ApplyError>, ms: nat) returns (answer: Payload)
      modifies this`state, this`active, this`failure, this`recent, this`terminal
      ensures (View(), answer) == ApplyClosed(old(View()), executor, record, result, ms)
      ensures Agrees(View())
    {
      active := None;
      match result {
        case Ok(_) =>
          state := IdleState(executor);
          failure := None;
          PushRecent(record, RecentOutcome.Applied, ms);
          PushTerminal(record.proposalId, TerminalOutcome.Applied);
          return AppliedReply(record.proposalId, false);
        case Err(e) =>
          var code := MapApplyError(e);
          state := if code == ErrorCode.RecoveryRequired then State.RecoveryRequired else State.Error;
          failure := Some(code);
          return Refusal(code);
      }
    }

    // ---- Dismiss and Cancel ----

    /** As written: what is taken out of `active` is lost unless it is a proposal. */
    method Dismiss(proposalId: string, ms: nat) returns (answer: Payload)
      modifies this`state, this`active, this`failure, this`recent, this`terminal
      ensures (View(), answer) == LiteralDismiss(old(View()), executor, proposalId, ms)
      ensures Agrees(old(View())) ==>
                (Agrees(View()) <==> !(old(active).Some? && old(active).value.Working?
                                       && !HasEnded(old(View()), proposalId, TerminalOutcome.Dismissed)))
    {
      var dismissed := HasEndedIn(proposalId, TerminalOutcome.Dismissed);
      if dismissed {
        return DismissedReply(proposalId, true);
      }
      var taken := active;
      active := None;
      if taken.None? || !taken.value.Ready? {
        return Refusal(UnknownProposal);
      }
      var record := taken.value.record;
      if record.proposalId != proposalId {
        active := Some(Active.Ready(record));
        return Refusal(UnknownProposal);
      }
      state := IdleState(executor);
      failure := None;
      PushRecent(record, RecentOutcome.Dismissed, ms);
      PushTerminal(record.proposalId, TerminalOutcome.Dismissed);
      return DismissedReply(record.proposalId, false);
    }

    method Cancel() returns (answer: Payload)
      modifies this`active
      ensures (View(), answer) == CancelledIn(old(View()))
      ensures Agrees(old(View())) ==> Agrees(View())
    {
      if active.Some? && active.value.Working? {
        active := Some(active.value.(cancelled := true));
        return CancelledReply(false);
      }
      return if state == State.Applying then Refusal(ApplyInProgress) else CancelledReply(true);
    }

    // ---- the job ----

    method FinishJob(
        correlationId: string, repositoryId: string, completion: Result<Candidate, JobError>, ms: nat, createdMs: nat)
      modifies this`state, this`active, this`failure, this`recent, this`sequence
      ensures View() == Finished(old(View()), correlationId, repositoryId, completion, ms, createdMs)
      ensures Agrees(old(View())) ==> Agrees(View())
    {
      hide Decimal, IsSafeId;
      if active.None? || !active.value.Working? || active.value.correlationId != correlationId {
        return;
      }
      match completion {
        case Ok(c) =>
          sequence := (sequence + 1) % U64_LIMIT;
          var id := ProposalId(ms, sequence);
          if !IsSafeId(id) {
            state := State.Error;
            failure := Some(Internal);
            active := None;
            return;
          }
          state := State.Ready;
          failure := None;
          active := Some(Active.Ready(
            ProposalRecord(id, correlationId, repositoryId, createdMs, c.rationale, c.evidence, c.proposal)));
        case Err(e) =>
          var (next, code, outcome) := FailedJob(e);
          state := next;
          failure := if next == State.Idle then None else Some(code);
          active := None;
          if |recent| == MAX_RECENT {
            recent := recent[1..];
          }
          recent := recent + [RecentSummary(correlationId, repositoryId, outcome, ms)];
      }
    }
  }
}
