/**
 What leases buy (edlo/jobs/__init__.py and apps/worker/main.py).

 Finishers do not check who owns the row. So two workers can be in the handler of one job,
 and a finished row can be written over. Here is exactly when: mutual exclusion holds in
 a run if and only if no claim wins a job that a live worker is still handling, which kept
 leases rule out; and a finished row changes if and only if a stale finisher or a raising
 ack marks it otherwise.
 */
module Leases {
  import opened Wrappers
  import opened Jobs
  import opened Queue
  import opened Protocol

  /** Between the claim and the end of processing: a job this worker has won. */
  predicate Active(pc: Pc) { pc.Handling? || (pc.Acking? && pc.succeeded) }

  predicate ActiveOn(pc: Pc, j: JobId) { Active(pc) && pc.m.job == Some(j) }

  predicate HandlingJob(pc: Pc, j: JobId) { pc.Handling? && pc.m.job == Some(j) }

  // ---- mutual exclusion

  ghost predicate RowAgrees(s: Sys, w: WorkerId, j: JobId) {
    ActiveOn(PcOf(s.pcs, w), j) && j in s.rows ==>
      if PcOf(s.pcs, w).Handling?
      then s.rows[j].status == Running && s.rows[j].leaseOwner == Some(w)
      else s.rows[j].status == Succeeded
  }

  ghost predicate Exclusive(s: Sys) {
    && (forall w, j :: RowAgrees(s, w, j))
    && (forall w, w', j :: ActiveOn(PcOf(s.pcs, w), j) && ActiveOn(PcOf(s.pcs, w'), j) ==> w == w')
  }

  /** A claim that wins a job which some live worker is still handling. */
  ghost predicate LetsIn(s: Sys, e: Event) {
    && e.Claim? && HasMessage(PcOf(s.pcs, e.w)) && PcOf(s.pcs, e.w).m.job.Some?
    && CanClaim(s.rows, PcOf(s.pcs, e.w).m.job.value, s.clock)
    && exists v :: HandlingJob(PcOf(s.pcs, v), PcOf(s.pcs, e.w).m.job.value)
  }

  /** While a worker is active on a job, only a claim that lets a second one in can win it. */
  lemma ActiveBlocksClaims(c: Config, s: Sys, w: WorkerId, v: WorkerId, j: JobId)
    requires Exclusive(s) && ActiveOn(PcOf(s.pcs, w), j)
    requires Enabled(c, s, Event.Claim(v)) && !LetsIn(s, Event.Claim(v)) && PcOf(s.pcs, v).m.job == Some(j)
    ensures !CanClaim(s.rows, j, s.clock)
  {
    assert RowAgrees(s, w, j);
    assert HandlingJob(PcOf(s.pcs, w), j) || PcOf(s.pcs, w).Acking?;
  }

  /** A worker becomes active by winning a claim, in no other way. */
  lemma BecomesActive(c: Config, s: Sys, e: Event, w: WorkerId, j: JobId)
    requires Enabled(c, s, e)
    requires ActiveOn(PcOf(Step(c, s, e).pcs, w), j) && !ActiveOn(PcOf(s.pcs, w), j)
    ensures e == Event.Claim(w) && CanClaim(s.rows, j, s.clock)
    ensures Step(c, s, e).rows == Jobs.Claim(s.rows, j, w, LEASE_SECONDS, s.clock)
    ensures PcOf(Step(c, s, e).pcs, w).Handling?
  {
  }

  /** A worker processing a message about job j. */
  predicate ActsOn(s: Sys, e: Event, w: WorkerId, j: JobId) {
    && (e == Event.Claim(w) || (e.Finish? && e.w == w) || (e.AckRaises? && e.w == w))
    && HasMessage(PcOf(s.pcs, w)) && PcOf(s.pcs, w).m.job == Some(j)
  }

  lemma ClaimElsewhere(s: Sys, w: WorkerId, m: Message, j: JobId)
    requires m.job != Some(j) && j in s.rows
    ensures j in AfterClaim(s, w, m).rows && AfterClaim(s, w, m).rows[j] == s.rows[j]
  {
  }

  lemma FinishElsewhere(s: Sys, w: WorkerId, m: Message, outcome: Outcome, j: JobId)
    requires m.job != Some(j) && j in s.rows
    ensures j in AfterFinish(s, w, m, outcome).rows && AfterFinish(s, w, m, outcome).rows[j] == s.rows[j]
  {
  }

  lemma RowIsKnown(s: Sys, j: JobId)
    requires RowsInv(s) && j in s.rows
    ensures j in s.kinds
  {
    assert RowOk(s, j);
  }

  /** Status and owner of an existing row change only when some worker acts on the job. */
  lemma RowOtherwiseSame(c: Config, s: Sys, e: Event, j: JobId) returns (w: WorkerId)
    requires Enabled(c, s, e) && RowsInv(s)
    requires j in s.rows && j in Step(c, s, e).rows
    ensures var before, now := s.rows[j], Step(c, s, e).rows[j];
            (before.status == now.status && before.leaseOwner == now.leaseOwner) || ActsOn(s, e, w, j)
  {
    hide Sent, Requeued, Taken, Acked, Extended, Expired, OverLimit, AfterClaim, AfterFinish, RowsInv, MarkedFailed;
    RowIsKnown(s, j);
    w := if e.Claim? || e.Finish? || e.AckRaises? then e.w else "";
    if !ActsOn(s, e, w, j) {
      if e.Claim? {
        ClaimElsewhere(s, w, PcOf(s.pcs, w).m, j);
      } else if e.Finish? {
        FinishElsewhere(s, w, PcOf(s.pcs, w).m, e.outcome, j);
      }
    }
  }

  lemma StepKeepsRowAgrees(c: Config, s: Sys, e: Event, w: WorkerId, j: JobId)
    requires Inv(s) && Exclusive(s) && Enabled(c, s, e) && !LetsIn(s, e)
    ensures RowAgrees(Step(c, s, e), w, j)
  {
    var s' := Step(c, s, e);
    if ActiveOn(PcOf(s'.pcs, w), j) && j in s'.rows {
      if !ActiveOn(PcOf(s.pcs, w), j) {
        BecomesActive(c, s, e, w, j);
      } else {
        StaysAgreed(c, s, e, w, j);
      }
    }
  }

  /** A winner that stays active while it acts has just marked its job succeeded. */
  lemma WinnerSucceeds(c: Config, s: Sys, e: Event, w: WorkerId, j: JobId)
    requires Enabled(c, s, e) && ActsOn(s, e, w, j) && ActiveOn(PcOf(s.pcs, w), j)
    requires ActiveOn(PcOf(Step(c, s, e).pcs, w), j)
    ensures RowAgrees(Step(c, s, e), w, j)
  {
  }

  /** Another worker with a message about the same job finds nothing to claim. */
  lemma RivalRefused(c: Config, s: Sys, v: WorkerId, j: JobId)
    requires Enabled(c, s, Event.Claim(v)) && !CanClaim(s.rows, j, s.clock)
    requires PcOf(s.pcs, v).m.job == Some(j) && HasHandler(PcOf(s.pcs, v).m.kind)
    ensures Step(c, s, Event.Claim(v)) == s.(pcs := s.pcs[v := Acking(PcOf(s.pcs, v).m, false)])
  {
  }

  lemma WasThere(c: Config, s: Sys, e: Event, j: JobId)
    requires Enabled(c, s, e) && j in s.kinds && j in Step(c, s, e).rows
    ensures j in s.rows
  {
  }

  lemma OneActor(s: Sys, e: Event, w: WorkerId, v: WorkerId, j: JobId, c: Config)
    requires Enabled(c, s, e) && Exclusive(s)
    requires ActiveOn(PcOf(s.pcs, w), j) && ActsOn(s, e, v, j) && v != w
    ensures e == Event.Claim(v)
  {
    assert !ActiveOn(PcOf(s.pcs, v), j);
  }

  lemma StaysAgreed(c: Config, s: Sys, e: Event, w: WorkerId, j: JobId)
    requires Inv(s) && Exclusive(s) && Enabled(c, s, e) && !LetsIn(s, e)
    requires ActiveOn(PcOf(s.pcs, w), j) && ActiveOn(PcOf(Step(c, s, e).pcs, w), j) && j in Step(c, s, e).rows
    ensures RowAgrees(Step(c, s, e), w, j)
  {
    assert WorkerOk(s, PcOf(s.pcs, w));
    WasThere(c, s, e, j);
    assert RowAgrees(s, w, j);
    var v := RowOtherwiseSame(c, s, e, j);
    if ActsOn(s, e, w, j) {
      WinnerSucceeds(c, s, e, w, j);
    } else {
      StaysHandling(c, s, e, w, j);
      if ActsOn(s, e, v, j) {
        assert WorkerOk(s, PcOf(s.pcs, v));
        OneActor(s, e, w, v, j, c);
        ActiveBlocksClaims(c, s, w, v, j);
        RivalRefused(c, s, v, j);
      }
    }
  }

  lemma StaysHandling(c: Config, s: Sys, e: Event, w: WorkerId, j: JobId)
    requires Enabled(c, s, e) && !ActsOn(s, e, w, j)
    requires ActiveOn(PcOf(s.pcs, w), j) && ActiveOn(PcOf(Step(c, s, e).pcs, w), j)
    ensures PcOf(Step(c, s, e).pcs, w) == PcOf(s.pcs, w)
  {
    hide Sent, Requeued, Taken, Acked, Extended;
  }

  /** Whoever wins a claim is alone in it. */
  lemma OnlyTheWinner(c: Config, s: Sys, w: WorkerId, v: WorkerId, j: JobId)
    requires Exclusive(s) && Enabled(c, s, Event.Claim(w)) && !LetsIn(s, Event.Claim(w))
    requires PcOf(s.pcs, w).m.job == Some(j) && CanClaim(s.rows, j, s.clock) && v != w
    ensures !ActiveOn(PcOf(Step(c, s, Event.Claim(w)).pcs, v), j)
  {
    if ActiveOn(PcOf(s.pcs, v), j) {
      ActiveBlocksClaims(c, s, v, w, j);
    } else if ActiveOn(PcOf(Step(c, s, Event.Claim(w)).pcs, v), j) {
      BecomesActive(c, s, Event.Claim(w), v, j);
    }
  }

  lemma StepKeepsExclusive(c: Config, s: Sys, e: Event)
    requires Inv(s) && Exclusive(s) && Enabled(c, s, e) && !LetsIn(s, e)
    ensures Exclusive(Step(c, s, e))
  {
    var s' := Step(c, s, e);
    forall w, j ensures RowAgrees(s', w, j) {
      StepKeepsRowAgrees(c, s, e, w, j);
    }
    forall w, w', j | ActiveOn(PcOf(s'.pcs, w), j) && ActiveOn(PcOf(s'.pcs, w'), j) ensures w == w' {
      if w != w' && !ActiveOn(PcOf(s.pcs, w), j) {
        BecomesActive(c, s, e, w, j);
        OnlyTheWinner(c, s, w, w', j);
      } else if w != w' && !ActiveOn(PcOf(s.pcs, w'), j) {
        BecomesActive(c, s, e, w', j);
        OnlyTheWinner(c, s, w', w, j);
      }
    }
  }

  /** At most one live worker is between claim and mark for each job. */
  ghost predicate Alone(s: Sys) {
    forall w, w', j :: HandlingJob(PcOf(s.pcs, w), j) && HandlingJob(PcOf(s.pcs, w'), j) ==> w == w'
  }

  lemma ExclusiveIsAlone(s: Sys)
    requires Exclusive(s)
    ensures Alone(s)
  {
    forall w, w', j | HandlingJob(PcOf(s.pcs, w), j) && HandlingJob(PcOf(s.pcs, w'), j) ensures w == w' {
      assert ActiveOn(PcOf(s.pcs, w), j) && ActiveOn(PcOf(s.pcs, w'), j);
    }
  }

  lemma LettingInIsTwo(c: Config, s: Sys, e: Event)
    requires Inv(s) && Enabled(c, s, e) && LetsIn(s, e)
    ensures !Alone(Step(c, s, e))
  {
    var j := PcOf(s.pcs, e.w).m.job.value;
    var v :| HandlingJob(PcOf(s.pcs, v), j);
    assert WorkerOk(s, PcOf(s.pcs, v)) && WorkerOk(s, PcOf(s.pcs, e.w));
    var s' := Step(c, s, e);
    assert HandlingJob(PcOf(s'.pcs, e.w), j) && HandlingJob(PcOf(s'.pcs, v), j) && v != e.w;
  }

  /** A step breaks mutual exclusion if and only if it lets a second worker in. */
  lemma ExclusiveUnlessLetIn(c: Config, s: Sys, e: Event)
    requires Inv(s) && Exclusive(s) && Enabled(c, s, e)
    ensures Exclusive(Step(c, s, e)) <==> !LetsIn(s, e)
    ensures Alone(Step(c, s, e)) <==> !LetsIn(s, e)
  {
    if LetsIn(s, e) {
      LettingInIsTwo(c, s, e);
    } else {
      StepKeepsExclusive(c, s, e);
    }
    if Exclusive(Step(c, s, e)) {
      ExclusiveIsAlone(Step(c, s, e));
    }
  }

  /** No event of the run lets a second worker in. */
  ghost predicate NobodyLetIn(c: Config, s: Sys, es: seq<Event>)
    requires Runs(c, s, es)
    decreases |es|
  {
    es == [] || (!LetsIn(s, es[0]) && NobodyLetIn(c, Step(c, s, es[0]), es[1..]))
  }

  ghost predicate AlwaysAlone(c: Config, s: Sys, es: seq<Event>)
    requires Runs(c, s, es)
    decreases |es|
  {
    Alone(s) && (es == [] || AlwaysAlone(c, Step(c, s, es[0]), es[1..]))
  }

  lemma {:induction false} RunKeepsExclusive(c: Config, s: Sys, es: seq<Event>)
    requires Inv(s) && Exclusive(s) && Runs(c, s, es) && NobodyLetIn(c, s, es)
    ensures Inv(After(c, s, es)) && Exclusive(After(c, s, es))
    decreases |es|
  {
    if es != [] {
      StepKeepsInv(c, s, es[0]);
      StepKeepsExclusive(c, s, es[0]);
      RunKeepsExclusive(c, Step(c, s, es[0]), es[1..]);
    }
  }

  lemma {:induction false} AloneFromExclusive(c: Config, s: Sys, es: seq<Event>)
    requires Inv(s) && Exclusive(s) && Runs(c, s, es)
    ensures AlwaysAlone(c, s, es) <==> NobodyLetIn(c, s, es)
    decreases |es|
  {
    hide Inv, Exclusive, Alone, LetsIn, Step, Enabled;
    ExclusiveIsAlone(s);
    if es != [] {
      var next := Step(c, s, es[0]);
      ExclusiveUnlessLetIn(c, s, es[0]);
      if LetsIn(s, es[0]) {
        assert !AlwaysAlone(c, next, es[1..]);
      } else {
        StepKeepsInv(c, s, es[0]);
        AloneFromExclusive(c, next, es[1..]);
      }
    }
  }

  /** Under any interleaving of claims, heartbeats, crashes, redeliveries, duplicates and
      deletions, at most one live worker is ever between claim and mark for a job if and only
      if no claim of the run wins a job that a live worker is still handling. */
  lemma MutualExclusionIff(c: Config, clock: int, es: seq<Event>)
    requires Runs(c, Start(clock), es)
    ensures AlwaysAlone(c, Start(clock), es) <==> NobodyLetIn(c, Start(clock), es)
  {
    AloneFromExclusive(c, Start(clock), es);
  }

  /** And then whoever handles a job owns its row. */
  lemma MutualExclusion(c: Config, clock: int, es: seq<Event>, w: WorkerId, w': WorkerId, j: JobId)
    requires Runs(c, Start(clock), es) && NobodyLetIn(c, Start(clock), es)
    requires var s := After(c, Start(clock), es);
             HandlingJob(PcOf(s.pcs, w), j) && HandlingJob(PcOf(s.pcs, w'), j)
    ensures w == w'
    ensures var s := After(c, Start(clock), es);
            j in s.rows ==> s.rows[j].status == Running && s.rows[j].leaseOwner == Some(w)
  {
    RunKeepsExclusive(c, Start(clock), es);
    var s := After(c, Start(clock), es);
    ExclusiveIsAlone(s);
    assert ActiveOn(PcOf(s.pcs, w), j) && RowAgrees(s, w, j);
  }

  // ---- kept leases let nobody in

  /** No live worker's lease on the row it is working on has lapsed. */
  ghost predicate RowLeasesKept(s: Sys) {
    forall w, j :: HandlingJob(PcOf(s.pcs, w), j) && j in s.rows && s.rows[j].leaseOwner == Some(w) ==>
      !LeaseLapsed(s.rows[j], s.clock)
  }

  ghost predicate AlwaysKept(c: Config, s: Sys, es: seq<Event>)
    requires Runs(c, s, es)
    decreases |es|
  {
    es == [] || (RowLeasesKept(s) && AlwaysKept(c, Step(c, s, es[0]), es[1..]))
  }

  lemma KeptLeaseBlocks(s: Sys, v: WorkerId, j: JobId)
    requires Exclusive(s) && RowLeasesKept(s) && HandlingJob(PcOf(s.pcs, v), j)
    ensures !CanClaim(s.rows, j, s.clock)
  {
    assert RowAgrees(s, v, j);
  }

  lemma KeptLetsNobodyIn(s: Sys, e: Event)
    requires Exclusive(s) && RowLeasesKept(s)
    ensures !LetsIn(s, e)
  {
    if LetsIn(s, e) {
      var j := PcOf(s.pcs, e.w).m.job.value;
      var v :| HandlingJob(PcOf(s.pcs, v), j);
      KeptLeaseBlocks(s, v, j);
    }
  }

  /** If heartbeats keep the leases of all live workers, nobody is ever let in. */
  lemma {:induction false} KeptRunsLetNobodyIn(c: Config, s: Sys, es: seq<Event>)
    requires Inv(s) && Exclusive(s) && Runs(c, s, es) && AlwaysKept(c, s, es)
    ensures NobodyLetIn(c, s, es)
    decreases |es|
  {
    hide Inv, Exclusive, LetsIn, Step, Enabled;
    if es != [] {
      KeptLetsNobodyIn(s, es[0]);
      StepKeepsInv(c, s, es[0]);
      StepKeepsExclusive(c, s, es[0]);
      KeptRunsLetNobodyIn(c, Step(c, s, es[0]), es[1..]);
    }
  }

  // ---- finality

  /** A worker marks job j otherwise than it is: it finishes a job that somebody else has
      finished differently, or its ack raises. */
  predicate Overwrites(s: Sys, e: Event, j: JobId)
    requires j in s.rows
  {
    && (e.Finish? || e.AckRaises?) && HasMessage(PcOf(s.pcs, e.w)) && PcOf(s.pcs, e.w).m.job == Some(j)
    && var job, count := s.rows[j], PcOf(s.pcs, e.w).m.count;
       if e.AckRaises? || e.outcome.Transient? then job.status == Succeeded || !Exhausted(job, count)
       else if e.outcome.Success? then job.status == Dead
       else job.status == Succeeded
  }

  lemma ClaimLeavesFinished(c: Config, s: Sys, w: WorkerId, j: JobId)
    requires Inv(s) && Enabled(c, s, Event.Claim(w)) && j in s.rows && Terminal(s.rows[j])
    ensures var s' := Step(c, s, Event.Claim(w)); j in s'.rows && s'.rows[j].status == s.rows[j].status
  {
    hide QueueInv, HandlesInv;
    assert RowOk(s, j) && WorkerOk(s, PcOf(s.pcs, w));
    if PcOf(s.pcs, w).m.job != Some(j) {
      ClaimElsewhere(s, w, PcOf(s.pcs, w).m, j);
    }
  }

  /** Whatever state a run has come to, leases lapsed or not: a step changes the status of a
      finished row if and only if it overwrites it. */
  lemma FinalUnlessOverwritten(c: Config, s: Sys, e: Event, j: JobId)
    requires Inv(s) && Enabled(c, s, e) && j in s.rows && Terminal(s.rows[j])
    ensures var s' := Step(c, s, e);
            (j in s'.rows ==> s'.rows[j].status == s.rows[j].status) <==> !Overwrites(s, e, j)
  {
    hide Sent, Requeued, Taken, Acked, Extended, Expired, OverLimit, AfterClaim, QueueInv, WorkersInv, HandlesInv;
    if e.Claim? {
      ClaimLeavesFinished(c, s, e.w, j);
    } else if e.Submit? {
      RowIsKnown(s, j);
    } else if e.Finish? && PcOf(s.pcs, e.w).m.job != Some(j) {
      FinishElsewhere(s, e.w, PcOf(s.pcs, e.w).m, e.outcome, j);
    }
  }

  ghost predicate NoneOverwritten(c: Config, s: Sys, es: seq<Event>, j: JobId)
    requires Runs(c, s, es)
    decreases |es|
  {
    es == [] || ((j in s.rows ==> !Overwrites(s, es[0], j)) && NoneOverwritten(c, Step(c, s, es[0]), es[1..], j))
  }

  ghost predicate AlwaysStatus(c: Config, s: Sys, es: seq<Event>, j: JobId, status: Status)
    requires Runs(c, s, es)
    decreases |es|
  {
    (j in s.rows ==> s.rows[j].status == status) && (es == [] || AlwaysStatus(c, Step(c, s, es[0]), es[1..], j, status))
  }

  lemma {:induction false} DeletedIsFinal(c: Config, s: Sys, es: seq<Event>, j: JobId, status: Status)
    requires Runs(c, s, es) && j in s.kinds && j !in s.rows
    ensures AlwaysStatus(c, s, es, j, status) && NoneOverwritten(c, s, es, j)
    decreases |es|
  {
    if es != [] {
      DeletedIsFinal(c, Step(c, s, es[0]), es[1..], j, status);
    }
  }

  /** From any point of any run on, `succeeded` or `dead` is never left if and only if no
      event overwrites the row. */
  lemma {:induction false} FinishedForGoodIff(c: Config, s: Sys, es: seq<Event>, j: JobId)
    requires Inv(s) && Runs(c, s, es) && j in s.rows && Terminal(s.rows[j])
    ensures AlwaysStatus(c, s, es, j, s.rows[j].status) <==> NoneOverwritten(c, s, es, j)
    decreases |es|
  {
    hide QueueInv, RowsInv, WorkersInv, HandlesInv, Step, Enabled, Overwrites;
    if es != [] {
      var next := Step(c, s, es[0]);
      FinalUnlessOverwritten(c, s, es[0], j);
      StepKeepsInv(c, s, es[0]);
      RowIsKnown(s, j);
      if j !in next.rows {
        StillKnown(c, s, es[0], j);
        DeletedIsFinal(c, next, es[1..], j, s.rows[j].status);
      } else if Overwrites(s, es[0], j) {
        assert !AlwaysStatus(c, next, es[1..], j, s.rows[j].status);
      } else {
        FinishedForGoodIff(c, next, es[1..], j);
      }
    }
  }

  /** With mutual exclusion, one thing only overwrites: the ack after a success raises, and
      the handler's catch-all marks the job failed. */
  lemma FinalUnlessAckRaises(c: Config, s: Sys, e: Event, j: JobId)
    requires Inv(s) && Exclusive(s) && Enabled(c, s, e) && j in s.rows && Terminal(s.rows[j])
    ensures Overwrites(s, e, j) <==> e.AckRaises? && PcOf(s.pcs, e.w).m.job == Some(j)
  {
    if e.Finish? || e.AckRaises? {
      assert RowAgrees(s, e.w, j);
    }
  }

  predicate NoAckRaises(es: seq<Event>) {
    forall i :: 0 <= i < |es| ==> !es[i].AckRaises?
  }

  /** So where nobody is let in and no ack raises, nothing finished is ever overwritten. */
  lemma {:induction false} FinishedForGood(c: Config, s: Sys, es: seq<Event>, j: JobId)
    requires Inv(s) && Exclusive(s) && Runs(c, s, es) && NobodyLetIn(c, s, es) && NoAckRaises(es)
    requires j in s.rows && Terminal(s.rows[j])
    ensures NoneOverwritten(c, s, es, j)
    ensures AlwaysStatus(c, s, es, j, s.rows[j].status)
    decreases |es|
  {
    hide QueueInv, RowsInv, WorkersInv, HandlesInv, Exclusive, Step, Enabled, Overwrites, LetsIn;
    FinishedForGoodIff(c, s, es, j);
    if es != [] {
      var next := Step(c, s, es[0]);
      FinalUnlessAckRaises(c, s, es[0], j);
      FinalUnlessOverwritten(c, s, es[0], j);
      StepKeepsInv(c, s, es[0]);
      StepKeepsExclusive(c, s, es[0]);
      RowIsKnown(s, j);
      StillKnown(c, s, es[0], j);
      assert NoAckRaises(es[1..]);
      if j in next.rows {
        FinishedForGood(c, next, es[1..], j);
      } else {
        DeletedIsFinal(c, next, es[1..], j, s.rows[j].status);
      }
    }
  }

  // ---- the exceptions can happen

  /** A lease that lapses in the handler: the job is enqueued twice, the first worker
      stalls past its lease, and a second worker is let in beside it. */
  lemma LapsedLeaseRunsTwice(c: Config, clock: int, j: JobId) returns (s: Sys)
    requires c.maxReceiveCount >= 1
    ensures Reachable(c, clock, s)
    ensures HandlingJob(PcOf(s.pcs, "w1"), j) && HandlingJob(PcOf(s.pcs, "w2"), j)
    ensures PcOf(s.pcs, "w1").m.count == 1 && j in s.rows && s.rows[j].attempt == 2 && s.rows[j].maxAttempts == 3
  {
    s := OneHandled(c, clock, j, "w1", 3);
    s := Onward(c, clock, s, Enqueue(j, ""));
    assert s.q.ready == [Message(1, "transcribe", Some(j), "", 0)];
    s := Onward(c, clock, s, Receive("w2"));
    s := Onward(c, clock, s, Tick(LEASE_SECONDS + 1));
    assert CanClaim(s.rows, j, s.clock);
    s := Onward(c, clock, s, Event.Claim("w2"));
  }

  /** An ack that raises after a durable success turns the job back to failed. */
  lemma RaisedAckUndoesSuccess(c: Config, clock: int, j: JobId, exc: Failure) returns (before: Sys, s: Sys)
    requires c.maxReceiveCount >= 1
    ensures Reachable(c, clock, before) && Reachable(c, clock, s)
    ensures j in before.rows && before.rows[j].status == Succeeded
    ensures Enabled(c, before, AckRaises("w", exc)) && s == Step(c, before, AckRaises("w", exc))
    ensures j in s.rows && s.rows[j].status == Failed && s.rows[j].errorClass.Some?
  {
    before := OneHandled(c, clock, j, "w", 3);
    before := Onward(c, clock, before, Finish("w", Success));
    s := Onward(c, clock, before, AckRaises("w", exc));
  }

  /** Beside a second worker there is another cause: after a lapse w2 is let in and succeeds,
      and w1, still at it, fails; its mark turns `succeeded` into `failed`. */
  lemma StaleFinisherUndoesSuccess(c: Config, clock: int, j: JobId, exc: Failure) returns (before: Sys, s: Sys)
    requires c.maxReceiveCount >= 1
    ensures Reachable(c, clock, before) && Reachable(c, clock, s)
    ensures j in before.rows && before.rows[j].status == Succeeded
    ensures Enabled(c, before, Finish("w1", Transient(exc))) && s == Step(c, before, Finish("w1", Transient(exc)))
    ensures j in s.rows && s.rows[j].status == Failed
  {
    before := LapsedLeaseRunsTwice(c, clock, j);
    before := Onward(c, clock, before, Finish("w2", Success));
    assert before.rows[j].status == Succeeded && before.rows[j].attempt == 2 && before.rows[j].maxAttempts == 3;
    s := Onward(c, clock, before, Finish("w1", Transient(exc)));
  }
}
