/** Jobs and their transactions (engine/qemu-wasm/job.c) as a state machine: the functions that run
    in the main thread are atomic, a job's coroutine takes its steps in between, and so does the
    loop of job_completed_txn_abort_locked, which waits for jobs that have not completed. */
module JobTxns {
  import opened Options
  import opened JobStates

  type JobId = nat

  /** `trigger` finalized the transaction, and then `failed` could not prepare. */
  datatype Blame = Blame(trigger: JobId, failed: JobId)

  datatype Txn = Txn(aborting: bool, blame: Option<Blame>)

  datatype Sys = Sys(jobs: map<JobId, Job>, txns: map<TxnId, Txn>)

  /** How job_txn_apply_locked(job, job_prepare_locked) went: the drivers' results, the jobs that
      returned 0, and the one that did not. */
  datatype Prep = Prep(results: map<JobId, Option<int>>, done: set<JobId>, fail: Option<JobId>)

  datatype Event =
    | Create(j: JobId, t: TxnId, autoFinalize: bool, autoDismiss: bool)
    | Start(j: JobId)
    | PausePoint(j: JobId)
    | Resume(j: JobId)
    | Readiness(j: JobId)
    | RunReturns(j: JobId, ret: int)
    | Exit(j: JobId, prep: Prep)
    | Cancel(j: JobId, force: bool, drv: bool, prep: Prep)
    | UserCancel(j: JobId, force: bool, drv: bool, prep: Prep)
    | Finalize(j: JobId, prep: Prep)
    | Dismiss(j: JobId)
    | EarlyFail(j: JobId)
    | AbortTurn(j: JobId)

  // --- what the functions do ---

  /** The jobs on the transaction's list. */
  function Members(s: Sys, t: TxnId): set<JobId> {
    set j | j in s.jobs && s.jobs[j].txn == t && s.jobs[j].inTxn
  }

  function Put(s: Sys, j: JobId, x: Job): Sys { s.(jobs := s.jobs[j := x]) }

  /** job_completed_txn_abort_locked up to its loop: every other member is force-cancelled. */
  function TxnAbort(s: Sys, j: JobId): Sys
    requires j in s.jobs && s.jobs[j].txn in s.txns
  {
    var t := s.jobs[j].txn;
    if s.txns[t].aborting then s
    else Sys(map k | k in s.jobs ::
               if k in Members(s, t) && k != j then CancelAsync(s.jobs[k], true) else s.jobs[k],
             s.txns[t := s.txns[t].(aborting := true)])
  }

  function Prepared(s: Sys, t: TxnId, prep: Prep): Sys {
    s.(jobs := map k | k in s.jobs ::
         if k in Members(s, t) && (k in prep.done || prep.fail == Some(k)) && k in prep.results
         then Prepare(s.jobs[k], prep.results[k]) else s.jobs[k])
  }

  /** The members in `done` returned 0, and it went on until one did not. */
  ghost predicate PrepRun(s: Sys, t: TxnId, prep: Prep) {
    && prep.done <= Members(s, t) && prep.done <= prep.results.Keys
    && (forall k | k in prep.done :: Prepare(s.jobs[k], prep.results[k]).ret == 0)
    && (prep.fail.None? ==> prep.done == Members(s, t))
    && (prep.fail.Some? ==>
          && prep.fail.value in Members(s, t) - prep.done && prep.fail.value in prep.results
          && Prepare(s.jobs[prep.fail.value], prep.results[prep.fail.value]).ret != 0)
  }

  /** job_txn_apply_locked(job, job_finalize_single_locked) */
  function FinalizeAll(s: Sys, t: TxnId): Sys {
    s.(jobs := map k | k in s.jobs :: if k in Members(s, t) then FinalizeSingle(s.jobs[k]) else s.jobs[k])
  }

  /** job_do_finalize_locked */
  function DoFinalize(s: Sys, j: JobId, prep: Prep): Sys
    requires j in s.jobs && s.jobs[j].txn in s.txns
  {
    var t := s.jobs[j].txn;
    var p := Prepared(s, t, prep);
    if prep.fail.Some? then
      TxnAbort(p.(txns := p.txns[t := p.txns[t].(blame := Some(Blame(j, prep.fail.value)))]), j)
    else
      FinalizeAll(p, t)
  }

  /** job_completed_txn_success_locked: the job waits for the others. Its loop asserts that whoever
      has completed has no error. */
  function Await(s: Sys, j: JobId): Sys
    requires j in s.jobs
  {
    var w := Put(s, j, Go(s.jobs[j], Waiting));
    w.(jobs := map k | k in w.jobs ::
         if k in Members(w, s.jobs[j].txn) then Check(w.jobs[k], Completed(w.jobs[k].status) ==> w.jobs[k].ret == 0)
         else w.jobs[k])
  }

  predicate AllCompleted(s: Sys, t: TxnId) { forall k | k in Members(s, t) :: Completed(s.jobs[k].status) }

  predicate AllAuto(s: Sys, t: TxnId) { forall k | k in Members(s, t) :: s.jobs[k].autoFinalize }

  /** job_txn_apply_locked(job, job_transition_to_pending_locked) */
  function AllPending(s: Sys, t: TxnId): Sys {
    s.(jobs := map k | k in s.jobs :: if k in Members(s, t) then Go(s.jobs[k], Pending) else s.jobs[k])
  }

  function TxnSuccess(s: Sys, j: JobId, prep: Prep): Sys
    requires j in s.jobs && s.jobs[j].txn in s.txns
  {
    var t := s.jobs[j].txn;
    var w := Await(s, j);
    if !AllCompleted(w, t) then w
    else if !AllAuto(w, t) then AllPending(w, t)
    else DoFinalize(AllPending(w, t), j, prep)
  }

  /** job_completed_locked */
  function Complete(s: Sys, j: JobId, prep: Prep): Sys
    requires j in s.jobs && s.jobs[j].txn in s.txns
  {
    var x := UpdateRc(Check(s.jobs[j], s.jobs[j].inTxn && !Completed(s.jobs[j].status)));
    if x.ret != 0 then TxnAbort(Put(s, j, x), j) else TxnSuccess(Put(s, j, x), j, prep)
  }

  /** job_cancel_locked */
  function CancelJob(s: Sys, j: JobId, drv: bool, prep: Prep): Sys
    requires j in s.jobs && s.jobs[j].txn in s.txns
  {
    if s.jobs[j].status == Concluded then Put(s, j, DoDismiss(s.jobs[j]))
    else
      var x := CancelAsync(s.jobs[j], drv);
      if !Started(x) then Complete(Put(s, j, x), j, prep)
      else if Deferred(x) && x.force then TxnAbort(Put(s, j, x), j)
      else Put(s, j, x)
  }

  // --- runs ---

  /** Jobs join a transaction before it is decided. */
  ghost predicate Open(s: Sys, t: TxnId) {
    t in s.txns && !s.txns[t].aborting &&
    forall k | k in s.jobs && s.jobs[k].txn == t ::
      !s.jobs[k].status.Pending? && s.jobs[k].finals == []
  }

  ghost predicate Known(s: Sys, j: JobId) { j in s.jobs && s.jobs[j].txn in s.txns }

  /** If the job's transaction aborts, its loop is waiting for a member, not busy finalizing them. */
  ghost predicate Idle(s: Sys, j: JobId)
    requires Known(s, j)
  {
    s.jobs[j].inTxn && s.txns[s.jobs[j].txn].aborting ==> !AllCompleted(s, s.jobs[j].txn)
  }

  ghost predicate Runs(s: Sys, j: JobId) { Known(s, j) && s.jobs[j].co.InDriver? }

  /** If completing `j` finalizes the transaction, `prep` is how preparing went. */
  ghost predicate PrepFor(s: Sys, j: JobId, prep: Prep)
    requires Known(s, j)
  {
    var x := UpdateRc(Check(s.jobs[j], s.jobs[j].inTxn && !Completed(s.jobs[j].status)));
    var w := Await(Put(s, j, x), j);
    x.ret == 0 && AllCompleted(w, x.txn) && AllAuto(w, x.txn) ==> PrepRun(AllPending(w, x.txn), x.txn, prep)
  }

  /** What the code expects of its callers and of the drivers. */
  ghost predicate Enabled(s: Sys, ev: Event) {
    match ev
    case Create(j, t, _, _) => j !in s.jobs && (t !in s.txns || Open(s, t))
    case Start(j) => Known(s, j) && s.jobs[j].status == Created
    case PausePoint(j) => Runs(s, j) && !s.jobs[j].force
    case Resume(j) => Known(s, j) && s.jobs[j].co.Yielded?
    case Readiness(j) => Runs(s, j) && !s.jobs[j].readied
    case RunReturns(j, _) => Runs(s, j)
    case Exit(j, prep) => Known(s, j) && s.jobs[j].co.Returned?
                          && PrepFor(Put(s, j, s.jobs[j].(co := Finished)), j, prep)
    case Cancel(j, force, drv, prep) =>
      && Known(s, j) && Idle(s, j) && s.jobs[j].status != Null && CancelContract(s.jobs[j], force, drv)
      && (!Started(s.jobs[j]) ==> !Completed(s.jobs[j].status) && PrepFor(Put(s, j, CancelAsync(s.jobs[j], drv)), j, prep))
    case UserCancel(j, force, drv, prep) =>
      && Known(s, j) && Idle(s, j)
      && (Accepts(s.jobs[j].status, CancelVerb) ==>
            && CancelContract(s.jobs[j], force, drv)
            && (!Started(s.jobs[j]) ==> PrepFor(Put(s, j, CancelAsync(s.jobs[j], drv)), j, prep)))
    case Finalize(j, prep) =>
      Known(s, j) && Idle(s, j) && (s.jobs[j].status == Pending ==> PrepRun(s, s.jobs[j].txn, prep))
    case Dismiss(j) => Known(s, j)
    case EarlyFail(j) => Known(s, j) && s.jobs[j].status == Created && !s.txns[s.jobs[j].txn].aborting
    case AbortTurn(j) => Known(s, j) && s.txns[s.jobs[j].txn].aborting && s.jobs[j].inTxn && Completed(s.jobs[j].status)
  }

  ghost function Do(s: Sys, ev: Event): Sys
    requires Enabled(s, ev)
  {
    match ev
    case Create(j, t, autoFinalize, autoDismiss) =>
      Sys(s.jobs[j := NewJob(t, autoFinalize, autoDismiss)], if t in s.txns then s.txns else s.txns[t := Txn(false, None)])
    case Start(j) => Put(s, j, Begin(s.jobs[j]))
    case PausePoint(j) => Put(s, j, Pause(s.jobs[j]))
    case Resume(j) => Put(s, j, Unpause(s.jobs[j]))
    case Readiness(j) => Put(s, j, BecomeReady(s.jobs[j]))
    case RunReturns(j, ret) => Put(s, j, RunEnds(s.jobs[j], ret))
    case Exit(j, prep) => Complete(Put(s, j, s.jobs[j].(co := Finished)), j, prep)
    case Cancel(j, _, drv, prep) => CancelJob(s, j, drv, prep)
    case UserCancel(j, _, drv, prep) => if Accepts(s.jobs[j].status, CancelVerb) then CancelJob(s, j, drv, prep) else s
    case Finalize(j, prep) => if Accepts(s.jobs[j].status, FinalizeVerb) then DoFinalize(s, j, prep) else s
    case Dismiss(j) => if Accepts(s.jobs[j].status, DismissVerb) then Put(s, j, DoDismiss(s.jobs[j])) else s
    case EarlyFail(j) => Put(s, j, DoDismiss(s.jobs[j]))
    case AbortTurn(j) => Put(s, j, FinalizeSingle(s.jobs[j]))
  }

  ghost predicate IsRun(ss: seq<Sys>, evs: seq<Event>) {
    && |ss| == |evs| + 1 && ss[0] == Sys(map[], map[])
    && forall i | 0 <= i < |evs| :: Enabled(ss[i], evs[i]) && ss[i + 1] == Do(ss[i], evs[i])
  }

  // --- the invariant ---

  ghost predicate JobOk(j: JobId, x: Job, t: Txn) {
    && x.ok && StatusOk(x) && OutcomeOk(j, x, t) && AbortOk(j, x, t)
  }

  /** How the status goes with the coroutine's state. */
  ghost predicate StatusOk(x: Job) {
    && (x.force ==> x.cancelled) && (x.inTxn <==> !(x.status.Concluded? || x.status.Null?))
    && (x.status.Waiting? || x.status.Pending? ==> x.ret == 0)
    && (x.status.Created? ==> x.ret == 0 && !x.readied)
    && (x.status.Aborting? ==> x.ret != 0)
    && match x.co
       case NotStarted => x.status.Created? || x.status.Aborting? || x.status.Null?
       case InDriver => if x.readied then x.status.Ready? else x.status.Running?
       case Yielded(saved) => (x.status.Paused? && saved.Running? && !x.readied) || (x.status.Standby? && saved.Ready? && x.readied)
       case Returned => x.status.Running? || x.status.Ready?
       case Finished => Completed(x.status)
  }

  /** A started job leaves its transaction by being finalized, once; who commits has no error. */
  ghost predicate OutcomeOk(j: JobId, x: Job, t: Txn) {
    && (x.inTxn ==> x.finals == []) && (!x.inTxn && Started(x) ==> |x.finals| == 1) && |x.finals| <= 1
    && (!x.inTxn && x.finals == [] ==> x.ret == 0 && !x.force)
    && (x.finals == [Commit] ==> x.ret == 0 && !x.force && (t.aborting ==> t.blame.Some? && t.blame.value.trigger == j))
    && (x.finals == [Abort] ==> x.ret != 0 && t.aborting)
  }

  /** In an aborting transaction everybody is on the way to the abort callback, except perhaps a
      trigger whose partner could not prepare. */
  ghost predicate AbortOk(j: JobId, x: Job, t: Txn) {
    && (x.status.Aborting? ==> t.aborting)
    && (!t.aborting && x.force ==> !(x.status.Waiting? || x.status.Pending? || x.status.Created?))
    && (t.aborting && x.inTxn ==>
          x.force || (Completed(x.status) && (x.ret != 0 || (t.blame.Some? && t.blame.value.trigger == j))))
    && (t.blame.Some? ==>
          && t.aborting && (x.inTxn ==> Completed(x.status))
          && (j == t.blame.value.failed ==> if x.inTxn then x.status.Aborting? else x.finals == [Abort])
          && (j == t.blame.value.trigger && j != t.blame.value.failed ==>
                if x.inTxn then x.status.Pending? && !x.force else x.finals == [Commit]))
  }

  /** Two jobs of one transaction. */
  ghost predicate PairOk(x: Job, y: Job, t: Txn) {
    && (x.status.Pending? && y.inTxn ==> Completed(y.status) && (!t.aborting ==> y.status.Pending?))
    && (x.finals == [Commit] && t.blame.None? ==> !y.inTxn && y.ret == 0 && !y.force)
  }

  ghost predicate Inv(s: Sys) {
    && (forall j | j in s.jobs :: s.jobs[j].txn in s.txns && JobOk(j, s.jobs[j], s.txns[s.jobs[j].txn]))
    && (forall j, k | j in s.jobs && k in s.jobs && s.jobs[j].txn == s.jobs[k].txn ::
          s.jobs[j].txn in s.txns && PairOk(s.jobs[j], s.jobs[k], s.txns[s.jobs[j].txn]))
    && (forall t | t in s.txns && s.txns[t].blame.Some? ::
          var Blame(trigger, failed) := s.txns[t].blame.value;
          trigger in s.jobs && s.jobs[trigger].txn == t && failed in s.jobs && s.jobs[failed].txn == t)
  }

  // --- one job changes ---

  /** A change of one job that leaves its relation to the others alone. */
  ghost predicate Steady(x: Job, x': Job, t: Txn) {
    && x'.txn == x.txn && (x'.inTxn ==> x.inTxn)
    && (x'.status.Pending? ==> x.status.Pending?)
    && (x'.finals == [Commit] && t.blame.None? ==> x.finals == [Commit])
    && (Completed(x.status) ==> Completed(x'.status))
    && (x.status.Pending? && x'.inTxn && !t.aborting ==> x'.status.Pending?)
    && (!x.inTxn ==> x'.ret == x.ret && x'.force == x.force)
  }

  lemma SteadyPairs(x: Job, x': Job, y: Job, y': Job, t: Txn)
    requires PairOk(x, y, t) && Steady(x, x', t) && Steady(y, y', t)
    ensures PairOk(x', y', t)
  {}

  lemma PutKeeps(s: Sys, j: JobId, x: Job)
    requires Inv(s) && j in s.jobs && Steady(s.jobs[j], x, s.txns[s.jobs[j].txn]) && JobOk(j, x, s.txns[s.jobs[j].txn])
    ensures Inv(Put(s, j, x))
  {
    hide JobOk, PairOk;
    var r := Put(s, j, x);
    forall a, b | a in r.jobs && b in r.jobs && r.jobs[a].txn == r.jobs[b].txn
      ensures PairOk(r.jobs[a], r.jobs[b], r.txns[r.jobs[a].txn])
    {
      SteadyPairs(s.jobs[a], r.jobs[a], s.jobs[b], r.jobs[b], s.txns[s.jobs[a].txn]);
    }
  }

  lemma StartOk(j: JobId, x: Job, t: Txn)
    requires JobOk(j, x, t) && x.status.Created?
    ensures JobOk(j, Begin(x), t) && Steady(x, Begin(x), t)
  {}

  lemma PauseOk(j: JobId, x: Job, t: Txn)
    requires JobOk(j, x, t) && x.co.InDriver?
    ensures JobOk(j, Pause(x), t) && Steady(x, Pause(x), t)
  {}

  lemma UnpauseOk(j: JobId, x: Job, t: Txn)
    requires JobOk(j, x, t) && x.co.Yielded?
    ensures JobOk(j, Unpause(x), t) && Steady(x, Unpause(x), t)
  {}

  lemma ReadyOk(j: JobId, x: Job, t: Txn)
    requires JobOk(j, x, t) && x.co.InDriver? && !x.readied
    ensures JobOk(j, BecomeReady(x), t) && Steady(x, BecomeReady(x), t)
  {}

  lemma RunEndsOk(j: JobId, x: Job, t: Txn, result: int)
    requires JobOk(j, x, t) && x.co.InDriver?
    ensures JobOk(j, RunEnds(x, result), t) && Steady(x, RunEnds(x, result), t)
  {}

  lemma DismissOk(j: JobId, x: Job, t: Txn)
    requires JobOk(j, x, t) && (x.status.Concluded? || (x.status.Created? && !t.aborting))
    ensures JobOk(j, DoDismiss(x), t) && Steady(x, DoDismiss(x), t)
  {}

  /** A cancel that neither completes the job nor aborts the transaction. */
  lemma CancelOk(j: JobId, x: Job, t: Txn, drv: bool)
    requires JobOk(j, x, t) && x.inTxn && Started(x) && (Deferred(x) ==> !CancelAsync(x, drv).force)
    ensures JobOk(j, CancelAsync(x, drv), t) && Steady(x, CancelAsync(x, drv), t)
  {}

  ghost predicate MayFinalize(x: Job) {
    && x.ok && (x.force ==> x.cancelled)
    && (x.status.Pending? || ((x.status.Waiting? || x.status.Aborting?) && (x.ret != 0 || x.force)))
  }

  ghost predicate SameBut(x: Job, r: Job) {
    && r.co == x.co && r.cancelled == x.cancelled && r.force == x.force && r.readied == x.readied && r.txn == x.txn
    && r.autoDismiss == x.autoDismiss && r.autoFinalize == x.autoFinalize
  }

  /** What finalizing does to a job whose assertions hold: it aborts exactly when there is an error
      or a forced cancel. */
  lemma FinalizeFacts(x: Job)
    requires MayFinalize(x)
    ensures var r, bad := FinalizeSingle(x), x.ret != 0 || x.force;
            && r.ok && (r.status.Null? || (r.status.Concluded? && Started(x))) && !r.inTxn
            && r.finals == x.finals + [if bad then Abort else Commit] && (r.ret == 0 <==> !bad) && SameBut(x, r)
  {
    hide UpdateRc, Conclude;
    UpdateRcFacts(Check(x, Completed(x.status)));
    var y := UpdateRc(Check(x, Completed(x.status)));
    ConcludeFacts(Finalized(y, if y.ret == 0 then Commit else Abort));
  }

  lemma UpdateRcFacts(x: Job)
    requires x.ok && (x.force ==> x.cancelled) && (x.ret != 0 || x.force ==> Allowed(x.status, Aborting))
    ensures var r := UpdateRc(x);
            && r.ok && r.inTxn == x.inTxn && r.finals == x.finals && SameBut(x, r)
            && r.status == (if x.ret == 0 && !x.force then x.status else Aborting)
            && (x.ret == 0 && !x.force ==> r == x)
  {}

  lemma ConcludeFacts(x: Job)
    requires x.ok && Allowed(x.status, Concluded) && !x.inTxn
    ensures var r := Conclude(x);
            && r.ok && (r.status.Null? || (r.status.Concluded? && Started(x))) && !r.inTxn
            && r.finals == x.finals && r.ret == x.ret && SameBut(x, r)
  {}

  lemma AbortTurnOk(j: JobId, x: Job, t: Txn)
    requires JobOk(j, x, t) && t.aborting && x.inTxn && Completed(x.status)
    ensures JobOk(j, FinalizeSingle(x), t) && Steady(x, FinalizeSingle(x), t)
  {
    hide FinalizeSingle;
    FinalizeFacts(x);
    assert FinalizeSingle(x).finals == [if x.ret != 0 || x.force then Abort else Commit];
  }

  // --- the jobs of one transaction change ---

  lemma ChangeKeeps(s: Sys, r: Sys, t: TxnId)
    requires Inv(s) && t in s.txns && r.jobs.Keys == s.jobs.Keys && r.txns.Keys == s.txns.Keys
    requires forall u | u in s.txns && u != t :: r.txns[u] == s.txns[u]
    requires forall j | j in s.jobs :: r.jobs[j].txn == s.jobs[j].txn && (s.jobs[j].txn != t ==> r.jobs[j] == s.jobs[j])
    requires forall j | j in s.jobs && s.jobs[j].txn == t :: JobOk(j, r.jobs[j], r.txns[t])
    requires forall j, k | j in s.jobs && k in s.jobs && s.jobs[j].txn == t && s.jobs[k].txn == t ::
               PairOk(r.jobs[j], r.jobs[k], r.txns[t])
    requires r.txns[t].blame.Some? ==>
               var Blame(trigger, failed) := r.txns[t].blame.value;
               trigger in s.jobs && s.jobs[trigger].txn == t && failed in s.jobs && s.jobs[failed].txn == t
    ensures Inv(r)
  {
    hide JobOk, PairOk;
    forall j, k | j in r.jobs && k in r.jobs && r.jobs[j].txn == r.jobs[k].txn
      ensures PairOk(r.jobs[j], r.jobs[k], r.txns[r.jobs[j].txn])
    {
      if r.jobs[j].txn != t { assert PairOk(s.jobs[j], s.jobs[k], s.txns[s.jobs[j].txn]); }
    }
  }

  /** The transaction starts to abort. */
  function Aborted(t: Txn): Txn { t.(aborting := true) }

  lemma OtherAborts(k: JobId, y: Job, t: Txn)
    requires JobOk(k, y, t) && !t.aborting && y.inTxn
    ensures JobOk(k, CancelAsync(y, true), Aborted(t)) && Steady(y, CancelAsync(y, true), Aborted(t))
  {}

  lemma OutsiderAborts(k: JobId, y: Job, j: JobId, x: Job, t: Txn)
    requires JobOk(k, y, t) && PairOk(y, x, t) && x.inTxn && !y.inTxn && !t.aborting
    ensures JobOk(k, y, Aborted(t))
  {}

  /** The trigger has become `x`, and its transaction aborts. */
  lemma AbortKeeps(s: Sys, j: JobId, x: Job)
    requires Inv(s) && j in s.jobs && s.jobs[j].inTxn
    requires var t := Aborted(s.txns[s.jobs[j].txn]); JobOk(j, x, t) && Steady(s.jobs[j], x, t)
    ensures Inv(TxnAbort(Put(s, j, x), j))
  {
    hide JobOk, PairOk;
    var id := s.jobs[j].txn;
    var t := s.txns[id];
    if t.aborting {
      assert Aborted(t) == t;
      PutKeeps(s, j, x);
    } else {
      var r := TxnAbort(Put(s, j, x), j);
      forall k | k in s.jobs && s.jobs[k].txn == id
        ensures JobOk(k, r.jobs[k], Aborted(t)) && Steady(s.jobs[k], r.jobs[k], Aborted(t))
      {
        AbortOne(s, j, x, k);
      }
      AbortPairs(s, r, id);
      assert r.txns[id] == Aborted(t);
      NoBlameYet(j, s.jobs[j], t);
      ChangeKeeps(s, r, id);
    }
  }

  lemma NoBlameYet(j: JobId, x: Job, t: Txn)
    requires JobOk(j, x, t) && !t.aborting
    ensures t.blame.None?
  {}

  lemma AbortOne(s: Sys, j: JobId, x: Job, k: JobId)
    requires Inv(s) && j in s.jobs && s.jobs[j].inTxn && k in s.jobs && s.jobs[k].txn == s.jobs[j].txn
    requires !s.txns[s.jobs[j].txn].aborting
    requires var t := Aborted(s.txns[s.jobs[j].txn]); JobOk(j, x, t) && Steady(s.jobs[j], x, t)
    ensures var t, r := Aborted(s.txns[s.jobs[j].txn]), TxnAbort(Put(s, j, x), j);
            k in r.jobs && JobOk(k, r.jobs[k], t) && Steady(s.jobs[k], r.jobs[k], t)
  {
    hide JobOk, PairOk;
    var t := s.txns[s.jobs[j].txn];
    var y := s.jobs[k];
    if k != j {
      if y.inTxn { OtherAborts(k, y, t); } else { OutsiderAborts(k, y, j, s.jobs[j], t); }
    }
  }

  lemma AbortPairs(s: Sys, r: Sys, id: TxnId)
    requires Inv(s) && id in s.txns && r.jobs.Keys == s.jobs.Keys
    requires forall k | k in s.jobs && s.jobs[k].txn == id :: Steady(s.jobs[k], r.jobs[k], Aborted(s.txns[id]))
    ensures forall a, b | a in s.jobs && b in s.jobs && s.jobs[a].txn == id && s.jobs[b].txn == id ::
              PairOk(r.jobs[a], r.jobs[b], Aborted(s.txns[id]))
  {}

  // --- completion ---

  /** The job as job_completed_locked sees it after job_update_rc_locked. */
  function Rated(x: Job): Job { UpdateRc(Check(x, x.inTxn && !Completed(x.status))) }

  lemma ExitOk(j: JobId, x: Job, t: Txn)
    requires JobOk(j, x, t) && x.co.Returned?
    ensures var u := Rated(x.(co := Finished));
            && (u.ret != 0 ==> JobOk(j, u, Aborted(t)) && Steady(x, u, Aborted(t)))
            && (u.ret == 0 ==> !t.aborting && JobOk(j, Go(u, Waiting), t) && Steady(x, Go(u, Waiting), t))
  {
    hide UpdateRc;
    UpdateRcFacts(Check(x.(co := Finished), x.inTxn && !Completed(x.status)));
  }

  lemma UnstartedCancelOk(j: JobId, x: Job, t: Txn)
    requires JobOk(j, x, t) && x.status.Created? && t.blame.None?
    ensures var u := Rated(CancelAsync(x, true));
            u.ret != 0 && JobOk(j, u, Aborted(t)) && Steady(x, u, Aborted(t))
  {}

  lemma ForcedCancelOk(j: JobId, x: Job, t: Txn, drv: bool)
    requires JobOk(j, x, t) && x.inTxn && Deferred(x) && CancelAsync(x, drv).force && t.blame.None?
    ensures JobOk(j, CancelAsync(x, drv), Aborted(t)) && Steady(x, CancelAsync(x, drv), Aborted(t))
  {}

  /** While its abort loop is not at work, members are not in a transaction that failed to prepare, and
      pending ones are not in an aborting one. */
  lemma IdleMember(s: Sys, j: JobId)
    requires Inv(s) && Known(s, j) && Idle(s, j) && s.jobs[j].inTxn
    ensures s.txns[s.jobs[j].txn].blame.None?
    ensures s.jobs[j].status.Pending? ==> !s.txns[s.jobs[j].txn].aborting
  {
    var t := s.jobs[j].txn;
    if s.txns[t].aborting {
      assert j in Members(s, t);
      var k :| k in Members(s, t) && !Completed(s.jobs[k].status);
      assert JobOk(k, s.jobs[k], s.txns[t]) && PairOk(s.jobs[j], s.jobs[k], s.txns[t]);
    } else {
      NoBlameYet(j, s.jobs[j], s.txns[t]);
    }
  }

  /** In a transaction that does not abort, members that have completed have no error. */
  lemma CompletedWell(j: JobId, x: Job, t: Txn)
    requires JobOk(j, x, t) && x.inTxn && !t.aborting && Completed(x.status)
    ensures x.ret == 0 && !x.force && (x.status.Waiting? || x.status.Pending?)
  {}

  lemma AwaitKeeps(s: Sys, j: JobId, u: Job)
    requires Inv(s) && j in s.jobs && s.jobs[j].inTxn && u.txn == s.jobs[j].txn && u.inTxn
    requires var t := s.txns[s.jobs[j].txn];
             !t.aborting && JobOk(j, Go(u, Waiting), t) && Steady(s.jobs[j], Go(u, Waiting), t)
    ensures Await(Put(s, j, u), j) == Put(s, j, Go(u, Waiting)) && Inv(Put(s, j, Go(u, Waiting)))
  {
    hide JobOk, PairOk;
    PutKeeps(s, j, Go(u, Waiting));
    ChecksPass(Put(s, j, Go(u, Waiting)), u.txn);
    assert Put(Put(s, j, u), j, Go(u, Waiting)).jobs == Put(s, j, Go(u, Waiting)).jobs;
  }

  lemma ChecksPass(w: Sys, t: TxnId)
    requires Inv(w) && t in w.txns && !w.txns[t].aborting
    ensures (map k | k in w.jobs ::
               if k in Members(w, t) then Check(w.jobs[k], Completed(w.jobs[k].status) ==> w.jobs[k].ret == 0)
               else w.jobs[k]) == w.jobs
  {}

  /** All members, one of them just now, have completed well: all become PENDING. */
  lemma AllPendingKeeps(s: Sys, j: JobId)
    requires Inv(s) && j in s.jobs && s.jobs[j].status.Waiting? && s.jobs[j].inTxn
    requires var t := s.jobs[j].txn; !s.txns[t].aborting && AllCompleted(s, t)
    ensures Inv(AllPending(s, s.jobs[j].txn))
    ensures forall k | k in Members(s, s.jobs[j].txn) :: s.jobs[k].ret == 0 && s.jobs[k].status.Waiting?
  {
    hide JobOk, PairOk;
    var t := s.jobs[j].txn;
    var r := AllPending(s, t);
    forall k | k in s.jobs && s.jobs[k].txn == t
      ensures JobOk(k, r.jobs[k], r.txns[t]) && (s.jobs[k].inTxn ==> s.jobs[k].ret == 0 && s.jobs[k].status.Waiting?)
    {
      if s.jobs[k].inTxn {
        assert k in Members(s, t);
        PendingOk(k, s.jobs[k], s.jobs[j], s.txns[t]);
      }
    }
    forall a, b | a in s.jobs && b in s.jobs && s.jobs[a].txn == t && s.jobs[b].txn == t
      ensures PairOk(r.jobs[a], r.jobs[b], r.txns[t])
    {
      PendingPair(a, s.jobs[a], b, s.jobs[b], s.jobs[j], s.txns[t]);
    }
    ChangeKeeps(s, r, t);
  }

  lemma PendingOk(k: JobId, y: Job, x: Job, t: Txn)
    requires JobOk(k, y, t) && PairOk(y, x, t) && x.status.Waiting? && x.inTxn && !t.aborting && y.inTxn && Completed(y.status)
    ensures JobOk(k, Go(y, Pending), t) && y.ret == 0 && y.status.Waiting?
  {}

  lemma PendingPair(a: JobId, x: Job, b: JobId, y: Job, w: Job, t: Txn)
    requires JobOk(a, x, t) && JobOk(b, y, t) && PairOk(x, y, t) && PairOk(x, w, t) && w.inTxn && w.status.Waiting?
    ensures PairOk(if x.inTxn then Go(x, Pending) else x, if y.inTxn then Go(y, Pending) else y, t)
  {}

  // --- finalization ---

  /** A pending job of a transaction that does not abort. */
  ghost predicate Clean(x: Job, t: Txn) {
    x.status.Pending? && x.inTxn && x.ret == 0 && !x.force && !t.aborting && t.blame.None?
  }

  lemma PendingMembers(s: Sys, j: JobId)
    requires Inv(s) && j in s.jobs && s.jobs[j].status.Pending? && !s.txns[s.jobs[j].txn].aborting
    ensures forall k | k in Members(s, s.jobs[j].txn) :: Clean(s.jobs[k], s.txns[s.jobs[j].txn])
    ensures j in Members(s, s.jobs[j].txn)
  {
    var t := s.jobs[j].txn;
    forall k | k in Members(s, t) ensures Clean(s.jobs[k], s.txns[t]) {
      assert JobOk(k, s.jobs[k], s.txns[t]) && PairOk(s.jobs[j], s.jobs[k], s.txns[t]);
    }
    assert JobOk(j, s.jobs[j], s.txns[t]);
  }

  lemma PreparedJob(j: JobId, x: Job, t: Txn, result: Option<int>)
    requires JobOk(j, x, t) && Clean(x, t)
    ensures var y := Prepare(x, result);
            if y.ret == 0 then y == x
            else y.status.Aborting? && y.ok && y.inTxn && y.finals == [] && SameBut(x, y)
  {}

  lemma CommitOk(j: JobId, x: Job, t: Txn)
    requires JobOk(j, x, t) && Clean(x, t)
    ensures var r := FinalizeSingle(x);
            JobOk(j, r, t) && r.txn == x.txn && r.finals == [Commit] && !r.inTxn && r.ret == 0 && !r.force
  {
    hide FinalizeSingle;
    FinalizeFacts(x);
    assert FinalizeSingle(x).finals == [Commit];
  }

  lemma OutsiderClean(k: JobId, y: Job, t: Txn)
    requires JobOk(k, y, t) && !y.inTxn && !t.aborting
    ensures y.ret == 0 && !y.force && !y.status.Pending?
  {
    OneFinal(y.finals);
  }

  lemma OneFinal(f: seq<Outcome>)
    requires |f| <= 1
    ensures f == [] || f == [Commit] || f == [Abort]
  {
    if |f| == 1 {
      assert f == [f[0]];
      match f[0] case Commit => case Abort =>
    }
  }

  /** Everybody could prepare: everybody commits. */
  lemma FinalizeAllKeeps(s: Sys, j: JobId)
    requires Inv(s) && j in s.jobs && s.jobs[j].status.Pending? && !s.txns[s.jobs[j].txn].aborting
    ensures var r := FinalizeAll(s, s.jobs[j].txn);
            && Inv(r) && forall k | k in Members(s, s.jobs[j].txn) :: r.jobs[k].finals == [Commit]
  {
    hide JobOk, FinalizeSingle;
    var t := s.jobs[j].txn;
    var r := FinalizeAll(s, t);
    PendingMembers(s, j);
    forall k | k in s.jobs && s.jobs[k].txn == t
      ensures JobOk(k, r.jobs[k], r.txns[t]) && r.jobs[k].txn == t
      ensures !r.jobs[k].inTxn && r.jobs[k].ret == 0 && !r.jobs[k].force && !r.jobs[k].status.Pending?
      ensures k in Members(s, t) ==> r.jobs[k].finals == [Commit]
    {
      if s.jobs[k].inTxn {
        assert k in Members(s, t);
        CommitOk(k, s.jobs[k], s.txns[t]);
        NotPending(k, r.jobs[k], s.txns[t]);
      } else {
        OutsiderClean(k, s.jobs[k], s.txns[t]);
      }
    }
    NoBlameYet(j, s.jobs[j], s.txns[t]);
    ChangeKeeps(s, r, t);
  }

  lemma NotPending(j: JobId, x: Job, t: Txn)
    requires JobOk(j, x, t) && !x.inTxn
    ensures !x.status.Pending?
  {}

  lemma PreparedIsSame(s: Sys, j: JobId, prep: Prep)
    requires Inv(s) && j in s.jobs && s.jobs[j].status.Pending? && !s.txns[s.jobs[j].txn].aborting
    requires PrepRun(s, s.jobs[j].txn, prep)
    ensures var p := Prepared(s, s.jobs[j].txn, prep);
            && p.txns == s.txns && p.jobs.Keys == s.jobs.Keys
            && (forall k | k in s.jobs && prep.fail != Some(k) :: p.jobs[k] == s.jobs[k])
            && (prep.fail.Some? ==>
                  && prep.fail.value in s.jobs
                  && var x, y := s.jobs[prep.fail.value], p.jobs[prep.fail.value];
                     y.ret != 0 && y.status.Aborting? && y.ok && y.inTxn && y.finals == [] && SameBut(x, y))
  {
    hide JobOk, PairOk, Prepare;
    var t := s.jobs[j].txn;
    PendingMembers(s, j);
    forall k | k in Members(s, t) && k in prep.results
      ensures var y := Prepare(s.jobs[k], prep.results[k]);
              if y.ret == 0 then y == s.jobs[k]
              else y.status.Aborting? && y.ok && y.inTxn && y.finals == [] && SameBut(s.jobs[k], y)
    {
      PreparedJob(k, s.jobs[k], s.txns[t], prep.results[k]);
    }
  }

  /** Somebody could not prepare: who it was, the trigger, and the others. */
  lemma BlamedOk(k: JobId, x: Job, y: Job, j: JobId, m: JobId, t: Txn)
    requires JobOk(k, x, t) && Clean(x, t)
    requires if k == m then y.ret != 0 && y.status.Aborting? && y.ok && y.inTxn && y.finals == [] && SameBut(x, y) else y == x
    ensures var z := if k == j then y else CancelAsync(y, true);
            JobOk(k, z, Txn(true, Some(Blame(j, m)))) && z.txn == x.txn && z.inTxn && Completed(z.status)
  {}

  lemma OutsiderBlame(k: JobId, y: Job, t: Txn, x: Job, j: JobId, m: JobId)
    requires JobOk(k, y, t) && !y.inTxn && !t.aborting && PairOk(y, x, t) && x.inTxn && k != j && k != m
    ensures JobOk(k, y, Txn(true, Some(Blame(j, m))))
  {}

  lemma PrepFailKeeps(s: Sys, j: JobId, prep: Prep)
    requires Inv(s) && j in s.jobs && s.jobs[j].status.Pending? && !s.txns[s.jobs[j].txn].aborting
    requires PrepRun(s, s.jobs[j].txn, prep) && prep.fail.Some?
    ensures Inv(DoFinalize(s, j, prep))
    ensures DoFinalize(s, j, prep).txns[s.jobs[j].txn] == Txn(true, Some(Blame(j, prep.fail.value)))
  {
    hide JobOk, PairOk, Prepare;
    var t, m := s.jobs[j].txn, prep.fail.value;
    PendingMembers(s, j);
    PreparedIsSame(s, j, prep);
    var p, r := Prepared(s, t, prep), DoFinalize(s, j, prep);
    assert r.txns[t] == Txn(true, Some(Blame(j, m)));
    forall k | k in s.jobs && s.jobs[k].txn == t
      ensures JobOk(k, r.jobs[k], r.txns[t]) && r.jobs[k].txn == t && (r.jobs[k].inTxn ==> Completed(r.jobs[k].status))
    {
      if s.jobs[k].inTxn {
        assert k in Members(s, t);
        BlamedOk(k, s.jobs[k], p.jobs[k], j, m, s.txns[t]);
      } else {
        OutsiderBlame(k, s.jobs[k], s.txns[t], s.jobs[j], j, m);
      }
    }
    forall a, b | a in s.jobs && b in s.jobs && s.jobs[a].txn == t && s.jobs[b].txn == t
      ensures PairOk(r.jobs[a], r.jobs[b], r.txns[t])
    {
      BlamedPair(r.jobs[a], r.jobs[b], r.txns[t]);
    }
    ChangeKeeps(s, r, t);
  }

  lemma BlamedPair(x: Job, y: Job, t: Txn)
    requires t.aborting && t.blame.Some? && (y.inTxn ==> Completed(y.status))
    ensures PairOk(x, y, t)
  {}

  lemma DoFinalizeKeeps(s: Sys, j: JobId, prep: Prep)
    requires Inv(s) && j in s.jobs && s.jobs[j].status.Pending? && !s.txns[s.jobs[j].txn].aborting
    requires PrepRun(s, s.jobs[j].txn, prep)
    ensures Inv(DoFinalize(s, j, prep))
  {
    hide JobOk, PairOk, Inv, FinalizeAll;
    if prep.fail.Some? {
      PrepFailKeeps(s, j, prep);
    } else {
      PreparedIsSame(s, j, prep);
      assert Prepared(s, s.jobs[j].txn, prep).jobs == s.jobs;
      FinalizeAllKeeps(s, j);
    }
  }

  // --- every step ---

  lemma CreateKeeps(s: Sys, j: JobId, t: TxnId, autoFinalize: bool, autoDismiss: bool)
    requires Inv(s) && Enabled(s, Create(j, t, autoFinalize, autoDismiss))
    ensures Inv(Do(s, Create(j, t, autoFinalize, autoDismiss)))
  {
    hide JobOk, PairOk, Inv, Idle;
    var r := Do(s, Create(j, t, autoFinalize, autoDismiss));
    var x := NewJob(t, autoFinalize, autoDismiss);
    if t in s.txns { OpenNoBlame(s, t); }
    NewJobOk(j, x, r.txns[t], autoFinalize, autoDismiss);
    forall k | k in s.jobs && s.jobs[k].txn == t ensures PairOk(x, s.jobs[k], r.txns[t]) && PairOk(s.jobs[k], x, r.txns[t]) {
      TxnKnown(s, k);
      NewJobPairs(x, s.jobs[k], r.txns[t], autoFinalize, autoDismiss);
    }
    AddJobKeeps(s, j, x, r.txns);
  }

  lemma TxnKnown(s: Sys, j: JobId)
    requires Inv(s) && j in s.jobs
    ensures s.jobs[j].txn in s.txns
  {}

  lemma AddJobKeeps(s: Sys, j: JobId, x: Job, txns: map<TxnId, Txn>)
    requires Inv(s) && j !in s.jobs && x.txn in txns && JobOk(j, x, txns[x.txn]) && PairOk(x, x, txns[x.txn])
    requires txns == s.txns || (x.txn !in s.txns && txns == s.txns[x.txn := Txn(false, None)])
    requires forall k | k in s.jobs && s.jobs[k].txn == x.txn ::
               PairOk(x, s.jobs[k], txns[x.txn]) && PairOk(s.jobs[k], x, txns[x.txn])
    ensures Inv(Sys(s.jobs[j := x], txns))
  {
    hide JobOk, PairOk;
    var r := Sys(s.jobs[j := x], txns);
    forall a, b | a in r.jobs && b in r.jobs && r.jobs[a].txn == r.jobs[b].txn
      ensures PairOk(r.jobs[a], r.jobs[b], r.txns[r.jobs[a].txn])
    {
      if a != j && b != j { assert PairOk(s.jobs[a], s.jobs[b], s.txns[s.jobs[a].txn]); }
    }
  }

  lemma OpenNoBlame(s: Sys, t: TxnId)
    requires Inv(s) && Open(s, t)
    ensures s.txns[t].blame.None?
  {}

  lemma NewJobOk(j: JobId, x: Job, t: Txn, autoFinalize: bool, autoDismiss: bool)
    requires x == NewJob(x.txn, autoFinalize, autoDismiss) && !t.aborting && t.blame.None?
    ensures JobOk(j, x, t) && PairOk(x, x, t)
  {}

  lemma NewJobPairs(x: Job, y: Job, t: Txn, autoFinalize: bool, autoDismiss: bool)
    requires x == NewJob(x.txn, autoFinalize, autoDismiss) && !y.status.Pending? && y.finals == []
    ensures PairOk(x, y, t) && PairOk(y, x, t)
  {}

  /** job_exit */
  lemma ExitKeeps(s: Sys, j: JobId, prep: Prep)
    requires Inv(s) && Enabled(s, Exit(j, prep))
    ensures Inv(Do(s, Exit(j, prep)))
  {
    hide JobOk, PairOk, UpdateRc, PrepRun, DoFinalize, AllPending, Await;
    var x := s.jobs[j];
    var u := Rated(x.(co := Finished));
    ReturnedIsMember(j, x, s.txns[x.txn]);
    ExitOk(j, x, s.txns[x.txn]);
    assert Put(Put(s, j, x.(co := Finished)), j, u) == Put(s, j, u);
    if u.ret != 0 {
      AbortKeeps(s, j, u);
    } else {
      SuccessKeeps(s, j, u, prep);
    }
  }

  lemma ReturnedIsMember(j: JobId, x: Job, t: Txn)
    requires JobOk(j, x, t) && x.co.Returned?
    ensures x.inTxn && Rated(x.(co := Finished)).inTxn && Rated(x.(co := Finished)).txn == x.txn
  {}

  lemma SuccessKeeps(s: Sys, j: JobId, u: Job, prep: Prep)
    requires Inv(s) && j in s.jobs && s.jobs[j].inTxn && u.txn == s.jobs[j].txn && u.inTxn
    requires var t := s.txns[s.jobs[j].txn];
             !t.aborting && JobOk(j, Go(u, Waiting), t) && Steady(s.jobs[j], Go(u, Waiting), t)
    requires var w := Await(Put(s, j, u), j);
             AllCompleted(w, u.txn) && AllAuto(w, u.txn) ==> PrepRun(AllPending(w, u.txn), u.txn, prep)
    ensures Inv(TxnSuccess(Put(s, j, u), j, prep))
  {
    hide JobOk, PairOk, Inv, PrepRun, DoFinalize, Await;
    AwaitKeeps(s, j, u);
    var w := Await(Put(s, j, u), j);
    if AllCompleted(w, u.txn) {
      AllPendingKeeps(w, j);
      var p := AllPending(w, u.txn);
      assert p.jobs[j].status.Pending?;
      if AllAuto(w, u.txn) { DoFinalizeKeeps(p, j, prep); }
    }
  }

  lemma CancelKeeps(s: Sys, j: JobId, force: bool, drv: bool, prep: Prep)
    requires Inv(s) && Enabled(s, Cancel(j, force, drv, prep))
    ensures Inv(CancelJob(s, j, drv, prep))
  {
    hide JobOk, PairOk, UpdateRc, TxnSuccess, PrepFor;
    var x, t := s.jobs[j], s.txns[s.jobs[j].txn];
    if x.status.Concluded? {
      DismissOk(j, x, t);
      PutKeeps(s, j, DoDismiss(x));
    } else {
      MembersAre(j, x, t);
      IdleMember(s, j);
      var c := CancelAsync(x, drv);
      if !Started(x) {
        UnstartedCancelOk(j, x, t);
        assert Put(Put(s, j, c), j, Rated(c)) == Put(s, j, Rated(c));
        AbortKeeps(s, j, Rated(c));
      } else if Deferred(x) && c.force {
        ForcedCancelOk(j, x, t, drv);
        AbortKeeps(s, j, c);
      } else {
        CancelOk(j, x, t, drv);
        PutKeeps(s, j, c);
      }
    }
  }

  lemma MembersAre(j: JobId, x: Job, t: Txn)
    requires JobOk(j, x, t) && !x.status.Concluded? && !x.status.Null?
    ensures x.inTxn && (!Started(x) ==> x.status.Created? || x.status.Aborting?)
  {}

  /** Every step keeps the invariant; in particular no assertion fails. */
  lemma StepKeeps(s: Sys, ev: Event)
    requires Inv(s) && Enabled(s, ev)
    ensures Inv(Do(s, ev))
  {
    hide JobOk, PairOk, Idle, PrepFor, PrepRun, Complete, CancelJob, DoFinalize, FinalizeSingle, Open;
    match ev
    case Create(j, t, autoFinalize, autoDismiss) => CreateKeeps(s, j, t, autoFinalize, autoDismiss);
    case Exit(j, prep) => ExitKeeps(s, j, prep);
    case Cancel(j, force, drv, prep) => CancelKeeps(s, j, force, drv, prep);
    case UserCancel(j, force, drv, prep) =>
      if Accepts(s.jobs[j].status, CancelVerb) {
        VerbIsSafe(j, s.jobs[j], s.txns[s.jobs[j].txn]);
        CancelKeeps(s, j, force, drv, prep);
      }
    case Finalize(j, prep) => if s.jobs[j].status.Pending? { FinalizeKeeps(s, j, prep); }
    case _ => OneJobKeeps(s, ev);
  }

  /** The verb table lets job_user_cancel_locked through only where job_cancel_locked is safe. */
  lemma VerbIsSafe(j: JobId, x: Job, t: Txn)
    requires JobOk(j, x, t) && Accepts(x.status, CancelVerb)
    ensures !x.status.Null? && (!Started(x) ==> !Completed(x.status))
  {}

  lemma FinalizeKeeps(s: Sys, j: JobId, prep: Prep)
    requires Inv(s) && Known(s, j) && Idle(s, j) && s.jobs[j].status.Pending? && PrepRun(s, s.jobs[j].txn, prep)
    ensures Inv(DoFinalize(s, j, prep))
  {
    hide PairOk, Idle, PrepRun, DoFinalize;
    assert JobOk(j, s.jobs[j], s.txns[s.jobs[j].txn]);
    IdleMember(s, j);
    DoFinalizeKeeps(s, j, prep);
  }

  lemma OneJobKeeps(s: Sys, ev: Event)
    requires Inv(s) && Enabled(s, ev)
    requires ev.Start? || ev.PausePoint? || ev.Resume? || ev.Readiness? || ev.RunReturns? || ev.Dismiss? || ev.EarlyFail? || ev.AbortTurn?
    ensures Inv(Do(s, ev))
  {
    hide JobOk, PairOk, Steady, Begin, Pause, Unpause, BecomeReady, RunEnds, DoDismiss, FinalizeSingle, Inv, Idle;
    OneJob(s, ev.j);
    var j, x, t := ev.j, s.jobs[ev.j], s.txns[s.jobs[ev.j].txn];
    match ev
    case Start(_) => StartOk(j, x, t); PutKeeps(s, j, Begin(x));
    case PausePoint(_) => PauseOk(j, x, t); PutKeeps(s, j, Pause(x));
    case Resume(_) => UnpauseOk(j, x, t); PutKeeps(s, j, Unpause(x));
    case Readiness(_) => ReadyOk(j, x, t); PutKeeps(s, j, BecomeReady(x));
    case RunReturns(_, result) => RunEndsOk(j, x, t, result); PutKeeps(s, j, RunEnds(x, result));
    case Dismiss(_) => if x.status.Concluded? { DismissOk(j, x, t); PutKeeps(s, j, DoDismiss(x)); }
    case EarlyFail(_) => DismissOk(j, x, t); PutKeeps(s, j, DoDismiss(x));
    case AbortTurn(_) => AbortTurnOk(j, x, t); PutKeeps(s, j, FinalizeSingle(x));
  }

  lemma OneJob(s: Sys, j: JobId)
    requires Inv(s) && Known(s, j)
    ensures JobOk(j, s.jobs[j], s.txns[s.jobs[j].txn])
  {}

  lemma {:induction false} RunKeeps(ss: seq<Sys>, evs: seq<Event>, n: nat)
    requires IsRun(ss, evs) && n < |ss|
    ensures Inv(ss[n])
  {
    if n > 0 {
      RunKeeps(ss, evs, n - 1);
      assert ss[n - 1 + 1] == Do(ss[n - 1], evs[n - 1]);
      StepKeeps(ss[n - 1], evs[n - 1]);
    }
  }

  // --- what a run guarantees ---

  /** No assertion of the code fails: the transition table is respected, only completed jobs are
      finalized, completion happens once, and a forced cancel is a cancel. */
  lemma AssertionsHold(ss: seq<Sys>, evs: seq<Event>, n: nat, j: JobId)
    requires IsRun(ss, evs) && n < |ss| && j in ss[n].jobs
    ensures ss[n].jobs[j].ok
  {
    RunKeeps(ss, evs, n);
    TxnKnown(ss[n], j);
    OneJob(ss[n], j);
  }

  /** The abort loop waits only for members that have been asked to stop. */
  lemma AbortLoopAsserts(ss: seq<Sys>, evs: seq<Event>, n: nat, j: JobId)
    requires IsRun(ss, evs) && n < |ss| && Known(ss[n], j)
    requires ss[n].txns[ss[n].jobs[j].txn].aborting && ss[n].jobs[j].inTxn && !Completed(ss[n].jobs[j].status)
    ensures ss[n].jobs[j].cancelled
  {
    RunKeeps(ss, evs, n);
    OneJob(ss[n], j);
  }

  /** While a transaction has not failed, a pending member means that every member is pending and
      has completed without error. */
  lemma PendingTogether(ss: seq<Sys>, evs: seq<Event>, n: nat, j: JobId, k: JobId)
    requires IsRun(ss, evs) && n < |ss| && Known(ss[n], j) && ss[n].jobs[j].status.Pending?
    requires !ss[n].txns[ss[n].jobs[j].txn].aborting && k in Members(ss[n], ss[n].jobs[j].txn)
    ensures ss[n].jobs[k].status.Pending? && ss[n].jobs[k].ret == 0
  {
    RunKeeps(ss, evs, n);
    PendingMembers(ss[n], j);
  }

  /** A job is finalized at most once and not before it leaves its transaction; a started job that
      has left, dismissed or not, has been finalized exactly once. */
  lemma FinalizedOnce(ss: seq<Sys>, evs: seq<Event>, n: nat, j: JobId)
    requires IsRun(ss, evs) && n < |ss| && Known(ss[n], j)
    ensures |ss[n].jobs[j].finals| <= 1
    ensures Started(ss[n].jobs[j]) ==> (|ss[n].jobs[j].finals| == 1 <==> !ss[n].jobs[j].inTxn)
  {
    RunKeeps(ss, evs, n);
    OneJob(ss[n], j);
  }

  /** Unless somebody could not prepare, commit and abort are never mixed, at no point of a run: once
      one job of the transaction is finalized, every started one has that outcome or is still on the
      list, and it is on the list only while everybody aborts. */
  lemma OutcomesAgree(ss: seq<Sys>, evs: seq<Event>, n: nat, j: JobId, k: JobId)
    requires IsRun(ss, evs) && n < |ss| && Known(ss[n], j) && Known(ss[n], k) && ss[n].jobs[j].txn == ss[n].jobs[k].txn
    requires ss[n].txns[ss[n].jobs[j].txn].blame.None? && ss[n].jobs[j].finals != [] && Started(ss[n].jobs[k])
    ensures ss[n].jobs[k].finals == ss[n].jobs[j].finals || (ss[n].jobs[k].inTxn && ss[n].jobs[j].finals == [Abort])
    ensures ss[n].jobs[k].ret != 0 || ss[n].jobs[k].force ==> ss[n].jobs[j].finals == [Abort]
  {
    RunKeeps(ss, evs, n);
    OneJob(ss[n], j);
    OneJob(ss[n], k);
    OneFinal(ss[n].jobs[j].finals);
    OneFinal(ss[n].jobs[k].finals);
    assert PairOk(ss[n].jobs[j], ss[n].jobs[k], ss[n].txns[ss[n].jobs[j].txn]);
  }

  /** A job of the transaction failed or was cancelled by force. */
  ghost predicate SomebodyFailed(s: Sys, t: TxnId) {
    exists k :: k in s.jobs && s.jobs[k].txn == t && Started(s.jobs[k]) && (s.jobs[k].ret != 0 || s.jobs[k].force)
  }

  /** The whole transaction, when its list is empty and nobody failed to prepare: every started job
      was finalized, all of them through abort if the transaction aborts or one of them failed or was
      cancelled by force, and all of them through commit otherwise. */
  lemma TransactionOutcome(ss: seq<Sys>, evs: seq<Event>, n: nat, t: TxnId, j: JobId)
    requires IsRun(ss, evs) && n < |ss| && t in ss[n].txns && ss[n].txns[t].blame.None? && Members(ss[n], t) == {}
    requires j in ss[n].jobs && ss[n].jobs[j].txn == t && Started(ss[n].jobs[j])
    ensures ss[n].jobs[j].finals == [if ss[n].txns[t].aborting || SomebodyFailed(ss[n], t) then Abort else Commit]
    ensures SomebodyFailed(ss[n], t) <==> ss[n].txns[t].aborting
  {
    var s := ss[n];
    RunKeeps(ss, evs, n);
    FinishedJob(s, t, j);
    if k :| k in s.jobs && s.jobs[k].txn == t && Started(s.jobs[k]) && (s.jobs[k].ret != 0 || s.jobs[k].force) {
      FinishedJob(s, t, k);
    }
  }

  lemma FinishedJob(s: Sys, t: TxnId, j: JobId)
    requires Inv(s) && t in s.txns && s.txns[t].blame.None? && Members(s, t) == {}
    requires j in s.jobs && s.jobs[j].txn == t && Started(s.jobs[j])
    ensures s.jobs[j].finals == [if s.txns[t].aborting then Abort else Commit]
    ensures s.txns[t].aborting <==> s.jobs[j].ret != 0 || s.jobs[j].force
  {
    assert j !in Members(s, t);
    OneJob(s, j);
    OneFinal(s.jobs[j].finals);
  }

  /** If somebody could not prepare, the outcome is mixed exactly when it was not the job that
      finalized the transaction: that job commits, every other started job aborts. */
  lemma MixedOutcome(ss: seq<Sys>, evs: seq<Event>, n: nat, t: TxnId, k: JobId)
    requires IsRun(ss, evs) && n < |ss| && t in ss[n].txns && ss[n].txns[t].blame.Some? && Members(ss[n], t) == {}
    requires k in ss[n].jobs && ss[n].jobs[k].txn == t && Started(ss[n].jobs[k])
    ensures var Blame(trigger, failed) := ss[n].txns[t].blame.value;
            && ss[n].jobs[k].finals == [if k == trigger && trigger != failed then Commit else Abort]
            && failed in ss[n].jobs && ss[n].jobs[failed].finals == [Abort]
            && trigger in ss[n].jobs && (ss[n].jobs[trigger].finals == [Commit] <==> trigger != failed)
  {
    var s := ss[n];
    RunKeeps(ss, evs, n);
    var Blame(trigger, failed) := s.txns[t].blame.value;
    assert k !in Members(s, t) && trigger !in Members(s, t) && failed !in Members(s, t);
    OneJob(s, k);
    OneJob(s, trigger);
    OneJob(s, failed);
    OneFinal(s.jobs[k].finals);
  }

  // --- progress is never undone ---

  ghost predicate Later(x: Job, y: Job) {
    && y.txn == x.txn && (y.inTxn ==> x.inTxn) && x.finals <= y.finals
    && (Completed(x.status) ==> Completed(y.status)) && (x.force ==> y.force)
    && (Deferred(x) ==> Deferred(y) && (x.ret != 0 ==> y.ret == x.ret))
    && (x.cancelled ==> y.cancelled)
  }

  ghost predicate TxnLater(t: Txn, u: Txn) { (t.aborting ==> u.aborting) && (t.blame.Some? ==> u.blame.Some?) }

  /** As long as no assertion fails. */
  ghost predicate SysLater(s: Sys, r: Sys) {
    && s.jobs.Keys <= r.jobs.Keys && s.txns.Keys <= r.txns.Keys
    && (forall t | t in s.txns :: TxnLater(s.txns[t], r.txns[t]))
    && forall j | j in s.jobs :: r.jobs[j].ok ==> s.jobs[j].ok && Later(s.jobs[j], r.jobs[j])
  }

  lemma LaterTrans(s: Sys, m: Sys, r: Sys)
    requires SysLater(s, m) && SysLater(m, r)
    ensures SysLater(s, r)
  {}

  lemma RatedLater(x: Job)
    ensures UpdateRc(x).ok ==> x.ok && Later(x, UpdateRc(x))
  {}

  lemma FinalizeLater(x: Job)
    ensures FinalizeSingle(x).ok ==> x.ok && Later(x, FinalizeSingle(x))
  {
    hide UpdateRc;
    var c := Check(x, Completed(x.status));
    RatedLater(c);
  }

  lemma TxnAbortLater(s: Sys, j: JobId)
    requires Known(s, j)
    ensures SysLater(s, TxnAbort(s, j))
  {}

  lemma PreparedLater(s: Sys, t: TxnId, prep: Prep)
    ensures SysLater(s, Prepared(s, t, prep))
  {
    hide UpdateRc;
    forall j | j in s.jobs ensures var y := Prepared(s, t, prep).jobs[j]; y.ok ==> s.jobs[j].ok && Later(s.jobs[j], y) {
      if j in prep.results && prep.results[j].Some? { RatedLater(s.jobs[j].(ret := prep.results[j].value)); }
    }
  }

  lemma FinalizeAllLater(s: Sys, t: TxnId)
    ensures SysLater(s, FinalizeAll(s, t))
  {
    hide FinalizeSingle;
    forall j | j in s.jobs ensures var y := FinalizeAll(s, t).jobs[j]; y.ok ==> s.jobs[j].ok && Later(s.jobs[j], y) {
      FinalizeLater(s.jobs[j]);
    }
  }

  lemma AllPendingLater(s: Sys, t: TxnId)
    ensures SysLater(s, AllPending(s, t))
  {}

  lemma AwaitLater(s: Sys, j: JobId)
    requires j in s.jobs
    ensures SysLater(s, Await(s, j))
  {}

  lemma DoFinalizeLater(s: Sys, j: JobId, prep: Prep)
    requires Known(s, j)
    ensures SysLater(s, DoFinalize(s, j, prep))
  {
    hide SysLater, FinalizeAll, Prepare, TxnAbort;
    var t := s.jobs[j].txn;
    var p := Prepared(s, t, prep);
    PreparedLater(s, t, prep);
    if prep.fail.Some? {
      PreparedTxn(s, j, prep);
      var b := p.(txns := p.txns[t := p.txns[t].(blame := Some(Blame(j, prep.fail.value)))]);
      SameJobsLater(p, b);
      TxnAbortLater(b, j);
      LaterTrans(s, p, b);
      LaterTrans(s, b, TxnAbort(b, j));
    } else {
      FinalizeAllLater(p, t);
      LaterTrans(s, p, FinalizeAll(p, t));
    }
  }

  lemma PreparedTxn(s: Sys, j: JobId, prep: Prep)
    requires Known(s, j)
    ensures var p := Prepared(s, s.jobs[j].txn, prep); j in p.jobs && p.jobs[j].txn == s.jobs[j].txn && p.txns == s.txns
  {}

  lemma SameJobsLater(s: Sys, r: Sys)
    requires r.jobs == s.jobs && s.txns.Keys <= r.txns.Keys && forall t | t in s.txns :: TxnLater(s.txns[t], r.txns[t])
    ensures SysLater(s, r)
  {}

  lemma PutLater(s: Sys, j: JobId, x: Job)
    requires j in s.jobs && (x.ok ==> s.jobs[j].ok && Later(s.jobs[j], x))
    ensures SysLater(s, Put(s, j, x))
  {}

  lemma TxnSuccessLater(s: Sys, j: JobId, prep: Prep)
    requires Known(s, j)
    ensures SysLater(s, TxnSuccess(s, j, prep))
  {
    hide SysLater, DoFinalize;
    var t := s.jobs[j].txn;
    var w := Await(s, j);
    AwaitLater(s, j);
    AllPendingLater(w, t);
    LaterTrans(s, w, AllPending(w, t));
    DoFinalizeLater(AllPending(w, t), j, prep);
    LaterTrans(s, AllPending(w, t), DoFinalize(AllPending(w, t), j, prep));
  }

  lemma CompleteLater(s: Sys, j: JobId, prep: Prep)
    requires Known(s, j)
    ensures SysLater(s, Complete(s, j, prep))
  {
    hide SysLater, TxnSuccess, TxnAbort, UpdateRc;
    var x := Rated(s.jobs[j]);
    RatedLater(Check(s.jobs[j], s.jobs[j].inTxn && !Completed(s.jobs[j].status)));
    PutLater(s, j, x);
    TxnAbortLater(Put(s, j, x), j);
    TxnSuccessLater(Put(s, j, x), j, prep);
    LaterTrans(s, Put(s, j, x), Complete(s, j, prep));
  }

  lemma CancelLater(s: Sys, j: JobId, drv: bool, prep: Prep)
    requires Known(s, j)
    ensures SysLater(s, CancelJob(s, j, drv, prep))
  {
    hide SysLater, Complete, TxnAbort;
    if s.jobs[j].status.Concluded? {
      PutLater(s, j, DoDismiss(s.jobs[j]));
    } else {
      var c := Put(s, j, CancelAsync(s.jobs[j], drv));
      PutLater(s, j, CancelAsync(s.jobs[j], drv));
      CompleteLater(c, j, prep);
      TxnAbortLater(c, j);
      LaterTrans(s, c, Complete(c, j, prep));
      LaterTrans(s, c, TxnAbort(c, j));
    }
  }

  lemma OneJobLater(s: Sys, ev: Event)
    requires Enabled(s, ev)
    requires ev.Start? || ev.PausePoint? || ev.Resume? || ev.Readiness? || ev.RunReturns? || ev.Dismiss? || ev.EarlyFail?
    ensures SysLater(s, Do(s, ev))
  {
    hide SysLater;
    SameJobsLater(s, s);
    PutLater(s, ev.j, Do(s, ev).jobs[ev.j]);
  }

  lemma StepLater(s: Sys, ev: Event)
    requires Enabled(s, ev)
    ensures SysLater(s, Do(s, ev))
  {
    hide SysLater, Complete, CancelJob, DoFinalize, FinalizeSingle, PrepFor, PrepRun, Idle;
    SameJobsLater(s, s);
    match ev
    case Create(j, t, autoFinalize, autoDismiss) => CreateLater(s, j, t, autoFinalize, autoDismiss);
    case Exit(j, prep) =>
      var f := Put(s, j, s.jobs[j].(co := Finished));
      PutLater(s, j, s.jobs[j].(co := Finished));
      CompleteLater(f, j, prep);
      LaterTrans(s, f, Complete(f, j, prep));
    case Cancel(j, _, drv, prep) => CancelLater(s, j, drv, prep);
    case UserCancel(j, _, drv, prep) => CancelLater(s, j, drv, prep);
    case Finalize(j, prep) => DoFinalizeLater(s, j, prep);
    case AbortTurn(j) => FinalizeLater(s.jobs[j]); PutLater(s, j, FinalizeSingle(s.jobs[j]));
    case _ => OneJobLater(s, ev);
  }

  lemma CreateLater(s: Sys, j: JobId, t: TxnId, autoFinalize: bool, autoDismiss: bool)
    requires Enabled(s, Create(j, t, autoFinalize, autoDismiss))
    ensures SysLater(s, Do(s, Create(j, t, autoFinalize, autoDismiss)))
  {}

  /** A completed job never becomes uncompleted, a job never changes or rejoins its transaction, a cancel
      never goes away, a driver's error is never replaced, and an outcome is never changed. */
  lemma {:induction false} NothingUndone(ss: seq<Sys>, evs: seq<Event>, m: nat, n: nat, j: JobId)
    requires IsRun(ss, evs) && m <= n < |ss| && j in ss[m].jobs
    ensures j in ss[n].jobs && Later(ss[m].jobs[j], ss[n].jobs[j])
  {
    hide Later, Do, Enabled;
    if m < n {
      NothingUndone(ss, evs, m, n - 1, j);
      assert ss[n - 1 + 1] == Do(ss[n - 1], evs[n - 1]);
      StepLater(ss[n - 1], evs[n - 1]);
      AssertionsHold(ss, evs, n, j);
      LaterJobs(ss[m].jobs[j], ss[n - 1].jobs[j], ss[n].jobs[j]);
    } else {
      LaterSame(ss[m].jobs[j]);
    }
  }

  lemma LaterJobs(x: Job, y: Job, z: Job)
    requires Later(x, y) && Later(y, z)
    ensures Later(x, z)
  {}

  lemma LaterSame(x: Job)
    ensures Later(x, x)
  {}
}
