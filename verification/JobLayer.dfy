/** The loops of engine/qemu-wasm/job.c over the jobs of a transaction, proved against the state
    machine. A list is walked in an arbitrary order. */
module JobLayers {
  import opened Options
  import opened JobStates
  import opened JobTxns

  // --- half-way through a loop ---

  ghost predicate SameExcept(s: Sys, r: Sys, ks: set<JobId>) {
    r.txns == s.txns && r.jobs.Keys == s.jobs.Keys && forall k | k in s.jobs && k !in ks :: r.jobs[k] == s.jobs[k]
  }

  /** The members of `t` in `done` have been cancelled. */
  ghost predicate CancelledSome(s: Sys, done: set<JobId>, r: Sys) {
    SameExcept(s, r, done) && forall k | k in done && k in s.jobs :: r.jobs[k] == CancelAsync(s.jobs[k], true)
  }

  ghost predicate FinalizedSome(s: Sys, done: set<JobId>, r: Sys) {
    SameExcept(s, r, done) && forall k | k in done && k in s.jobs :: r.jobs[k] == FinalizeSingle(s.jobs[k])
  }

  ghost predicate PreparedSome(s: Sys, results: map<JobId, Option<int>>, done: set<JobId>, r: Sys) {
    && SameExcept(s, r, done) && done <= results.Keys
    && forall k | k in done && k in s.jobs :: r.jobs[k] == Prepare(s.jobs[k], results[k])
  }

  ghost predicate PendingSome(s: Sys, done: set<JobId>, r: Sys) {
    SameExcept(s, r, done) && forall k | k in done && k in s.jobs :: r.jobs[k] == Go(s.jobs[k], Pending)
  }

  lemma AllCancelled(s: Sys, j: JobId, t: TxnId, r: Sys)
    requires Known(s, j) && s.jobs[j].txn == t && !s.txns[t].aborting && CancelledSome(s, Members(s, t) - {j}, r)
    ensures r.(txns := s.txns[t := s.txns[t].(aborting := true)]) == TxnAbort(s, j)
  {}

  lemma AllFinalized(s: Sys, t: TxnId, r: Sys)
    requires FinalizedSome(s, Members(s, t), r)
    ensures r == FinalizeAll(s, t)
  {}

  lemma AllArePending(s: Sys, t: TxnId, r: Sys)
    requires PendingSome(s, Members(s, t), r)
    ensures r == AllPending(s, t)
  {}

  lemma AllPrepared(s: Sys, t: TxnId, prep: Prep, r: Sys)
    requires PrepRun(s, t, prep)
    requires PreparedSome(s, prep.results, prep.done + if prep.fail.Some? then {prep.fail.value} else {}, r)
    ensures r == Prepared(s, t, prep)
  {}

  class JobLayer {
    var s: Sys

    constructor ()
      ensures Inv(s) && s == Sys(map[], map[])
    {
      s := Sys(map[], map[]);
    }

    /** job_completed_txn_abort_locked up to its waiting loop */
    method CompletedTxnAbort(j: JobId)
      requires Known(s, j)
      modifies this
      ensures s == TxnAbort(old(s), j)
    {
      hide CancelAsync;
      var t := s.jobs[j].txn;
      if s.txns[t].aborting {
        return;
      }
      ghost var start := s;
      var todo := Members(s, t) - {j};
      while todo != {}
        invariant todo <= Members(start, t) - {j} && CancelledSome(start, Members(start, t) - {j} - todo, s)
      {
        var k: JobId :| k in todo;
        todo := todo - {k};
        s := Put(s, k, CancelAsync(s.jobs[k], true));
      }
      assert Members(start, t) - {j} - todo == Members(start, t) - {j};
      AllCancelled(start, j, t, s);
      s := s.(txns := s.txns[t := s.txns[t].(aborting := true)]);
    }

    /** job_txn_apply_locked(job, job_finalize_single_locked), and the loop of
        job_completed_txn_abort_locked once everybody has completed */
    method TxnApplyFinalize(t: TxnId)
      modifies this
      ensures s == FinalizeAll(old(s), t)
    {
      hide FinalizeSingle;
      ghost var start := s;
      var todo := Members(s, t);
      while todo != {}
        invariant todo <= Members(start, t) && FinalizedSome(start, Members(start, t) - todo, s)
      {
        var k: JobId :| k in todo;
        todo := todo - {k};
        s := Put(s, k, FinalizeSingle(s.jobs[k]));
      }
      assert Members(start, t) - todo == Members(start, t);
      AllFinalized(start, t, s);
    }

    /** job_txn_apply_locked(job, job_transition_to_pending_locked) */
    method TxnApplyPending(t: TxnId)
      modifies this
      ensures s == AllPending(old(s), t)
    {
      hide Go;
      ghost var start := s;
      var todo := Members(s, t);
      while todo != {}
        invariant todo <= Members(start, t) && PendingSome(start, Members(start, t) - todo, s)
      {
        var k: JobId :| k in todo;
        todo := todo - {k};
        s := Put(s, k, Go(s.jobs[k], Pending));
      }
      assert Members(start, t) - todo == Members(start, t);
      AllArePending(start, t, s);
    }

    /** job_txn_apply_locked(job, job_prepare_locked): stops at the first error. */
    method TxnApplyPrepare(t: TxnId, results: map<JobId, Option<int>>) returns (failed: Option<JobId>, ghost prep: Prep)
      requires Members(s, t) <= results.Keys
      modifies this
      ensures PrepRun(old(s), t, prep) && s == Prepared(old(s), t, prep) && prep.results == results
      ensures failed == prep.fail
    {
      hide Prepare;
      ghost var start := s;
      var todo := Members(s, t);
      while todo != {}
        invariant todo <= Members(start, t) && PreparedSome(start, results, Members(start, t) - todo, s)
        invariant forall k | k in Members(start, t) - todo :: Prepare(start.jobs[k], results[k]).ret == 0
      {
        var k: JobId :| k in todo;
        ghost var before := todo;
        todo := todo - {k};
        s := Put(s, k, Prepare(s.jobs[k], results[k]));
        if s.jobs[k].ret != 0 {
          failed := Some(k);
          prep := Prep(results, Members(start, t) - before, Some(k));
          assert Members(start, t) - before + {k} == Members(start, t) - todo;
          AllPrepared(start, t, prep, s);
          return;
        }
      }
      prep := Prep(results, Members(start, t), None);
      assert Members(start, t) - todo == Members(start, t) && Members(start, t) + {} == Members(start, t);
      AllPrepared(start, t, prep, s);
      failed := None;
    }

    /** job_do_finalize_locked; `results` are what the drivers' prepare callbacks return. */
    method DoFinalizeLocked(j: JobId, results: map<JobId, Option<int>>) returns (ghost prep: Prep)
      requires Known(s, j) && s.jobs.Keys <= results.Keys
      modifies this
      ensures PrepRun(old(s), old(s).jobs[j].txn, prep) && s == DoFinalize(old(s), j, prep)
    {
      hide PrepRun, FinalizeAll, TxnAbort, Prepare;
      var t := s.jobs[j].txn;
      PreparedTxn(s, j, Prep(results, {}, None));
      var failed;
      failed, prep := TxnApplyPrepare(t, results);
      PreparedTxn(old(s), j, prep);
      if failed.Some? {
        s := s.(txns := s.txns[t := s.txns[t].(blame := Some(Blame(j, failed.value)))]);
        CompletedTxnAbort(j);
      } else {
        TxnApplyFinalize(t);
      }
    }

    /** The loop of job_completed_txn_success_locked: have all members completed? */
    method EverybodyCompleted(t: TxnId) returns (all: bool)
      requires forall k | k in Members(s, t) && Completed(s.jobs[k].status) :: s.jobs[k].ret == 0
      ensures all == AllCompleted(s, t)
    {
      var todo := Members(s, t);
      while todo != {}
        invariant todo <= Members(s, t) && forall k | k in Members(s, t) - todo :: Completed(s.jobs[k].status)
      {
        var k: JobId :| k in todo;
        todo := todo - {k};
        if !Completed(s.jobs[k].status) {
          return false;
        }
        assert s.jobs[k].ret == 0;
      }
      return true;
    }

    /** job_txn_apply_locked(job, job_needs_finalize_locked) == 0 */
    method NobodyNeedsFinalize(t: TxnId) returns (all: bool)
      ensures all == AllAuto(s, t)
    {
      var todo := Members(s, t);
      while todo != {}
        invariant todo <= Members(s, t) && forall k | k in Members(s, t) - todo :: s.jobs[k].autoFinalize
      {
        var k: JobId :| k in todo;
        todo := todo - {k};
        if !s.jobs[k].autoFinalize {
          return false;
        }
      }
      return true;
    }

    /** job_completed_txn_success_locked */
    method CompletedTxnSuccess(j: JobId, results: map<JobId, Option<int>>) returns (ghost prep: Prep)
      requires Known(s, j) && s.jobs.Keys <= results.Keys && s.jobs[j].ret == 0
      requires forall k | k in Members(s, s.jobs[j].txn) && Completed(s.jobs[k].status) :: s.jobs[k].ret == 0
      modifies this
      ensures s == TxnSuccess(old(s), j, prep)
      ensures var w, t := Await(old(s), j), old(s).jobs[j].txn;
              AllCompleted(w, t) && AllAuto(w, t) ==> PrepRun(AllPending(w, t), t, prep)
    {
      hide PrepRun, DoFinalize, Prepare, Await, AllPending;
      prep := Prep(results, {}, None);
      var t := s.jobs[j].txn;
      AwaitIsPut(s, j);
      ghost var w := Await(s, j);
      s := Put(s, j, Go(s.jobs[j], Waiting));
      var all := EverybodyCompleted(t);
      if !all {
        return;
      }
      AllPendingFacts(w, t, j);
      TxnApplyPending(t);
      var auto := NobodyNeedsFinalize(t);
      if auto {
        prep := DoFinalizeLocked(j, results);
      }
    }

    /** job_completed_locked */
    method CompletedLocked(j: JobId, results: map<JobId, Option<int>>) returns (ghost prep: Prep)
      requires Known(s, j) && s.jobs.Keys <= results.Keys
      requires Rated(s.jobs[j]).ret == 0 ==>
                 forall k | k in Members(s, s.jobs[j].txn) && Completed(s.jobs[k].status) :: s.jobs[k].ret == 0
      modifies this
      ensures s == Complete(old(s), j, prep) && PrepFor(old(s), j, prep)
    {
      hide PrepRun, DoFinalize, TxnAbort, TxnSuccess, UpdateRc, Await, AllPending;
      prep := Prep(results, {}, None);
      var x := UpdateRc(Check(s.jobs[j], s.jobs[j].inTxn && !Completed(s.jobs[j].status)));
      RatedMembers(s, j);
      s := Put(s, j, x);
      if x.ret != 0 {
        CompletedTxnAbort(j);
      } else {
        prep := CompletedTxnSuccess(j, results);
      }
    }

    /** job_exit */
    method JobExit(j: JobId, results: map<JobId, Option<int>>) returns (ghost prep: Prep)
      requires Inv(s) && Known(s, j) && s.jobs[j].co.Returned? && s.jobs.Keys <= results.Keys
      modifies this
      ensures Enabled(old(s), Exit(j, prep)) && s == Do(old(s), Exit(j, prep)) && Inv(s)
    {
      hide Inv, Idle, Complete, PrepFor, Completed;
      ghost var start := s;
      ExitReady(s, j);
      s := Put(s, j, s.jobs[j].(co := Finished));
      prep := CompletedLocked(j, results);
      StepKeeps(start, Exit(j, prep));
    }

    /** job_cancel_locked; `drv` is what the driver's cancel returns. */
    method JobCancel(j: JobId, force: bool, drv: bool, results: map<JobId, Option<int>>) returns (ghost prep: Prep)
      requires Inv(s) && Known(s, j) && Idle(s, j) && !s.jobs[j].status.Null? && CancelContract(s.jobs[j], force, drv)
      requires !Started(s.jobs[j]) ==> !Completed(s.jobs[j].status)
      requires s.jobs.Keys <= results.Keys
      modifies this
      ensures Enabled(old(s), Cancel(j, force, drv, prep)) && s == Do(old(s), Cancel(j, force, drv, prep)) && Inv(s)
    {
      hide Inv, Idle, Complete, PrepFor, TxnAbort, Completed;
      prep := Prep(results, {}, None);
      ghost var start := s;
      if s.jobs[j].status == Concluded {
        CancelEnabled(s, j, force, drv, prep);
        s := Put(s, j, DoDismiss(s.jobs[j]));
      } else {
        CancelReady(s, j, force, drv);
        s := Put(s, j, CancelAsync(s.jobs[j], drv));
        if !Started(s.jobs[j]) {
          prep := CompletedLocked(j, results);
        } else if Deferred(s.jobs[j]) && s.jobs[j].force {
          CompletedTxnAbort(j);
        }
      }
      StepKeeps(start, Cancel(j, force, drv, prep));
    }

    /** job_finalize_locked */
    method JobFinalize(j: JobId, results: map<JobId, Option<int>>) returns (ok: bool, ghost prep: Prep)
      requires Inv(s) && Known(s, j) && Idle(s, j) && s.jobs.Keys <= results.Keys
      modifies this
      ensures Enabled(old(s), Finalize(j, prep)) && s == Do(old(s), Finalize(j, prep)) && Inv(s)
      ensures ok == old(s).jobs[j].status.Pending?
    {
      hide Inv, Idle, DoFinalize, PrepRun;
      prep := Prep(results, {}, None);
      ghost var start := s;
      ok := Accepts(s.jobs[j].status, FinalizeVerb);
      if ok {
        prep := DoFinalizeLocked(j, results);
      }
      StepKeeps(start, Finalize(j, prep));
    }
  }

  lemma AwaitIsPut(s: Sys, j: JobId)
    requires Known(s, j) && s.jobs[j].ret == 0
    requires forall k | k in Members(s, s.jobs[j].txn) && Completed(s.jobs[k].status) :: s.jobs[k].ret == 0
    ensures var w := Put(s, j, Go(s.jobs[j], Waiting));
            && Await(s, j) == w && Known(w, j)
            && forall k | k in Members(w, s.jobs[j].txn) && Completed(w.jobs[k].status) :: w.jobs[k].ret == 0
  {}

  lemma AllPendingFacts(w: Sys, t: TxnId, j: JobId)
    requires Known(w, j)
    ensures var p := AllPending(w, t);
            p.jobs.Keys == w.jobs.Keys && Known(p, j) && p.jobs[j].txn == w.jobs[j].txn && AllAuto(p, t) == AllAuto(w, t)
  {}

  lemma RatedMembers(s: Sys, j: JobId)
    requires Known(s, j)
    requires Rated(s.jobs[j]).ret == 0 ==>
               forall k | k in Members(s, s.jobs[j].txn) && Completed(s.jobs[k].status) :: s.jobs[k].ret == 0
    ensures var p := Put(s, j, Rated(s.jobs[j]));
            Rated(s.jobs[j]).ret == 0 ==>
              forall k | k in Members(p, s.jobs[j].txn) && Completed(p.jobs[k].status) :: p.jobs[k].ret == 0
  {}

  lemma ExitReady(s: Sys, j: JobId)
    requires Inv(s) && Known(s, j) && s.jobs[j].co.Returned?
    ensures var f := Put(s, j, s.jobs[j].(co := Finished));
            Rated(f.jobs[j]).ret == 0 ==>
              forall k | k in Members(f, s.jobs[j].txn) && Completed(f.jobs[k].status) :: f.jobs[k].ret == 0
  {
    hide JobOk, PairOk, UpdateRc;
    var f := Put(s, j, s.jobs[j].(co := Finished));
    var t := s.txns[s.jobs[j].txn];
    ExitOk(j, s.jobs[j], t);
    ReturnedNotCompleted(j, s.jobs[j], t);
    forall k | Rated(f.jobs[j]).ret == 0 && k in Members(f, s.jobs[j].txn) && Completed(f.jobs[k].status)
      ensures f.jobs[k].ret == 0
    {
      CompletedWell(k, s.jobs[k], t);
    }
  }

  lemma ReturnedNotCompleted(j: JobId, x: Job, t: Txn)
    requires JobOk(j, x, t) && x.co.Returned?
    ensures !Completed(x.status)
  {}

  /** Cancelling a job that has not started never completes it without an error. */
  lemma CancelReady(s: Sys, j: JobId, force: bool, drv: bool)
    requires Inv(s) && Known(s, j) && !s.jobs[j].status.Null? && CancelContract(s.jobs[j], force, drv)
    requires !Started(s.jobs[j]) ==> !Completed(s.jobs[j].status)
    ensures !Started(s.jobs[j]) ==> Rated(CancelAsync(s.jobs[j], drv)).ret != 0
  {}

  lemma CancelEnabled(s: Sys, j: JobId, force: bool, drv: bool, prep: Prep)
    requires Inv(s) && Known(s, j) && Idle(s, j) && s.jobs[j].status.Concluded? && CancelContract(s.jobs[j], force, drv)
    requires !Started(s.jobs[j]) ==> !Completed(s.jobs[j].status)
    ensures Enabled(s, Cancel(j, force, drv, prep))
  {}
}
