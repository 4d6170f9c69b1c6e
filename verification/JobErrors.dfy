/** Where the errors of jobs come from, and what becomes of a cancel (engine/qemu-wasm/job.c). */
module JobErrors {
  import opened Options
  import opened JobStates
  import opened JobTxns

  // --- the error code of a job ---

  /** The codes that the event brings for job `j`: what its driver's run returns, or its prepare. */
  ghost predicate Brings(ev: Event, j: JobId, code: int) {
    match ev
    case RunReturns(k, ret) => k == j && code == ret
    case Exit(_, prep) => j in prep.results && prep.results[j] == Some(code)
    case Cancel(_, _, _, prep) => j in prep.results && prep.results[j] == Some(code)
    case UserCancel(_, _, _, prep) => j in prep.results && prep.results[j] == Some(code)
    case Finalize(_, prep) => j in prep.results && prep.results[j] == Some(code)
    case _ => false
  }

  /** The codes that jobs may have. */
  type Codes = (JobId, int) -> bool

  /** The error is one of its own, or there is none and the job was cancelled by force. */
  predicate Explained(x: Job, j: JobId, codes: Codes) {
    x.ret == 0 || codes(j, x.ret) || (x.ret == ECANCELED && x.force)
  }

  ghost predicate AllExplained(s: Sys, codes: Codes) {
    forall j | j in s.jobs :: Explained(s.jobs[j], j, codes)
  }

  ghost predicate Covers(codes: Codes, prep: Prep) {
    forall j | j in prep.results && prep.results[j].Some? :: codes(j, prep.results[j].value)
  }

  lemma UpdateExplained(x: Job, j: JobId, codes: Codes)
    requires Explained(x, j, codes)
    ensures Explained(UpdateRc(x), j, codes)
  {}

  lemma ConcludeSame(x: Job)
    ensures Conclude(x).ret == x.ret && Conclude(x).force == x.force
  {}

  lemma FinalizeExplained(x: Job, j: JobId, codes: Codes)
    requires Explained(x, j, codes)
    ensures Explained(FinalizeSingle(x), j, codes)
  {
    hide UpdateRc, Conclude;
    var c := Check(x, Completed(x.status));
    UpdateExplained(c, j, codes);
    ConcludeSame(Finalized(UpdateRc(c), if UpdateRc(c).ret == 0 then Commit else Abort));
  }

  lemma PrepareExplained(x: Job, j: JobId, codes: Codes, result: Option<int>)
    requires Explained(x, j, codes) && (result.Some? ==> codes(j, result.value))
    ensures Explained(Prepare(x, result), j, codes)
  {
    hide UpdateRc;
    if result.Some? { UpdateExplained(x.(ret := result.value), j, codes); }
  }

  lemma PreparedExplained(s: Sys, t: TxnId, prep: Prep, codes: Codes)
    requires AllExplained(s, codes) && Covers(codes, prep)
    ensures AllExplained(Prepared(s, t, prep), codes)
  {
    hide Prepare, Explained;
    forall j | j in s.jobs && j in prep.results { PrepareExplained(s.jobs[j], j, codes, prep.results[j]); }
  }

  lemma FinalizeAllExplained(s: Sys, t: TxnId, codes: Codes)
    requires AllExplained(s, codes)
    ensures AllExplained(FinalizeAll(s, t), codes)
  {
    hide FinalizeSingle, Explained;
    forall j | j in s.jobs { FinalizeExplained(s.jobs[j], j, codes); }
  }

  lemma TxnAbortExplained(s: Sys, j: JobId, codes: Codes)
    requires Known(s, j) && AllExplained(s, codes)
    ensures AllExplained(TxnAbort(s, j), codes)
  {}

  lemma DoFinalizeExplained(s: Sys, j: JobId, prep: Prep, codes: Codes)
    requires Known(s, j) && AllExplained(s, codes) && Covers(codes, prep)
    ensures AllExplained(DoFinalize(s, j, prep), codes)
  {
    hide AllExplained, FinalizeAll, Prepare, TxnAbort;
    var t := s.jobs[j].txn;
    var p := Prepared(s, t, prep);
    PreparedTxn(s, j, prep);
    PreparedExplained(s, t, prep, codes);
    if prep.fail.Some? {
      var b := p.(txns := p.txns[t := p.txns[t].(blame := Some(Blame(j, prep.fail.value)))]);
      SameJobsExplained(p, b, codes);
      TxnAbortExplained(b, j, codes);
    } else {
      FinalizeAllExplained(p, t, codes);
    }
  }

  lemma SameJobsExplained(s: Sys, r: Sys, codes: Codes)
    requires AllExplained(s, codes) && r.jobs == s.jobs
    ensures AllExplained(r, codes)
  {}

  lemma AwaitExplained(s: Sys, j: JobId, codes: Codes)
    requires Known(s, j) && AllExplained(s, codes)
    ensures AllExplained(Await(s, j), codes)
    ensures AllExplained(AllPending(Await(s, j), s.jobs[j].txn), codes)
    ensures Known(AllPending(Await(s, j), s.jobs[j].txn), j)
  {}

  lemma TxnSuccessExplained(s: Sys, j: JobId, prep: Prep, codes: Codes)
    requires Known(s, j) && AllExplained(s, codes) && Covers(codes, prep)
    ensures AllExplained(TxnSuccess(s, j, prep), codes)
  {
    hide AllExplained, Await, AllPending, DoFinalize, AllCompleted, AllAuto;
    AwaitExplained(s, j, codes);
    DoFinalizeExplained(AllPending(Await(s, j), s.jobs[j].txn), j, prep, codes);
  }

  lemma PutExplained(s: Sys, j: JobId, x: Job, codes: Codes)
    requires AllExplained(s, codes) && Explained(x, j, codes)
    ensures AllExplained(Put(s, j, x), codes)
  {}

  lemma CompleteExplained(s: Sys, j: JobId, prep: Prep, codes: Codes)
    requires Known(s, j) && AllExplained(s, codes) && Covers(codes, prep)
    ensures AllExplained(Complete(s, j, prep), codes)
  {
    hide AllExplained, UpdateRc, TxnSuccess, TxnAbort;
    var c := Check(s.jobs[j], s.jobs[j].inTxn && !Completed(s.jobs[j].status));
    IsExplained(s, j, codes);
    UpdateExplained(c, j, codes);
    PutExplained(s, j, UpdateRc(c), codes);
    TxnAbortExplained(Put(s, j, UpdateRc(c)), j, codes);
    TxnSuccessExplained(Put(s, j, UpdateRc(c)), j, prep, codes);
  }

  lemma IsExplained(s: Sys, j: JobId, codes: Codes)
    requires AllExplained(s, codes) && j in s.jobs
    ensures Explained(s.jobs[j], j, codes)
  {}

  lemma CancelExplained(s: Sys, j: JobId, drv: bool, prep: Prep, codes: Codes)
    requires Known(s, j) && AllExplained(s, codes) && Covers(codes, prep)
    ensures AllExplained(CancelJob(s, j, drv, prep), codes)
  {
    hide AllExplained, Complete, TxnAbort;
    IsExplained(s, j, codes);
    PutExplained(s, j, DoDismiss(s.jobs[j]), codes);
    var c := Put(s, j, CancelAsync(s.jobs[j], drv));
    PutExplained(s, j, CancelAsync(s.jobs[j], drv), codes);
    CompleteExplained(c, j, prep, codes);
    TxnAbortExplained(c, j, codes);
  }

  lemma StepExplained(s: Sys, ev: Event, codes: Codes)
    requires Enabled(s, ev) && AllExplained(s, codes) && forall j, code | Brings(ev, j, code) :: codes(j, code)
    ensures AllExplained(Do(s, ev), codes)
  {
    hide AllExplained, Idle, PrepFor, PrepRun, Complete, CancelJob, DoFinalize, FinalizeSingle, Open;
    match ev
    case Create(j, t, autoFinalize, autoDismiss) => CreateExplained(s, ev, codes);
    case Exit(j, prep) =>
      IsExplained(s, j, codes);
      PutExplained(s, j, s.jobs[j].(co := Finished), codes);
      assert Covers(codes, prep) by { BringsPrep(ev, prep, codes); }
      CompleteExplained(Put(s, j, s.jobs[j].(co := Finished)), j, prep, codes);
    case Cancel(j, _, drv, prep) => BringsPrep(ev, prep, codes); CancelExplained(s, j, drv, prep, codes);
    case UserCancel(j, _, drv, prep) => BringsPrep(ev, prep, codes); CancelExplained(s, j, drv, prep, codes);
    case Finalize(j, prep) => BringsPrep(ev, prep, codes); DoFinalizeExplained(s, j, prep, codes);
    case AbortTurn(j) =>
      IsExplained(s, j, codes);
      FinalizeExplained(s.jobs[j], j, codes);
      PutExplained(s, j, FinalizeSingle(s.jobs[j]), codes);
    case RunReturns(j, ret) =>
      assert Brings(ev, j, ret);
      PutExplained(s, j, RunEnds(s.jobs[j], ret), codes);
    case _ =>
      IsExplained(s, ev.j, codes);
      PutExplained(s, ev.j, Do(s, ev).jobs[ev.j], codes);
  }

  lemma CreateExplained(s: Sys, ev: Event, codes: Codes)
    requires ev.Create? && Enabled(s, ev) && AllExplained(s, codes)
    ensures AllExplained(Do(s, ev), codes)
  {}

  lemma BringsPrep(ev: Event, prep: Prep, codes: Codes)
    requires (ev.Exit? || ev.Cancel? || ev.UserCancel? || ev.Finalize?) && ev.prep == prep
    requires forall j, code | Brings(ev, j, code) :: codes(j, code)
    ensures Covers(codes, prep)
  {
    forall j | j in prep.results && prep.results[j].Some? ensures codes(j, prep.results[j].value) {
      assert Brings(ev, j, prep.results[j].value);
    }
  }

  lemma {:induction false} RunExplained(ss: seq<Sys>, evs: seq<Event>, n: nat, codes: Codes)
    requires IsRun(ss, evs) && n < |ss|
    requires forall i, j, code | 0 <= i < n && Brings(evs[i], j, code) :: codes(j, code)
    ensures AllExplained(ss[n], codes)
  {
    hide Enabled, Do, Brings, AllExplained;
    if n == 0 {
      NobodyExplained(ss[0], codes);
    } else {
      RunExplained(ss, evs, n - 1, codes);
      assert Enabled(ss[n - 1], evs[n - 1]) && ss[n - 1 + 1] == Do(ss[n - 1], evs[n - 1]);
      StepExplained(ss[n - 1], evs[n - 1], codes);
    }
  }

  lemma NobodyExplained(s: Sys, codes: Codes)
    requires s.jobs == map[]
    ensures AllExplained(s, codes)
  {}

  /** An error of a job is what its own driver returned, from run or from prepare; failing that, the
      job was cancelled by force and the error says so. */
  lemma ErrorsHaveCauses(ss: seq<Sys>, evs: seq<Event>, n: nat, j: JobId)
    requires IsRun(ss, evs) && n < |ss| && j in ss[n].jobs && ss[n].jobs[j].ret != 0
    ensures || (exists i :: 0 <= i < n && Brings(evs[i], j, ss[n].jobs[j].ret))
            || (ss[n].jobs[j].ret == ECANCELED && ss[n].jobs[j].force)
  {
    hide Enabled, Do, Brings;
    var codes: Codes := (k: JobId, code: int) => exists i :: 0 <= i < n && Brings(evs[i], k, code);
    RunExplained(ss, evs, n, codes);
    IsExplained(ss[n], j, codes);
  }

  /** The error that a driver's run returned stays the job's error. */
  lemma OwnErrorStays(ss: seq<Sys>, evs: seq<Event>, i: nat, n: nat)
    requires IsRun(ss, evs) && i < n < |ss| && evs[i].RunReturns? && evs[i].ret != 0
    ensures evs[i].j in ss[n].jobs && ss[n].jobs[evs[i].j].ret == evs[i].ret
  {
    assert ss[i + 1] == Do(ss[i], evs[i]);
    NothingUndone(ss, evs, i + 1, n, evs[i].j);
  }

  // --- cancelling ---

  /** The event asks for the cancel of `j`, the verb table lets it through, and it does not come too
      late: a job whose run has returned takes only a forced cancel. */
  ghost predicate Cancels(s: Sys, ev: Event, j: JobId) {
    && j in s.jobs && !s.jobs[j].status.Concluded? && (ev.Cancel? || ev.UserCancel?) && ev.j == j
    && (ev.UserCancel? ==> Accepts(s.jobs[j].status, CancelVerb))
    && (ev.drv || !Deferred(s.jobs[j]))
  }

  /** A job that was cancelled stays cancelled. */
  lemma CancelStays(ss: seq<Sys>, evs: seq<Event>, i: nat, n: nat, j: JobId)
    requires IsRun(ss, evs) && i < n < |ss| && Cancels(ss[i], evs[i], j)
    ensures j in ss[n].jobs && ss[n].jobs[j].cancelled
  {
    hide Inv, Idle, PrepFor, PrepRun, CancelJob;
    RunKeeps(ss, evs, i);
    assert Enabled(ss[i], evs[i]) && ss[i + 1] == Do(ss[i], evs[i]);
    StepKeeps(ss[i], evs[i]);
    CancelShows(ss[i], j, evs[i].drv, evs[i].prep);
    NothingUndone(ss, evs, i + 1, n, j);
  }

  lemma CancelShows(s: Sys, j: JobId, drv: bool, prep: Prep)
    requires Known(s, j) && !s.jobs[j].status.Concluded? && Inv(CancelJob(s, j, drv, prep)) && (drv || !Deferred(s.jobs[j]))
    ensures var r := CancelJob(s, j, drv, prep);
            j in r.jobs && r.jobs[j].txn == s.jobs[j].txn && r.jobs[j].cancelled && (drv ==> r.jobs[j].force)
  {
    hide Inv, Complete, TxnAbort;
    var c := Put(s, j, CancelAsync(s.jobs[j], drv));
    CompleteLater(c, j, prep);
    TxnAbortLater(c, j);
    TxnKnown(CancelJob(s, j, drv, prep), j);
    OneJob(CancelJob(s, j, drv, prep), j);
  }
}
