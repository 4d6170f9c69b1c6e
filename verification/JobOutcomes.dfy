/** The outcome of a transaction of jobs (engine/qemu-wasm/job.c) as a function of what happened to
    its jobs: which drivers failed and who was cancelled by force. */
module JobOutcomes {
  import opened Options
  import opened JobStates
  import opened JobTxns
  import opened JobErrors

  /** The event is a failure in the transaction `t`: the driver of one of its jobs returns an error,
      or one of its jobs is cancelled while it is on the list and the cancel is forced; `drv` is
      what job_cancel_async_locked makes of the caller's `force`. */
  ghost predicate Failure(s: Sys, ev: Event, t: TxnId) {
    match ev
    case RunReturns(k, ret) => k in s.jobs && s.jobs[k].txn == t && ret != 0
    case Cancel(k, _, drv, _) => k in s.jobs && s.jobs[k].txn == t && s.jobs[k].inTxn && drv
    case UserCancel(k, _, drv, _) =>
      k in s.jobs && s.jobs[k].txn == t && s.jobs[k].inTxn && drv && Accepts(s.jobs[k].status, CancelVerb)
    case _ => false
  }

  ghost predicate HasFailure(ss: seq<Sys>, evs: seq<Event>, n: nat, t: TxnId)
    requires |ss| == |evs| + 1 && n <= |evs|
  {
    exists i :: 0 <= i < n && Failure(ss[i], evs[i], t)
  }

  // --- without a failure nothing goes wrong, unless a job cannot prepare ---

  predicate Calm(x: Job) { x.ret == 0 && !x.force }

  ghost predicate AllCalm(s: Sys, t: TxnId) {
    && t in s.txns && !s.txns[t].aborting
    && forall k | k in s.jobs && s.jobs[k].txn == t :: Calm(s.jobs[k])
  }

  ghost predicate CalmOrBlamed(s: Sys, t: TxnId) {
    t in s.txns && (s.txns[t].blame.None? ==> AllCalm(s, t))
  }

  lemma UpdateCalm(x: Job)
    ensures UpdateRc(x).txn == x.txn && (Calm(x) ==> Calm(UpdateRc(x)))
  {}

  lemma ConcludeCalm(x: Job)
    ensures Conclude(x).txn == x.txn && (Calm(x) ==> Calm(Conclude(x)))
  {}

  lemma FinalizeCalm(x: Job)
    ensures FinalizeSingle(x).txn == x.txn && (Calm(x) ==> Calm(FinalizeSingle(x)))
  {
    hide UpdateRc, Conclude;
    UpdateCalm(Check(x, Completed(x.status)));
    var y := UpdateRc(Check(x, Completed(x.status)));
    ConcludeCalm(Finalized(y, if y.ret == 0 then Commit else Abort));
  }

  lemma PrepareCalm(x: Job, result: Option<int>)
    ensures Prepare(x, result).txn == x.txn
    ensures Calm(x) && Prepare(x, result).ret == 0 ==> Calm(Prepare(x, result))
  {}

  lemma FinalizeAllCalm(s: Sys, u: TxnId, t: TxnId)
    requires AllCalm(s, t)
    ensures AllCalm(FinalizeAll(s, u), t)
  {
    hide FinalizeSingle, Calm;
    forall k | k in s.jobs { FinalizeCalm(s.jobs[k]); }
  }

  lemma PreparedCalm(s: Sys, u: TxnId, prep: Prep, t: TxnId)
    requires AllCalm(s, t) && (u == t ==> PrepRun(s, t, prep) && prep.fail.None?)
    ensures AllCalm(Prepared(s, u, prep), t)
  {
    hide Prepare, Calm;
    forall k | k in s.jobs && k in prep.results { PrepareCalm(s.jobs[k], prep.results[k]); }
  }

  lemma OtherAbortCalm(s: Sys, j: JobId, t: TxnId)
    requires Known(s, j) && s.jobs[j].txn != t && AllCalm(s, t)
    ensures AllCalm(TxnAbort(s, j), t)
  {}

  lemma DoFinalizeCalm(s: Sys, j: JobId, prep: Prep, t: TxnId)
    requires Known(s, j) && AllCalm(s, t) && (s.jobs[j].txn == t ==> PrepRun(s, t, prep))
    ensures CalmOrBlamed(DoFinalize(s, j, prep), t)
  {
    hide AllCalm, PrepRun, FinalizeAll, Prepare;
    var u := s.jobs[j].txn;
    var p := Prepared(s, u, prep);
    PreparedTxn(s, j, prep);
    if prep.fail.None? {
      PreparedCalm(s, u, prep, t);
      FinalizeAllCalm(p, u, t);
      CalmIs(FinalizeAll(p, u), t);
    } else {
      var b := p.(txns := p.txns[u := p.txns[u].(blame := Some(Blame(j, prep.fail.value)))]);
      if u == t {
        CalmKnown(s, t);
      } else {
        PreparedCalm(s, u, prep, t);
        CalmKnown(s, t);
        SameTxnCalm(p, b, t);
        OtherAbortCalm(b, j, t);
        CalmIs(TxnAbort(b, j), t);
      }
    }
  }

  lemma CalmIs(s: Sys, t: TxnId)
    requires AllCalm(s, t)
    ensures CalmOrBlamed(s, t)
  {}

  lemma CalmKnown(s: Sys, t: TxnId)
    requires AllCalm(s, t)
    ensures t in s.txns
  {}

  lemma SameTxnCalm(s: Sys, r: Sys, t: TxnId)
    requires AllCalm(s, t) && r.jobs == s.jobs && t in r.txns && r.txns[t] == s.txns[t]
    ensures AllCalm(r, t)
  {}

  lemma AwaitCalm(s: Sys, j: JobId, t: TxnId)
    requires Known(s, j) && AllCalm(s, t)
    ensures AllCalm(Await(s, j), t) && Known(Await(s, j), j) && Await(s, j).jobs[j].txn == s.jobs[j].txn
  {}

  lemma AllPendingCalm(s: Sys, u: TxnId, t: TxnId)
    requires AllCalm(s, t)
    ensures AllCalm(AllPending(s, u), t)
  {}

  lemma AllPendingKnown(s: Sys, u: TxnId, j: JobId)
    requires Known(s, j)
    ensures Known(AllPending(s, u), j) && AllPending(s, u).jobs[j].txn == s.jobs[j].txn
  {}

  lemma TxnSuccessCalm(s: Sys, j: JobId, prep: Prep, t: TxnId)
    requires Known(s, j) && AllCalm(s, t)
    requires var u, w := s.jobs[j].txn, Await(s, j);
             u == t && AllCompleted(w, u) && AllAuto(w, u) ==> PrepRun(AllPending(w, u), u, prep)
    ensures CalmOrBlamed(TxnSuccess(s, j, prep), t)
  {
    hide AllCalm, PrepRun, Await, AllPending, AllCompleted, AllAuto, DoFinalize;
    var u, w := s.jobs[j].txn, Await(s, j);
    AwaitCalm(s, j, t);
    CalmIs(w, t);
    AllPendingCalm(w, u, t);
    AllPendingKnown(w, u, j);
    CalmIs(AllPending(w, u), t);
    if AllCompleted(w, u) && AllAuto(w, u) { DoFinalizeCalm(AllPending(w, u), j, prep, t); }
  }

  lemma PutCalm(s: Sys, j: JobId, x: Job, t: TxnId)
    requires AllCalm(s, t) && j in s.jobs && x.txn == s.jobs[j].txn && (x.txn == t ==> Calm(x))
    ensures AllCalm(Put(s, j, x), t)
  {}

  lemma RatedCalm(x: Job)
    ensures Rated(x).txn == x.txn && (Calm(x) ==> Calm(Rated(x)))
  {}

  lemma CompleteCalm(s: Sys, j: JobId, prep: Prep, t: TxnId)
    requires Known(s, j) && AllCalm(s, t) && PrepFor(s, j, prep)
    ensures CalmOrBlamed(Complete(s, j, prep), t)
  {
    hide AllCalm, PrepRun, UpdateRc, Await, AllPending, AllCompleted, AllAuto, TxnSuccess, TxnAbort;
    var x := Rated(s.jobs[j]);
    RatedCalm(s.jobs[j]);
    MemberCalm(s, j, t);
    PutCalm(s, j, x, t);
    if x.ret != 0 {
      OtherAbortCalm(Put(s, j, x), j, t);
      CalmIs(TxnAbort(Put(s, j, x), j), t);
    } else {
      TxnSuccessCalm(Put(s, j, x), j, prep, t);
    }
  }

  lemma MemberCalm(s: Sys, j: JobId, t: TxnId)
    requires AllCalm(s, t) && j in s.jobs
    ensures s.jobs[j].txn == t ==> Calm(s.jobs[j])
  {}

  /** A cancel that is no failure of the transaction. */
  lemma CancelCalm(s: Sys, j: JobId, force: bool, drv: bool, prep: Prep, t: TxnId)
    requires Inv(s) && AllCalm(s, t) && Enabled(s, Cancel(j, force, drv, prep))
    requires s.jobs[j].txn == t && s.jobs[j].inTxn ==> !drv
    ensures CalmOrBlamed(CancelJob(s, j, drv, prep), t)
  {
    hide Inv, AllCalm, CalmOrBlamed, Idle, PrepFor, Complete, TxnAbort;
    OneJob(s, j);
    var x := s.jobs[j];
    MemberCalm(s, j, t);
    if x.status.Concluded? {
      PutCalm(s, j, DoDismiss(x), t);
      CalmIs(Put(s, j, DoDismiss(x)), t);
    } else {
      var c := CancelAsync(x, drv);
      var r := Put(s, j, c);
      PutCalm(s, j, c, t);
      CalmIs(r, t);
      if !Started(c) {
        CompleteCalm(r, j, prep, t);
      } else if Deferred(c) && c.force {
        OtherAbortCalm(r, j, t);
        CalmIs(TxnAbort(r, j), t);
      }
    }
  }

  /** Without a failure, and if nobody fails to prepare, a calm transaction stays calm. */
  lemma StepCalm(s: Sys, ev: Event, t: TxnId)
    requires Inv(s) && Enabled(s, ev) && AllCalm(s, t) && !Failure(s, ev, t)
    ensures CalmOrBlamed(Do(s, ev), t)
  {
    hide Inv, Idle, PrepFor, PrepRun, Complete, CancelJob, DoFinalize, FinalizeSingle;
    match ev
    case Create(j, u, autoFinalize, autoDismiss) =>
    case Exit(j, prep) =>
      var f := Put(s, j, s.jobs[j].(co := Finished));
      CompleteCalm(f, j, prep, t);
    case Cancel(j, force, drv, prep) => CancelCalm(s, j, force, drv, prep, t);
    case UserCancel(j, force, drv, prep) =>
      if Accepts(s.jobs[j].status, CancelVerb) {
        OneJob(s, j);
        VerbIsSafe(j, s.jobs[j], s.txns[s.jobs[j].txn]);
        CancelCalm(s, j, force, drv, prep, t);
      }
    case Finalize(j, prep) => if s.jobs[j].status.Pending? { DoFinalizeCalm(s, j, prep, t); }
    case AbortTurn(j) => FinalizeCalm(s.jobs[j]);
    case _ =>
  }

  lemma {:induction false} CalmWithoutFailure(ss: seq<Sys>, evs: seq<Event>, n: nat, t: TxnId)
    requires IsRun(ss, evs) && n < |ss| && t in ss[n].txns && ss[n].txns[t].blame.None? && !HasFailure(ss, evs, n, t)
    ensures AllCalm(ss[n], t)
  {
    hide Enabled, Do, AllCalm, Failure;
    if n > 0 {
      RunKeeps(ss, evs, n - 1);
      assert Enabled(ss[n - 1], evs[n - 1]) && ss[n - 1 + 1] == Do(ss[n - 1], evs[n - 1]);
      if t in ss[n - 1].txns {
        StepLater(ss[n - 1], evs[n - 1]);
        CalmWithoutFailure(ss, evs, n - 1, t);
        StepCalm(ss[n - 1], evs[n - 1], t);
      } else {
        NewTxnCalm(ss[n - 1], evs[n - 1], t);
      }
    }
  }

  lemma NewTxnCalm(s: Sys, ev: Event, t: TxnId)
    requires Inv(s) && Enabled(s, ev) && t !in s.txns && t in Do(s, ev).txns
    ensures AllCalm(Do(s, ev), t)
  {
    hide Open, Idle, PrepFor, PrepRun, Complete, CancelJob, DoFinalize, FinalizeSingle;
    match ev
    case Create(_, _, _, _) =>
    case Exit(j, prep) => CompleteTxns(Put(s, j, s.jobs[j].(co := Finished)), j, prep);
    case Cancel(j, _, drv, prep) => CancelTxns(s, j, drv, prep);
    case UserCancel(j, _, drv, prep) => CancelTxns(s, j, drv, prep);
    case Finalize(j, prep) => DoFinalizeTxns(s, j, prep);
    case _ =>
  }

  // --- only a new job makes a new transaction ---

  lemma DoFinalizeTxns(s: Sys, j: JobId, prep: Prep)
    requires Known(s, j)
    ensures DoFinalize(s, j, prep).txns.Keys == s.txns.Keys
  {
    hide Prepare, FinalizeSingle, CancelAsync;
    PreparedTxn(s, j, prep);
  }

  lemma TxnSuccessTxns(s: Sys, j: JobId, prep: Prep)
    requires Known(s, j)
    ensures TxnSuccess(s, j, prep).txns.Keys == s.txns.Keys
  {
    hide DoFinalize, AllCompleted, AllAuto;
    var w := Await(s, j);
    AllPendingKnown(w, s.jobs[j].txn, j);
    DoFinalizeTxns(AllPending(w, s.jobs[j].txn), j, prep);
  }

  lemma CompleteTxns(s: Sys, j: JobId, prep: Prep)
    requires Known(s, j)
    ensures Complete(s, j, prep).txns.Keys == s.txns.Keys
  {
    hide UpdateRc, CancelAsync, TxnSuccess;
    TxnSuccessTxns(Put(s, j, Rated(s.jobs[j])), j, prep);
  }

  lemma CancelTxns(s: Sys, j: JobId, drv: bool, prep: Prep)
    requires Known(s, j)
    ensures CancelJob(s, j, drv, prep).txns.Keys == s.txns.Keys
  {
    hide Complete;
    CompleteTxns(Put(s, j, CancelAsync(s.jobs[j], drv)), j, prep);
  }

  // --- a failure is not forgotten ---

  ghost predicate Failed(x: Job) { x.force || (Deferred(x) && x.ret != 0) }

  /** The job that the failure happened to shows it. */
  lemma FailureShows(s: Sys, ev: Event, t: TxnId)
    requires Inv(s) && Enabled(s, ev) && Failure(s, ev, t)
    ensures ev.j in Do(s, ev).jobs && Do(s, ev).jobs[ev.j].txn == t && Failed(Do(s, ev).jobs[ev.j])
  {
    hide Inv, JobOk, Idle, PrepFor, PrepRun, CancelJob, Failed;
    StepKeeps(s, ev);
    if ev.RunReturns? {
      ReturnShows(s.jobs[ev.j], ev.ret);
    } else {
      OneJob(s, ev.j);
      MemberIsNotConcluded(ev.j, s.jobs[ev.j], s.txns[s.jobs[ev.j].txn]);
      CancelShows(s, ev.j, true, ev.prep);
      ForceShows(Do(s, ev).jobs[ev.j]);
    }
  }

  lemma ReturnShows(x: Job, ret: int)
    requires ret != 0
    ensures Failed(RunEnds(x, ret)) && RunEnds(x, ret).txn == x.txn
  {}

  lemma ForceShows(x: Job)
    requires x.force
    ensures Failed(x)
  {}

  lemma MemberIsNotConcluded(j: JobId, x: Job, t: Txn)
    requires JobOk(j, x, t) && x.inTxn
    ensures !x.status.Concluded?
  {}

  /** Who failed and has left the list was finalized through abort. */
  lemma FailedMeansAbort(s: Sys, t: TxnId, k: JobId)
    requires Inv(s) && t in s.txns && k in s.jobs && s.jobs[k].txn == t && !s.jobs[k].inTxn && Failed(s.jobs[k])
    ensures s.txns[t].aborting
  {
    OneJob(s, k);
    OneFinal(s.jobs[k].finals);
  }

  lemma FailedStays(x: Job, y: Job)
    requires Failed(x) && Later(x, y)
    ensures Failed(y) && y.txn == x.txn
  {}

  // --- who could not prepare ---

  /** Everybody else has completed, and nobody asked for job_finalize. */
  ghost predicate LastOne(s: Sys, j: JobId, t: TxnId) {
    forall k | k in Members(s, t) :: s.jobs[k].autoFinalize && (k != j ==> Completed(s.jobs[k].status))
  }

  /** The event finalizes the transaction: job_finalize of a pending job, or the end of the last
      job. */
  ghost predicate Finalizes(s: Sys, ev: Event, t: TxnId) {
    match ev
    case Finalize(j, _) => j in s.jobs && s.jobs[j].txn == t && s.jobs[j].status.Pending?
    case Exit(j, _) => j in s.jobs && s.jobs[j].txn == t && Calm(s.jobs[j]) && LastOne(s, j, t)
    case _ => false
  }

  ghost predicate CannotPrepare(s: Sys, ev: Event, t: TxnId) { Finalizes(s, ev, t) && ev.prep.fail.Some? }

  function BlameAfter(t: Txn, failed: bool, j: JobId, prep: Prep): Option<Blame> {
    if failed && prep.fail.Some? then Some(Blame(j, prep.fail.value)) else t.blame
  }

  lemma DoFinalizeBlame(s: Sys, j: JobId, prep: Prep, t: TxnId)
    requires Known(s, j) && t in s.txns
    ensures var r := DoFinalize(s, j, prep);
            t in r.txns && r.txns[t].blame == BlameAfter(s.txns[t], s.jobs[j].txn == t, j, prep)
  {
    hide Prepare, FinalizeSingle, CancelAsync;
    PreparedTxn(s, j, prep);
  }

  lemma AwaitIsLast(s: Sys, j: JobId)
    requires Known(s, j)
    ensures var t, w := s.jobs[j].txn, Await(s, j);
            && Known(w, j) && w.jobs[j].txn == t && w.txns == s.txns
            && (AllCompleted(w, t) && AllAuto(w, t) <==> LastOne(s, j, t))
  {
    var t, w := s.jobs[j].txn, Await(s, j);
    assert Members(w, t) == Members(s, t);
    forall k | k in Members(s, t)
      ensures w.jobs[k].autoFinalize == s.jobs[k].autoFinalize
      ensures Completed(w.jobs[k].status) <==> k == j || Completed(s.jobs[k].status)
    {}
  }

  lemma TxnSuccessBlame(s: Sys, j: JobId, prep: Prep, t: TxnId)
    requires Known(s, j) && t in s.txns
    ensures var r := TxnSuccess(s, j, prep);
            t in r.txns && r.txns[t].blame == BlameAfter(s.txns[t], s.jobs[j].txn == t && LastOne(s, j, t), j, prep)
  {
    hide Await, AllCompleted, AllAuto, AllPending, DoFinalize, LastOne, BlameAfter;
    var u, w := s.jobs[j].txn, Await(s, j);
    AwaitIsLast(s, j);
    AllPendingKnown(w, u, j);
    assert AllPending(w, u).txns == s.txns by { PendingTxns(w, u); }
    DoFinalizeBlame(AllPending(w, u), j, prep, t);
    SameBlame(s.txns[t], j, prep);
  }

  lemma PendingTxns(s: Sys, u: TxnId)
    ensures AllPending(s, u).txns == s.txns
  {}

  lemma SameBlame(t: Txn, j: JobId, prep: Prep)
    ensures BlameAfter(t, false, j, prep) == t.blame
  {}

  lemma CompleteBlame(s: Sys, j: JobId, prep: Prep, t: TxnId)
    requires Known(s, j) && t in s.txns
    ensures var r := Complete(s, j, prep);
            && t in r.txns
            && r.txns[t].blame ==
               BlameAfter(s.txns[t], s.jobs[j].txn == t && Calm(s.jobs[j]) && LastOne(s, j, t), j, prep)
  {
    hide UpdateRc, TxnSuccess, LastOne, BlameAfter;
    var x := Rated(s.jobs[j]);
    RatedRet(s.jobs[j]);
    SameBlame(s.txns[t], j, prep);
    if x.ret == 0 {
      RatedLast(s, j, t);
      TxnSuccessBlame(Put(s, j, x), j, prep, t);
    }
  }

  lemma RatedRet(x: Job)
    ensures Rated(x).txn == x.txn && (Rated(x).ret == 0 <==> Calm(x))
  {}

  lemma RatedLast(s: Sys, j: JobId, t: TxnId)
    requires Known(s, j) && Rated(s.jobs[j]).ret == 0
    ensures LastOne(Put(s, j, Rated(s.jobs[j])), j, t) <==> LastOne(s, j, t)
  {
    assert Rated(s.jobs[j]) == s.jobs[j].(ok := Rated(s.jobs[j]).ok);
    assert Members(Put(s, j, Rated(s.jobs[j])), t) == Members(s, t);
  }

  /** A forced cancel of a job that has not started cannot end in success. */
  lemma CancelBlame(s: Sys, j: JobId, drv: bool, prep: Prep, t: TxnId)
    requires Known(s, j) && t in s.txns && (!Started(s.jobs[j]) ==> drv)
    ensures var r := CancelJob(s, j, drv, prep); t in r.txns && r.txns[t].blame == s.txns[t].blame
  {
    hide Complete, LastOne;
    CompleteBlame(Put(s, j, CancelAsync(s.jobs[j], drv)), j, prep, t);
  }

  /** Only a failure to prepare puts the blame on somebody. */
  lemma StepBlame(s: Sys, ev: Event, t: TxnId)
    requires Inv(s) && Enabled(s, ev) && t in s.txns
    ensures t in Do(s, ev).txns
    ensures Do(s, ev).txns[t].blame ==
            if CannotPrepare(s, ev, t) then Some(Blame(ev.j, ev.prep.fail.value)) else s.txns[t].blame
    ensures CannotPrepare(s, ev, t) ==> s.txns[t].blame.None?
  {
    hide Inv, Idle, PrepFor, PrepRun, Complete, CancelJob, DoFinalize, FinalizeSingle, Open;
    match ev
    case Exit(j, prep) =>
      OneJob(s, j);
      FinishedLast(s, j, t);
      CompleteBlame(Put(s, j, s.jobs[j].(co := Finished)), j, prep, t);
    case Cancel(j, force, drv, prep) =>
      OneJob(s, j);
      CancelBlame(s, j, drv, prep, t);
    case UserCancel(j, force, drv, prep) =>
      OneJob(s, j);
      if Accepts(s.jobs[j].status, CancelVerb) { CancelBlame(s, j, drv, prep, t); }
    case Finalize(j, prep) =>
      if s.jobs[j].status.Pending? {
        IdleMeansOpen(s, j);
        DoFinalizeBlame(s, j, prep, t);
      }
    case _ =>
  }

  lemma FinishedLast(s: Sys, j: JobId, t: TxnId)
    requires j in s.jobs
    ensures LastOne(Put(s, j, s.jobs[j].(co := Finished)), j, t) <==> LastOne(s, j, t)
  {
    assert Members(Put(s, j, s.jobs[j].(co := Finished)), t) == Members(s, t);
  }

  /** job_finalize_locked finds a pending job only in a transaction that does not abort. */
  lemma IdleMeansOpen(s: Sys, j: JobId)
    requires Inv(s) && Known(s, j) && Idle(s, j) && s.jobs[j].status.Pending?
    ensures s.txns[s.jobs[j].txn].blame.None?
  {
    hide PairOk;
    assert JobOk(j, s.jobs[j], s.txns[s.jobs[j].txn]);
    IdleMember(s, j);
  }

  /** Who is blamed, and for whom, is what the event said that finalized the transaction. */
  lemma {:induction false} BlameByEvents(ss: seq<Sys>, evs: seq<Event>, n: nat, t: TxnId)
    requires IsRun(ss, evs) && n < |ss| && t in ss[n].txns
    ensures forall i | 0 <= i < n && CannotPrepare(ss[i], evs[i], t) ::
              ss[n].txns[t].blame == Some(Blame(evs[i].j, evs[i].prep.fail.value))
    ensures ss[n].txns[t].blame.Some? ==> exists i :: 0 <= i < n && CannotPrepare(ss[i], evs[i], t)
  {
    hide Enabled, Do, CannotPrepare, Inv, AllCalm;
    if n > 0 {
      RunKeeps(ss, evs, n - 1);
      assert Enabled(ss[n - 1], evs[n - 1]) && ss[n - 1 + 1] == Do(ss[n - 1], evs[n - 1]);
      if t in ss[n - 1].txns {
        BlameByEvents(ss, evs, n - 1, t);
        StepBlame(ss[n - 1], evs[n - 1], t);
      } else {
        NewTxnCalm(ss[n - 1], evs[n - 1], t);
        RunKeeps(ss, evs, n);
        CalmHasNoBlame(ss[n], t);
        forall i | 0 <= i < n ensures !CannotPrepare(ss[i], evs[i], t) { NotYet(ss, evs, i, n - 1, t); }
      }
    }
  }

  lemma CalmHasNoBlame(s: Sys, t: TxnId)
    requires Inv(s) && AllCalm(s, t)
    ensures s.txns[t].blame.None?
  {
    hide PairOk;
    if s.txns[t].blame.Some? { OneJob(s, s.txns[t].blame.value.trigger); }
  }

  /** Nothing can happen in a transaction that does not exist yet. */
  lemma NotYet(ss: seq<Sys>, evs: seq<Event>, i: nat, n: nat, t: TxnId)
    requires IsRun(ss, evs) && i <= n < |ss| && i < |evs| && t !in ss[n].txns
    ensures !CannotPrepare(ss[i], evs[i], t)
  {
    hide Enabled, Do;
    if CannotPrepare(ss[i], evs[i], t) {
      NothingUndone(ss, evs, i, n, evs[i].j);
      RunKeeps(ss, evs, n);
      TxnKnown(ss[n], evs[i].j);
    }
  }

  // --- the outcome ---

  ghost predicate PrepareFailed(ss: seq<Sys>, evs: seq<Event>, n: nat, t: TxnId)
    requires |ss| == |evs| + 1 && n <= |evs|
  {
    exists i :: 0 <= i < n && CannotPrepare(ss[i], evs[i], t)
  }

  /** What happened to its jobs decides the outcome of a transaction. Once its list is empty, every
      started job was finalized through abort if the driver of any of them returned an error or any
      of them was cancelled by force, and through commit if neither ever happened. Only where a job
      could not prepare are both found: the job that finalized the transaction commits, unless it
      could not prepare itself, and all others abort. */
  lemma OutcomeByEvents(ss: seq<Sys>, evs: seq<Event>, n: nat, t: TxnId, j: JobId)
    requires IsRun(ss, evs) && n < |ss| && t in ss[n].txns && Members(ss[n], t) == {}
    requires j in ss[n].jobs && ss[n].jobs[j].txn == t && Started(ss[n].jobs[j])
    ensures !PrepareFailed(ss, evs, n, t) ==>
              ss[n].jobs[j].finals == [if HasFailure(ss, evs, n, t) then Abort else Commit]
    ensures forall i | 0 <= i < n && CannotPrepare(ss[i], evs[i], t) ::
              ss[n].jobs[j].finals == [if j == evs[i].j && evs[i].prep.fail != Some(j) then Commit else Abort]
  {
    hide Enabled, Do, Finalizes, Failure;
    BlameByEvents(ss, evs, n, t);
    if ss[n].txns[t].blame.Some? {
      MixedOutcome(ss, evs, n, t, j);
    } else if HasFailure(ss, evs, n, t) {
      var i :| 0 <= i < n && Failure(ss[i], evs[i], t);
      FailureAborts(ss, evs, i, n, t, j);
    } else {
      RunKeeps(ss, evs, n);
      FinishedJob(ss[n], t, j);
      CalmWithoutFailure(ss, evs, n, t);
    }
  }

  lemma FailureAborts(ss: seq<Sys>, evs: seq<Event>, i: nat, n: nat, t: TxnId, j: JobId)
    requires IsRun(ss, evs) && i < n < |ss| && Failure(ss[i], evs[i], t)
    requires t in ss[n].txns && ss[n].txns[t].blame.None? && Members(ss[n], t) == {}
    requires j in ss[n].jobs && ss[n].jobs[j].txn == t && Started(ss[n].jobs[j])
    ensures ss[n].jobs[j].finals == [Abort]
  {
    hide Enabled, Do, Failure, Later, Failed, Inv;
    RunKeeps(ss, evs, n);
    FinishedJob(ss[n], t, j);
    RunKeeps(ss, evs, i);
    assert Enabled(ss[i], evs[i]) && ss[i + 1] == Do(ss[i], evs[i]);
    FailureShows(ss[i], evs[i], t);
    var k := evs[i].j;
    NothingUndone(ss, evs, i + 1, n, k);
    FailedStays(ss[i + 1].jobs[k], ss[n].jobs[k]);
    assert k !in Members(ss[n], t);
    FailedMeansAbort(ss[n], t, k);
  }
}
