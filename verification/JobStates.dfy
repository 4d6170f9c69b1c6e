/** The status automaton of background jobs (engine/qemu-wasm/job.c). */
module JobStates {
  import opened Options

  datatype Status =
    Undefined | Created | Running | Paused | Ready | Standby | Waiting | Pending | Aborting | Concluded | Null

  datatype Verb = CancelVerb | FinalizeVerb | DismissVerb

  /** JobSTT */
  predicate Allowed(from: Status, to: Status) {
    match from
    case Undefined => to.Created?
    case Created => to.Running? || to.Aborting? || to.Null?
    case Running => to.Paused? || to.Ready? || to.Waiting? || to.Aborting?
    case Paused => to.Running?
    case Ready => to.Standby? || to.Waiting? || to.Aborting?
    case Standby => to.Ready?
    case Waiting => to.Pending? || to.Aborting?
    case Pending => to.Aborting? || to.Concluded?
    case Aborting => to.Aborting? || to.Concluded?
    case Concluded => to.Null?
    case Null => false
  }

  /** The table read by columns: what can lead to each status. */
  lemma AllowedByColumns(from: Status, to: Status)
    ensures Allowed(from, to) <==>
            match to
            case Undefined => false
            case Created => from.Undefined?
            case Running => from.Created? || from.Paused?
            case Paused => from.Running?
            case Ready => from.Running? || from.Standby?
            case Standby => from.Ready?
            case Waiting => from.Running? || from.Ready?
            case Pending => from.Waiting?
            case Aborting => from.Created? || from.Running? || from.Ready? || from.Waiting? || from.Pending? || from.Aborting?
            case Concluded => from.Pending? || from.Aborting?
            case Null => from.Created? || from.Concluded?
    ensures Allowed(from, to) && Completed(from) ==> Completed(to)
  {}

  /** JobVerbTable, the verbs that change a status or a transaction */
  predicate Accepts(s: Status, verb: Verb) {
    match verb
    case CancelVerb => s.Created? || s.Running? || s.Paused? || s.Ready? || s.Standby? || s.Waiting? || s.Pending?
    case FinalizeVerb => s.Pending?
    case DismissVerb => s.Concluded?
  }

  /** job_is_completed_locked */
  predicate Completed(s: Status) { s.Waiting? || s.Pending? || s.Aborting? || s.Concluded? || s.Null? }

  /** What the verbs are for: a job can be cancelled until it aborts or concludes, finalized where it
      may conclude with success, and dismissed where only dismissal is left. */
  lemma VerbTable(s: Status)
    ensures Accepts(s, CancelVerb) <==> !s.Undefined? && !s.Aborting? && !s.Concluded? && !s.Null?
    ensures Accepts(s, FinalizeVerb) <==> Allowed(s, Concluded) && !s.Aborting?
    ensures Accepts(s, DismissVerb) <==> Completed(s) && Allowed(s, Null)
  {}

  /** job_is_ready_locked */
  predicate IsReady(s: Status) { s.Ready? || s.Standby? }

  type TxnId = nat

  const ECANCELED: int := -125

  /** The job's coroutine: not created, running driver code, yielded at a pause point that will
      restore a status, returned with job_exit scheduled, or finished with job_exit done. */
  datatype Coroutine = NotStarted | InDriver | Yielded(saved: Status) | Returned | Finished

  datatype Outcome = Commit | Abort

  /** `ok` is false once an assertion of the code has failed. `inTxn` is job->txn != NULL; the
      transaction is remembered when the job leaves it. `finals` are the driver callbacks that
      finalized the job. */
  datatype Job = Job(
    status: Status, co: Coroutine, ret: int, cancelled: bool, force: bool, readied: bool,
    autoFinalize: bool, autoDismiss: bool, txn: TxnId, inTxn: bool, finals: seq<Outcome>, ok: bool)

  /** job_started_locked */
  predicate Started(x: Job) { !x.co.NotStarted? }

  /** job->deferred_to_main_loop */
  predicate Deferred(x: Job) { x.co.Returned? || x.co.Finished? }

  function Check(x: Job, b: bool): Job { x.(ok := x.ok && b) }

  /** job_state_transition_locked */
  function Go(x: Job, s: Status): Job { x.(status := s, ok := x.ok && Allowed(x.status, s)) }

  /** job_create */
  function NewJob(t: TxnId, autoFinalize: bool, autoDismiss: bool): Job {
    Go(Job(Undefined, NotStarted, 0, false, false, false, autoFinalize, autoDismiss, t, true, [], true), Created)
  }

  /** job_start */
  function Begin(x: Job): Job { Go(Check(x, !Started(x)), Running).(co := InDriver) }

  /** The two halves of job_pause_point_locked. */
  function Pause(x: Job): Job {
    Go(x, if x.status.Ready? then Standby else Paused).(co := Yielded(x.status))
  }

  function Unpause(x: Job): Job
    requires x.co.Yielded?
  {
    Go(x, x.co.saved).(co := InDriver)
  }

  /** job_transition_to_ready */
  function BecomeReady(x: Job): Job { Go(x, Ready).(readied := true) }

  /** The end of job_co_entry. */
  function RunEnds(x: Job, result: int): Job { x.(ret := result, co := Returned) }

  /** job_update_rc_locked */
  function UpdateRc(x: Job): (r: Job)
    ensures r.txn == x.txn && (r.ret == 0 <==> x.ret == 0 && !x.force)
  {
    var y := Check(x, x.cancelled || !x.force);
    if x.ret == 0 && !x.force then y
    else Go(y.(ret := if x.ret == 0 then ECANCELED else x.ret), Aborting)
  }

  /** job_cancel_async_locked; `drv` is what the driver's cancel returns, true without one. */
  function CancelAsync(x: Job, drv: bool): Job {
    if drv || !Deferred(x) then x.(cancelled := true, force := x.force || drv) else x
  }

  /** What the drivers promise about cancel. */
  predicate CancelContract(x: Job, force: bool, drv: bool) { force || !IsReady(x.status) ==> drv }

  /** job_do_dismiss_locked */
  function DoDismiss(x: Job): Job { Go(x, Null).(inTxn := false) }

  /** job_conclude_locked */
  function Conclude(x: Job): Job {
    if x.autoDismiss || !Started(x) then DoDismiss(Go(x, Concluded)) else Go(x, Concluded)
  }

  /** job_commit or job_abort, and job_txn_del_job_locked */
  function Finalized(x: Job, how: Outcome): Job { x.(finals := x.finals + [how], inTxn := false) }

  /** job_finalize_single_locked */
  function FinalizeSingle(x: Job): Job {
    var y := UpdateRc(Check(x, Completed(x.status)));
    Conclude(Finalized(y, if y.ret == 0 then Commit else Abort))
  }

  /** job_prepare_locked; `result` is what the driver's prepare returns, None without one. */
  function Prepare(x: Job, result: Option<int>): Job {
    if x.ret == 0 && result.Some? then UpdateRc(x.(ret := result.value)) else x
  }
}
