/** Pausing a block job (engine/qemu-wasm/job.c, engine/qemu-wasm/blockjob.c): the count of reasons
    to pause and the I/O status that goes with a pause made by an error. */
module JobPause {
  import opened JobStates

  datatype IoStatus = IoOk | IoFailed | IoNoSpace

  datatype OnError = OnReport | OnIgnore | OnEnospc | OnAuto | OnStop

  datatype ErrorAction = ActReport | ActIgnore | ActStop

  const ENOSPC: int := 28

  /** JobVerbTable, JOB_VERB_PAUSE and JOB_VERB_RESUME */
  predicate AcceptsPause(s: Status) { s.Created? || s.Running? || s.Paused? || s.Ready? || s.Standby? }

  /** What a pause count consists of: a job that has not started, the user, the drained sections of
      its nodes. */
  function Reasons(started: bool, userPaused: bool, drains: nat): nat {
    (if started then 0 else 1) + (if userPaused then 1 else 0) + drains
  }

  class BlockJob {
    var status: Status
    var started: bool
    var pauseCount: int
    var userPaused: bool
    var iostatus: IoStatus
    ghost var drains: nat

    ghost predicate Valid()
      reads this
    {
      pauseCount == Reasons(started, userPaused, drains) && (iostatus != IoOk ==> userPaused)
    }

    /** job_create */
    constructor ()
      ensures Valid() && status == Created && !started && !userPaused && drains == 0 && iostatus == IoOk
    {
      status, started, pauseCount, userPaused, iostatus := Created, false, 1, false, IoOk;
      drains := 0;
    }

    /** job_should_pause_locked: there is a reason to. */
    method ShouldPause() returns (b: bool)
      requires Valid()
      ensures b <==> !started || userPaused || drains > 0
    {
      b := pauseCount > 0;
    }

    /** job_start; its pause count was 1 unless somebody else wants the job paused. */
    method Start()
      requires Valid() && !started && status == Created
      modifies this
      ensures Valid() && started && status == Running
      ensures userPaused == old(userPaused) && drains == old(drains) && iostatus == old(iostatus)
    {
      started := true;
      pauseCount := pauseCount - 1;
      status := Running;
    }

    /** job_resume_locked, on behalf of one reason that is gone */
    method Resume()
      requires pauseCount == Reasons(started, userPaused, drains) + 1 && (iostatus != IoOk ==> userPaused)
      modifies this`pauseCount
      ensures Valid()
    {
      assert pauseCount > 0;
      pauseCount := pauseCount - 1;
    }

    /** job_user_pause_locked */
    method UserPause() returns (ok: bool)
      requires Valid()
      modifies this`userPaused, this`pauseCount
      ensures Valid() && ok == (AcceptsPause(status) && !old(userPaused)) && userPaused == (ok || old(userPaused))
    {
      if !AcceptsPause(status) {
        return false;
      }
      if userPaused {
        return false;
      }
      userPaused := true;
      pauseCount := pauseCount + 1;
      return true;
    }

    /** block_job_iostatus_reset_locked */
    method IoStatusReset()
      requires Valid()
      modifies this`iostatus
      ensures Valid() && iostatus == IoOk
    {
      if iostatus == IoOk {
        return;
      }
      assert userPaused && pauseCount > 0;
      iostatus := IoOk;
    }

    /** job_user_resume_locked with block_job_user_resume */
    method UserResume() returns (ok: bool)
      requires Valid()
      modifies this`userPaused, this`pauseCount, this`iostatus
      ensures Valid() && ok == (old(userPaused) && AcceptsPause(status))
      ensures userPaused == (old(userPaused) && !ok) && iostatus == if ok then IoOk else old(iostatus)
    {
      if !userPaused || pauseCount <= 0 {
        return false;
      }
      if !AcceptsPause(status) {
        return false;
      }
      IoStatusReset();
      userPaused := false;
      Resume();
      return true;
    }

    /** child_job_drained_begin */
    method DrainedBegin()
      requires Valid()
      modifies this`pauseCount, this`drains
      ensures Valid() && drains == old(drains) + 1
    {
      pauseCount := pauseCount + 1;
      drains := drains + 1;
    }

    /** child_job_drained_end */
    method DrainedEnd()
      requires Valid() && drains > 0
      modifies this`pauseCount, this`drains
      ensures Valid() && drains == old(drains) - 1
    {
      drains := drains - 1;
      Resume();
    }

    /** The part of job_cancel_async_locked that ends a user's pause. */
    method CancelEndsPause()
      requires Valid()
      modifies this`userPaused, this`pauseCount, this`iostatus
      ensures Valid() && !userPaused && iostatus == IoOk
    {
      if userPaused {
        IoStatusReset();
        userPaused := false;
        assert pauseCount > 0;
        pauseCount := pauseCount - 1;
      }
    }

    /** block_job_error_action: an error that stops the job pauses it like a user would, and keeps
        the first error as the I/O status. */
    method HandleError(onErr: OnError, error: int) returns (action: ErrorAction)
      requires Valid()
      modifies this`userPaused, this`pauseCount, this`iostatus
      ensures Valid()
      ensures action == ActStop <==> onErr == OnStop || ((onErr == OnEnospc || onErr == OnAuto) && error == ENOSPC)
      ensures action == ActIgnore <==> onErr == OnIgnore
      ensures userPaused == (old(userPaused) || action == ActStop)
      ensures iostatus == if action == ActStop && old(iostatus) == IoOk
                          then (if error == ENOSPC then IoNoSpace else IoFailed) else old(iostatus)
    {
      match onErr {
        case OnEnospc | OnAuto =>
          action := if error == ENOSPC then ActStop else ActReport;
        case OnStop =>
          action := ActStop;
        case OnReport =>
          action := ActReport;
        case OnIgnore =>
          action := ActIgnore;
      }
      if action == ActStop {
        if !userPaused {
          pauseCount := pauseCount + 1;
          userPaused := true;
        }
        if iostatus == IoOk {
          iostatus := if error == ENOSPC then IoNoSpace else IoFailed;
        }
      }
    }
  }
}
