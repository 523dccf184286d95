/** Pausing a block job (job.c, blockjob.c): the user, an I/O error and any number of drained
    sections share one pause counter.

    Everything done under the job mutex is one method.  The coroutine and the main loop call
    them in any order that the preconditions allow. */
module JobPause {
  import opened Options

  /** Where the job's coroutine is: not created yet, running driver code, in a sleep or yield
      of the driver, stopped at a pause point, or returned. */
  datatype Coroutine = NotStarted | InDriver | Asleep | AtPause | Returned

  /** The I/O status of a block job, and what its error policies and their decisions are. */
  datatype IoStatus = IoOk | IoFailed | IoNoSpace

  datatype OnError = OnReport | OnIgnore | OnEnospc | OnStop | OnAuto

  datatype ErrorAction = DoIgnore | DoReport | DoStop

  datatype PauseError = VerbNotAllowed | AlreadyPaused | NotPaused

  class BlockJob {
    var pauseCount: int
    var userPaused: bool
    var paused: bool
    var busy: bool
    var timer: bool
    var co: Coroutine
    var cancelled: bool
    var force: bool
    var completed: bool
    var ioStatus: IoStatus
    /** The drained sections that are open around the job's nodes. */
    ghost var drains: nat

    /** The pause counter is accounted for, an I/O error status stays visible as a user pause,
        and a job that is stopped at a pause point and not woken has a reason to be. */
    ghost predicate Valid()
      reads this
    {
      && pauseCount == (if co.NotStarted? then 1 else 0) + (if userPaused then 1 else 0) + drains
      && (!ioStatus.IoOk? ==> userPaused)
      && (paused <==> co.NotStarted? || co.AtPause?)
      && (co.AtPause? && !busy ==> pauseCount > 0)
      && (timer ==> co.Asleep? && !busy)
      && (co.InDriver? ==> busy) && (co.NotStarted? ==> !busy)
      && (force ==> cancelled)
    }

    /** What only cancellation and completion change. */
    twostate predicate SameFate()
      reads this
    {
      cancelled == old(cancelled) && force == old(force) && completed == old(completed)
    }

    /** What only the user and I/O errors change. */
    twostate predicate SameReasons()
      reads this
    {
      drains == old(drains) && userPaused == old(userPaused) && ioStatus == old(ioStatus)
    }

    /** job_create */
    constructor ()
      ensures Valid() && drains == 0 && co.NotStarted? && !userPaused && ioStatus.IoOk? && !cancelled && !completed
    {
      pauseCount, paused, busy, co := 1, true, false, NotStarted;
      userPaused, timer, cancelled, force, completed, ioStatus := false, false, false, false, false, IoOk;
      drains := 0;
    }

    /** job_start */
    method Start()
      requires Valid() && co.NotStarted?
      modifies this
      ensures Valid() && co.InDriver? && SameReasons() && SameFate()
    {
      co := InDriver;
      pauseCount := pauseCount - 1;
      busy, paused := true, false;
    }

    /** job_enter_cond_locked: a job that is waiting is woken, unless the condition forbids it. */
    method Enter(unlessTimer: bool)
      modifies `busy, `timer
      ensures busy == (old(busy) || (!co.NotStarted? && !co.Returned? && !(unlessTimer && old(timer))))
      ensures timer == (old(timer) && busy == old(busy))
    {
      if co.NotStarted? || co.Returned? || busy || (unlessTimer && timer) {
        return;
      }
      timer, busy := false, true;
    }

    /** job_pause_locked */
    method Pause()
      modifies `pauseCount, `busy, `timer
      ensures pauseCount == old(pauseCount) + 1
      ensures busy == (old(busy) || (!paused && !co.NotStarted? && !co.Returned?))
      ensures timer == (old(timer) && busy == old(busy))
    {
      pauseCount := pauseCount + 1;
      if !paused {
        Enter(false);
      }
    }

    /** job_resume_locked: whoever takes the last reason away wakes the job. */
    method Resume()
      requires pauseCount > 0
      modifies `pauseCount, `busy, `timer
      ensures pauseCount == old(pauseCount) - 1
      ensures busy == (old(busy) || (pauseCount == 0 && !co.NotStarted? && !co.Returned? && !old(timer)))
      ensures timer == old(timer)
    {
      assert pauseCount > 0;
      pauseCount := pauseCount - 1;
      if pauseCount != 0 {
        return;
      }
      Enter(true);
    }

    /** child_job_drained_begin */
    method DrainedBegin()
      requires Valid()
      modifies this
      ensures Valid() && drains == old(drains) + 1 && userPaused == old(userPaused) && ioStatus == old(ioStatus)
      ensures co == old(co) && paused == old(paused) && SameFate()
      ensures busy == (old(busy) || co.Asleep?) && timer == (old(timer) && !co.Asleep?)
    {
      drains := drains + 1;
      Pause();
    }

    /** child_job_drained_end */
    method DrainedEnd()
      requires Valid() && drains > 0
      modifies this
      ensures Valid() && drains == old(drains) - 1 && userPaused == old(userPaused) && ioStatus == old(ioStatus)
      ensures co == old(co) && paused == old(paused) && SameFate() && timer == old(timer)
      ensures busy == (old(busy) || (pauseCount == 0 && (co.AtPause? || (co.Asleep? && !timer))))
    {
      drains := drains - 1;
      Resume();
    }

    /** job_user_pause_locked */
    method UserPause() returns (err: Option<PauseError>)
      requires Valid()
      modifies this
      ensures Valid() && drains == old(drains) && co == old(co) && ioStatus == old(ioStatus) && SameFate()
      ensures err == if completed then Some(VerbNotAllowed) else if old(userPaused) then Some(AlreadyPaused) else None
      ensures userPaused == (old(userPaused) || err.None?)
      ensures busy == (old(busy) || (err.None? && co.Asleep?)) && timer == (old(timer) && busy == old(busy))
    {
      if completed {
        return Some(VerbNotAllowed);
      }
      if userPaused {
        return Some(AlreadyPaused);
      }
      userPaused := true;
      Pause();
      return None;
    }

    /** block_job_iostatus_reset_locked */
    method ResetIoStatus()
      requires !ioStatus.IoOk? ==> userPaused && pauseCount > 0
      modifies `ioStatus
      ensures ioStatus.IoOk?
    {
      if ioStatus.IoOk? {
        return;
      }
      assert userPaused && pauseCount > 0;
      ioStatus := IoOk;
    }

    /** job_user_resume_locked, with block_job_user_resume.  The counter is never the reason for
        refusing. */
    method UserResume() returns (err: Option<PauseError>)
      requires Valid()
      modifies this
      ensures Valid() && drains == old(drains) && co == old(co) && SameFate() && timer == old(timer)
      ensures err == if !old(userPaused) then Some(NotPaused) else if completed then Some(VerbNotAllowed) else None
      ensures err.None? ==> !userPaused && ioStatus.IoOk?
      ensures err.Some? ==> userPaused == old(userPaused) && ioStatus == old(ioStatus)
      ensures busy == (old(busy) || (err.None? && pauseCount == 0 && (co.AtPause? || (co.Asleep? && !timer))))
    {
      if !userPaused || pauseCount <= 0 {
        return Some(NotPaused);
      }
      if completed {
        return Some(VerbNotAllowed);
      }
      ResetIoStatus();
      userPaused := false;
      Resume();
      return None;
    }

    /** block_job_error_action: a stop is a user pause, and the first error stays visible until
        the user resumes. */
    method HandleError(onError: OnError, noSpace: bool) returns (action: ErrorAction)
      requires Valid()
      modifies this
      ensures Valid() && drains == old(drains) && co == old(co) && SameFate()
      ensures busy == (old(busy) || (action.DoStop? && !old(userPaused) && co.Asleep?))
      ensures timer == (old(timer) && busy == old(busy))
      ensures action.DoStop? <==> onError.OnStop? || ((onError.OnEnospc? || onError.OnAuto?) && noSpace)
      ensures action.DoIgnore? <==> onError.OnIgnore?
      ensures userPaused == (old(userPaused) || action.DoStop?)
      ensures ioStatus == if action.DoStop? && old(ioStatus).IoOk? then (if noSpace then IoNoSpace else IoFailed)
              else old(ioStatus)
    {
      action := match onError
        case OnEnospc => if noSpace then DoStop else DoReport
        case OnAuto => if noSpace then DoStop else DoReport
        case OnStop => DoStop
        case OnReport => DoReport
        case OnIgnore => DoIgnore;
      if action.DoStop? {
        if !userPaused {
          Pause();
          userPaused := true;
        }
        if ioStatus.IoOk? {
          ioStatus := if noSpace then IoNoSpace else IoFailed;
        }
      }
    }

    /** job_cancel_async_locked, where forced is what .cancel returned, with the entering of the
        job that its callers do next. */
    method Cancel(forced: bool)
      requires Valid()
      modifies this
      ensures Valid() && drains == old(drains) && co == old(co) && !userPaused && ioStatus.IoOk?
      ensures force == (old(force) || forced) && completed == old(completed)
      ensures cancelled == (old(cancelled) || forced || !co.Returned?)
      ensures busy == (old(busy) || co.AtPause? || co.Asleep?) && timer == (old(timer) && busy == old(busy))
    {
      if userPaused {
        ResetIoStatus();
        userPaused := false;
        assert pauseCount > 0;
        pauseCount := pauseCount - 1;
      }
      if forced || !co.Returned? {
        cancelled := true;
        force := force || forced;
      }
      Enter(false);
    }

    /** job_sleep_ns and job_yield up to the yield. */
    method Sleep(withTimer: bool) returns (slept: bool)
      requires Valid() && co.InDriver?
      modifies this
      ensures Valid() && SameReasons() && SameFate()
      ensures slept <==> !force && pauseCount == 0
      ensures co == if slept then Asleep else InDriver
      ensures busy == !slept && timer == (slept && withTimer)
    {
      if force || pauseCount > 0 {
        return false;
      }
      co, busy, timer := Asleep, false, withTimer;
      return true;
    }

    /** job_sleep_timer_cb */
    method TimerFires()
      requires Valid() && timer
      modifies this
      ensures Valid() && busy && !timer && co == old(co) && SameReasons() && SameFate()
    {
      timer := false;
      Enter(false);
    }

    /** job_pause_point_locked up to the yield: the job stops if it has to and is not cancelled. */
    method PausePoint() returns (stopped: bool)
      requires Valid() && co.InDriver?
      modifies this
      ensures Valid() && SameReasons() && SameFate()
      ensures stopped <==> !force && pauseCount > 0
      ensures co == if stopped then AtPause else InDriver
      ensures busy == !stopped
    {
      if pauseCount <= 0 || force {
        return false;
      }
      co, paused, busy := AtPause, true, false;
      return true;
    }

    /** The coroutine goes on after it was woken. */
    method Wake()
      requires Valid() && busy && (co.Asleep? || co.AtPause?)
      modifies this
      ensures Valid() && co.InDriver? && !paused && SameReasons() && SameFate()
    {
      co, paused := InDriver, false;
    }

    /** .run returns. */
    method Return()
      requires Valid() && co.InDriver?
      modifies this
      ensures Valid() && co.Returned? && busy && SameReasons() && SameFate()
    {
      co := Returned;
    }

    /** job_exit, after which the job counts as completed. */
    method Exit()
      requires Valid() && co.Returned?
      modifies this
      ensures Valid() && completed && !busy && co == old(co) && SameReasons()
      ensures cancelled == old(cancelled) && force == old(force)
    {
      busy, completed := false, true;
    }
  }
}
