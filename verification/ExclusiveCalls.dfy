/** The protocol of engine/qemu-wasm/cpu-common.c seen as calls: which of start_exclusive,
    end_exclusive, cpu_exec_start and cpu_exec_end every step of a run belongs to. How deep a CPU
    is nested is then a matter of the calls it has made. */
module ExclusiveCalls {
  import opened Options
  import opened ExclusiveSections

  datatype Call = StartCall | EndCall | ExecCall | LeaveCall | Wakeup

  /** A step of CPU `cpu` inside the call `call`. */
  datatype Act = Act(cpu: nat, call: Call)

  function MoveOf(call: Call, c: Cpu, p: int): Move {
    match call
    case StartCall => StartStep(c, p)
    case EndCall => EndStep(c, p)
    case ExecCall => ExecStep(c, p)
    case LeaveCall => LeaveStep(c, p)
    case Wakeup => No
  }

  ghost predicate Did(s: World, a: Act, s': World) {
    if a.call.Wakeup? then SpuriousStep(s, a.cpu, s')
    else exists m ::
      && Step(s, a.cpu, m, s')
      && if s.cpus[a.cpu].pc.Scan? then a.call.StartCall? else m == MoveOf(a.call, s.cpus[a.cpu], s.pending)
  }

  /** A run together with the call that each of its steps belongs to. */
  ghost predicate IsHistory(run: seq<World>, acts: seq<Act>) {
    && |run| == |acts| + 1 && Init(run[0])
    && forall k | 0 <= k < |acts| :: Did(run[k], acts[k], run[k + 1])
  }

  // --- calls ---

  /** In this step a start_exclusive of CPU `i` returns: the CPU is in a section afterwards. */
  ghost predicate StartReturns(a: Act, s': World, i: nat) {
    a == Act(i, StartCall) && i < |s'.cpus| && s'.cpus[i].pc.Exclusive?
  }

  /** With this step CPU `i`, in a section, calls end_exclusive. */
  ghost predicate EndBegins(s: World, a: Act, i: nat) {
    a == Act(i, EndCall) && i < |s.cpus| && s.cpus[i].pc.Exclusive?
  }

  /** The calls of start_exclusive by CPU `i` that have returned after `n` steps, less its calls of
      end_exclusive. */
  ghost function Open(run: seq<World>, acts: seq<Act>, n: nat, i: nat): int
    requires |run| == |acts| + 1 && n <= |acts|
  {
    if n == 0 then 0
    else Open(run, acts, n - 1, i)
         + (if StartReturns(acts[n - 1], run[n], i) then 1 else 0)
         - (if EndBegins(run[n - 1], acts[n - 1], i) then 1 else 0)
  }

  // --- one step ---

  lemma ActIsStep(s: World, a: Act, s': World)
    requires Did(s, a, s')
    ensures Next(s, s')
  {}

  lemma StepIsAct(s: World, s': World) returns (a: Act)
    requires Next(s, s')
    ensures Did(s, a, s')
  {
    if i: nat, m: Move :| Step(s, i, m, s') {
      var c, p := s.cpus[i], s.pending;
      a := Act(i, if c.pc.Scan? || m == StartStep(c, p) then StartCall
                  else if m == EndStep(c, p) then EndCall
                  else if m == ExecStep(c, p) then ExecCall else LeaveCall);
    } else {
      var i: nat :| SpuriousStep(s, i, s');
      a := Act(i, Wakeup);
    }
  }

  /** A step of another CPU leaves the nesting alone, and the program counter too unless the CPU
      is asleep. */
  lemma OthersStep(s: World, a: Act, s': World, i: nat)
    requires Did(s, a, s') && i < |s.cpus| && a.cpu != i
    ensures |s'.cpus| == |s.cpus| && s'.cpus[i].count == s.cpus[i].count
    ensures s'.cpus[i].pc == s.cpus[i].pc || s'.cpus[i].pc == Woken(s.cpus[i].pc)
  {}

  /** A step of the CPU's own changes its nesting by the call it makes or returns from. */
  lemma OwnStep(s: World, o: Option<nat>, a: Act, s': World)
    requires InvFor(s, o) && Did(s, a, s')
    ensures a.cpu < |s.cpus| == |s'.cpus|
    ensures s'.cpus[a.cpu].count == s.cpus[a.cpu].count
                                    + (if StartReturns(a, s', a.cpu) then 1 else 0)
                                    - (if EndBegins(s, a, a.cpu) then 1 else 0)
  {
    hide LockInv, OwnerInv, CountInv, PeersMove;
    assert CpuInv(s, o, a.cpu);
  }

  /** Inside the call, after its first step and before its last. */
  predicate Within(call: Call, pc: PC) {
    match call
    case StartCall => InStart(pc)
    case EndCall => InEnd(pc)
    case ExecCall => InExec(pc)
    case LeaveCall => InLeave(pc)
    case Wakeup => false
  }

  /** Where the call can be made. */
  predicate MayCall(call: Call, pc: PC) {
    match call
    case StartCall => pc.Outside? || pc.Exclusive?
    case EndCall => pc.Exclusive?
    case ExecCall => pc.Outside? || pc.Exclusive?
    case LeaveCall => pc.Executing?
    case Wakeup => false
  }

  /** Where the call ends that was made, or is about to end, at `pc`. */
  predicate Ends(call: Call, pc: PC, pc': PC) {
    match call
    case StartCall => pc'.Exclusive? && (pc.Enter? || pc.Exclusive?)
    case EndCall => (pc'.Outside? && pc.EndUnlock?) || (pc'.Exclusive? && pc.Exclusive?)
    case ExecCall => (pc'.Executing? && (pc.ExecRead? || pc.ExecUnlock?)) || (pc'.Exclusive? && pc.Exclusive?)
    case LeaveCall => pc'.Outside? && (pc.LeaveRead? || pc.LeaveUnlock?)
    case Wakeup => false
  }

  /** A call once made runs to its end: each of its steps starts where the call is made or inside
      it, and stays inside it or ends it. The two calls around guest code take the lock only if a
      section is pending, and a CPU sleeps only while what it waits for has not happened. */
  lemma CallsRunToTheirEnd(s: World, a: Act, s': World)
    requires Did(s, a, s') && !a.call.Wakeup?
    ensures a.cpu < |s.cpus| == |s'.cpus|
    ensures var pc, pc' := s.cpus[a.cpu].pc, s'.cpus[a.cpu].pc;
            && (MayCall(a.call, pc) || Within(a.call, pc))
            && (Within(a.call, pc') || Ends(a.call, pc, pc'))
            && (pc.ExecRead? ==> s'.lock == s.lock && (pc'.Executing? <==> s.pending == 0))
            && (pc.LeaveRead? ==> s'.lock == s.lock && (pc'.Outside? <==> s.pending == 0))
            && (pc.StartIdle? || pc.ExecIdle? ==> (OnResume(pc') <==> s.pending != 0))
            && (pc.WaitTest? ==> (pc'.WaitSleep? <==> s.pending > 1))
  {
    hide PeersMove;
  }

  /** The step of CPU `i`, which leaves the others and the lock alone. */
  lemma CanDo(s: World, i: nat, call: Call) returns (s': World)
    requires i < |s.cpus| && !s.cpus[i].pc.Scan? && !s.cpus[i].pc.EndBroadcast? && !s.cpus[i].pc.LeaveSignal?
    requires var m := MoveOf(call, s.cpus[i], s.pending); m.Move? && m.op == Keep
    ensures Did(s, Act(i, call), s')
  {
    var m := MoveOf(call, s.cpus[i], s.pending);
    s' := Put(s, i, m.cpu).(pending := m.pending);
    assert Step(s, i, m, s');
  }

  /** Which calls a CPU can make at once: outside, both ways in; in guest code, the way out; in a
      section, another start_exclusive, and end_exclusive unless it still counts as running. */
  lemma CallsOffered(s: World, i: nat)
    requires i < |s.cpus|
    ensures s.cpus[i].pc.Outside? ==> exists s' :: Did(s, Act(i, StartCall), s')
    ensures s.cpus[i].pc.Outside? ==> exists s' :: Did(s, Act(i, ExecCall), s')
    ensures s.cpus[i].pc.Executing? ==> exists s' :: Did(s, Act(i, LeaveCall), s')
    ensures s.cpus[i].pc.Exclusive? ==> exists s' :: Did(s, Act(i, StartCall), s')
    ensures s.cpus[i].pc.Exclusive? && !s.cpus[i].running ==> exists s' :: Did(s, Act(i, EndCall), s')
  {
    hide Did;
    var pc := s.cpus[i].pc;
    if pc.Outside? || pc.Exclusive? { var _ := CanDo(s, i, StartCall); }
    if pc.Outside? { var _ := CanDo(s, i, ExecCall); }
    if pc.Executing? { var _ := CanDo(s, i, LeaveCall); }
    if pc.Exclusive? && !s.cpus[i].running { var _ := CanDo(s, i, EndCall); }
  }

  // --- histories ---

  lemma {:induction false} HistoryIsRun(run: seq<World>, acts: seq<Act>)
    requires IsHistory(run, acts)
    ensures IsRun(run)
  {
    forall k | 0 <= k < |run| - 1 ensures Next(run[k], run[k + 1]) {
      ActIsStep(run[k], acts[k], run[k + 1]);
    }
  }

  /** Every run is the run of some calls. */
  lemma {:induction false} RunHasHistory(run: seq<World>) returns (acts: seq<Act>)
    requires IsRun(run)
    ensures IsHistory(run, acts)
  {
    acts := [];
    for n := 0 to |run| - 1
      invariant |acts| == n
      invariant forall k | 0 <= k < n :: Did(run[k], acts[k], run[k + 1])
    {
      hide Did, Next;
      assert Next(run[n], run[n + 1]) by { NextAt(run, n); }
      var a := StepIsAct(run[n], run[n + 1]);
      acts := acts + [a];
    }
  }

  lemma NextAt(run: seq<World>, n: nat)
    requires IsRun(run) && n + 1 < |run|
    ensures Next(run[n], run[n + 1])
  {}

  /** exclusive_context_count is the number of sections that the CPU has open: it counts calls,
      whatever the other CPUs do, and the CPU is in a section exactly while the number is not zero. */
  lemma {:induction false} CountIsOpenCalls(run: seq<World>, acts: seq<Act>, n: nat, i: nat)
    requires IsHistory(run, acts) && n < |run| && i < |run[0].cpus|
    ensures |run[n].cpus| == |run[0].cpus|
    ensures Open(run, acts, n, i) == run[n].cpus[i].count
    ensures run[n].cpus[i].pc.Exclusive? <==> Open(run, acts, n, i) > 0
  {
    HistoryIsRun(run, acts);
    var o := RunKeeps(run, n);
    if n > 0 {
      hide InvFor, Did;
      CountIsOpenCalls(run, acts, n - 1, i);
      var before := RunKeeps(run, n - 1);
      assert Did(run[n - 1], acts[n - 1], run[n - 1 + 1]);
      if acts[n - 1].cpu == i { OwnStep(run[n - 1], before, acts[n - 1], run[n]); }
      else { OthersStep(run[n - 1], acts[n - 1], run[n], i); }
    }
    SectionMeansCount(run[n], o, i);
  }

  lemma SectionMeansCount(s: World, o: Option<nat>, i: nat)
    requires InvFor(s, o) && i < |s.cpus|
    ensures s.cpus[i].count > 0 <==> s.cpus[i].pc.Exclusive?
    ensures s.cpus[i].count > 0 ==> s.pending == 1
  {
    assert CpuInv(s, o, i);
  }

  ghost predicate OthersStopped(s: World, i: nat) {
    forall j: nat | j < |s.cpus| && j != i :: Stopped(s.cpus[j])
  }

  /** In every state in which a CPU has a section open, all the others are stopped. */
  lemma OpenSectionIsAlone(run: seq<World>, acts: seq<Act>, n: nat, i: nat)
    requires IsHistory(run, acts) && n < |run| && i < |run[0].cpus| && Open(run, acts, n, i) > 0
    ensures |run[n].cpus| == |run[0].cpus| && run[n].cpus[i].pc.Exclusive? && run[n].pending == 1
    ensures OthersStopped(run[n], i)
    ensures forall j: nat | j < |run[n].cpus| && j != i :: Open(run, acts, n, j) == 0
  {
    hide InvFor, Init, Did, Open, Stopped;
    HistoryIsRun(run, acts);
    CountIsOpenCalls(run, acts, n, i);
    var o := RunKeeps(run, n);
    SectionMeansCount(run[n], o, i);
    forall j: nat | j < |run[n].cpus| && j != i ensures Stopped(run[n].cpus[j]) && Open(run, acts, n, j) == 0 {
      MutualExclusion(run, n, i, j);
      CountIsOpenCalls(run, acts, n, j);
      StoppedIsOut(run[n].cpus[j]);
    }
  }

  lemma StoppedIsOut(c: Cpu)
    requires Stopped(c)
    ensures c.count == 0
  {}

  /** A nested end_exclusive closes one section and keeps the others stopped. */
  lemma NestedEndKeepsSection(run: seq<World>, acts: seq<Act>, n: nat, i: nat)
    requires IsHistory(run, acts) && n < |acts| && i < |run[0].cpus|
    requires acts[n] == Act(i, EndCall) && Open(run, acts, n, i) > 1
    ensures Open(run, acts, n + 1, i) == Open(run, acts, n, i) - 1
    ensures |run[n + 1].cpus| == |run[0].cpus| && run[n + 1].cpus[i].pc.Exclusive? && run[n + 1].pending == 1
    ensures OthersStopped(run[n + 1], i)
  {
    hide Did, Init, OthersStopped;
    CountIsOpenCalls(run, acts, n, i);
    OpenSectionIsAlone(run, acts, n + 1, i);
  }

  // --- the end of a section ---

  predicate Ending(pc: PC) { pc.EndLock? || pc.EndReset? }

  /** A CPU comes to the end of end_exclusive by a call in a section, with one section open. */
  lemma ComesToEnding(s: World, o: Option<nat>, a: Act, s': World, i: nat)
    requires InvFor(s, o) && Did(s, a, s') && i < |s.cpus| == |s'.cpus| && Ending(s'.cpus[i].pc)
    ensures Ending(s.cpus[i].pc) || (EndBegins(s, a, i) && s.cpus[i].count == 1)
  {
    hide LockInv, OwnerInv, CountInv;
    assert CpuInv(s, o, i);
    if a.cpu != i { OthersStep(s, a, s', i); }
  }

  /** The step that takes pending_cpus to zero is the one of end_exclusive. */
  lemma OnlyEndResets(s: World, o: Option<nat>, a: Act, s': World)
    requires InvFor(s, o) && Did(s, a, s') && s.pending != 0 && s'.pending == 0
    ensures a.call.EndCall? && a.cpu < |s.cpus| && s.cpus[a.cpu].pc.EndReset?
  {
    assert CpuInv(s, o, a.cpu);
    PendingZero(s.cpus);
  }

  /** The call that a CPU in the last part of end_exclusive is in. */
  lemma {:induction false} EndingSince(run: seq<World>, acts: seq<Act>, n: nat, i: nat) returns (k: nat)
    requires IsHistory(run, acts) && n < |run| && i < |run[0].cpus|
    requires |run[n].cpus| == |run[0].cpus| && Ending(run[n].cpus[i].pc)
    ensures k < n && EndBegins(run[k], acts[k], i) && Open(run, acts, k, i) == 1
    ensures forall m: nat | k < m <= n :: Open(run, acts, m, i) == 0
  {
    hide InvFor, IsHistory, IsRun, Did, Open, Ending, EndBegins;
    HistoryIsRun(run, acts);
    CountIsOpenCalls(run, acts, n, i);
    EndingIsLater(run, acts, n, i);
    CountIsOpenCalls(run, acts, n - 1, i);
    var o := RunKeeps(run, n - 1);
    ComesToEnding(run[n - 1], o, acts[n - 1], run[n], i);
    if Ending(run[n - 1].cpus[i].pc) {
      k := EndingSince(run, acts, n - 1, i);
    } else {
      k := n - 1;
    }
  }

  lemma EndingIsLater(run: seq<World>, acts: seq<Act>, n: nat, i: nat)
    requires IsHistory(run, acts) && n < |run| && i < |run[n].cpus| && Ending(run[n].cpus[i].pc)
    ensures |run| == |acts| + 1 && 0 < n && Did(run[n - 1], acts[n - 1], run[n]) && !run[n].cpus[i].pc.Exclusive?
  {
    hide Did;
    assert n > 0 ==> Did(run[n - 1], acts[n - 1], run[n - 1 + 1]);
  }

  /** pending_cpus goes back to zero only inside an end_exclusive that left its CPU no open section:
      the outermost one. */
  lemma SectionEndsWithOutermostCall(run: seq<World>, acts: seq<Act>, n: nat) returns (i: nat, k: nat)
    requires IsHistory(run, acts) && n < |acts| && run[n].pending != 0 && run[n + 1].pending == 0
    ensures i < |run[0].cpus| && k < n && acts[n] == Act(i, EndCall)
    ensures EndBegins(run[k], acts[k], i) && Open(run, acts, k, i) == 1
    ensures forall m: nat | k < m <= n + 1 :: Open(run, acts, m, i) == 0
  {
    hide InvFor, Did, Open;
    HistoryIsRun(run, acts);
    var o := RunKeeps(run, n);
    assert Did(run[n], acts[n], run[n + 1]);
    OnlyEndResets(run[n], o, acts[n], run[n + 1]);
    i := acts[n].cpu;
    SameCpus(run, n);
    k := EndingSince(run, acts, n, i);
    NothingOpens(run, acts, n, i);
  }

  lemma {:induction false} SameCpus(run: seq<World>, n: nat)
    requires IsRun(run) && n < |run|
    ensures |run[n].cpus| == |run[0].cpus|
  {
    if n > 0 {
      SameCpus(run, n - 1);
      NextAt(run, n - 1);
    }
  }

  lemma NothingOpens(run: seq<World>, acts: seq<Act>, n: nat, i: nat)
    requires IsHistory(run, acts) && n < |acts| && acts[n] == Act(i, EndCall)
    requires i < |run[n].cpus| && !run[n].cpus[i].pc.Exclusive?
    ensures Open(run, acts, n + 1, i) == Open(run, acts, n, i)
  {}
}
