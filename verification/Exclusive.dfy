/** The stop-the-world protocol of engine/qemu-wasm/cpu-common.c: exclusive sections
    (start_exclusive/end_exclusive) against guest execution (cpu_exec_start/cpu_exec_end).

    Every virtual CPU is driven by one thread, whose position in the four functions is its
    program counter. A step is one access to state that another thread may read or write without
    the list lock (`pending_cpus`, `running`) or one operation on the lock or a condition
    variable; accesses to `has_waiter` happen only under the lock and ride along. Shared accesses
    are sequentially consistent, which is what the smp_mb() pairs are for. */
module ExclusiveSections {
  import opened Options

  datatype PC =
    | Outside                       // neither in cpu_exec nor in an exclusive section
      // start_exclusive
    | StartLock                     // qemu_mutex_lock
    | StartIdle                     // exclusive_idle: test pending_cpus
    | StartIdleSleep                // exclusive_idle: asleep on exclusive_resume
    | StartIdleWake                 // exclusive_idle: woken, retaking the lock
    | Mark                          // pending_cpus = 1
    | Scan(next: nat, seen: nat)    // CPU_FOREACH, then pending_cpus = running_cpus + 1
    | WaitTest                      // while (pending_cpus > 1)
    | WaitSleep                     // asleep on exclusive_cond
    | WaitWake                      // woken, retaking the lock
    | StartUnlock
    | Enter                         // exclusive_context_count = 1
    | Exclusive                     // start_exclusive has returned
      // end_exclusive
    | EndLock
    | EndReset                      // pending_cpus = 0
    | EndBroadcast                  // wake the sleepers on exclusive_resume
    | EndUnlock
      // cpu_exec_start
    | ExecRead                      // running is set; read pending_cpus
    | ExecLock
    | ExecCheck                     // read has_waiter
    | ExecYield                     // running = false
    | ExecIdle
    | ExecIdleSleep
    | ExecIdleWake
    | ExecRestart                   // running = true again
    | ExecUnlock
    | Executing                     // cpu_exec_start has returned
      // cpu_exec_end
    | LeaveRead                     // running is clear; read pending_cpus
    | LeaveLock
    | LeaveCheck                    // read and clear has_waiter
    | LeaveDec                      // pending_cpus - 1
    | LeaveSignal                   // if (pending_cpus == 1) signal exclusive_cond
    | LeaveUnlock

  datatype Cpu = Cpu(pc: PC, running: bool, hasWaiter: bool, count: nat)

  datatype World = World(cpus: seq<Cpu>, pending: int, lock: Option<nat>)

  // --- one thread's program, on its own record ---

  datatype LockOp = Keep | Take | Drop

  /** A move of one thread: its lock operation, its record and pending_cpus afterwards. */
  datatype Move = No | Move(op: LockOp, cpu: Cpu, pending: int)

  function At(c: Cpu, pc: PC): Cpu { c.(pc := pc) }

  function StartStep(c: Cpu, p: int): Move {
    match c.pc
    case Outside => Move(Keep, At(c, StartLock), p)
    case StartLock => Move(Take, At(c, StartIdle), p)
    case StartIdle => if p != 0 then Move(Drop, At(c, StartIdleSleep), p) else Move(Keep, At(c, Mark), p)
    case StartIdleWake => Move(Take, At(c, StartIdle), p)
    case Mark => Move(Keep, At(c, Scan(0, 0)), 1)
    case WaitTest => if p > 1 then Move(Drop, At(c, WaitSleep), p) else Move(Keep, At(c, StartUnlock), p)
    case WaitWake => Move(Take, At(c, WaitTest), p)
    case StartUnlock => Move(Drop, At(c, Enter), p)
    case Enter => Move(Keep, c.(pc := Exclusive, count := 1), p)
    case Exclusive => Move(Keep, c.(count := c.count + 1), p)        // nested call
    case _ => No
  }

  function EndStep(c: Cpu, p: int): Move {
    match c.pc
    case Exclusive =>
      if c.count > 1 then Move(Keep, c.(count := c.count - 1), p)
      else if c.running then No
      else Move(Keep, c.(pc := EndLock, count := 0), p)
    case EndLock => Move(Take, At(c, EndReset), p)
    case EndReset => Move(Keep, At(c, EndBroadcast), 0)
    case EndBroadcast => Move(Keep, At(c, EndUnlock), p)
    case EndUnlock => Move(Drop, At(c, Outside), p)
    case _ => No
  }

  function ExecStep(c: Cpu, p: int): Move {
    match c.pc
    case Outside => Move(Keep, c.(pc := ExecRead, running := true), p)
    case ExecRead => Move(Keep, At(c, if p != 0 then ExecLock else Executing), p)
    case ExecLock => Move(Take, At(c, ExecCheck), p)
    case ExecCheck => Move(Keep, At(c, if c.hasWaiter then ExecUnlock else ExecYield), p)
    case ExecYield => Move(Keep, c.(pc := ExecIdle, running := false), p)
    case ExecIdle => if p != 0 then Move(Drop, At(c, ExecIdleSleep), p) else Move(Keep, At(c, ExecRestart), p)
    case ExecIdleWake => Move(Take, At(c, ExecIdle), p)
    case ExecRestart => Move(Keep, c.(pc := ExecUnlock, running := true), p)
    case ExecUnlock => Move(Drop, At(c, Executing), p)
    // cpu_exec_step_atomic marks its own CPU as running inside the section
    case Exclusive => Move(Keep, c.(running := !c.running), p)
    case _ => No
  }

  function LeaveStep(c: Cpu, p: int): Move {
    match c.pc
    case Executing => Move(Keep, c.(pc := LeaveRead, running := false), p)
    case LeaveRead => Move(Keep, At(c, if p != 0 then LeaveLock else Outside), p)
    case LeaveLock => Move(Take, At(c, LeaveCheck), p)
    case LeaveCheck =>
      Move(Keep, if c.hasWaiter then c.(pc := LeaveDec, hasWaiter := false) else At(c, LeaveUnlock), p)
    case LeaveDec => Move(Keep, At(c, LeaveSignal), p - 1)
    case LeaveSignal => Move(Keep, At(c, LeaveUnlock), p)
    case LeaveUnlock => Move(Drop, At(c, Outside), p)
    case _ => No
  }

  predicate Local(c: Cpu, p: int, m: Move) {
    && m.Move?
    && (m == StartStep(c, p) || m == EndStep(c, p) || m == ExecStep(c, p) || m == LeaveStep(c, p))
  }

  // --- steps of the whole system ---

  predicate OnResume(pc: PC) { pc.StartIdleSleep? || pc.ExecIdleSleep? }

  /** A sleeper that was signalled, or woke spuriously, has to retake the lock. */
  function Woken(pc: PC): PC {
    match pc
    case StartIdleSleep => StartIdleWake
    case ExecIdleSleep => ExecIdleWake
    case WaitSleep => WaitWake
    case _ => pc
  }

  // --- which function a program counter is in ---

  predicate InStart(pc: PC) {
    || pc.StartLock? || pc.StartIdle? || pc.StartIdleSleep? || pc.StartIdleWake? || pc.Mark? || pc.Scan?
    || pc.WaitTest? || pc.WaitSleep? || pc.WaitWake? || pc.StartUnlock? || pc.Enter?
  }

  predicate InEnd(pc: PC) { pc.EndLock? || pc.EndReset? || pc.EndBroadcast? || pc.EndUnlock? }

  predicate InExec(pc: PC) {
    || pc.ExecRead? || pc.ExecLock? || pc.ExecCheck? || pc.ExecYield? || pc.ExecIdle? || pc.ExecIdleSleep?
    || pc.ExecIdleWake? || pc.ExecRestart? || pc.ExecUnlock?
  }

  predicate InLeave(pc: PC) {
    pc.LeaveRead? || pc.LeaveLock? || pc.LeaveCheck? || pc.LeaveDec? || pc.LeaveSignal? || pc.LeaveUnlock?
  }

  predicate LockMove(lock: Option<nat>, i: nat, op: LockOp, lock': Option<nat>) {
    match op
    case Keep => lock' == lock
    case Take => lock.None? && lock' == Some(i)
    case Drop => lock'.None?
  }

  /** What the step of CPU `i` does to the records of the other CPUs: end_exclusive's broadcast
      wakes every sleeper on exclusive_resume, and cpu_exec_end's signal wakes one sleeper on
      exclusive_cond if there is any. */
  ghost predicate PeersMove(s: World, i: nat, s': World)
    requires i < |s.cpus| == |s'.cpus|
  {
    match s.cpus[i].pc
    case EndBroadcast =>
      forall k | 0 <= k < |s.cpus| && k != i ::
        s'.cpus[k] == if OnResume(s.cpus[k].pc) then At(s.cpus[k], Woken(s.cpus[k].pc)) else s.cpus[k]
    case LeaveSignal =>
      if s.pending == 1 && exists k | 0 <= k < |s.cpus| :: s.cpus[k].pc.WaitSleep?
      then exists k | 0 <= k < |s.cpus| && k != i && s.cpus[k].pc.WaitSleep? ::
             s'.cpus[k] == At(s.cpus[k], WaitWake) && SameBut(s, s', i, k)
      else SameBut(s, s', i, i)
    case _ => SameBut(s, s', i, i)
  }

  ghost predicate SameBut(s: World, s': World, i: nat, j: nat) {
    && |s'.cpus| == |s.cpus|
    && forall k | 0 <= k < |s.cpus| && k != i && k != j :: s'.cpus[k] == s.cpus[k]
  }

  function Put(s: World, i: nat, c: Cpu): World
    requires i < |s.cpus|
  {
    s.(cpus := s.cpus[i := c])
  }

  /** One iteration of CPU_FOREACH in start_exclusive, or its end: flag the CPU if it is running,
      publish the count after the last one. */
  ghost predicate ScanStep(s: World, i: nat, s': World)
    requires i < |s.cpus| && s.cpus[i].pc.Scan?
  {
    var k, n := s.cpus[i].pc.next, s.cpus[i].pc.seen;
    if k >= |s.cpus| then
      s' == Put(s, i, At(s.cpus[i], WaitTest)).(pending := n + 1)
    else if s.cpus[k].running then
      var flagged := Put(s, k, s.cpus[k].(hasWaiter := true));
      s' == Put(flagged, i, At(flagged.cpus[i], Scan(k + 1, n + 1)))
    else
      s' == Put(s, i, At(s.cpus[i], Scan(k + 1, n)))
  }

  /** CPU `i` advances by itself. */
  ghost predicate Step(s: World, i: nat, m: Move, s': World) {
    && i < |s.cpus| == |s'.cpus|
    && if s.cpus[i].pc.Scan? then ScanStep(s, i, s')
       else && Local(s.cpus[i], s.pending, m)
            && s'.cpus[i] == m.cpu && s'.pending == m.pending
            && LockMove(s.lock, i, m.op, s'.lock)
            && PeersMove(s, i, s')
  }

  /** A condition variable may also wake a sleeper for no reason. */
  ghost predicate SpuriousStep(s: World, i: nat, s': World) {
    && i < |s.cpus| && Woken(s.cpus[i].pc) != s.cpus[i].pc
    && s' == Put(s, i, At(s.cpus[i], Woken(s.cpus[i].pc)))
  }

  ghost predicate Next(s: World, s': World) {
    || (exists i, m :: Step(s, i, m, s'))
    || (exists i :: SpuriousStep(s, i, s'))
  }

  predicate Init(s: World) {
    && s.pending == 0 && s.lock.None?
    && forall i | 0 <= i < |s.cpus| :: s.cpus[i] == Cpu(Outside, false, false, 0)
  }

  ghost predicate IsRun(run: seq<World>) {
    && |run| > 0 && Init(run[0])
    && forall k | 0 <= k < |run| - 1 :: Next(run[k], run[k + 1])
  }

  // --- the inductive invariant ---

  predicate HoldsLock(pc: PC) {
    match pc
    case StartIdle | Mark | Scan(_, _) | WaitTest | StartUnlock => true
    case EndReset | EndBroadcast | EndUnlock => true
    case ExecCheck | ExecYield | ExecIdle | ExecRestart | ExecUnlock => true
    case LeaveCheck | LeaveDec | LeaveSignal | LeaveUnlock => true
    case _ => false
  }

  /** The thread has set pending_cpus and not yet reset it. */
  predicate Owner(pc: PC) {
    match pc
    case Scan(_, _) | WaitTest | WaitSleep | WaitWake | StartUnlock | Enter | Exclusive => true
    case EndLock | EndReset => true
    case _ => false
  }

  /** The owner has left its wait loop: the section proper, and its two ends. */
  predicate Inside(pc: PC) {
    pc.StartUnlock? || pc.Enter? || pc.Exclusive? || pc.EndLock? || pc.EndReset?
  }

  predicate Running(pc: PC) {
    pc.ExecRead? || pc.ExecLock? || pc.ExecCheck? || pc.ExecYield? || pc.ExecUnlock? || pc.Executing?
  }

  predicate MayBeAwaited(pc: PC) {
    || pc.ExecRead? || pc.ExecLock? || pc.ExecCheck? || pc.ExecUnlock? || pc.Executing?
    || pc.LeaveRead? || pc.LeaveLock? || pc.LeaveCheck?
  }

  /** cpu_exec_start has decided to run the guest. */
  predicate Committed(pc: PC) { pc.ExecUnlock? || pc.Executing? }

  /** Still counted in pending_cpus: flagged, or between clearing the flag and the decrement. */
  predicate Counted(c: Cpu) { c.hasWaiter || c.pc.LeaveDec? }

  function Pending(cpus: seq<Cpu>): nat {
    if cpus == [] then 0
    else Pending(cpus[..|cpus| - 1]) + (if Counted(cpus[|cpus| - 1]) then 1 else 0)
  }

  ghost predicate LockInv(s: World) {
    && (s.lock.Some? ==> s.lock.value < |s.cpus| && HoldsLock(s.cpus[s.lock.value].pc))
    && forall j | 0 <= j < |s.cpus| && HoldsLock(s.cpus[j].pc) :: s.lock == Some(j)
  }

  ghost predicate OwnerInv(s: World, o: Option<nat>) {
    && (o.Some? ==> o.value < |s.cpus| && Owner(s.cpus[o.value].pc))
    && (forall j | 0 <= j < |s.cpus| && Owner(s.cpus[j].pc) :: o == Some(j))
    && (s.pending == 0 <==> o.None?)
    && s.pending >= 0
  }

  ghost predicate CpuInv(s: World, o: Option<nat>, j: nat)
    requires j < |s.cpus|
  {
    var c := s.cpus[j];
    && (c.running == Running(c.pc) || c.pc.Exclusive?)
    && (Counted(c) ==> o.Some?)
    && (c.hasWaiter ==> MayBeAwaited(c.pc))
    && (c.count > 0 <==> c.pc.Exclusive?)
    && (c.pc.Mark? || c.pc.ExecRestart? ==> s.pending == 0)
    && (Inside(c.pc) ==> s.pending == 1)
    // no missed wakeup
    && (OnResume(c.pc) ==>
          s.pending != 0 || (s.lock.Some? && s.lock.value < |s.cpus| && s.cpus[s.lock.value].pc.EndBroadcast?))
    && (c.pc.WaitSleep? ==>
          s.pending > 1 || (s.lock.Some? && s.lock.value < |s.cpus| && s.cpus[s.lock.value].pc.LeaveSignal?))
  }

  /** Has the owner's CPU_FOREACH passed CPU `j`? */
  predicate Scanned(pc: PC, j: nat) { pc.Scan? ==> j < pc.next }

  ghost predicate CountInv(s: World, o: Option<nat>)
    requires o.Some? ==> o.value < |s.cpus|
  {
    o.Some? ==>
      var pc := s.cpus[o.value].pc;
      && (match pc
          case Scan(k, n) => k <= |s.cpus| && s.pending == 1 && n == Pending(s.cpus[..k])
          case _ => s.pending == 1 + Pending(s.cpus))
      && (forall j: nat | j < |s.cpus| && Counted(s.cpus[j]) :: Scanned(pc, j))
      && (forall j: nat | j < |s.cpus| && Committed(s.cpus[j].pc) && Scanned(pc, j) ::
            s.cpus[j].hasWaiter)
  }

  ghost predicate InvFor(s: World, o: Option<nat>) {
    && LockInv(s)
    && OwnerInv(s, o)
    && (forall j: nat | j < |s.cpus| :: CpuInv(s, o, j))
    && CountInv(s, o)
  }

  // --- counting ---

  lemma {:induction false} PendingUpdate(cpus: seq<Cpu>, i: nat, c: Cpu)
    requires i < |cpus|
    ensures Pending(cpus[i := c]) ==
            Pending(cpus) + (if Counted(c) then 1 else 0) - (if Counted(cpus[i]) then 1 else 0)
  {
    var n := |cpus| - 1;
    if i < n {
      PendingUpdate(cpus[..n], i, c);
      assert cpus[i := c][..n] == cpus[..n][i := c];
    } else {
      assert cpus[i := c][..n] == cpus[..n];
    }
  }

  lemma {:induction false} PendingSame(a: seq<Cpu>, b: seq<Cpu>)
    requires |a| == |b| && forall k | 0 <= k < |a| :: Counted(a[k]) == Counted(b[k])
    ensures Pending(a) == Pending(b)
  {
    if a != [] { PendingSame(a[..|a| - 1], b[..|b| - 1]); }
  }

  lemma {:induction false} PendingZero(cpus: seq<Cpu>)
    ensures Pending(cpus) == 0 <==> forall j | 0 <= j < |cpus| :: !Counted(cpus[j])
  {
    if cpus != [] { PendingZero(cpus[..|cpus| - 1]); }
  }

  // --- preservation ---

  /** The facts about one thread's program that the invariant rests on. */
  ghost predicate LocalFacts(c: Cpu, p: int, op: LockOp, c': Cpu, p': int) {
    && (op == Take ==> HoldsLock(c'.pc))
    && (op == Drop ==> HoldsLock(c.pc) && !HoldsLock(c'.pc))
    && (op == Keep ==> HoldsLock(c'.pc) == HoldsLock(c.pc))
    && (p' != p ==> c.pc.Mark? || c.pc.EndReset? || c.pc.LeaveDec?)
    && (c.pc.Mark? ==> p' == 1 && c'.pc == Scan(0, 0))
    && (c.pc.EndReset? ==> p' == 0 && c'.pc.EndBroadcast?)
    && (c.pc.LeaveDec? ==> p' == p - 1 && c'.pc.LeaveSignal?)
    && (Owner(c'.pc) <==> c.pc.Mark? || (Owner(c.pc) && !c.pc.EndReset?))
    && (c'.pc.Scan? ==> c.pc.Mark?)
    && (Counted(c') == Counted(c) || c.pc.LeaveDec?)
    && (Committed(c'.pc) ==> Committed(c.pc) || c'.hasWaiter || p == 0)
    && (c'.hasWaiter ==> c.hasWaiter)
    && (c.hasWaiter && Committed(c.pc) && Committed(c'.pc) ==> c'.hasWaiter)
    && (c'.pc.EndBroadcast? ==> c.pc.EndReset?)
    && (OnResume(c'.pc) ==> p' == p != 0 && op == Drop)
    && (c'.pc.WaitSleep? ==> p' == p > 1 && op == Drop)
    && (c'.pc.Mark? || c'.pc.ExecRestart? ==> p' == p == 0)
    && (Inside(c'.pc) ==> p' == p <= 1)
    && (c'.running == Running(c'.pc) || c'.pc.Exclusive?)
    && (c'.hasWaiter ==> MayBeAwaited(c'.pc))
    && (c'.count > 0 <==> c'.pc.Exclusive?)
  }

  ghost predicate LocalPre(c: Cpu, p: int) {
    && (c.running == Running(c.pc) || c.pc.Exclusive?)
    && (c.hasWaiter ==> MayBeAwaited(c.pc) && p != 0)
    && (c.count > 0 <==> c.pc.Exclusive?)
    && (c.pc.Mark? || c.pc.ExecRestart? ==> p == 0)
    && (Inside(c.pc) ==> p == 1)
  }

  lemma StartHas(c: Cpu, p: int, m: Move)
    requires m == StartStep(c, p) && m.Move? && LocalPre(c, p)
    ensures LocalFacts(c, p, m.op, m.cpu, m.pending)
  {}

  lemma EndHas(c: Cpu, p: int, m: Move)
    requires m == EndStep(c, p) && m.Move? && LocalPre(c, p)
    ensures LocalFacts(c, p, m.op, m.cpu, m.pending)
  {}

  lemma ExecHas(c: Cpu, p: int, m: Move)
    requires m == ExecStep(c, p) && m.Move? && LocalPre(c, p)
    ensures LocalFacts(c, p, m.op, m.cpu, m.pending)
  {}

  lemma LeaveHas(c: Cpu, p: int, m: Move)
    requires m == LeaveStep(c, p) && m.Move? && LocalPre(c, p)
    ensures LocalFacts(c, p, m.op, m.cpu, m.pending)
  {}

  /** The count over the scanned prefix does not change when no counted status changes. */
  lemma SameCounts(s: World, s': World)
    requires |s'.cpus| == |s.cpus|
    requires forall k | 0 <= k < |s.cpus| :: Counted(s.cpus[k]) == Counted(s'.cpus[k])
    ensures Pending(s'.cpus) == Pending(s.cpus)
    ensures forall k: nat | k <= |s.cpus| :: Pending(s'.cpus[..k]) == Pending(s.cpus[..k])
  {
    PendingSame(s.cpus, s'.cpus);
    forall k: nat | k <= |s.cpus| ensures Pending(s'.cpus[..k]) == Pending(s.cpus[..k]) {
      PendingSame(s.cpus[..k], s'.cpus[..k]);
    }
  }

  /** What the invariant needs to know about a step of CPU `i` that is not a scan. */
  ghost predicate Effect(s: World, i: nat, op: LockOp, s': World) {
    && i < |s.cpus| == |s'.cpus| && !s.cpus[i].pc.Scan?
    && LocalFacts(s.cpus[i], s.pending, op, s'.cpus[i], s'.pending)
    && LockMove(s.lock, i, op, s'.lock)
    && (forall k | 0 <= k < |s.cpus| && k != i ::
          s'.cpus[k] == s.cpus[k] || s'.cpus[k] == At(s.cpus[k], Woken(s.cpus[k].pc)))
    && (s.cpus[i].pc.EndBroadcast? ==> forall k | 0 <= k < |s.cpus| && k != i :: !OnResume(s'.cpus[k].pc))
    && (s.cpus[i].pc.LeaveSignal? && s.pending == 1 ==>
          forall k | 0 <= k < |s.cpus| && k != i :: !s'.cpus[k].pc.WaitSleep?)
  }

  lemma LocalHas(c: Cpu, p: int, m: Move)
    requires Local(c, p, m) && LocalPre(c, p)
    ensures LocalFacts(c, p, m.op, m.cpu, m.pending)
  {
    if m == StartStep(c, p) { StartHas(c, p, m); }
    else if m == EndStep(c, p) { EndHas(c, p, m); }
    else if m == ExecStep(c, p) { ExecHas(c, p, m); }
    else { LeaveHas(c, p, m); }
  }

  lemma PeersHave(s: World, o: Option<nat>, i: nat, s': World)
    requires OwnerInv(s, o) && i < |s.cpus| == |s'.cpus| && PeersMove(s, i, s')
    ensures forall k | 0 <= k < |s.cpus| && k != i ::
              s'.cpus[k] == s.cpus[k] || s'.cpus[k] == At(s.cpus[k], Woken(s.cpus[k].pc))
    ensures s.cpus[i].pc.EndBroadcast? ==> forall k | 0 <= k < |s.cpus| && k != i :: !OnResume(s'.cpus[k].pc)
    ensures s.cpus[i].pc.LeaveSignal? && s.pending == 1 ==>
              forall k | 0 <= k < |s.cpus| && k != i :: !s'.cpus[k].pc.WaitSleep?
  {
    // there is one owner, so one sleeper on exclusive_cond at most
    assert forall k | 0 <= k < |s.cpus| && s.cpus[k].pc.WaitSleep? :: Owner(s.cpus[k].pc);
  }

  lemma StepHasEffect(s: World, o: Option<nat>, i: nat, m: Move, s': World)
    requires OwnerInv(s, o) && Step(s, i, m, s') && !s.cpus[i].pc.Scan? && LocalPre(s.cpus[i], s.pending)
    ensures Effect(s, i, m.op, s')
  {
    LocalHas(s.cpus[i], s.pending, m);
    PeersHave(s, o, i, s');
  }

  /** The owner after a step of CPU `i`: Mark makes one, EndReset retires it. */
  function OwnerAfter(s: World, o: Option<nat>, i: nat): Option<nat>
    requires i < |s.cpus|
  {
    if s.cpus[i].pc.Mark? then Some(i) else if s.cpus[i].pc.EndReset? then None else o
  }

  lemma LockKept(s: World, i: nat, op: LockOp, s': World)
    requires LockInv(s) && Effect(s, i, op, s')
    ensures LockInv(s')
  {}

  lemma OwnerKept(s: World, o: Option<nat>, i: nat, op: LockOp, s': World)
    requires InvFor(s, o) && Effect(s, i, op, s')
    ensures OwnerInv(s', OwnerAfter(s, o, i))
  {
    assert CpuInv(s, o, i);
    PendingZero(s.cpus);
  }

  lemma CommittedKept(s: World, o: Option<nat>, i: nat, op: LockOp, s': World, j: nat)
    requires InvFor(s, o) && Effect(s, i, op, s') && OwnerInv(s', OwnerAfter(s, o, i)) && j < |s.cpus|
    ensures var o' := OwnerAfter(s, o, i);
            o'.Some? && Committed(s'.cpus[j].pc) && Scanned(s'.cpus[o'.value].pc, j) ==> s'.cpus[j].hasWaiter
  {}

  /** Only the decrement changes who is counted, and it happens after the owner's scan. */
  lemma TotalKept(s: World, o: Option<nat>, i: nat, op: LockOp, s': World)
    requires InvFor(s, o) && Effect(s, i, op, s') && o.Some?
    ensures !s.cpus[i].pc.LeaveDec? ==>
              forall k | 0 <= k < |s.cpus| :: Counted(s'.cpus[k]) == Counted(s.cpus[k])
    ensures !s.cpus[o.value].pc.Scan? ==> s'.pending - s.pending == Pending(s'.cpus) - Pending(s.cpus)
                                          || s.cpus[i].pc.EndReset?
    ensures s.cpus[i].pc.LeaveDec? ==> !s.cpus[o.value].pc.Scan?
  {
    assert CpuInv(s, o, i);
    PendingUpdate(s.cpus, i, s'.cpus[i]);
    PendingSame(s.cpus[i := s'.cpus[i]], s'.cpus);
  }

  lemma CountsKept(s: World, o: Option<nat>, i: nat, op: LockOp, s': World)
    requires InvFor(s, o) && Effect(s, i, op, s') && OwnerInv(s', OwnerAfter(s, o, i))
    ensures CountInv(s', OwnerAfter(s, o, i))
  {
    var o' := OwnerAfter(s, o, i);
    forall j: nat | j < |s.cpus| { CommittedKept(s, o, i, op, s', j); }
    if o.Some? && o'.Some? {
      TotalKept(s, o, i, op, s');
      if !s.cpus[i].pc.LeaveDec? { SameCounts(s, s'); }
    } else if o'.Some? {
      forall j: nat | j < |s.cpus| ensures !Counted(s'.cpus[j]) {
        assert CpuInv(s, o, j);
      }
    }
  }

  lemma ActorKept(s: World, o: Option<nat>, i: nat, op: LockOp, s': World)
    requires InvFor(s, o) && Effect(s, i, op, s')
    ensures CpuInv(s', OwnerAfter(s, o, i), i)
  {
    assert CpuInv(s, o, i);
    PendingZero(s.cpus);
  }

  /** A section that has begun leaves nobody counted. */
  lemma NobodyCounted(s: World, o: Option<nat>, k: nat, j: nat)
    requires InvFor(s, o) && k < |s.cpus| && Inside(s.cpus[k].pc) && j < |s.cpus|
    ensures !Counted(s.cpus[j])
  {
    assert CpuInv(s, o, k);
    PendingZero(s.cpus);
  }

  lemma PeerKept(s: World, o: Option<nat>, i: nat, op: LockOp, s': World, j: nat)
    requires LockInv(s) && OwnerInv(s, o) && Effect(s, i, op, s') && j < |s.cpus| && j != i
    requires CpuInv(s, o, i) && CpuInv(s, o, j)
    requires Inside(s.cpus[j].pc) ==> !Counted(s.cpus[i])
    requires s.cpus[i].pc.EndReset? ==> !Counted(s.cpus[j])
    requires s.cpus[i].pc.LeaveDec? ==> s.pending > 1
    ensures CpuInv(s', OwnerAfter(s, o, i), j)
  {}

  /** Every step that is not a scan keeps the invariant. */
  lemma EffectKeeps(s: World, o: Option<nat>, i: nat, op: LockOp, s': World)
    requires InvFor(s, o) && Effect(s, i, op, s')
    ensures InvFor(s', OwnerAfter(s, o, i))
  {
    LockKept(s, i, op, s');
    OwnerKept(s, o, i, op, s');
    CountsKept(s, o, i, op, s');
    ActorKept(s, o, i, op, s');
    forall j: nat | j < |s.cpus| && j != i ensures CpuInv(s', OwnerAfter(s, o, i), j) {
      assert CpuInv(s, o, i) && CpuInv(s, o, j);
      if Inside(s.cpus[j].pc) { NobodyCounted(s, o, j, i); }
      if Inside(s.cpus[i].pc) { NobodyCounted(s, o, i, j); }
      if s.cpus[i].pc.LeaveDec? { PendingZero(s.cpus); TotalKept(s, o, i, op, s'); }
      PeerKept(s, o, i, op, s', j);
    }
  }

  /** One iteration of CPU_FOREACH: the prefix grows by one CPU. */
  lemma ScanOneTotal(s: World, i: nat, m: Move, s': World)
    requires InvFor(s, Some(i)) && Step(s, i, m, s') && s.cpus[i].pc.Scan? && s.cpus[i].pc.next < |s.cpus|
    ensures var k := s.cpus[i].pc.next;
            s'.cpus[i].pc == Scan(k + 1, Pending(s'.cpus[..k + 1])) && s'.pending == 1
  {
    var k := s.cpus[i].pc.next;
    assert CpuInv(s, Some(i), i) && CpuInv(s, Some(i), k);
    PendingSame(s.cpus[..k], s'.cpus[..k]);
    assert s'.cpus[..k + 1][..k] == s'.cpus[..k];
  }

  lemma ScanOneFlags(s: World, i: nat, m: Move, s': World)
    requires InvFor(s, Some(i)) && Step(s, i, m, s') && s.cpus[i].pc.Scan? && s.cpus[i].pc.next < |s.cpus|
    ensures forall j: nat | j < |s'.cpus| && Counted(s'.cpus[j]) :: Scanned(s'.cpus[i].pc, j)
    ensures forall j: nat | j < |s'.cpus| && Committed(s'.cpus[j].pc) && Scanned(s'.cpus[i].pc, j) :: s'.cpus[j].hasWaiter
  {
    assert CpuInv(s, Some(i), i) && CpuInv(s, Some(i), s.cpus[i].pc.next);
  }

  lemma ScanOneCounts(s: World, i: nat, m: Move, s': World)
    requires InvFor(s, Some(i)) && Step(s, i, m, s') && s.cpus[i].pc.Scan? && s.cpus[i].pc.next < |s.cpus|
    ensures CountInv(s', Some(i))
  {
    hide InvFor, Pending;
    ScanOneTotal(s, i, m, s');
    ScanOneFlags(s, i, m, s');
  }

  lemma ScanEndCounts(s: World, i: nat, m: Move, s': World)
    requires InvFor(s, Some(i)) && Step(s, i, m, s') && s.cpus[i].pc.Scan? && s.cpus[i].pc.next == |s.cpus|
    ensures CountInv(s', Some(i))
  {
    SameCounts(s, s');
    assert s.cpus[..|s.cpus|] == s.cpus;
  }

  lemma ScanKeeps(s: World, i: nat, m: Move, s': World)
    requires InvFor(s, Some(i)) && Step(s, i, m, s') && s.cpus[i].pc.Scan?
    ensures InvFor(s', Some(i))
  {
    assert CpuInv(s, Some(i), i);
    if s.cpus[i].pc.next < |s.cpus| { ScanOneCounts(s, i, m, s'); } else { ScanEndCounts(s, i, m, s'); }
    forall j: nat | j < |s.cpus| ensures CpuInv(s', Some(i), j) { ScanCpu(s, i, m, s', j); }
  }

  lemma ScanCpu(s: World, i: nat, m: Move, s': World, j: nat)
    requires InvFor(s, Some(i)) && Step(s, i, m, s') && s.cpus[i].pc.Scan? && j < |s.cpus|
    ensures CpuInv(s', Some(i), j)
  {
    assert CpuInv(s, Some(i), i) && CpuInv(s, Some(i), j);
  }

  lemma StepKeeps(s: World, o: Option<nat>, i: nat, m: Move, s': World)
    requires InvFor(s, o) && Step(s, i, m, s')
    ensures InvFor(s', OwnerAfter(s, o, i))
  {
    assert CpuInv(s, o, i);
    if s.cpus[i].pc.Scan? {
      ScanKeeps(s, i, m, s');
    } else {
      StepHasEffect(s, o, i, m, s');
      EffectKeeps(s, o, i, m.op, s');
    }
  }

  lemma SpuriousKeeps(s: World, o: Option<nat>, i: nat, s': World)
    requires InvFor(s, o) && SpuriousStep(s, i, s')
    ensures InvFor(s', OwnerAfter(s, o, i))
  {
    assert CpuInv(s, o, i);
    EffectKeeps(s, o, i, Keep, s');
  }

  lemma NextKeeps(s: World, o: Option<nat>, s': World) returns (o': Option<nat>)
    requires InvFor(s, o) && Next(s, s')
    ensures InvFor(s', o')
  {
    if i: nat, m: Move :| Step(s, i, m, s') {
      StepKeeps(s, o, i, m, s');
      o' := OwnerAfter(s, o, i);
    } else {
      var i: nat :| SpuriousStep(s, i, s');
      SpuriousKeeps(s, o, i, s');
      o' := OwnerAfter(s, o, i);
    }
  }

  lemma {:induction false} RunKeeps(run: seq<World>, n: nat) returns (o: Option<nat>)
    requires IsRun(run) && n < |run|
    ensures InvFor(run[n], o)
  {
    if n == 0 {
      o := None;
    } else {
      o := RunKeeps(run, n - 1);
      assert Next(run[n - 1], run[n - 1 + 1]);
      o := NextKeeps(run[n - 1], o, run[n]);
    }
  }

  // --- what the protocol promises, in every reachable state ---

  /** Between the return of start_exclusive and the matching outermost end_exclusive no other CPU
      runs guest code, is awaited or is in a section of its own. */
  lemma MutualExclusion(run: seq<World>, n: nat, i: nat, j: nat)
    requires IsRun(run) && n < |run| && i < |run[n].cpus| && j < |run[n].cpus| && i != j
    requires run[n].cpus[i].count > 0
    ensures run[n].cpus[i].pc.Exclusive? && run[n].pending == 1
    ensures Stopped(run[n].cpus[j])
  {
    var o := RunKeeps(run, n);
    SectionIsAlone(run[n], o, i, j);
  }

  /** Not in guest code, not in a section, not awaited by a starter. */
  predicate Stopped(c: Cpu) {
    !c.pc.Executing? && c.count == 0 && !Inside(c.pc) && !c.hasWaiter
  }

  lemma SectionIsAlone(s: World, o: Option<nat>, i: nat, j: nat)
    requires InvFor(s, o) && i < |s.cpus| && j < |s.cpus| && i != j && s.cpus[i].count > 0
    ensures s.cpus[i].pc.Exclusive? && s.pending == 1 && Stopped(s.cpus[j])
  {
    assert CpuInv(s, o, i) && CpuInv(s, o, j);
    NobodyCounted(s, o, i, j);
  }

  function Flagged(cpus: seq<Cpu>): set<nat> {
    set j: nat | j < |cpus| && cpus[j].hasWaiter
  }

  lemma {:induction false} PendingCountsFlags(cpus: seq<Cpu>)
    requires forall j | 0 <= j < |cpus| :: !cpus[j].pc.LeaveDec?
    ensures Pending(cpus) == |Flagged(cpus)|
  {
    if cpus != [] {
      var n := |cpus| - 1;
      PendingCountsFlags(cpus[..n]);
      assert Flagged(cpus) == Flagged(cpus[..n]) + if cpus[n].hasWaiter then {n} else {};
    }
  }

  /** pending_cpus is zero exactly when nobody owns a section, and then no flag is set. Once the
      owner has finished its scan it is one more than the number of flagged CPUs, except while the
      holder of the lock stands between clearing its flag and decrementing. */
  lemma PendingCount(run: seq<World>, n: nat)
    requires IsRun(run) && n < |run|
    ensures var s := run[n];
            && (s.pending == 0 <==> forall k | 0 <= k < |s.cpus| :: !Owner(s.cpus[k].pc))
            && (s.pending == 0 ==> Flagged(s.cpus) == {})
            && (s.pending != 0 && (forall k | 0 <= k < |s.cpus| :: !s.cpus[k].pc.Scan? && !s.cpus[k].pc.LeaveDec?)
                ==> s.pending == 1 + |Flagged(s.cpus)|)
  {
    var s := run[n];
    var o := RunKeeps(run, n);
    forall j: nat | j < |s.cpus| ensures s.pending == 0 ==> !s.cpus[j].hasWaiter { assert CpuInv(s, o, j); }
    if forall k | 0 <= k < |s.cpus| :: !s.cpus[k].pc.LeaveDec? { PendingCountsFlags(s.cpus); }
  }

  /** Nobody sleeps through its wakeup: whoever sleeps on exclusive_resume does so while a section
      is pending or its broadcast is about to happen, and a starter that sleeps on exclusive_cond
      still waits for a flagged CPU or for the signal that is about to happen. */
  lemma NoMissedWakeup(run: seq<World>, n: nat, j: nat)
    requires IsRun(run) && n < |run| && j < |run[n].cpus|
    ensures var s := run[n];
            && (OnResume(s.cpus[j].pc) ==>
                  || (exists k | 0 <= k < |s.cpus| :: Owner(s.cpus[k].pc))
                  || (exists k | 0 <= k < |s.cpus| :: s.cpus[k].pc.EndBroadcast?))
            && (s.cpus[j].pc.WaitSleep? ==>
                  || (exists k | 0 <= k < |s.cpus| :: Counted(s.cpus[k]))
                  || (exists k | 0 <= k < |s.cpus| :: s.cpus[k].pc.LeaveSignal?))
  {
    var s := run[n];
    var o := RunKeeps(run, n);
    assert CpuInv(s, o, j);
    PendingZero(s.cpus);
  }

  /** Blocked: waiting for the lock somebody holds, or asleep. */
  predicate Blocked(s: World, j: nat)
    requires j < |s.cpus|
  {
    var pc := s.cpus[j].pc;
    || (s.lock.Some? && (pc.StartLock? || pc.StartIdleWake? || pc.WaitWake? || pc.EndLock?
                         || pc.ExecLock? || pc.ExecIdleWake? || pc.LeaveLock?))
    || OnResume(pc) || pc.WaitSleep?
  }

  /** The sleepers never all wait for each other: whenever some CPU is blocked, another one is
      inside the protocol, in guest code or in a section, and can take a step. */
  lemma NoDeadlock(run: seq<World>, n: nat, j: nat) returns (k: nat, m: Move, s': World)
    requires IsRun(run) && n < |run| && j < |run[n].cpus| && Blocked(run[n], j)
    ensures k != j && Step(run[n], k, m, s') && !run[n].cpus[k].pc.Outside?
  {
    var s := run[n];
    var o := RunKeeps(run, n);
    assert CpuInv(s, o, j);
    if s.lock.Some? {
      k := s.lock.value;
    } else {
      k := o.value;
      if s.cpus[k].pc.WaitSleep? {
        assert CpuInv(s, o, k);
        PendingZero(s.cpus);
        k :| 0 <= k < |s.cpus| && Counted(s.cpus[k]);
        assert CpuInv(s, o, k);
      }
    }
    m, s' := CanStep(s, k);
  }

  /** What is blocked cannot step. */
  lemma BlockedIsStuck(s: World, o: Option<nat>, k: nat, m: Move, s': World)
    requires InvFor(s, o) && k < |s.cpus| && Blocked(s, k)
    ensures !Step(s, k, m, s')
  {}

  /** What is not blocked can step. */
  lemma CanStep(s: World, k: nat) returns (m: Move, s': World)
    requires LockInv(s) && k < |s.cpus| && !Blocked(s, k)
    ensures Step(s, k, m, s')
  {
    var c := s.cpus[k];
    m := if StartStep(c, s.pending).Move? then StartStep(c, s.pending)
         else if EndStep(c, s.pending).Move? then EndStep(c, s.pending)
         else if ExecStep(c, s.pending).Move? then ExecStep(c, s.pending)
         else LeaveStep(c, s.pending);
    if c.pc.Scan? {
      var h, n := c.pc.next, c.pc.seen;
      var flagged := if h < |s.cpus| && s.cpus[h].running then Put(s, h, s.cpus[h].(hasWaiter := true)) else s;
      s' := if h >= |s.cpus| then Put(s, k, At(c, WaitTest)).(pending := n + 1)
            else if s.cpus[h].running then Put(flagged, k, At(flagged.cpus[k], Scan(h + 1, n + 1)))
            else Put(s, k, At(c, Scan(h + 1, n)));
    } else {
      var peers := s.cpus;
      if c.pc.EndBroadcast? {
        peers := seq(|s.cpus|, h requires 0 <= h < |s.cpus| =>
          if OnResume(s.cpus[h].pc) then At(s.cpus[h], Woken(s.cpus[h].pc)) else s.cpus[h]);
      } else if c.pc.LeaveSignal? && s.pending == 1 && exists h | 0 <= h < |s.cpus| :: s.cpus[h].pc.WaitSleep? {
        var h :| 0 <= h < |s.cpus| && s.cpus[h].pc.WaitSleep?;
        peers := s.cpus[h := At(s.cpus[h], WaitWake)];
      }
      var lock := match m.op case Keep => s.lock case Take => Some(k) case Drop => None;
      s' := World(peers[k := m.cpu], m.pending, lock);
    }
  }
}
