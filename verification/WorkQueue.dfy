/** Work items queued on a virtual CPU (queue_work_on_cpu, do_run_on_cpu, process_queued_cpu_work
    of engine/qemu-wasm/cpu-common.c), on top of the exclusive-section protocol.

    A critical section under `work_mutex` is one step. The BQL is held by a waiter in
    do_run_on_cpu from its test of `done` until it sleeps, and by the consumer whenever it sets
    `done`, so the waiter's test and sleep are one step too. */
module WorkQueues {
  import opened Options
  import X = ExclusiveSections

  /** `sync` items come from do_run_on_cpu, the others from async_run_on_cpu and
      async_safe_run_on_cpu. */
  datatype Item = Item(id: nat, exclusive: bool, sync: bool)

  /** Where a CPU's thread stands in process_queued_cpu_work. */
  datatype Phase =
    | Resting
    | Have(item: Item)        // taken off the list, work_mutex released
    | Entering(item: Item)    // in start_exclusive, or returned from it
    | Leaving(item: Item)     // the function has run, in end_exclusive
    | Finish(item: Item)      // the function has run, about to retake work_mutex
    | Notify                  // the list is empty, about to broadcast qemu_work_cond

  datatype Waiter = Awake | Asleep | Returned

  /** `list` is cpu->work_list; `posted` and `ran` are histories. */
  datatype Queue = Queue(list: seq<Item>, phase: Phase, posted: seq<Item>, ran: seq<Item>)

  datatype Sys = Sys(x: X.World, q: seq<Queue>, done: set<nat>, waiters: map<nat, Waiter>)

  predicate Init(s: Sys) {
    && X.Init(s.x) && |s.q| == |s.x.cpus| && s.done == {} && s.waiters == map[]
    && forall k | 0 <= k < |s.q| :: s.q[k] == Queue([], Resting, [], [])
  }

  function Set(s: Sys, k: nat, q: Queue): Sys
    requires k < |s.q|
  {
    s.(q := s.q[k := q])
  }

  predicate Fresh(s: Sys, id: nat) {
    forall k, n | 0 <= k < |s.q| && 0 <= n < |s.q[k].posted| :: s.q[k].posted[n].id != id
  }

  /** queue_work_on_cpu; for a sync item the caller then enters its wait loop. */
  predicate Post(s: Sys, k: nat, item: Item, s': Sys) {
    && k < |s.q| && Fresh(s, item.id) && (item.sync ==> !item.exclusive)
    && var q := s.q[k];
       s' == Set(s, k, q.(list := q.list + [item], posted := q.posted + [item])).(
               waiters := if item.sync then s.waiters[item.id := Awake] else s.waiters)
  }

  /** while (!done) qemu_cond_wait */
  predicate Test(s: Sys, id: nat, s': Sys) {
    && id in s.waiters && s.waiters[id].Awake?
    && s' == s.(waiters := s.waiters[id := if id in s.done then Returned else Asleep])
  }

  /** A waiter wakes up without a signal. */
  predicate Spurious(s: Sys, id: nat, s': Sys) {
    id in s.waiters && s.waiters[id].Asleep? && s' == s.(waiters := s.waiters[id := Awake])
  }

  /** Under work_mutex: take the head of the list, or stop when it is empty. */
  function Pop(q: Queue, atEnd: Phase): Queue {
    if q.list == [] then q.(phase := atEnd) else q.(list := q.list[1..], phase := Have(q.list[0]))
  }

  predicate Begin(s: Sys, k: nat, s': Sys) {
    && k < |s.q| == |s.x.cpus| && s.q[k].phase.Resting? && s.x.cpus[k].pc.Outside?
    && s' == Set(s, k, Pop(s.q[k], Resting))
  }

  predicate RunPlain(s: Sys, k: nat, s': Sys) {
    && k < |s.q| && s.q[k].phase.Have? && !s.q[k].phase.item.exclusive
    && s' == Set(s, k, s.q[k].(ran := s.q[k].ran + [s.q[k].phase.item], phase := Finish(s.q[k].phase.item)))
  }

  /** The call of start_exclusive. */
  ghost predicate CallStart(s: Sys, k: nat, s': Sys) {
    && k < |s.q| == |s.x.cpus| && s.q[k].phase.Have? && s.q[k].phase.item.exclusive
    && s.x.cpus[k].pc.Outside?
    && s' == Set(s, k, s.q[k].(phase := Entering(s.q[k].phase.item))).(x := s'.x)
    && X.Step(s.x, k, X.StartStep(s.x.cpus[k], s.x.pending), s'.x)
  }

  predicate RunExclusive(s: Sys, k: nat, s': Sys) {
    && k < |s.q| == |s.x.cpus| && s.q[k].phase.Entering? && s.x.cpus[k].pc.Exclusive?
    && s' == Set(s, k, s.q[k].(ran := s.q[k].ran + [s.q[k].phase.item], phase := Leaving(s.q[k].phase.item)))
  }

  /** end_exclusive has returned. */
  predicate Left(s: Sys, k: nat, s': Sys) {
    && k < |s.q| == |s.x.cpus| && s.q[k].phase.Leaving? && s.x.cpus[k].pc.Outside?
    && s' == Set(s, k, s.q[k].(phase := Finish(s.q[k].phase.item)))
  }

  /** Under work_mutex again: mark a sync item done, go round the loop. */
  predicate Complete(s: Sys, k: nat, s': Sys) {
    && k < |s.q| && s.q[k].phase.Finish?
    && var item := s.q[k].phase.item;
       s' == Set(s, k, Pop(s.q[k], Notify)).(done := if item.sync then s.done + {item.id} else s.done)
  }

  predicate Broadcast(s: Sys, k: nat, s': Sys) {
    && k < |s.q| && s.q[k].phase.Notify?
    && s' == Set(s, k, s.q[k].(phase := Resting)).(waiters :=
               map id | id in s.waiters :: if s.waiters[id].Asleep? then Awake else s.waiters[id])
  }

  /** A step of the exclusive-section protocol. A thread that is processing work makes such steps
      only inside its calls of start_exclusive and end_exclusive. */
  ghost predicate Protocol(s: Sys, j: nat, m: X.Move, s': Sys) {
    && j < |s.q| == |s.x.cpus| && s' == s.(x := s'.x)
    && (X.Step(s.x, j, m, s'.x) || X.SpuriousStep(s.x, j, s'.x))
    && match s.q[j].phase
       case Resting => true
       case Entering(_) => !s.x.cpus[j].pc.Exclusive?
       case Leaving(_) => m == X.EndStep(s.x.cpus[j], s.x.pending)
       case _ => false
  }

  ghost predicate Next(s: Sys, s': Sys) {
    || (exists k, item :: Post(s, k, item, s'))
    || (exists id :: Test(s, id, s') || Spurious(s, id, s'))
    || (exists k: nat :: Consume(s, k, s'))
    || (exists j, m :: Protocol(s, j, m, s'))
  }

  ghost predicate Consume(s: Sys, k: nat, s': Sys) {
    || Begin(s, k, s') || RunPlain(s, k, s') || CallStart(s, k, s') || RunExclusive(s, k, s')
    || Left(s, k, s') || Complete(s, k, s') || Broadcast(s, k, s')
  }

  ghost predicate IsRun(run: seq<Sys>) {
    && |run| > 0 && Init(run[0])
    && forall n | 0 <= n < |run| - 1 :: Next(run[n], run[n + 1])
  }

  // --- invariant ---

  /** Taken off the list but not run yet. */
  function InHand(p: Phase): seq<Item> {
    if p.Have? || p.Entering? then [p.item] else []
  }

  predicate QueueInv(q: Queue) {
    && q.posted == q.ran + InHand(q.phase) + q.list
    && (q.phase.Leaving? || q.phase.Finish? ==> q.phase.item in q.ran)
  }

  /** Item ids identify a post. */
  predicate Distinct(s: Sys) {
    forall k, n, k', n' |
      && 0 <= k < |s.q| && 0 <= n < |s.q[k].posted| && 0 <= k' < |s.q| && 0 <= n' < |s.q[k'].posted|
      && s.q[k].posted[n].id == s.q[k'].posted[n'].id :: k == k' && n == n'
  }

  predicate HasRun(s: Sys, id: nat) {
    exists k, n | 0 <= k < |s.q| && 0 <= n < |s.q[k].ran| :: s.q[k].ran[n].id == id
  }

  /** A waiter whose item is done sleeps only until the consumer that ran it broadcasts. */
  predicate WakeupsComing(s: Sys) {
    forall k, n | 0 <= k < |s.q| && 0 <= n < |s.q[k].ran| ::
      var id := s.q[k].ran[n].id;
      id in s.waiters && s.waiters[id].Asleep? && id in s.done ==> !s.q[k].phase.Resting?
  }

  ghost predicate Inv(s: Sys) {
    && |s.q| == |s.x.cpus|
    && (forall k | 0 <= k < |s.q| :: QueueInv(s.q[k]))
    && Distinct(s)
    && (forall id | id in s.done :: HasRun(s, id))
    && (forall id | id in s.waiters && s.waiters[id].Returned? :: id in s.done)
    && WakeupsComing(s)
  }

  lemma RanIsPosted(s: Sys, k: nat, n: nat)
    requires Inv(s) && k < |s.q| && n < |s.q[k].ran|
    ensures n < |s.q[k].posted| && s.q[k].posted[n] == s.q[k].ran[n]
  {}

  lemma HasRunKept(s: Sys, s': Sys, id: nat)
    requires HasRun(s, id) && |s'.q| == |s.q| && forall k | 0 <= k < |s.q| :: s.q[k].ran <= s'.q[k].ran
    ensures HasRun(s', id)
  {}

  lemma PostQueues(s: Sys, k: nat, item: Item, s': Sys)
    requires Inv(s) && Post(s, k, item, s')
    ensures forall j | 0 <= j < |s'.q| :: QueueInv(s'.q[j])
  {}

  lemma PostDistinct(s: Sys, k: nat, item: Item, s': Sys)
    requires Distinct(s) && Post(s, k, item, s')
    ensures Distinct(s')
  {
    forall a: nat, n: nat | a < |s'.q| && n < |s'.q[a].posted|
      ensures if a == k && n == |s.q[k].posted| then s'.q[a].posted[n] == item
              else n < |s.q[a].posted| && s'.q[a].posted[n] == s.q[a].posted[n] && s.q[a].posted[n].id != item.id
    {}
  }

  lemma PostKeeps(s: Sys, k: nat, item: Item, s': Sys)
    requires Inv(s) && Post(s, k, item, s')
    ensures Inv(s')
  {
    PostQueues(s, k, item, s');
    PostDistinct(s, k, item, s');
    forall k, n | 0 <= k < |s.q| && 0 <= n < |s.q[k].ran| ensures s.q[k].ran[n].id != item.id {
      RanIsPosted(s, k, n);
    }
    forall id | id in s'.done ensures HasRun(s', id) { HasRunKept(s, s', id); }
  }

  /** Two histories never share an item: what CPU `k` ran is not in another CPU's history. */
  lemma RanOnce(s: Sys, k: nat, n: nat, k': nat, n': nat)
    requires Inv(s) && k < |s.q| && n < |s.q[k].ran| && k' < |s.q| && n' < |s.q[k'].ran|
    requires s.q[k].ran[n].id == s.q[k'].ran[n'].id
    ensures k == k' && n == n'
  {
    RanIsPosted(s, k, n);
    RanIsPosted(s, k', n');
  }

  lemma ConsumeHistories(s: Sys, k: nat, s': Sys)
    requires Inv(s) && Consume(s, k, s')
    ensures |s'.q| == |s.q| && QueueInv(s'.q[k])
    ensures forall j | 0 <= j < |s.q| && j != k :: s'.q[j] == s.q[j]
    ensures s'.q[k].posted == s.q[k].posted && s.q[k].ran <= s'.q[k].ran
    ensures s'.done == s.done || (s.q[k].phase.Finish? && s'.done == s.done + {s.q[k].phase.item.id})
  {
    hide X.Step, Distinct, WakeupsComing, HasRun;
    assert QueueInv(s.q[k]);
  }

  lemma ConsumeKeeps(s: Sys, k: nat, s': Sys)
    requires Inv(s) && Consume(s, k, s') && |s'.x.cpus| == |s.x.cpus|
    ensures Inv(s')
  {
    ConsumeHistories(s, k, s');
    WakeupsKept(s, k, s');
    assert Distinct(s');
    DoneKept(s, k, s');
  }

  lemma DoneKept(s: Sys, k: nat, s': Sys)
    requires Inv(s) && Consume(s, k, s')
    ensures forall id | id in s'.done :: HasRun(s', id)
  {
    hide X.Step, Distinct, WakeupsComing;
    ConsumeHistories(s, k, s');
    forall id | id in s'.done ensures HasRun(s', id) {
      if id !in s.done {
        assert QueueInv(s.q[k]);
        var n :| 0 <= n < |s.q[k].ran| && s.q[k].ran[n] == s.q[k].phase.item;
        assert HasRun(s, id);
      }
      HasRunKept(s, s', id);
    }
  }

  /** A consumer comes to rest only by its broadcast, after which nobody sleeps. */
  lemma ConsumeRests(s: Sys, k: nat, s': Sys)
    requires Consume(s, k, s')
    ensures k < |s.q| == |s'.q|
    ensures forall id | id in s'.waiters && s'.waiters[id].Asleep? :: id in s.waiters && s.waiters[id].Asleep?
    ensures s'.q[k].phase.Resting? ==>
              && s'.q[k].ran == s.q[k].ran && s'.done == s.done
              && (s.q[k].phase.Resting? || forall id | id in s'.waiters :: !s'.waiters[id].Asleep?)
  {
    hide X.Step;
  }

  lemma WakeupsKept(s: Sys, k: nat, s': Sys)
    requires Inv(s) && Consume(s, k, s')
    ensures WakeupsComing(s')
  {
    hide Consume, Distinct, HasRun;
    ConsumeRests(s, k, s');
    ConsumeHistories(s, k, s');
    forall j: nat, n: nat | j < |s'.q| && n < |s'.q[j].ran|
      ensures var id := s'.q[j].ran[n].id;
              id in s'.waiters && s'.waiters[id].Asleep? && id in s'.done ==> !s'.q[j].phase.Resting?
    {
      var id := s'.q[j].ran[n].id;
      if id in s'.waiters && s'.waiters[id].Asleep? && id in s'.done && s'.q[j].phase.Resting? && id !in s.done {
        assert QueueInv(s.q[k]);
        var m :| 0 <= m < |s.q[k].ran| && s.q[k].ran[m] == s.q[k].phase.item;
        RanOnce(s, j, n, k, m);
      }
    }
  }

  /** Steps that leave every queue alone. */
  lemma QueuesUntouched(s: Sys, s': Sys)
    requires Inv(s) && s'.q == s.q && s'.done == s.done && |s'.x.cpus| == |s.x.cpus|
    requires s'.waiters == s.waiters || exists id :: Test(s, id, s') || Spurious(s, id, s')
    ensures Inv(s')
  {
    hide HasRun, QueueInv;
    forall id | id in s'.done ensures HasRun(s', id) { HasRunKept(s, s', id); }
  }

  lemma NextKeeps(s: Sys, o: Option<nat>, s': Sys) returns (o': Option<nat>)
    requires Inv(s) && X.InvFor(s.x, o) && Next(s, s')
    ensures Inv(s') && X.InvFor(s'.x, o')
  {
    if s'.x == s.x {
      o' := o;
    } else {
      assert X.Next(s.x, s'.x);
      o' := X.NextKeeps(s.x, o, s'.x);
    }
    QueuesKept(s, s');
  }

  lemma QueuesKept(s: Sys, s': Sys)
    requires Inv(s) && Next(s, s')
    ensures Inv(s')
  {
    if k: nat, item: Item :| Post(s, k, item, s') {
      PostKeeps(s, k, item, s');
    } else if k: nat :| Consume(s, k, s') {
      ConsumeKeeps(s, k, s');
    } else {
      QueuesUntouched(s, s');
    }
  }

  lemma {:induction false} RunKeeps(run: seq<Sys>, n: nat) returns (o: Option<nat>)
    requires IsRun(run) && n < |run|
    ensures Inv(run[n]) && X.InvFor(run[n].x, o)
  {
    if n == 0 {
      o := None;
    } else {
      o := RunKeeps(run, n - 1);
      assert Next(run[n - 1], run[n - 1 + 1]);
      o := NextKeeps(run[n - 1], o, run[n]);
    }
  }

  // --- what the queue promises, under every interleaving ---

  /** What was posted on a CPU is what it ran, then what it holds, then what is queued, in post
      order: nothing is lost, repeated or reordered, and no item runs on two CPUs. */
  lemma RunsOnceInOrder(run: seq<Sys>, n: nat, k: nat)
    requires IsRun(run) && n < |run| && k < |run[n].q|
    ensures var q := run[n].q[k]; q.posted == q.ran + InHand(q.phase) + q.list
    ensures Distinct(run[n])
  {
    var _ := RunKeeps(run, n);
    assert QueueInv(run[n].q[k]);
  }

  /** do_run_on_cpu returns only after its function has run, and its caller does not sleep on once
      the consumer that ran the item has said it is done and gone round. */
  lemma SyncCallers(run: seq<Sys>, n: nat, id: nat)
    requires IsRun(run) && n < |run| && id in run[n].waiters
    ensures run[n].waiters[id].Returned? ==> HasRun(run[n], id)
    ensures forall k, i | 0 <= k < |run[n].q| && 0 <= i < |run[n].q[k].ran| && run[n].q[k].ran[i].id == id ::
              id in run[n].done && run[n].q[k].phase.Resting? ==> !run[n].waiters[id].Asleep?
  {
    var _ := RunKeeps(run, n);
  }

  /** The function of an exclusive item runs while every other CPU is stopped. */
  lemma ExclusiveItemsRunAlone(run: seq<Sys>, n: nat, k: nat, j: nat)
    requires IsRun(run) && n + 1 < |run| && k < |run[n].q| && j < |run[n].q| && j != k
    requires RunExclusive(run[n], k, run[n + 1])
    ensures j < |run[n].x.cpus| && X.Stopped(run[n].x.cpus[j])
  {
    var o := RunKeeps(run, n);
    assert X.CpuInv(run[n].x, o, k);
    X.SectionIsAlone(run[n].x, o, k, j);
  }

  /** ... and every item the step appends to a history as exclusive is run that way. */
  lemma ExclusiveOnlyInSection(s: Sys, s': Sys, k: nat)
    requires Next(s, s') && k < |s.q| == |s'.q| && |s'.q[k].ran| > |s.q[k].ran|
    ensures s'.q[k].ran == s.q[k].ran + [s'.q[k].ran[|s.q[k].ran|]]
    ensures s'.q[k].ran[|s.q[k].ran|].exclusive ==> RunExclusive(s, k, s')
  {}

  // --- nobody is left behind ---

  /** A sync item that has run is done, unless its consumer is just about to say so. */
  predicate RanIsDone(q: Queue, done: set<nat>) {
    forall n | 0 <= n < |q.ran| && q.ran[n].sync ::
      q.ran[n].id in done || ((q.phase.Leaving? || q.phase.Finish?) && q.phase.item == q.ran[n])
  }

  predicate PostedSync(s: Sys, id: nat) {
    exists k, n | 0 <= k < |s.q| && 0 <= n < |s.q[k].posted| :: s.q[k].posted[n].id == id && s.q[k].posted[n].sync
  }

  ghost predicate Followed(s: Sys) {
    && (forall k | 0 <= k < |s.q| :: RanIsDone(s.q[k], s.done))
    && (forall id | id in s.waiters :: PostedSync(s, id))
    && (forall k, n | 0 <= k < |s.q| && 0 <= n < |s.q[k].posted| && s.q[k].posted[n].sync :: s.q[k].posted[n].id in s.waiters)
  }

  lemma PostedSyncKept(s: Sys, s': Sys, id: nat)
    requires PostedSync(s, id) && |s'.q| == |s.q| && forall k | 0 <= k < |s.q| :: s.q[k].posted <= s'.q[k].posted
    ensures PostedSync(s', id)
  {
    var k, n :| 0 <= k < |s.q| && 0 <= n < |s.q[k].posted| && s.q[k].posted[n].id == id && s.q[k].posted[n].sync;
    assert s'.q[k].posted[n] == s.q[k].posted[n];
  }

  lemma PostFollowed(s: Sys, k: nat, item: Item, s': Sys)
    requires Followed(s) && Post(s, k, item, s')
    ensures Followed(s')
  {
    forall id | id in s'.waiters ensures PostedSync(s', id) {
      if id in s.waiters {
        PostedSyncKept(s, s', id);
      } else {
        var n := |s.q[k].posted|;
        assert s'.q[k].posted[n] == item;
      }
    }
  }

  lemma ConsumeFollowed(s: Sys, k: nat, s': Sys)
    requires Followed(s) && Consume(s, k, s') && |s'.q| == |s.q|
    ensures Followed(s')
  {
    hide Consume, RanIsDone, PostedSync;
    ConsumePosts(s, k, s');
    forall j: nat | j < |s'.q| ensures RanIsDone(s'.q[j], s'.done) { ConsumeDone(s, k, s', j); }
    forall id | id in s'.waiters ensures PostedSync(s', id) { PostedSyncKept(s, s', id); }
  }

  lemma ConsumePosts(s: Sys, k: nat, s': Sys)
    requires Consume(s, k, s') && |s'.q| == |s.q|
    ensures s'.waiters.Keys == s.waiters.Keys && forall j | 0 <= j < |s.q| :: s'.q[j].posted == s.q[j].posted
  {
    hide X.Step;
  }

  lemma ConsumeDone(s: Sys, k: nat, s': Sys, j: nat)
    requires Consume(s, k, s') && j < |s.q| == |s'.q| && RanIsDone(s.q[j], s.done)
    ensures RanIsDone(s'.q[j], s'.done)
  {
    hide X.Step;
  }

  lemma NextFollowed(s: Sys, s': Sys)
    requires Followed(s) && Next(s, s')
    ensures Followed(s')
  {
    if k, item :| Post(s, k, item, s') {
      PostFollowed(s, k, item, s');
    } else if k: nat :| Consume(s, k, s') {
      ConsumeFollowed(s, k, s');
    } else {
      forall id | id in s'.waiters ensures PostedSync(s', id) { PostedSyncKept(s, s', id); }
    }
  }

  lemma {:induction false} RunFollowed(run: seq<Sys>, n: nat)
    requires IsRun(run) && n < |run|
    ensures Followed(run[n])
  {
    if n > 0 {
      RunFollowed(run, n - 1);
      assert Next(run[n - 1], run[n - 1 + 1]);
      NextFollowed(run[n - 1], run[n]);
    }
  }

  /** When the queues are empty and the consumers have gone round, every item posted with
      do_run_on_cpu is done, and its caller does not sleep any more but returns from its next test. */
  lemma NobodyLeftBehind(run: seq<Sys>, n: nat, k: nat, i: nat)
    requires IsRun(run) && n < |run| && k < |run[n].q| && i < |run[n].q[k].posted| && run[n].q[k].posted[i].sync
    requires forall j | 0 <= j < |run[n].q| :: run[n].q[j].list == [] && run[n].q[j].phase.Resting?
    ensures var id := run[n].q[k].posted[i].id;
            && id in run[n].done && id in run[n].waiters && !run[n].waiters[id].Asleep?
            && forall s' | Test(run[n], id, s') :: id in s'.waiters && s'.waiters[id].Returned?
  {
    hide IsRun, Next, Distinct, HasRun;
    var s := run[n];
    var id := s.q[k].posted[i].id;
    RunFollowed(run, n);
    SyncCallers(run, n, id);
    RunsOnceInOrder(run, n, k);
    EmptyIsDone(s.q[k], s.done, i);
    assert s.q[k].ran[i].id == id;
  }

  lemma EmptyIsDone(q: Queue, done: set<nat>, i: nat)
    requires q.posted == q.ran + InHand(q.phase) + q.list && q.list == [] && q.phase.Resting?
    requires RanIsDone(q, done) && i < |q.posted| && q.posted[i].sync
    ensures q.posted == q.ran && q.posted[i].id in done
  {
    assert q.posted == q.ran;
  }

  // --- a section of its own for every exclusive item ---

  /** Around an exclusive item the thread opens one section and closes it; at any other time that it
      works on its queue it is outside. */
  predicate PhaseOk(p: Phase, c: X.Cpu) {
    match p
    case Resting => true
    case Have(_) => c.pc.Outside?
    case Entering(_) => if c.pc.Exclusive? then c.count == 1 && !c.running else X.InStart(c.pc)
    case Leaving(_) => if c.pc.Exclusive? then c.count == 1 && !c.running else X.InEnd(c.pc) || c.pc.Outside?
    case Finish(_) => c.pc.Outside?
    case Notify => c.pc.Outside?
  }

  lemma OthersMove(w: X.World, j: nat, m: X.Move, w': X.World, k: nat)
    requires (X.Step(w, j, m, w') || X.SpuriousStep(w, j, w')) && k < |w.cpus| && k != j
    ensures |w'.cpus| == |w.cpus| && w'.cpus[k].count == w.cpus[k].count && w'.cpus[k].running == w.cpus[k].running
    ensures w'.cpus[k].pc == w.cpus[k].pc || w'.cpus[k].pc == X.Woken(w.cpus[k].pc)
  {}

  lemma OwnMove(s: Sys, o: Option<nat>, k: nat, m: X.Move, s': Sys)
    requires X.InvFor(s.x, o) && Protocol(s, k, m, s') && PhaseOk(s.q[k].phase, s.x.cpus[k])
    ensures |s'.x.cpus| == |s.x.cpus| && PhaseOk(s'.q[k].phase, s'.x.cpus[k])
  {
    hide X.PeersMove, X.LockInv, X.OwnerInv, X.CountInv;
    assert X.CpuInv(s.x, o, k);
  }

  lemma PhaseKept(s: Sys, o: Option<nat>, s': Sys, k: nat)
    requires Inv(s) && X.InvFor(s.x, o) && Next(s, s') && k < |s.q| && PhaseOk(s.q[k].phase, s.x.cpus[k])
    ensures |s'.q| == |s.q| && |s'.x.cpus| == |s.x.cpus| && PhaseOk(s'.q[k].phase, s'.x.cpus[k])
  {
    hide X.InvFor, Inv, X.Step, X.SpuriousStep;
    QueueCpus(s);
    if j: nat, m: X.Move :| Protocol(s, j, m, s') {
      if j == k { OwnMove(s, o, k, m, s'); } else { OthersMove(s.x, j, m, s'.x, k); }
    } else if j: nat :| Consume(s, j, s') {
      if CallStart(s, j, s') {
        if j != k { OthersMove(s.x, j, X.StartStep(s.x.cpus[j], s.x.pending), s'.x, k); } else { CallMoves(s, k, s'); }
      }
    }
  }

  lemma CallMoves(s: Sys, k: nat, s': Sys)
    requires CallStart(s, k, s')
    ensures |s'.x.cpus| == |s.x.cpus| && s'.x.cpus[k].pc.StartLock?
  {}

  lemma QueueCpus(s: Sys)
    requires Inv(s)
    ensures |s.q| == |s.x.cpus|
  {}

  /** A CPU runs every exclusive item in a section that it opened for it, and has left that section
      before it goes on with its queue. */
  lemma {:induction false} OneSectionPerItem(run: seq<Sys>, n: nat, k: nat)
    requires IsRun(run) && n < |run| && k < |run[0].q|
    ensures |run[n].q| == |run[n].x.cpus| == |run[0].q| && PhaseOk(run[n].q[k].phase, run[n].x.cpus[k])
  {
    hide Next, PhaseOk, X.InvFor, Inv;
    if n == 0 {
      assert PhaseOk(Resting, run[n].x.cpus[k]) by { RestingIsOk(run[n].x.cpus[k]); }
    } else {
      OneSectionPerItem(run, n - 1, k);
      var o := RunKeeps(run, n - 1);
      assert Next(run[n - 1], run[n - 1 + 1]);
      PhaseKept(run[n - 1], o, run[n], k);
    }
  }

  lemma RestingIsOk(c: X.Cpu)
    ensures PhaseOk(Resting, c)
  {}
}
