/** A transaction of two jobs whose outcome is mixed (engine/qemu-wasm/job.c): both complete, the
    first is finalized, and the second cannot prepare. */
module JobMixing {
  import opened Options
  import opened JobStates
  import opened JobTxns

  function Two(x: Job, y: Job, t: Txn): Sys { Sys(map[0 := x, 1 := y], map[0 := t]) }

  const CALM := Txn(false, None)
  const BLAMED := Txn(true, Some(Blame(0, 1)))

  function At(status: Status, co: Coroutine): Job {
    Job(status, co, 0, false, false, false, false, false, 0, true, [], true)
  }

  const FAILING := Prep(map[1 := Some(-5)], {}, Some(1))
  const UNUSED := Prep(map[], {}, None)

  /** The second job after it failed to prepare and was cancelled. */
  const FAILED := At(Aborting, Finished).(ret := -5, cancelled := true, force := true)

  lemma TwoMembers(x: Job, y: Job, t: Txn)
    requires x.txn == 0 && y.txn == 0 && x.inTxn && y.inTxn
    ensures Members(Two(x, y, t), 0) == {0, 1}
  {}

  ghost predicate Leads(s: Sys, ev: Event, r: Sys) { Enabled(s, ev) && Do(s, ev) == r }

  lemma NoError()
    ensures Rated(At(Running, Finished)) == At(Running, Finished)
  {}

  lemma Await0(y: Job)
    requires y.txn == 0 && y.inTxn && y.ret == 0
    ensures Await(Two(At(Running, Finished), y, CALM), 0) == Two(At(Waiting, Finished), y, CALM)
  {}

  lemma Await1(x: Job)
    requires x.txn == 0 && x.inTxn && x.ret == 0
    ensures Await(Two(x, At(Running, Finished), CALM), 1) == Two(x, At(Waiting, Finished), CALM)
  {
    assert Await(Two(x, At(Running, Finished), CALM), 1).jobs == Two(x, At(Waiting, Finished), CALM).jobs;
  }

  lemma FirstExit()
    ensures Leads(Two(At(Running, Returned), At(Running, Returned), CALM), Exit(0, UNUSED),
                  Two(At(Waiting, Finished), At(Running, Returned), CALM))
  {
    hide Await, AllPending, DoFinalize, UpdateRc, PrepRun;
    var w := Two(At(Waiting, Finished), At(Running, Returned), CALM);
    NoError();
    Await0(At(Running, Returned));
    TwoMembers(At(Waiting, Finished), At(Running, Returned), CALM);
    assert 1 in Members(w, 0);
    var f := Two(At(Running, Finished), At(Running, Returned), CALM);
    var s := Two(At(Running, Returned), At(Running, Returned), CALM);
    assert Put(f, 0, At(Running, Finished)) == f && Put(s, 0, s.jobs[0].(co := Finished)) == f;
    assert Complete(f, 0, UNUSED) == w;
  }

  lemma SecondExit()
    ensures Leads(Two(At(Waiting, Finished), At(Running, Returned), CALM), Exit(1, UNUSED),
                  Two(At(Pending, Finished), At(Pending, Finished), CALM))
  {
    hide Await, DoFinalize, UpdateRc, PrepRun;
    var w := Two(At(Waiting, Finished), At(Waiting, Finished), CALM);
    NoError();
    Await1(At(Waiting, Finished));
    TwoMembers(At(Waiting, Finished), At(Waiting, Finished), CALM);
    assert 0 in Members(w, 0);
    var f := Two(At(Waiting, Finished), At(Running, Finished), CALM);
    var s := Two(At(Waiting, Finished), At(Running, Returned), CALM);
    assert Put(f, 1, At(Running, Finished)) == f && Put(s, 1, s.jobs[1].(co := Finished)) == f;
    assert AllPending(w, 0).jobs == Two(At(Pending, Finished), At(Pending, Finished), CALM).jobs;
    assert Complete(f, 1, UNUSED) == AllPending(w, 0);
  }

  lemma FinalizeFails()
    ensures Leads(Two(At(Pending, Finished), At(Pending, Finished), CALM), Finalize(0, FAILING),
                  Two(At(Pending, Finished), FAILED, BLAMED))
  {
    var s := Two(At(Pending, Finished), At(Pending, Finished), CALM);
    TwoMembers(At(Pending, Finished), At(Pending, Finished), CALM);
    var f := At(Aborting, Finished).(ret := -5);
    assert Prepared(s, 0, FAILING).jobs == Two(At(Pending, Finished), f, CALM).jobs;
    TwoMembers(At(Pending, Finished), f, CALM.(blame := Some(Blame(0, 1))));
    assert Do(s, Finalize(0, FAILING)).jobs == Two(At(Pending, Finished), FAILED, BLAMED).jobs;
  }

  const DONE0 := At(Concluded, Finished).(inTxn := false, finals := [Commit])
  const DONE1 := FAILED.(status := Concluded, inTxn := false, finals := [Abort])

  lemma Creations()
    ensures Leads(Sys(map[], map[]), Create(0, 0, false, false), Sys(map[0 := At(Created, NotStarted)], map[0 := CALM]))
    ensures Leads(Sys(map[0 := At(Created, NotStarted)], map[0 := CALM]), Create(1, 0, false, false),
                  Two(At(Created, NotStarted), At(Created, NotStarted), CALM))
  {}

  lemma Starts()
    ensures Leads(Two(At(Created, NotStarted), At(Created, NotStarted), CALM), Start(0),
                  Two(At(Running, InDriver), At(Created, NotStarted), CALM))
    ensures Leads(Two(At(Running, InDriver), At(Created, NotStarted), CALM), Start(1),
                  Two(At(Running, InDriver), At(Running, InDriver), CALM))
  {}

  lemma Returns()
    ensures Leads(Two(At(Running, InDriver), At(Running, InDriver), CALM), RunReturns(0, 0),
                  Two(At(Running, Returned), At(Running, InDriver), CALM))
    ensures Leads(Two(At(Running, Returned), At(Running, InDriver), CALM), RunReturns(1, 0),
                  Two(At(Running, Returned), At(Running, Returned), CALM))
  {}

  lemma Turns()
    ensures Leads(Two(At(Pending, Finished), FAILED, BLAMED), AbortTurn(0), Two(DONE0, FAILED, BLAMED))
    ensures Leads(Two(DONE0, FAILED, BLAMED), AbortTurn(1), Two(DONE0, DONE1, BLAMED))
  {
    assert FinalizeSingle(At(Pending, Finished)) == DONE0;
    assert FinalizeSingle(FAILED) == DONE1;
  }

  lemma Append(ss: seq<Sys>, evs: seq<Event>, ev: Event, r: Sys)
    requires IsRun(ss, evs) && Leads(ss[|evs|], ev, r)
    ensures IsRun(ss + [r], evs + [ev])
  {
    hide Enabled, Do;
    var ts, fs := ss + [r], evs + [ev];
    forall i | 0 <= i < |fs| ensures Enabled(ts[i], fs[i]) && ts[i + 1] == Do(ts[i], fs[i]) {
      if i < |evs| { assert ts[i] == ss[i] && ts[i + 1] == ss[i + 1] && fs[i] == evs[i]; }
    }
  }

  /** A run in which one job of a transaction commits and the other aborts. */
  lemma MixedOutcomeHappens() returns (ss: seq<Sys>, evs: seq<Event>)
    ensures IsRun(ss, evs)
    ensures var s := ss[|evs|];
            && 0 in s.jobs && 1 in s.jobs && s.jobs[0].txn == s.jobs[1].txn
            && s.jobs[0].finals == [Commit] && s.jobs[1].finals == [Abort]
  {
    hide IsRun, Leads, Enabled, Do;
    Creations();
    Starts();
    Returns();
    FirstExit();
    SecondExit();
    FinalizeFails();
    Turns();
    ss, evs := EmptyRun();
    ss, evs := Then(ss, evs, Create(0, 0, false, false), Sys(map[0 := At(Created, NotStarted)], map[0 := CALM]));
    ss, evs := Then(ss, evs, Create(1, 0, false, false), Two(At(Created, NotStarted), At(Created, NotStarted), CALM));
    ss, evs := Then(ss, evs, Start(0), Two(At(Running, InDriver), At(Created, NotStarted), CALM));
    ss, evs := Then(ss, evs, Start(1), Two(At(Running, InDriver), At(Running, InDriver), CALM));
    ss, evs := Then(ss, evs, RunReturns(0, 0), Two(At(Running, Returned), At(Running, InDriver), CALM));
    ss, evs := Then(ss, evs, RunReturns(1, 0), Two(At(Running, Returned), At(Running, Returned), CALM));
    ss, evs := Then(ss, evs, Exit(0, UNUSED), Two(At(Waiting, Finished), At(Running, Returned), CALM));
    ss, evs := Then(ss, evs, Exit(1, UNUSED), Two(At(Pending, Finished), At(Pending, Finished), CALM));
    ss, evs := Then(ss, evs, Finalize(0, FAILING), Two(At(Pending, Finished), FAILED, BLAMED));
    ss, evs := Then(ss, evs, AbortTurn(0), Two(DONE0, FAILED, BLAMED));
    ss, evs := Then(ss, evs, AbortTurn(1), Two(DONE0, DONE1, BLAMED));
  }

  lemma EmptyRun() returns (ss: seq<Sys>, evs: seq<Event>)
    ensures IsRun(ss, evs) && |ss| == |evs| + 1 && ss[|evs|] == Sys(map[], map[])
  {
    ss, evs := [Sys(map[], map[])], [];
  }

  lemma Then(ss: seq<Sys>, evs: seq<Event>, ev: Event, r: Sys) returns (ss': seq<Sys>, evs': seq<Event>)
    requires IsRun(ss, evs) && |ss| == |evs| + 1 && Leads(ss[|evs|], ev, r)
    ensures IsRun(ss', evs') && |ss'| == |evs'| + 1 && ss'[|evs'|] == r
  {
    hide Enabled, Do;
    Append(ss, evs, ev, r);
    ss', evs' := ss + [r], evs + [ev];
  }
}
