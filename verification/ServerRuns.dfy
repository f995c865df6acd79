/** What every run of the server keeps, and that closing it ends it. */
module ServerRuns {
  import opened Prelude
  import opened Server

  lemma {:induction false} InvSteps(s: State, es: seq<Event>)
    requires Inv(s) && Steps(s, es).Some?
    ensures Inv(Steps(s, es).value)
    decreases |es|
  {
    hide Inv, Step;
    if es != [] {
      InvStep(s, es[0]);
      InvSteps(Step(s, es[0]).value, es[1..]);
    }
  }

  /** The states a server with n listeners can be in. */
  ghost predicate Reachable(s: State, n: nat) {
    n > 0 && exists es: seq<Event> :: Steps(Initial(n), es) == Some(s)
  }

  lemma ReachableInv(s: State, n: nat)
    requires Reachable(s, n)
    ensures Inv(s)
  {
    hide Inv, Step, Initial;
    var es: seq<Event> :| Steps(Initial(n), es) == Some(s);
    InitialInv(n);
    InvSteps(Initial(n), es);
  }

  // ------------------------------------------------------------------- safety

  /** Once `closed` is set nothing is registered any more, over any further run:
      what is registered was registered when it was set. */
  lemma {:induction false} ClosedIsFinal(s: State, es: seq<Event>)
    requires s.closed && Steps(s, es).Some?
    ensures var t := Steps(s, es).value;
            t.closed && t.conns <= s.conns && t.atClose == s.atClose
    decreases |es|
  {
    hide Step;
    if es != [] {
      ClosedRegistersNothing(s, es[0]);
      ClosedIsFinal(Step(s, es[0]).value, es[1..]);
    }
  }

  /** The step that sets `closed` records exactly the connections registered. */
  lemma ClosingRecords(s: State, e: Event)
    requires !s.closed && Step(s, e).Some? && Step(s, e).value.closed
    ensures Step(s, e).value.atClose == s.conns && Step(s, e).value.conns == s.conns
    ensures Step(s, e).value.byRun <==> e.RunCloses?
  {
  }

  /** When `Close` has let go of the mutex, every connection that was registered
      when it set `closed` is cancelled and closed, and so is every listener. */
  lemma ClosedStopsAll(s: State, n: nat)
    requires Reachable(s, n) && s.closed && s.lock.None?
    ensures forall c :: c in s.atClose ==> c < |s.pool| && Stopped(s.pool[c])
    ensures forall i :: 0 <= i < |s.listening| ==> !s.listening[i]
    ensures s.conns <= s.atClose
  {
    hide RunOk, PoolOk, AcceptorsOk, Counted;
    ReachableInv(s, n);
  }

  lemma {:induction false} ConnsAtMostLive(pool: seq<Conn>, conns: set<nat>)
    requires forall c :: c in conns ==> c < |pool| && Registered(pool[c])
    ensures |conns| <= SumBy(pool, Live)
  {
    var k := |pool| - 1;
    if pool == [] {
      assert conns == {};
    } else {
      forall c | c in conns - {k} ensures c < k && Registered(pool[..k][c]) {
      }
      ConnsAtMostLive(pool[..k], conns - {k});
      if k in conns { assert Live(pool[k]) == 1; }
    }
  }

  /** The wait group covers the registered connections at every moment. */
  lemma WaitGroupCovers(s: State, n: nat)
    requires Reachable(s, n)
    ensures |s.conns| <= s.wg
  {
    hide RunOk, CloseOk, AcceptorsOk, ListensOk, SumBy;
    ReachableInv(s, n);
    forall c | c in s.conns ensures c < |s.pool| && Registered(s.pool[c]) { assert ConnOk(s, c); }
    ConnsAtMostLive(s.pool, s.conns);
  }

  /** When `Run` returns, every accept loop and every handler has ended, no
      connection is registered, and every connection ever accepted is closed. */
  lemma ReturnedIsQuiet(s: State, n: nat)
    requires Reachable(s, n) && s.run == Returned
    ensures s.closed
    ensures forall i :: 0 <= i < |s.acceptors| ==> s.acceptors[i].Ended?
    ensures forall c :: 0 <= c < |s.pool| ==> s.pool[c].closed && s.pool[c].phase in {Dropped, Gone}
    ensures s.conns == {} && s.wg == 0
  {
    hide CloseOk, ListensOk, SumBy;
    ReachableInv(s, n);
    forall i | 0 <= i < |s.acceptors| ensures s.acceptors[i].Ended? { ReturnedEnded(s, i); }
    SumZero(s.pool, Live);
    forall c | 0 <= c < |s.pool| ensures s.pool[c].closed && s.pool[c].phase in {Dropped, Gone} {
      assert ConnOk(s, c);
      assert Live(s.pool[c]) == 0;
    }
    ReturnedClosed(s);
    forall c: nat ensures c !in s.conns {
      if c < |s.pool| { assert ConnOk(s, c); }
    }
  }

  lemma ReturnedClosed(s: State)
    requires Inv(s) && (s.run == Waiting || s.run == Returned)
    ensures s.closed
  {
    hide CloseOk, ListensOk, SumBy, PoolOk;
    ReturnedEnded(s, 0);
    assert AcceptorOk(s, 0);
    if s.first.None? { assert s.acceptors[0] == Ended(false); }
  }

  /** `Run` returns an error exactly when some listener failed; without one, the
      server was closed by a call of `Close` from outside. */
  lemma ReturnsNilExactly(s: State, n: nat)
    requires Reachable(s, n) && s.run == Returned
    ensures s.first.None? <==> forall i :: 0 <= i < |s.acceptors| ==> s.acceptors[i] == Ended(false)
    ensures s.first.None? ==> s.closed && !s.byRun
    ensures s.first.Some? ==> s.first.value < |s.acceptors| && s.acceptors[s.first.value] == Ended(true)
  {
    hide CloseOk, ListensOk, SumBy, PoolOk, AcceptorsOk, Counted;
    ReachableInv(s, n);
    ReturnedClosed(s);
  }

  // -------------------------------------------------------------- termination

  function AcceptorWork(a: Acceptor): nat {
    match a case Accepting => 8 case Holding(_) => 3 case Refusing(_) => 2 case Ended(_) => 0
  }

  /** A connection's remaining steps. */
  function ConnWork(x: Conn): nat {
    match x.phase case Serving => 4 case Finished => 3 case Removed => 2 case Shut => 1 case _ => 0
  }

  function AcceptWork(acceptors: seq<Acceptor>): nat {
    if acceptors == [] then 0
    else AcceptWork(acceptors[..|acceptors| - 1]) + AcceptorWork(acceptors[|acceptors| - 1])
  }

  lemma {:induction false} AcceptUpdate(acceptors: seq<Acceptor>, i: nat, a: Acceptor)
    requires i < |acceptors|
    ensures AcceptWork(acceptors[i := a]) == AcceptWork(acceptors) - AcceptorWork(acceptors[i]) + AcceptorWork(a)
    ensures AcceptorWork(acceptors[i]) <= AcceptWork(acceptors)
  {
    var n := |acceptors| - 1;
    if i < n {
      AcceptUpdate(acceptors[..n], i, a);
      assert acceptors[i := a][..n] == acceptors[..n][i := a];
    } else {
      assert acceptors[i := a][..n] == acceptors[..n];
    }
  }

  function RunWork(s: State): int {
    var left := 3 * (|s.listening| - |s.consumed|);
    match s.run
    case Collecting => left + 3
    case CallingClose => left + 5
    case InClose => left + 4
    case Waiting => 1
    case Returned => 0
  }

  function LockWork(s: State): int {
    if s.lock.None? then 0 else |s.listening| - s.lock.value.next + |s.lock.value.pending| + 2
  }

  /** What is left to do once the server is closed. */
  function Work(s: State): int {
    AcceptWork(s.acceptors) + SumBy(s.pool, ConnWork) + RunWork(s) + LockWork(s)
  }

  lemma WorkPositive(s: State)
    requires Inv(s)
    ensures Work(s) >= 0
  {
    hide SumBy, AcceptWork, AcceptorsOk, PoolOk, CloseOk, RunOk, Counted;
    SizeBound(s.consumed, |s.listening|);
  }

  lemma AcceptorWorks(s: State, e: Event, t: State)
    requires ByAcceptor(e) && e.i < |s.acceptors| == |s.listening| && AcceptorStep(s, e, e.i) == Some(t) && s.closed
    requires AcceptorOk(s, e.i)
    ensures Work(t) < Work(s)
  {
    hide SumBy, AcceptWork;
    AcceptUpdate(s.acceptors, e.i, t.acceptors[e.i]);
    if e.Accept? {
      SumAppend(s.pool, Conn(e.i, Held, false, false), ConnWork);
    } else if e.Refuse? || e.DropRefused? {
      var c := s.acceptors[e.i].c;
      SumUpdate(s.pool, c, t.pool[c], ConnWork);
    }
  }

  lemma HandlerWorks(s: State, e: Event, t: State)
    requires ByHandler(e) && e.c < |s.pool| && HandlerStep(s, e, e.c) == Some(t)
    ensures Work(t) < Work(s)
  {
    hide SumBy, AcceptWork;
    SumUpdate(s.pool, e.c, t.pool[e.c], ConnWork);
  }

  lemma RunWorks(s: State, e: Event, t: State)
    requires RunStep(s, e) == Some(t) && s.closed
    requires Shape(s)
    ensures Work(t) < Work(s)
  {
    hide SumBy, AcceptWork, ConnWork, AcceptorWork;
    SizeBound(s.consumed, |s.listening|);
  }

  lemma CloseWorks(s: State, e: Event, t: State)
    requires CloseStep(s, e) == Some(t) && s.closed && Shape(s)
    requires s.lock.Some? && s.lock.value.byRun ==> s.run == InClose
    ensures Work(t) < Work(s)
  {
    hide SumBy, AcceptWork;
    if e.CloseConn? { SumUpdate(s.pool, e.c, t.pool[e.c], ConnWork); }
  }

  /** Every step after `closed` was set leaves strictly less to do. */
  lemma WorkDecreases(s: State, e: Event)
    requires Inv(s) && s.closed && Step(s, e).Some?
    ensures Work(Step(s, e).value) < Work(s)
  {
    hide Work, AcceptorStep, HandlerStep, RunStep, CloseStep, PoolOk, CloseOk, Counted, ListensOk, SumBy;
    var t := Step(s, e).value;
    if ByAcceptor(e) {
      AcceptorNow(s, e.i);
      AcceptorWorks(s, e, t);
    } else if ByHandler(e) {
      HandlerWorks(s, e, t);
    } else if e.Collect? || e.LeaveLoop? || e.RunCloses? || e.Return? {
      RunWorks(s, e, t);
    } else {
      CloseWorks(s, e, t);
    }
  }

  /** A closed server cannot run for ever: any run from here has at most as many
      steps as there is work left. */
  lemma {:induction false} ClosedRunsEnd(s: State, es: seq<Event>)
    requires Inv(s) && s.closed && Steps(s, es).Some?
    ensures |es| <= Work(s)
    decreases |es|
  {
    hide Inv, Step, Work;
    WorkPositive(s);
    if es != [] {
      var t := Step(s, es[0]).value;
      InvStep(s, es[0]);
      WorkDecreases(s, es[0]);
      ClosedRegistersNothing(s, es[0]);
      ClosedRunsEnd(t, es[1..]);
    }
  }

  /** No step is enabled. */
  ghost predicate Stuck(s: State) {
    forall e: Event :: Step(s, e).None?
  }

  lemma AcceptorMoves(s: State, i: nat) returns (e: Event)
    requires Inv(s) && s.closed && s.lock.None? && i < |s.acceptors| && !s.acceptors[i].Ended?
    ensures Step(s, e).Some?
  {
    hide PoolOk, CloseOk, RunOk, Counted;
    AcceptorNow(s, i);
    ListenerNow(s, i);
    match s.acceptors[i] {
      case Accepting => e := AcceptClosed(i);
      case Holding(_) => e := Refuse(i);
      case Refusing(_) => e := DropRefused(i);
    }
  }

  lemma CloseMoves(s: State) returns (e: Event)
    requires Inv(s) && s.lock.Some?
    ensures Step(s, e).Some?
  {
    hide PoolOk, AcceptorsOk, RunOk, Counted;
    var l := s.lock.value;
    if l.next < |s.listening| {
      e := CloseListener;
    } else if l.pending == {} {
      e := Unlock;
    } else {
      var c :| c in l.pending;
      e := CloseConn(c);
    }
  }

  lemma HandlerMoves(s: State, c: nat) returns (e: Event)
    requires Inv(s) && s.lock.None? && c < |s.pool| && Live(s.pool[c]) > 0
    ensures Step(s, e).Some?
  {
    hide PoolOk, AcceptorsOk, RunOk, CloseOk, ListensOk, SumBy;
    SumUpdate(s.pool, c, s.pool[c], Live);
    match s.pool[c].phase {
      case Serving => e := Finish(c);
      case Finished => e := Remove(c);
      case Removed => e := Shutdown(c);
      case Shut => e := Done(c);
    }
  }

  lemma LiveHandler(s: State) returns (c: nat)
    requires Counted(s) && s.wg > 0
    ensures c < |s.pool| && Live(s.pool[c]) > 0
  {
    SumZero(s.pool, Live);
    c :| 0 <= c < |s.pool| && Live(s.pool[c]) != 0;
  }

  lemma RunMoves(s: State) returns (e: Event)
    requires Inv(s) && s.closed && s.lock.None? && s.run != Returned
    requires forall i :: 0 <= i < |s.acceptors| ==> s.acceptors[i].Ended?
    ensures Step(s, e).Some?
  {
    hide PoolOk, AcceptorsOk, CloseOk, ListensOk, SumBy, Counted;
    if s.run == CallingClose {
      e := RunCloses;
    } else if s.run == Waiting {
      if s.wg == 0 {
        e := Return;
      } else {
        var c := LiveHandler(s);
        e := HandlerMoves(s, c);
      }
    } else if i :| 0 <= i < |s.acceptors| && i !in s.consumed {
      e := Collect(i);
    } else {
      AllIndices(s.consumed, |s.listening|);
      e := LeaveLoop;
    }
  }

  lemma {:induction false} AllIndices(a: set<nat>, n: nat)
    requires forall i: nat :: i in a <==> i < n
    ensures |a| == n
  {
    if n == 0 { assert a == {}; } else { AllIndices(a - {n - 1}, n - 1); }
  }

  /** A closed server is never stuck before `Run` has returned. */
  lemma ClosedProgresses(s: State)
    requires Inv(s) && s.closed && (s.run != Returned || s.lock.Some?)
    ensures exists e: Event :: Step(s, e).Some?
  {
    hide Inv, Step;
    if s.lock.Some? {
      var e := CloseMoves(s);
    } else if i :| 0 <= i < |s.acceptors| && !s.acceptors[i].Ended? {
      var e := AcceptorMoves(s, i);
    } else {
      var e := RunMoves(s);
    }
  }

  /** Shutdown terminates: however the steps interleave, a server that was closed
      stops within a bounded number of them, and where it stops `Run` has
      returned and `Close` too. */
  lemma ShutdownTerminates(s: State, n: nat, es: seq<Event>)
    requires Reachable(s, n) && s.closed && Steps(s, es).Some?
    ensures |es| <= Work(s)
    ensures Stuck(Steps(s, es).value) ==>
              Steps(s, es).value.run == Returned && Steps(s, es).value.lock.None?
  {
    hide Inv, Step, Work, Reachable;
    ReachableInv(s, n);
    ClosedRunsEnd(s, es);
    InvSteps(s, es);
    ClosedIsFinal(s, es);
    var t := Steps(s, es).value;
    if t.run != Returned || t.lock.Some? { ClosedProgresses(t); }
  }

  // ---------------------------------------------------------------- while open

  lemma TwoSteps(s: State, a: Event, b: Event)
    requires Step(s, a).Some?
    ensures Steps(s, [a, b]) == Step(Step(s, a).value, b)
  {
    hide Step;
    var t := Step(s, a).value;
    assert [a, b][1..] == [b] && [b][1..] == [];
    if Step(t, b).Some? { assert Steps(Step(t, b).value, []) == Step(t, b); }
  }

  lemma Accepts(s: State, i: nat)
    requires i < |s.acceptors| == |s.listening| && s.acceptors[i] == Accepting && s.listening[i]
    ensures Step(s, Accept(i))
         == Some(s.(acceptors := s.acceptors[i := Holding(|s.pool|)], pool := s.pool + [Conn(i, Held, false, false)]))
  {
  }

  lemma Registers(s: State, i: nat)
    requires i < |s.acceptors| == |s.listening| && s.acceptors[i].Holding? && s.acceptors[i].c < |s.pool|
    requires s.lock.None? && !s.closed
    ensures var c := s.acceptors[i].c;
            Step(s, Register(i))
            == Some(s.(acceptors := s.acceptors[i := Accepting], pool := s.pool[c := s.pool[c].(phase := Serving)],
                       conns := s.conns + {c}, wg := s.wg + 1))
  {
  }

  lemma OpenLoops(s: State, i: nat)
    requires Inv(s) && !s.closed && i < |s.acceptors|
    ensures s.lock.None? && |s.listening| == |s.acceptors| && s.listening[i]
    ensures s.acceptors[i].Holding? ==> s.acceptors[i].c < |s.pool|
    ensures !s.acceptors[i].Refusing? && s.acceptors[i] != Ended(false)
  {
    hide ConnOk, SumBy;
    assert AcceptorOk(s, i);
  }

  /** An open server serves: an accept loop that waits can take a connection and
      register it, and is then waiting again; one that holds a connection can
      register it; and the server can be closed. */
  lemma OpenServes(s: State, n: nat, i: nat)
    requires Reachable(s, n) && !s.closed && i < |s.acceptors|
    ensures s.acceptors[i] == Accepting ==>
              Steps(s, [Accept(i), Register(i)])
              == Some(s.(pool := s.pool + [Conn(i, Serving, false, false)], conns := s.conns + {|s.pool|}, wg := s.wg + 1))
    ensures s.acceptors[i].Holding? ==>
              var c := s.acceptors[i].c;
              && c < |s.pool|
              && Step(s, Register(i))
                 == Some(s.(acceptors := s.acceptors[i := Accepting], pool := s.pool[c := s.pool[c].(phase := Serving)],
                            conns := s.conns + {c}, wg := s.wg + 1))
    ensures !s.acceptors[i].Refusing? && s.acceptors[i] != Ended(false)
    ensures Step(s, ExternalClose).Some? && Step(s, ExternalClose).value.closed && !Step(s, ExternalClose).value.byRun
  {
    hide Reachable, Inv, Steps, Step;
    ReachableInv(s, n);
    OpenLoops(s, i);
    Closable(s);
    if s.acceptors[i].Holding? { Registers(s, i); }
    if s.acceptors[i] == Accepting { TakesConnection(s, i); }
  }

  lemma Closable(s: State)
    requires !s.closed && s.lock.None?
    ensures Step(s, ExternalClose).Some? && Step(s, ExternalClose).value.closed && !Step(s, ExternalClose).value.byRun
  {
  }

  lemma TakesConnection(s: State, i: nat)
    requires i < |s.acceptors| == |s.listening| && s.acceptors[i] == Accepting && s.listening[i] && s.lock.None? && !s.closed
    ensures Steps(s, [Accept(i), Register(i)])
         == Some(s.(pool := s.pool + [Conn(i, Serving, false, false)], conns := s.conns + {|s.pool|}, wg := s.wg + 1))
  {
    hide Steps, Step;
    Accepts(s, i);
    var t := Step(s, Accept(i)).value;
    Registers(t, i);
    assert t.acceptors[i := Accepting] == s.acceptors;
    assert t.pool[|s.pool| := t.pool[|s.pool|].(phase := Serving)] == s.pool + [Conn(i, Serving, false, false)];
    TwoSteps(s, Accept(i), Register(i));
  }

  /** The handler of a connection cancels and deregisters, and then closes and
      reports, whenever `Close` does not hold the mutex, and touches no other. */
  lemma HandlersEnd(s: State, c: nat)
    requires c < |s.pool|
    ensures s.pool[c].phase == Serving && s.lock.None? ==>
              Steps(s, [Finish(c), Remove(c)])
              == Some(s.(pool := s.pool[c := s.pool[c].(phase := Removed, cancelled := true)], conns := s.conns - {c}))
    ensures s.pool[c].phase == Removed && s.wg > 0 ==>
              Steps(s, [Shutdown(c), Done(c)])
              == Some(s.(pool := s.pool[c := s.pool[c].(phase := Gone, closed := true)], wg := s.wg - 1))
  {
    hide Steps;
    var x := s.pool[c];
    if s.pool[c].phase == Serving && s.lock.None? {
      var y := x.(phase := Finished, cancelled := true);
      assert s.pool[c := y][c := y.(phase := Removed)] == s.pool[c := y.(phase := Removed)];
      TwoSteps(s, Finish(c), Remove(c));
    } else if s.pool[c].phase == Removed && s.wg > 0 {
      var y := x.(phase := Shut, closed := true);
      assert s.pool[c := y][c := y.(phase := Gone)] == s.pool[c := y.(phase := Gone)];
      TwoSteps(s, Shutdown(c), Done(c));
    }
  }

  /** The first listener to fail closes an open server, and its error is the one kept. */
  lemma FailureCloses(s: State, n: nat, i: nat)
    requires Reachable(s, n) && !s.closed && s.run == Collecting
    requires i < |s.acceptors| && s.acceptors[i] == Ended(true) && i !in s.consumed && s.first.None?
    ensures Steps(s, [Collect(i), RunCloses]).Some?
    ensures var t := Steps(s, [Collect(i), RunCloses]).value;
            t.closed && t.byRun && t.first == Some(i) && t.run == InClose && t.atClose == s.conns
  {
    hide Reachable, Inv, Steps;
    ReachableInv(s, n);
    OpenLoops(s, i);
    TwoSteps(s, Collect(i), RunCloses);
  }
}
