/** The server's life: accept loops, connection handlers, `Run` and `Close`
    interleave as atomic steps. Every critical section of the mutex is one step,
    except that of `Close`, which closes listeners and connections one by one
    while it holds the mutex. */
module Server {
  import opened Prelude

  /** An accept loop: in `Accept`, holding a connection it has not registered,
      about to close one it refused, or returned, with an error or without. */
  datatype Acceptor = Accepting | Holding(c: nat) | Refusing(c: nat) | Ended(failed: bool)

  /** A connection: in the hands of an accept loop (`Held`, `Refused`, then
      `Dropped`), or of its handler, whose deferred calls run in the order
      cancel, delete, close, done. */
  datatype Phase = Held | Refused | Dropped | Serving | Finished | Removed | Shut | Gone

  datatype Conn = Conn(owner: nat, phase: Phase, cancelled: bool, closed: bool)

  /** `Close` at work under the mutex: the next listener to close, and the
      connections it has still to cancel and close. */
  datatype Closing = Closing(byRun: bool, next: nat, pending: set<nat>)

  datatype RunPhase = Collecting | CallingClose | InClose | Waiting | Returned

  /** `pool` holds every connection ever accepted; `conns`, `wg`, `closed` and
      `first` are the program's own. `consumed` are the accept loops whose result
      `Run` has received. `byRun` and `atClose` record who set `closed`, and the
      connections registered then. */
  datatype State = State(
    listening: seq<bool>, acceptors: seq<Acceptor>, pool: seq<Conn>,
    conns: set<nat>, wg: nat, closed: bool, lock: Option<Closing>,
    run: RunPhase, consumed: set<nat>, first: Option<nat>,
    byRun: bool, atClose: set<nat>)

  datatype Event =
    | Accept(i: nat)
    | AcceptFails(i: nat)
    | AcceptClosed(i: nat)
    | Register(i: nat)
    | Refuse(i: nat)
    | DropRefused(i: nat)
    | Finish(c: nat)
    | Remove(c: nat)
    | Shutdown(c: nat)
    | Done(c: nat)
    | Collect(i: nat)
    | LeaveLoop
    | RunCloses
    | ExternalClose
    | CloseListener
    | CloseConn(c: nat)
    | Unlock
    | Return

  function Initial(n: nat): State {
    State(seq(n, i => true), seq(n, i => Accepting), [], {}, 0, false, None, Collecting, {}, None, false, {})
  }

  // -------------------------------------------------------------------- steps

  function WithAcceptor(s: State, i: nat, a: Acceptor): State
    requires i < |s.acceptors|
  {
    s.(acceptors := s.acceptors[i := a])
  }

  function WithConn(s: State, c: nat, x: Conn): State
    requires c < |s.pool|
  {
    s.(pool := s.pool[c := x])
  }

  /** The step of accept loop i. */
  function AcceptorStep(s: State, e: Event, i: nat): Option<State>
    requires i < |s.acceptors| == |s.listening|
  {
    var a := s.acceptors[i];
    match e
    case Accept(_) =>
      if a == Accepting && s.listening[i] then
        Some(WithAcceptor(s, i, Holding(|s.pool|)).(pool := s.pool + [Conn(i, Held, false, false)]))
      else None
    case AcceptFails(_) =>
      if a == Accepting && s.listening[i] then Some(WithAcceptor(s, i, Ended(true))) else None
    case AcceptClosed(_) =>
      if a == Accepting && !s.listening[i] then Some(WithAcceptor(s, i, Ended(false))) else None
    case Register(_) =>
      if a.Holding? && a.c < |s.pool| && s.lock.None? && !s.closed then
        Some(WithConn(WithAcceptor(s, i, Accepting), a.c, s.pool[a.c].(phase := Serving))
             .(conns := s.conns + {a.c}, wg := s.wg + 1))
      else None
    case Refuse(_) =>
      if a.Holding? && a.c < |s.pool| && s.lock.None? && s.closed then
        Some(WithConn(WithAcceptor(s, i, Refusing(a.c)), a.c, s.pool[a.c].(phase := Refused)))
      else None
    case DropRefused(_) =>
      if a.Refusing? && a.c < |s.pool| then
        Some(WithConn(WithAcceptor(s, i, Ended(false)), a.c, s.pool[a.c].(phase := Dropped, closed := true)))
      else None
    case _ => None
  }

  /** The step of the handler of connection c. */
  function HandlerStep(s: State, e: Event, c: nat): Option<State>
    requires c < |s.pool|
  {
    var x := s.pool[c];
    match e
    case Finish(_) =>
      if x.phase == Serving then Some(WithConn(s, c, x.(phase := Finished, cancelled := true))) else None
    case Remove(_) =>
      if x.phase == Finished && s.lock.None? then
        Some(WithConn(s, c, x.(phase := Removed)).(conns := s.conns - {c}))
      else None
    case Shutdown(_) =>
      if x.phase == Removed then Some(WithConn(s, c, x.(phase := Shut, closed := true))) else None
    case Done(_) =>
      if x.phase == Shut && s.wg > 0 then Some(WithConn(s, c, x.(phase := Gone)).(wg := s.wg - 1)) else None
    case _ => None
  }

  /** Taking the mutex in `Close`, not closed before. */
  function BeginClose(s: State, byRun: bool): State {
    s.(closed := true, lock := Some(Closing(byRun, 0, s.conns)), byRun := byRun, atClose := s.conns)
  }

  function RunStep(s: State, e: Event): Option<State> {
    match e
    case Collect(i) =>
      if s.run == Collecting && i < |s.acceptors| && i !in s.consumed && s.acceptors[i].Ended? then
        var t := s.(consumed := s.consumed + {i});
        Some(if s.acceptors[i].failed && s.first.None? then t.(first := Some(i), run := CallingClose) else t)
      else None
    case LeaveLoop =>
      if s.run == Collecting && |s.consumed| == |s.listening| then Some(s.(run := Waiting)) else None
    case RunCloses =>
      if s.run == CallingClose && s.lock.None? then
        Some(if s.closed then s.(run := Collecting) else BeginClose(s, true).(run := InClose))
      else None
    case Return => if s.run == Waiting && s.wg == 0 then Some(s.(run := Returned)) else None
    case _ => None
  }

  function CloseStep(s: State, e: Event): Option<State> {
    match e
    case ExternalClose => if s.lock.None? && !s.closed then Some(BeginClose(s, false)) else None
    case CloseListener =>
      if s.lock.Some? && s.lock.value.next < |s.listening| then
        var l := s.lock.value;
        Some(s.(listening := s.listening[l.next := false], lock := Some(l.(next := l.next + 1))))
      else None
    case CloseConn(c) =>
      if s.lock.Some? && s.lock.value.next == |s.listening| && c in s.lock.value.pending && c < |s.pool| then
        var l := s.lock.value;
        Some(WithConn(s, c, s.pool[c].(cancelled := true, closed := true)).(lock := Some(l.(pending := l.pending - {c}))))
      else None
    case Unlock =>
      if s.lock.Some? && s.lock.value.next == |s.listening| && s.lock.value.pending == {} then
        Some(s.(lock := None, run := if s.lock.value.byRun then Collecting else s.run))
      else None
    case _ => None
  }

  /** One step of the server, if it is enabled. */
  function Step(s: State, e: Event): Option<State> {
    if e.Accept? || e.AcceptFails? || e.AcceptClosed? || e.Register? || e.Refuse? || e.DropRefused? then
      if e.i < |s.acceptors| == |s.listening| then AcceptorStep(s, e, e.i) else None
    else if e.Finish? || e.Remove? || e.Shutdown? || e.Done? then
      if e.c < |s.pool| then HandlerStep(s, e, e.c) else None
    else if e.Collect? || e.LeaveLoop? || e.RunCloses? || e.Return? then RunStep(s, e)
    else CloseStep(s, e)
  }

  function Steps(s: State, es: seq<Event>): Option<State>
    decreases |es|
  {
    if es == [] then Some(s)
    else match Step(s, es[0]) case None => None case Some(t) => Steps(t, es[1..])
  }

  // --------------------------------------------------------------------- sums

  function SumBy(pool: seq<Conn>, f: Conn -> nat): nat {
    if pool == [] then 0 else SumBy(pool[..|pool| - 1], f) + f(pool[|pool| - 1])
  }

  lemma SumAppend(pool: seq<Conn>, x: Conn, f: Conn -> nat)
    ensures SumBy(pool + [x], f) == SumBy(pool, f) + f(x)
  {
    assert (pool + [x])[..|pool|] == pool;
  }

  lemma {:induction false} SumUpdate(pool: seq<Conn>, c: nat, x: Conn, f: Conn -> nat)
    requires c < |pool|
    ensures SumBy(pool[c := x], f) == SumBy(pool, f) - f(pool[c]) + f(x)
    ensures f(pool[c]) <= SumBy(pool, f)
  {
    var n := |pool| - 1;
    if c < n {
      SumUpdate(pool[..n], c, x, f);
      assert pool[c := x][..n] == pool[..n][c := x];
    } else {
      assert pool[c := x][..n] == pool[..n];
    }
  }

  lemma {:induction false} SumZero(pool: seq<Conn>, f: Conn -> nat)
    ensures SumBy(pool, f) == 0 <==> forall c :: 0 <= c < |pool| ==> f(pool[c]) == 0
  {
    if pool != [] {
      SumZero(pool[..|pool| - 1], f);
      assert forall c :: 0 <= c < |pool| - 1 ==> pool[..|pool| - 1][c] == pool[c];
    }
  }

  /** A handler that has not told the wait group it is done. */
  function Live(x: Conn): nat {
    match x.phase
    case Serving => 1
    case Finished => 1
    case Removed => 1
    case Shut => 1
    case _ => 0
  }

  predicate Registered(x: Conn) {
    x.phase == Serving || x.phase == Finished
  }

  // ---------------------------------------------------------------- invariant

  predicate Shape(s: State) {
    && |s.listening| == |s.acceptors| > 0
    && (forall i :: i in s.consumed ==> i < |s.acceptors|)
    && (forall c :: c in s.conns ==> c < |s.pool|)
    && (forall c :: c in s.atClose ==> c < |s.pool|)
  }

  /** An accept loop and the connection in its hands know each other. */
  predicate AcceptorOk(s: State, i: nat)
    requires i < |s.acceptors|
  {
    var a := s.acceptors[i];
    && (a.Holding? ==> a.c < |s.pool| && s.pool[a.c].phase == Held && s.pool[a.c].owner == i)
    && (a.Refusing? ==> a.c < |s.pool| && s.pool[a.c].phase == Refused && s.pool[a.c].owner == i && s.closed)
    && (a == Ended(false) ==> s.closed)
  }

  /** `conns` and what was done to a connection agree with its phase. */
  predicate ConnOk(s: State, c: nat)
    requires c < |s.pool|
  {
    var x := s.pool[c];
    && (x.phase == Held ==> x.owner < |s.acceptors| && s.acceptors[x.owner] == Holding(c))
    && (x.phase == Refused ==> x.owner < |s.acceptors| && s.acceptors[x.owner] == Refusing(c))
    && (c in s.conns <==> Registered(x))
    && (x.phase in {Dropped, Shut, Gone} ==> x.closed)
    && (x.phase in {Finished, Removed, Shut, Gone} ==> x.cancelled)
  }

  predicate AcceptorsOk(s: State) {
    forall i :: 0 <= i < |s.acceptors| ==> AcceptorOk(s, i)
  }

  predicate PoolOk(s: State) {
    forall c :: 0 <= c < |s.pool| ==> ConnOk(s, c)
  }

  predicate Counted(s: State) {
    s.wg == SumBy(s.pool, Live)
  }

  /** Listeners are closed in order, by `Close` alone. */
  predicate ListensOk(s: State) {
    && (s.lock.Some? ==> s.closed && s.lock.value.next <= |s.listening|)
    && forall i :: 0 <= i < |s.listening| ==>
         (s.listening[i] <==> !s.closed || (s.lock.Some? && s.lock.value.next <= i))
  }

  predicate Stopped(x: Conn) {
    x.cancelled && x.closed
  }

  predicate Pending(s: State, c: nat) {
    s.lock.Some? && c in s.lock.value.pending
  }

  /** Every connection registered when `closed` was set is cancelled and closed,
      but for those `Close` has still to reach; none was registered since. */
  predicate CloseOk(s: State)
    requires Shape(s)
  {
    && (s.closed ==> s.conns <= s.atClose)
    && (s.closed ==> forall c :: c in s.atClose ==> Pending(s, c) || Stopped(s.pool[c]))
    && (s.lock.Some? ==> s.lock.value.pending <= s.atClose)
    && (s.lock.Some? ==> s.lock.value.byRun == s.byRun)
    && (s.byRun ==> s.closed)
  }

  predicate AllCollected(s: State) {
    forall i :: 0 <= i < |s.acceptors| ==> i in s.consumed
  }

  /** What `Run` knows, and why. */
  predicate RunOk(s: State)
    requires Shape(s)
  {
    && (forall i :: i in s.consumed ==> s.acceptors[i].Ended?)
    && (s.first.None? ==> forall i :: i in s.consumed ==> s.acceptors[i] == Ended(false))
    && (s.first.Some? ==> s.first.value in s.consumed && s.acceptors[s.first.value] == Ended(true))
    && (s.run == CallingClose || s.run == InClose ==> s.first.Some?)
    && (s.first.Some? && s.run != CallingClose ==> s.closed)
    && (s.run == InClose <==> s.lock.Some? && s.lock.value.byRun)
    && (s.byRun ==> s.first.Some?)
    && (s.run == Waiting || s.run == Returned ==> AllCollected(s))
    && (s.run == Returned ==> s.wg == 0)
  }

  predicate Inv(s: State) {
    Shape(s) && AcceptorsOk(s) && PoolOk(s) && Counted(s) && ListensOk(s) && CloseOk(s) && RunOk(s)
  }

  lemma InitialInv(n: nat)
    requires n > 0
    ensures Inv(Initial(n))
  {
  }

  lemma ShapeStep(s: State, e: Event)
    requires Inv(s) && Step(s, e).Some?
    ensures Shape(Step(s, e).value)
    ensures |Step(s, e).value.acceptors| == |s.acceptors| && |Step(s, e).value.pool| >= |s.pool|
  {
    hide AcceptorsOk, PoolOk, RunOk, CloseOk, SumBy;
    if e.Register? || e.Refuse? || e.DropRefused? { AcceptorNow(s, e.i); }
  }

  lemma AcceptorNow(s: State, i: nat)
    requires AcceptorsOk(s) && i < |s.acceptors|
    ensures AcceptorOk(s, i)
  {
  }

  lemma ConnNow(s: State, c: nat)
    requires PoolOk(s) && c < |s.pool|
    ensures ConnOk(s, c)
  {
  }

  lemma ListenerNow(s: State, i: nat)
    requires ListensOk(s) && i < |s.listening|
    ensures s.listening[i] <==> !s.closed || (s.lock.Some? && s.lock.value.next <= i)
  {
  }

  predicate ByAcceptor(e: Event) {
    e.Accept? || e.AcceptFails? || e.AcceptClosed? || e.Register? || e.Refuse? || e.DropRefused?
  }

  predicate ByHandler(e: Event) {
    e.Finish? || e.Remove? || e.Shutdown? || e.Done?
  }

  lemma ConnOkAcceptor(s: State, e: Event, c: nat, t: State)
    requires ByAcceptor(e) && e.i < |s.acceptors| == |s.listening| && AcceptorStep(s, e, e.i) == Some(t)
    requires AcceptorOk(s, e.i) && (forall k :: k in s.conns ==> k < |s.pool|)
    requires c < |t.pool| && (c < |s.pool| ==> ConnOk(s, c))
    ensures ConnOk(t, c)
  {
    match e {
      case Accept(i) =>
      case AcceptFails(i) =>
      case AcceptClosed(i) =>
      case Register(i) =>
      case Refuse(i) =>
      case DropRefused(i) =>
    }
  }

  lemma ConnOkHandler(s: State, e: Event, c: nat, t: State)
    requires ByHandler(e) && e.c < |s.pool| && HandlerStep(s, e, e.c) == Some(t)
    requires c < |t.pool| && (c < |s.pool| ==> ConnOk(s, c))
    ensures ConnOk(t, c)
  {
  }

  lemma ConnOkOther(s: State, e: Event, c: nat, t: State)
    requires RunStep(s, e) == Some(t) || CloseStep(s, e) == Some(t)
    requires c < |t.pool| && (c < |s.pool| ==> ConnOk(s, c))
    ensures ConnOk(t, c)
  {
  }

  lemma AcceptorOkAcceptor(s: State, e: Event, i: nat, t: State)
    requires ByAcceptor(e) && e.i < |s.acceptors| == |s.listening| && AcceptorStep(s, e, e.i) == Some(t)
    requires AcceptorOk(s, e.i) && (!s.listening[e.i] ==> s.closed)
    requires i < |s.acceptors| && AcceptorOk(s, i)
    ensures i < |t.acceptors| && AcceptorOk(t, i)
  {
  }

  lemma AcceptorOkHandler(s: State, e: Event, i: nat, t: State)
    requires ByHandler(e) && e.c < |s.pool| && HandlerStep(s, e, e.c) == Some(t) && i < |s.acceptors| && AcceptorOk(s, i)
    ensures i < |t.acceptors| && AcceptorOk(t, i)
  {
  }

  lemma AcceptorOkOther(s: State, e: Event, i: nat, t: State)
    requires RunStep(s, e) == Some(t) || CloseStep(s, e) == Some(t)
    requires i < |s.acceptors| && AcceptorOk(s, i)
    ensures i < |t.acceptors| && AcceptorOk(t, i)
  {
  }

  lemma AcceptorOkStep(s: State, e: Event, i: nat)
    requires Inv(s) && Step(s, e).Some? && i < |s.acceptors|
    ensures i < |Step(s, e).value.acceptors| && AcceptorOk(Step(s, e).value, i)
  {
    hide AcceptorsOk, PoolOk, RunOk, CloseOk, SumBy, ListensOk, ConnOk, AcceptorOk, Counted, AcceptorStep, HandlerStep,
      RunStep, CloseStep;
    var t := Step(s, e).value;
    AcceptorNow(s, i);
    if ByAcceptor(e) {
      AcceptorNow(s, e.i);
      ListenerNow(s, e.i);
      AcceptorOkAcceptor(s, e, i, t);
    } else if ByHandler(e) {
      AcceptorOkHandler(s, e, i, t);
    } else {
      AcceptorOkOther(s, e, i, t);
    }
  }

  lemma ConnOkStep(s: State, e: Event, c: nat)
    requires Inv(s) && Step(s, e).Some? && c < |Step(s, e).value.pool|
    ensures ConnOk(Step(s, e).value, c)
  {
    hide AcceptorsOk, PoolOk, RunOk, CloseOk, SumBy, ListensOk, ConnOk, AcceptorOk, Counted, AcceptorStep,
      HandlerStep, RunStep, CloseStep;
    var t := Step(s, e).value;
    if c < |s.pool| { ConnNow(s, c); }
    if ByAcceptor(e) {
      AcceptorNow(s, e.i);
      ConnOkAcceptor(s, e, c, t);
    } else if ByHandler(e) {
      ConnOkHandler(s, e, c, t);
    } else {
      ConnOkOther(s, e, c, t);
    }
  }

  lemma CountedStep(s: State, e: Event)
    requires Inv(s) && Step(s, e).Some?
    ensures Counted(Step(s, e).value)
  {
    hide AcceptorsOk, PoolOk, RunOk, CloseOk, SumBy, ListensOk;
    var t := Step(s, e).value;
    if e.Accept? {
      SumAppend(s.pool, Conn(e.i, Held, false, false), Live);
    } else if e.Register? || e.Refuse? || e.DropRefused? {
      AcceptorNow(s, e.i);
      var c := s.acceptors[e.i].c;
      SumUpdate(s.pool, c, t.pool[c], Live);
    } else if e.Finish? || e.Remove? || e.Shutdown? || e.Done? || e.CloseConn? {
      SumUpdate(s.pool, e.c, t.pool[e.c], Live);
    }
  }

  lemma ListensStep(s: State, e: Event)
    requires Inv(s) && Step(s, e).Some?
    ensures ListensOk(Step(s, e).value)
  {
    hide AcceptorsOk, PoolOk, RunOk, CloseOk, SumBy;
  }

  lemma StoppedStep(s: State, e: Event, c: nat)
    requires Inv(s) && Step(s, e).Some? && c < |s.pool| && Stopped(s.pool[c])
    ensures c < |Step(s, e).value.pool| && Stopped(Step(s, e).value.pool[c])
  {
    hide AcceptorsOk, PoolOk, RunOk, CloseOk, SumBy, ListensOk;
  }

  /** Once the server is closed no step registers a connection, and the record of
      those registered then does not change. */
  lemma ClosedRegistersNothing(s: State, e: Event)
    requires s.closed && Step(s, e).Some?
    ensures Step(s, e).value.closed && Step(s, e).value.conns <= s.conns && Step(s, e).value.atClose == s.atClose
  {
  }

  lemma CloseOkStep(s: State, e: Event)
    requires Inv(s) && Step(s, e).Some?
    ensures Shape(Step(s, e).value) && CloseOk(Step(s, e).value)
  {
    hide AcceptorsOk, PoolOk, RunOk, SumBy, ListensOk;
    ShapeStep(s, e);
    var t := Step(s, e).value;
    if s.closed {
      ClosedRegistersNothing(s, e);
      forall c | c in t.atClose ensures Pending(t, c) || Stopped(t.pool[c]) {
        if Stopped(s.pool[c]) { StoppedStep(s, e, c); }
      }
    }
  }

  lemma RunOkAcceptor(s: State, e: Event, t: State)
    requires Shape(s) && Shape(t) && RunOk(s)
    requires ByAcceptor(e) && e.i < |s.acceptors| == |s.listening| && AcceptorStep(s, e, e.i) == Some(t)
    requires s.run == Returned ==> s.acceptors[e.i].Ended?
    ensures RunOk(t)
  {
    hide SumBy, Live, Registered;
  }

  lemma RunOkHandler(s: State, e: Event, t: State)
    requires Shape(s) && Shape(t) && RunOk(s)
    requires ByHandler(e) && e.c < |s.pool| && HandlerStep(s, e, e.c) == Some(t)
    ensures RunOk(t)
  {
  }

  lemma RunOkRun(s: State, e: Event, t: State)
    requires Shape(s) && Shape(t) && RunOk(s) && RunStep(s, e) == Some(t)
    requires s.byRun ==> s.closed
    requires s.lock.Some? ==> s.closed
    ensures RunOk(t)
  {
    if e.LeaveLoop? { AllConsumed(s.consumed, |s.listening|); }
  }

  lemma RunOkClose(s: State, e: Event, t: State)
    requires Shape(s) && Shape(t) && RunOk(s) && CloseStep(s, e) == Some(t)
    requires s.lock.Some? ==> s.closed
    ensures RunOk(t)
  {
  }

  lemma RunOkStep(s: State, e: Event)
    requires Inv(s) && Step(s, e).Some?
    ensures Shape(Step(s, e).value) && RunOk(Step(s, e).value)
  {
    hide AcceptorsOk, PoolOk, RunOk, SumBy, Counted, AcceptorStep, HandlerStep, RunStep, CloseStep, Shape;
    ShapeStep(s, e);
    var t := Step(s, e).value;
    if ByAcceptor(e) {
      if s.run == Returned { ReturnedEnded(s, e.i); }
      RunOkAcceptor(s, e, t);
    } else if ByHandler(e) {
      RunOkHandler(s, e, t);
    } else if e.Collect? || e.LeaveLoop? || e.RunCloses? || e.Return? {
      RunOkRun(s, e, t);
    } else {
      RunOkClose(s, e, t);
    }
  }

  lemma ReturnedEnded(s: State, i: nat)
    requires Shape(s) && RunOk(s) && i < |s.acceptors| && (s.run == Waiting || s.run == Returned)
    ensures s.acceptors[i].Ended?
  {
  }

  lemma {:induction false} SizeBound(a: set<nat>, n: nat)
    requires forall i :: i in a ==> i < n
    ensures |a| <= n
  {
    if n == 0 {
      assert a == {};
    } else {
      SizeBound(a - {n - 1}, n - 1);
    }
  }

  lemma {:induction false} AllConsumed(a: set<nat>, n: nat)
    requires (forall i :: i in a ==> i < n) && |a| == n
    ensures forall i :: 0 <= i < n ==> i in a
  {
    if n > 0 {
      if n - 1 in a {
        AllConsumed(a - {n - 1}, n - 1);
      } else {
        SizeBound(a, n - 1);
      }
    }
  }

  /** Every step, in any interleaving, keeps the invariant. */
  lemma InvStep(s: State, e: Event)
    requires Inv(s) && Step(s, e).Some?
    ensures Inv(Step(s, e).value)
  {
    hide Step, Shape, AcceptorOk, ConnOk, Counted, ListensOk, CloseOk, RunOk, SumBy;
    ShapeStep(s, e);
    CountedStep(s, e);
    ListensStep(s, e);
    CloseOkStep(s, e);
    RunOkStep(s, e);
    var t := Step(s, e).value;
    forall i | 0 <= i < |t.acceptors| ensures AcceptorOk(t, i) { AcceptorOkStep(s, e, i); }
    forall c | 0 <= c < |t.pool| ensures ConnOk(t, c) { ConnOkStep(s, e, c); }
  }
}
