/** The database connection pool on its thread pool: any number of callers of ExecuteSql, one caller
    of Stop, and N workers sharing N connections. A step is what a thread does between two points
    where another thread can see the difference; each critical section is one step. */
module DbPool {

  type Connection = nat

  /** id numbers the calls in the order in which their statements entered the queue. */
  datatype Statement = Statement(id: nat, text: string)

  datatype Task = Sql | CountDown

  /** Where a worker is. */
  datatype Worker =
    | Head                                            // about to test whether the pool runs
    | Taking                                          // inside take, possibly asleep there
    | GotSql                                          // has a task, no statement yet
    | GotCountDown
    | HasStatement(st: Statement)
    | Executing(st: Statement, connection: Connection)
    | Returning(connection: Connection)
    | Exited

  datatype StopCaller = NotCalled | WaitsForLatch | Joins | Returned

  datatype State = State(
    workers: seq<Worker>,
    tasks: seq<Task>,
    running: bool,
    statements: seq<Statement>,
    connections: seq<Connection>,
    latch: nat,
    stop: StopCaller,
    failed: bool,                  // an assertion of runInThread has failed
    pushed: seq<Statement>,        // all statements in the order they entered the queue
    inFlight: set<nat>,            // calls that have pushed their statement but not yet a task
    accepted: set<nat>,            // calls that have also queued their task, and so return
    acceptedAtStop: set<nat>,
    executed: seq<Statement>)

  function Initial(n: nat): State
    requires n >= 1
  {
    State(seq(n, i => Head), [], true, [], seq(n, i => i), 1, NotCalled, false, [], {}, {}, {}, [])
  }

  datatype Step = Push(text: string) | Enqueue(id: nat) | CallStop | PassLatch | StopReturns | Work(w: nat)

  predicate Enabled(s: State, step: Step) {
    && !s.failed
    && match step
       case Push(text) => true
       case Enqueue(id) => id in s.inFlight
       case CallStop => s.stop.NotCalled?
       case PassLatch => s.stop.WaitsForLatch? && s.latch == 0
       case StopReturns => s.stop.Joins? && forall w :: 0 <= w < |s.workers| ==> s.workers[w].Exited?
       case Work(w) => w < |s.workers| && !s.workers[w].Exited?
  }

  function Next(s: State, step: Step): State
    requires Enabled(s, step)
  {
    match step
    case Push(text) =>
      var st := Statement(|s.pushed|, text);
      s.(statements := s.statements + [st], pushed := s.pushed + [st], inFlight := s.inFlight + {st.id})
    case Enqueue(id) =>
      s.(tasks := s.tasks + [Sql], inFlight := s.inFlight - {id}, accepted := s.accepted + {id})
    case CallStop =>
      s.(tasks := s.tasks + [CountDown], stop := WaitsForLatch, acceptedAtStop := s.accepted)
    case PassLatch =>
      s.(running := false, stop := Joins)
    case StopReturns =>
      s.(stop := Returned)
    case Work(w) => WorkerStep(s, w)
  }

  /** The assertions of runInThread: a statement that is not empty, and a free connection. */
  predicate Fails(s: State, p: Worker) {
    || (p.GotSql? && (s.statements == [] || s.statements[0].text == ""))
    || (p.HasStatement? && s.connections == [])
  }

  function Proceed(s: State, p: Worker): Worker
    requires !Fails(s, p)
  {
    match p
    case Head => if s.running then Taking else Exited
    case Taking =>
      if s.tasks != [] then (if s.tasks[0].Sql? then GotSql else GotCountDown)
      else if s.running then Taking
      else Head
    case GotSql => HasStatement(s.statements[0])
    case GotCountDown => Head
    case HasStatement(st) => Executing(st, s.connections[0])
    case Executing(st, connection) => Returning(connection)
    case Returning(connection) => Head
    case Exited => Exited
  }

  function WorkerStep(s: State, w: nat): State
    requires w < |s.workers|
  {
    var p := s.workers[w];
    if Fails(s, p) then
      s.(failed := true)
    else
      s.(workers := s.workers[w := Proceed(s, p)],
         tasks := if p.Taking? && s.tasks != [] then s.tasks[1..] else s.tasks,
         statements := if p.GotSql? then s.statements[1..] else s.statements,
         connections := if p.HasStatement? then s.connections[1..]
                        else if p.Returning? then s.connections + [p.connection]
                        else s.connections,
         executed := if p.Executing? then s.executed + [p.st] else s.executed,
         latch := if p.GotCountDown? && s.latch > 0 then s.latch - 1 else s.latch)
  }

  ghost predicate RunOk(s: State, steps: seq<Step>)
    decreases |steps|
  {
    |steps| > 0 ==> Enabled(s, steps[0]) && RunOk(Next(s, steps[0]), steps[1..])
  }

  ghost function Run(s: State, steps: seq<Step>): State
    requires RunOk(s, steps)
    decreases |steps|
  {
    if |steps| == 0 then s else Run(Next(s, steps[0]), steps[1..])
  }

  // ---------------------------------------------------------------- what the workers hold

  ghost function Gather<X>(workers: seq<Worker>, held: Worker -> multiset<X>): multiset<X> {
    if workers == [] then multiset{} else held(workers[0]) + Gather(workers[1..], held)
  }

  lemma Associates<X>(a: multiset<X>, b: multiset<X>, c: multiset<X>)
    ensures (a + b) + c == a + (b + c)
  {
  }

  lemma Swap<X>(a: multiset<X>, b: multiset<X>, c: multiset<X>)
    ensures (a + b) + c == (c + b) + a
  {
  }

  lemma {:induction false} GatherUpdate<X>(workers: seq<Worker>, held: Worker -> multiset<X>, w: nat, p: Worker)
    requires w < |workers|
    ensures Gather(workers[w := p], held) + held(workers[w]) == Gather(workers, held) + held(p)
  {
    var changed := workers[w := p];
    if w == 0 {
      assert changed[1..] == workers[1..];
      Swap(held(p), Gather(workers[1..], held), held(workers[0]));
    } else {
      assert changed[1..] == workers[1..][w - 1 := p];
      GatherUpdate(workers[1..], held, w - 1, p);
      Associates(held(workers[0]), Gather(changed[1..], held), held(workers[w]));
      Associates(held(workers[0]), Gather(workers[1..], held), held(p));
    }
  }

  /** When everyone holds at most one thing and one worker holds nothing, less than |workers| are held. */
  lemma {:induction false} GatherBound<X>(workers: seq<Worker>, held: Worker -> multiset<X>, w: nat)
    requires forall p: Worker :: |held(p)| <= 1
    ensures |Gather(workers, held)| <= |workers|
    ensures w < |workers| && held(workers[w]) == multiset{} ==> |Gather(workers, held)| < |workers|
  {
    if workers != [] {
      GatherBound(workers[1..], held, if w == 0 then 0 else w - 1);
    }
  }

  lemma {:induction false} GatherSome<X>(workers: seq<Worker>, held: Worker -> multiset<X>, x: X) returns (w: nat)
    requires x in Gather(workers, held)
    ensures w < |workers| && x in held(workers[w])
  {
    if x in held(workers[0]) {
      w := 0;
    } else {
      w := GatherSome(workers[1..], held, x);
      w := w + 1;
    }
  }

  lemma {:induction false} GatherAtLeast<X>(workers: seq<Worker>, held: Worker -> multiset<X>, w: nat)
    requires w < |workers|
    ensures held(workers[w]) <= Gather(workers, held)
  {
    if w > 0 {
      GatherAtLeast(workers[1..], held, w - 1);
    }
  }

  lemma {:induction false} GatherNone<X>(workers: seq<Worker>, held: Worker -> multiset<X>)
    requires forall w :: 0 <= w < |workers| ==> held(workers[w]) == multiset{}
    ensures Gather(workers, held) == multiset{}
  {
    if workers != [] {
      assert held(workers[0]) == multiset{};
      GatherNone(workers[1..], held);
    }
  }

  ghost function TaskOf(p: Worker): multiset<Task> {
    if p.GotSql? then multiset{Sql} else if p.GotCountDown? then multiset{CountDown} else multiset{}
  }

  ghost function StatementOf(p: Worker): multiset<Statement> {
    if p.HasStatement? || p.Executing? then multiset{p.st} else multiset{}
  }

  ghost function ConnectionOf(p: Worker): multiset<Connection> {
    if p.Executing? || p.Returning? then multiset{p.connection} else multiset{}
  }

  // ---------------------------------------------------------------- the invariant

  /** Statements taken off the queue so far. */
  ghost function Popped(s: State): seq<Statement>
    requires |s.statements| <= |s.pushed|
  {
    s.pushed[..|s.pushed| - |s.statements|]
  }

  /** The queue holds what was pushed and not yet popped, in order; calls are numbered by position. */
  ghost predicate Queued(s: State) {
    && |s.statements| <= |s.pushed|
    && s.statements == s.pushed[|s.pushed| - |s.statements|..]
    && forall i :: 0 <= i < |s.pushed| ==> s.pushed[i].id == i
  }

  /** Every popped statement is executed once or in the hands of one worker. */
  ghost predicate EachOnce(s: State)
    requires |s.statements| <= |s.pushed|
  {
    multiset(s.executed) + Gather(s.workers, StatementOf) == multiset(Popped(s))
  }

  /** Every connection is in the pool or in the hands of one worker. */
  ghost predicate Connected(s: State) {
    multiset(s.connections) + Gather(s.workers, ConnectionOf) == multiset(seq(|s.workers|, i => i))
  }

  ghost function Outstanding(s: State): multiset<Task> {
    multiset(s.tasks) + Gather(s.workers, TaskOf)
  }

  /** A call is in flight or accepted; each queued statement has its task or its call is in flight. */
  ghost predicate Matched(s: State) {
    && s.inFlight !! s.accepted
    && (forall i: nat :: i in s.inFlight || i in s.accepted <==> i < |s.pushed|)
    && |s.inFlight| + |s.accepted| == |s.pushed|
    && |s.statements| == Outstanding(s)[Sql] + |s.inFlight|
  }

  /** Tasks in front of the one that counts the latch down. */
  ghost function Ahead(tasks: seq<Task>): nat {
    if tasks == [] || tasks[0].CountDown? then 0 else 1 + Ahead(tasks[1..])
  }

  /** Workers leave only after the latch has been passed, and Stop returns after they all left. */
  ghost predicate Joined(s: State) {
    && (s.running <==> s.stop.NotCalled? || s.stop.WaitsForLatch?)
    && (s.running ==> forall w :: 0 <= w < |s.workers| ==> !s.workers[w].Exited?)
    && (s.stop.Returned? ==> forall w :: 0 <= w < |s.workers| ==> s.workers[w].Exited?)
  }

  ghost predicate Latched(s: State) {
    && s.latch <= 1
    && Outstanding(s)[CountDown] == (if s.stop.NotCalled? then 0 else s.latch)
    && (s.stop.NotCalled? ==> s.latch == 1)
  }

  /** Once Stop has queued its task, enough statements were popped or have a task in front of it. */
  ghost predicate Covered(s: State)
    requires |s.statements| <= |s.pushed|
  {
    && (!s.stop.NotCalled? ==>
          |s.acceptedAtStop| <=
            |Popped(s)| + Gather(s.workers, TaskOf)[Sql] + (if CountDown in s.tasks then Ahead(s.tasks) else 0))
    && (s.stop.Joins? || s.stop.Returned? ==> s.latch == 0)
  }

  ghost predicate HasEmpty(pushed: seq<Statement>) {
    exists i :: 0 <= i < |pushed| && pushed[i].text == ""
  }

  ghost predicate Invariant(s: State) {
    && Queued(s)
    && EachOnce(s)
    && Connected(s)
    && Matched(s)
    && Joined(s)
    && Latched(s)
    && Covered(s)
    && (s.failed ==> HasEmpty(s.pushed))
  }

  // ---------------------------------------------------------------- every step keeps it

  /** Two multisets that balance still balance after one worker exchanges h for k. */
  lemma Balance<X>(a: multiset<X>, g: multiset<X>, p: multiset<X>, h: multiset<X>,
                   b: multiset<X>, f: multiset<X>, q: multiset<X>, k: multiset<X>)
    requires a + g == p
    requires (b + k) + p == (a + h) + q
    requires f + h == g + k
    ensures b + f == q
  {
    forall x ensures (b + f)[x] == q[x] {
      assert (a + g)[x] == p[x];
      assert ((b + k) + p)[x] == ((a + h) + q)[x];
      assert (f + h)[x] == (g + k)[x];
    }
  }

  lemma TakeFirst<X>(q: seq<X>)
    requires q != []
    ensures multiset(q[1..]) + multiset{q[0]} == multiset(q)
  {
    assert q == [q[0]] + q[1..];
  }

  ghost predicate Moves(s: State, w: nat) {
    w < |s.workers| && !Fails(s, s.workers[w])
  }

  lemma WorkGather<X>(s: State, w: nat, held: Worker -> multiset<X>)
    requires Moves(s, w)
    ensures Gather(WorkerStep(s, w).workers, held) + held(s.workers[w]) ==
            Gather(s.workers, held) + held(Proceed(s, s.workers[w]))
    ensures |WorkerStep(s, w).workers| == |s.workers|
  {
    GatherUpdate(s.workers, held, w, Proceed(s, s.workers[w]));
  }

  lemma QueuedKeeps(s: State, step: Step)
    requires Queued(s) && Enabled(s, step) && !step.Work?
    ensures Queued(Next(s, step)) && Popped(Next(s, step)) == Popped(s)
  {
    var r := Next(s, step);
    if step.Push? {
      var st := Statement(|s.pushed|, step.text);
      assert r.statements == s.statements + [st] && r.pushed == s.pushed + [st];
      hide Next;
    } else {
      assert r.statements == s.statements && r.pushed == s.pushed;
      hide Next;
    }
  }

  lemma PopOne(pushed: seq<Statement>, statements: seq<Statement>)
    requires 0 < |statements| <= |pushed| && statements == pushed[|pushed| - |statements|..]
    ensures statements[1..] == pushed[|pushed| - |statements| + 1..]
    ensures pushed[..|pushed| - |statements| + 1] == pushed[..|pushed| - |statements|] + [statements[0]]
  {
  }

  lemma QueuedWork(s: State, w: nat)
    requires Queued(s) && w < |s.workers|
    ensures var r := WorkerStep(s, w);
            && r.pushed == s.pushed
            && Queued(r)
            && Popped(r) == if Moves(s, w) && s.workers[w].GotSql? then Popped(s) + [s.statements[0]] else Popped(s)
  {
    if Moves(s, w) && s.workers[w].GotSql? {
      QueuedPop(s, w);
    } else {
      QueuedStay(s, w);
    }
    hide *;
  }

  lemma QueuedPop(s: State, w: nat)
    requires Queued(s) && Moves(s, w) && s.workers[w].GotSql?
    ensures var r := WorkerStep(s, w);
            r.pushed == s.pushed && Queued(r) && Popped(r) == Popped(s) + [s.statements[0]]
  {
    var r := WorkerStep(s, w);
    assert r.pushed == s.pushed && r.statements == s.statements[1..];
    hide WorkerStep, Proceed, Fails;
    PopOne(s.pushed, s.statements);
  }

  lemma QueuedStay(s: State, w: nat)
    requires Queued(s) && w < |s.workers| && !(Moves(s, w) && s.workers[w].GotSql?)
    ensures var r := WorkerStep(s, w);
            r.pushed == s.pushed && Queued(r) && Popped(r) == Popped(s)
  {
    var r := WorkerStep(s, w);
    assert r.pushed == s.pushed && r.statements == s.statements;
    hide WorkerStep, Proceed, Fails;
  }

  /** What a worker takes out of the queue is in its hands, and what it lets go of is executed. */
  lemma StatementMoves(s: State, w: nat)
    requires Queued(s) && Moves(s, w)
    ensures var r := WorkerStep(s, w);
            && Queued(r)
            && (multiset(r.executed) + StatementOf(Proceed(s, s.workers[w]))) + multiset(Popped(s)) ==
               (multiset(s.executed) + StatementOf(s.workers[w])) + multiset(Popped(r))
  {
    QueuedWork(s, w);
    hide Queued, Popped;
  }

  lemma EachOnceWork(s: State, w: nat)
    requires Queued(s) && EachOnce(s) && Moves(s, w)
    ensures Queued(WorkerStep(s, w)) && EachOnce(WorkerStep(s, w))
  {
    var r := WorkerStep(s, w);
    StatementMoves(s, w);
    WorkGather(s, w, StatementOf);
    hide Queued, Popped, Gather, WorkerStep, StatementOf;
    Balance(multiset(s.executed), Gather(s.workers, StatementOf), multiset(Popped(s)), StatementOf(s.workers[w]),
            multiset(r.executed), Gather(r.workers, StatementOf), multiset(Popped(r)),
            StatementOf(Proceed(s, s.workers[w])));
  }

  lemma ConnectionMoves(s: State, w: nat)
    requires Moves(s, w)
    ensures multiset(WorkerStep(s, w).connections) + ConnectionOf(Proceed(s, s.workers[w])) ==
            multiset(s.connections) + ConnectionOf(s.workers[w])
  {
    var r, p := WorkerStep(s, w), s.workers[w];
    if p.HasStatement? {
      TakeFirst(s.connections);
      assert ConnectionOf(Proceed(s, p)) == multiset{s.connections[0]};
      hide Proceed, WorkerStep;
    } else if p.Returning? {
      assert r.connections == s.connections + [p.connection];
      hide WorkerStep;
    } else {
      assert ConnectionOf(Proceed(s, p)) == ConnectionOf(p);
      assert r.connections == s.connections;
      hide *;
    }
  }

  lemma ConnectedWork(s: State, w: nat)
    requires Connected(s) && Moves(s, w)
    ensures Connected(WorkerStep(s, w))
  {
    var r := WorkerStep(s, w);
    ConnectionMoves(s, w);
    WorkGather(s, w, ConnectionOf);
    hide Gather, WorkerStep, ConnectionOf;
    var all := multiset(seq(|s.workers|, i => i));
    Balance(multiset(s.connections), Gather(s.workers, ConnectionOf), all, ConnectionOf(s.workers[w]),
            multiset(r.connections), Gather(r.workers, ConnectionOf), all, ConnectionOf(Proceed(s, s.workers[w])));
  }

  /** What a worker gets done in this step. */
  ghost function Done(p: Worker): multiset<Task> {
    if p.GotSql? || p.GotCountDown? then TaskOf(p) else multiset{}
  }

  lemma TaskMoves(s: State, w: nat)
    requires Moves(s, w)
    ensures (multiset(WorkerStep(s, w).tasks) + TaskOf(Proceed(s, s.workers[w]))) + Done(s.workers[w]) ==
            multiset(s.tasks) + TaskOf(s.workers[w])
  {
    var r, p := WorkerStep(s, w), s.workers[w];
    if p.Taking? && s.tasks != [] {
      TakeFirst(s.tasks);
      assert TaskOf(Proceed(s, p)) == multiset{s.tasks[0]};
      hide Proceed, WorkerStep;
    } else {
      assert TaskOf(Proceed(s, p)) == multiset{} && Done(p) == TaskOf(p);
      assert r.tasks == s.tasks;
      hide *;
    }
  }

  lemma OutstandingWork(s: State, w: nat)
    requires Moves(s, w)
    ensures Outstanding(WorkerStep(s, w)) + Done(s.workers[w]) == Outstanding(s)
  {
    var r := WorkerStep(s, w);
    TaskMoves(s, w);
    WorkGather(s, w, TaskOf);
    hide Gather, WorkerStep, TaskOf, Done;
    var t, u := multiset(s.tasks), multiset(r.tasks);
    var g, f := Gather(s.workers, TaskOf), Gather(r.workers, TaskOf);
    var h, k, d := TaskOf(s.workers[w]), TaskOf(Proceed(s, s.workers[w])), Done(s.workers[w]);
    assert (u + f) + d == t + g by {
      Balance(t, g, t + g, h, u + d, f, t + g, k);
    }
  }

  lemma MatchedWork(s: State, w: nat)
    requires Matched(s) && Moves(s, w)
    ensures Matched(WorkerStep(s, w))
  {
    OutstandingWork(s, w);
    var r, p := WorkerStep(s, w), s.workers[w];
    assert r.statements == if p.GotSql? then s.statements[1..] else s.statements;
    assert p.GotSql? <==> Done(p)[Sql] == 1;
    assert r.inFlight == s.inFlight && r.accepted == s.accepted && r.pushed == s.pushed;
    assert (Outstanding(r) + Done(p))[Sql] == Outstanding(s)[Sql];
    hide Outstanding, WorkerStep, Proceed, Done, Fails;
  }

  lemma MatchedPush(s: State, text: string)
    requires Matched(s) && !s.failed
    ensures Matched(Next(s, Push(text)))
  {
    var r := Next(s, Push(text));
    var n := |s.pushed|;
    assert r.inFlight == s.inFlight + {n} && r.accepted == s.accepted;
    assert |r.pushed| == n + 1 && |r.statements| == |s.statements| + 1;
    assert Outstanding(r) == Outstanding(s);
    hide Outstanding, Next;
    AddNext(s.inFlight, s.accepted, n);
  }

  lemma AddNext(a: set<nat>, b: set<nat>, n: nat)
    requires a !! b && forall i: nat :: i in a || i in b <==> i < n
    ensures (a + {n}) !! b && |a + {n}| == |a| + 1
    ensures forall i: nat :: i in a + {n} || i in b <==> i < n + 1
  {
    assert n !in a && n !in b;
  }

  lemma EnqueueNext(s: State, id: nat)
    requires !s.failed && id in s.inFlight
    ensures var r := Next(s, Enqueue(id));
            && r.inFlight == s.inFlight - {id} && r.accepted == s.accepted + {id}
            && r.pushed == s.pushed && r.statements == s.statements
            && Outstanding(r)[Sql] == Outstanding(s)[Sql] + 1
  {
    assert Next(s, Enqueue(id)).workers == s.workers;
    hide Gather;
  }

  lemma MatchedEnqueue(s: State, id: nat)
    requires Matched(s) && !s.failed && id in s.inFlight
    ensures Matched(Next(s, Enqueue(id)))
  {
    hide Outstanding, Next;
    EnqueueNext(s, id);
    MoveOne(s.inFlight, s.accepted, id);
  }

  lemma MoveOne(a: set<nat>, b: set<nat>, x: nat)
    requires x in a && a !! b
    ensures (a - {x}) !! (b + {x}) && |a - {x}| == |a| - 1 && |b + {x}| == |b| + 1
    ensures forall i: nat :: i in a - {x} || i in b + {x} <==> i in a || i in b
  {
  }

  lemma MatchedCall(s: State, step: Step)
    requires Matched(s) && Enabled(s, step) && !step.Work?
    ensures Matched(Next(s, step))
  {
    if step.Push? {
      MatchedPush(s, step.text);
    } else if step.Enqueue? {
      MatchedEnqueue(s, step.id);
    } else {
      var r := Next(s, step);
      assert r.inFlight == s.inFlight && r.accepted == s.accepted;
      assert r.pushed == s.pushed && r.statements == s.statements;
      assert Outstanding(r)[Sql] == Outstanding(s)[Sql];
      hide Outstanding, Next;
    }
  }

  lemma AheadAppend(tasks: seq<Task>, x: Task)
    ensures Ahead(tasks) <= Ahead(tasks + [x])
  {
    if tasks != [] {
      assert (tasks + [x])[1..] == tasks[1..] + [x];
      AheadAppend(tasks[1..], x);
    }
  }

  lemma {:induction false} AheadAll(tasks: seq<Task>)
    requires CountDown !in tasks
    ensures Ahead(tasks + [CountDown]) == |tasks| == multiset(tasks)[Sql]
  {
    if tasks != [] {
      assert (tasks + [CountDown])[1..] == tasks[1..] + [CountDown];
      assert tasks[0] == Sql;
      assert tasks == [Sql] + tasks[1..];
      AheadAll(tasks[1..]);
    }
  }

  lemma JoinedKeeps(s: State, step: Step)
    requires Joined(s) && Enabled(s, step)
    ensures Joined(Next(s, step))
  {
  }

  lemma LatchedWork(s: State, w: nat)
    requires Latched(s) && Moves(s, w)
    ensures Latched(WorkerStep(s, w))
  {
    OutstandingWork(s, w);
    var r, p := WorkerStep(s, w), s.workers[w];
    assert (Outstanding(r) + Done(p))[CountDown] == Outstanding(s)[CountDown];
    assert r.stop == s.stop && r.latch == if p.GotCountDown? && s.latch > 0 then s.latch - 1 else s.latch;
    assert Done(p)[CountDown] == if p.GotCountDown? then 1 else 0;
    hide Outstanding, WorkerStep, Proceed, Done, Fails;
  }

  lemma LatchedCall(s: State, step: Step)
    requires Latched(s) && Enabled(s, step) && !step.Work?
    ensures Latched(Next(s, step))
  {
    hide Gather;
  }

  lemma CoveredWork(s: State, w: nat)
    requires Queued(s) && Covered(s) && Moves(s, w)
    ensures Queued(WorkerStep(s, w)) && Covered(WorkerStep(s, w))
  {
    var r, p := WorkerStep(s, w), s.workers[w];
    QueuedWork(s, w);
    WorkGather(s, w, TaskOf);
    var q := Proceed(s, p);
    var g, f := Gather(s.workers, TaskOf)[Sql], Gather(r.workers, TaskOf)[Sql];
    assert f + TaskOf(p)[Sql] == g + TaskOf(q)[Sql] by {
      assert (Gather(r.workers, TaskOf) + TaskOf(p))[Sql] == (Gather(s.workers, TaskOf) + TaskOf(q))[Sql];
    }
    assert r.stop == s.stop && r.acceptedAtStop == s.acceptedAtStop;
    assert |Popped(r)| == |Popped(s)| + if p.GotSql? then 1 else 0;
    assert r.tasks == if p.Taking? && s.tasks != [] then s.tasks[1..] else s.tasks;
    assert r.latch <= s.latch;
    assert TaskOf(p)[Sql] == if p.GotSql? then 1 else 0;
    assert TaskOf(q)[Sql] == if p.Taking? && s.tasks != [] && s.tasks[0].Sql? then 1 else 0;
    hide Gather, Queued, Popped, WorkerStep, Proceed, Fails, TaskOf;
  }

  lemma CoveredCall(s: State, step: Step)
    requires Queued(s) && Matched(s) && Latched(s) && Covered(s) && Enabled(s, step) && !step.Work?
    ensures Queued(Next(s, step)) && Covered(Next(s, step))
  {
    QueuedKeeps(s, step);
    assert Next(s, step).workers == s.workers;
    match step {
      case Enqueue(id) => AheadAppend(s.tasks, Sql);
      case CallStop =>
        assert CountDown !in s.tasks by {
          assert Outstanding(s)[CountDown] == 0;
        }
        AheadAll(s.tasks);
      case PassLatch =>
        assert CountDown !in s.tasks by {
          assert Outstanding(s)[CountDown] == 0;
        }
      case _ =>
    }
    hide Gather, Queued, Ahead;
  }

  /** There are as many connections as workers, so one without a connection finds one in the pool. */
  lemma FreeConnection(s: State, w: nat)
    requires Connected(s) && w < |s.workers| && ConnectionOf(s.workers[w]) == multiset{}
    ensures s.connections != []
  {
    GatherBound(s.workers, ConnectionOf, w);
    var all := seq(|s.workers|, i => i);
    assert |multiset(s.connections) + Gather(s.workers, ConnectionOf)| == |multiset(all)| == |all|;
    assert |multiset(s.connections)| == |s.connections|;
  }

  /** A worker that has taken its task finds a statement. */
  lemma WaitingStatement(s: State, w: nat)
    requires Matched(s) && w < |s.workers| && s.workers[w].GotSql?
    ensures s.statements != []
  {
    GatherAtLeast(s.workers, TaskOf, w);
    assert TaskOf(s.workers[w])[Sql] == 1;
  }

  /** So an assertion of runInThread fails exactly when the next statement is empty. */
  lemma FailsExactly(s: State, w: nat)
    requires Queued(s) && Connected(s) && Matched(s) && w < |s.workers|
    ensures Fails(s, s.workers[w]) <==> s.workers[w].GotSql? && s.statements != [] && s.statements[0].text == ""
    ensures Fails(s, s.workers[w]) ==> HasEmpty(s.pushed) && HasEmpty(s.statements)
  {
    if s.workers[w].GotSql? {
      WaitingStatement(s, w);
      assert s.statements[0] == s.pushed[|s.pushed| - |s.statements|];
    } else if s.workers[w].HasStatement? {
      FreeConnection(s, w);
    }
  }

  lemma EachOnceCall(s: State, step: Step)
    requires Queued(s) && EachOnce(s) && Enabled(s, step) && !step.Work?
    ensures Queued(Next(s, step)) && EachOnce(Next(s, step))
  {
    QueuedKeeps(s, step);
    assert Next(s, step).workers == s.workers && Next(s, step).executed == s.executed;
    hide Gather, Queued, Popped;
  }

  lemma ConnectedCall(s: State, step: Step)
    requires Connected(s) && Enabled(s, step) && !step.Work?
    ensures Connected(Next(s, step))
  {
    assert Next(s, step).workers == s.workers && Next(s, step).connections == s.connections;
    hide Gather, Next;
  }

  lemma FailedKeeps(s: State, w: nat)
    requires Invariant(s) && w < |s.workers| && Fails(s, s.workers[w])
    ensures Invariant(s.(failed := true))
  {
    FailsExactly(s, w);
    FailedHands(s);
    FailedCounts(s);
    assert HasEmpty(s.pushed);
    hide *;
  }

  lemma FailedHands(s: State)
    requires Queued(s) && EachOnce(s) && Connected(s) && Joined(s)
    ensures var r := s.(failed := true); Queued(r) && EachOnce(r) && Connected(r) && Joined(r)
  {
    hide Gather;
  }

  lemma FailedCounts(s: State)
    requires |s.statements| <= |s.pushed| && Matched(s) && Latched(s) && Covered(s)
    ensures var r := s.(failed := true); Matched(r) && Latched(r) && Covered(r)
  {
    assert Outstanding(s.(failed := true)) == Outstanding(s);
    hide Gather, Ahead, Outstanding;
  }

  lemma StepKeeps(s: State, step: Step)
    requires Invariant(s) && Enabled(s, step)
    ensures Invariant(Next(s, step))
  {
    JoinedKeeps(s, step);
    if step.Work? {
      if Fails(s, s.workers[step.w]) {
        FailedKeeps(s, step.w);
      } else {
        QueuedWork(s, step.w);
        EachOnceWork(s, step.w);
        ConnectedWork(s, step.w);
        MatchedWork(s, step.w);
        LatchedWork(s, step.w);
        CoveredWork(s, step.w);
        hide EachOnce, Connected, Matched, Joined, Latched, Covered, Queued, HasEmpty, Proceed;
      }
    } else {
      EachOnceCall(s, step);
      ConnectedCall(s, step);
      MatchedCall(s, step);
      LatchedCall(s, step);
      CoveredCall(s, step);
      assert !Next(s, step).failed;
      hide EachOnce, Connected, Matched, Joined, Latched, Covered, Queued, HasEmpty, Next;
    }
  }

  lemma InitialOk(n: nat)
    requires n >= 1
    ensures Invariant(Initial(n))
  {
    var s := Initial(n);
    GatherNone(s.workers, TaskOf);
    GatherNone(s.workers, StatementOf);
    GatherNone(s.workers, ConnectionOf);
  }

  lemma {:induction false} RunKeeps(s: State, steps: seq<Step>)
    requires Invariant(s) && RunOk(s, steps)
    ensures Invariant(Run(s, steps))
    decreases |steps|
  {
    if |steps| > 0 {
      StepKeeps(s, steps[0]);
      hide Invariant, Enabled, Next;
      RunKeeps(Next(s, steps[0]), steps[1..]);
    }
  }

  // ---------------------------------------------------------------- what it means

  /** Reachable with n workers and n connections. */
  ghost predicate Reachable(n: nat, s: State) {
    n >= 1 && exists steps :: RunOk(Initial(n), steps) && Run(Initial(n), steps) == s
  }

  lemma ReachableOk(n: nat, s: State)
    requires Reachable(n, s)
    ensures Invariant(s)
  {
    var steps :| RunOk(Initial(n), steps) && Run(Initial(n), steps) == s;
    InitialOk(n);
    RunKeeps(Initial(n), steps);
  }

  lemma {:induction false} WorkersKept(s: State, steps: seq<Step>)
    requires RunOk(s, steps)
    ensures |Run(s, steps).workers| == |s.workers|
    decreases |steps|
  {
    if |steps| > 0 {
      WorkersKept(Next(s, steps[0]), steps[1..]);
    }
  }

  lemma WorkersStay(n: nat, s: State)
    requires Reachable(n, s)
    ensures |s.workers| == n
  {
    var steps :| RunOk(Initial(n), steps) && Run(Initial(n), steps) == s;
    WorkersKept(Initial(n), steps);
  }

  /** In every interleaving a worker that took a task finds a statement, one that holds a statement
      finds a connection, and an assertion fails in exactly the steps that meet an empty statement. */
  lemma NothingRunsDry(n: nat, s: State, w: nat)
    requires Reachable(n, s) && w < |s.workers|
    ensures s.workers[w].GotSql? ==> s.statements != []
    ensures s.workers[w].HasStatement? ==> s.connections != []
    ensures Fails(s, s.workers[w]) <==> s.workers[w].GotSql? && s.statements[0].text == ""
    ensures s.failed ==> HasEmpty(s.pushed)
  {
    ReachableOk(n, s);
    FailsExactly(s, w);
    if s.workers[w].GotSql? {
      WaitingStatement(s, w);
    }
    if s.workers[w].HasStatement? {
      FreeConnection(s, w);
    }
  }

  lemma {:induction false} GatherTwo<X>(workers: seq<Worker>, held: Worker -> multiset<X>, v: nat, w: nat)
    requires v < w < |workers|
    ensures held(workers[v]) + held(workers[w]) <= Gather(workers, held)
  {
    if v == 0 {
      GatherAtLeast(workers[1..], held, w - 1);
    } else {
      GatherTwo(workers[1..], held, v - 1, w - 1);
    }
  }

  lemma RangeOnce(n: nat, x: nat)
    ensures multiset(seq(n, i => i))[x] <= 1
  {
    if n > 0 {
      assert seq(n, i => i) == seq(n - 1, i => i) + [n - 1];
      RangeOnce(n - 1, x);
    }
  }

  /** From taking a connection out of the pool until it is back there. */
  predicate Holds(p: Worker) {
    p.Executing? || p.Returning?
  }

  /** A connection a worker holds is not in the pool. */
  lemma ConnectionTaken(n: nat, s: State, w: nat)
    requires Reachable(n, s) && w < |s.workers| && Holds(s.workers[w])
    ensures s.workers[w].connection !in s.connections
  {
    ReachableOk(n, s);
    GatherAtLeast(s.workers, ConnectionOf, w);
    var c := s.workers[w].connection;
    RangeOnce(|s.workers|, c);
    var g := Gather(s.workers, ConnectionOf);
    assert (multiset(s.connections) + g)[c] <= 1;
    assert ConnectionOf(s.workers[w])[c] <= g[c];
  }

  /** A connection is held by one worker at a time. */
  lemma ConnectionsNotShared(n: nat, s: State, v: nat, w: nat)
    requires Reachable(n, s) && v < w < |s.workers| && Holds(s.workers[v]) && Holds(s.workers[w])
    ensures s.workers[v].connection != s.workers[w].connection
  {
    ReachableOk(n, s);
    GatherTwo(s.workers, ConnectionOf, v, w);
    var c := s.workers[v].connection;
    RangeOnce(|s.workers|, c);
    var g := Gather(s.workers, ConnectionOf);
    assert (multiset(s.connections) + g)[c] <= 1;
    assert (ConnectionOf(s.workers[v]) + ConnectionOf(s.workers[w]))[c] <= g[c];
  }

  // ---------------------------------------------------------------- what the calls leave behind

  /** The statements given to ExecuteSql in a run, in the order of the calls that entered the queue. */
  ghost function Texts(steps: seq<Step>): seq<string>
    decreases |steps|
  {
    if |steps| == 0 then [] else (if steps[0].Push? then [steps[0].text] else []) + Texts(steps[1..])
  }

  /** The calls that returned. */
  ghost function Returns(steps: seq<Step>): set<nat>
    decreases |steps|
  {
    if |steps| == 0 then {} else (if steps[0].Enqueue? then {steps[0].id} else {}) + Returns(steps[1..])
  }

  lemma {:induction false} RunRecords(s: State, steps: seq<Step>)
    requires RunOk(s, steps)
    ensures var r := Run(s, steps);
            && |r.pushed| == |s.pushed| + |Texts(steps)| && s.pushed <= r.pushed
            && (forall i :: 0 <= i < |Texts(steps)| ==>
                  r.pushed[|s.pushed| + i] == Statement(|s.pushed| + i, Texts(steps)[i]))
            && r.accepted == s.accepted + Returns(steps)
    decreases |steps|
  {
    if |steps| > 0 {
      var t, rest := Next(s, steps[0]), steps[1..];
      StepRecords(s, steps[0]);
      hide Next, Enabled;
      RunRecords(t, rest);
      var r := Run(s, steps);
      var k := |t.pushed| - |s.pushed|;
      assert forall i :: k <= i < |Texts(steps)| ==> Texts(steps)[i] == Texts(rest)[i - k];
      forall i | 0 <= i < |Texts(steps)|
        ensures r.pushed[|s.pushed| + i] == Statement(|s.pushed| + i, Texts(steps)[i])
      {
        if i >= k {
          assert r.pushed[|t.pushed| + (i - k)] == Statement(|t.pushed| + (i - k), Texts(rest)[i - k]);
        } else {
          assert r.pushed[|s.pushed|] == t.pushed[|s.pushed|];
        }
      }
    }
  }

  lemma StepRecords(s: State, step: Step)
    requires Enabled(s, step)
    ensures var r := Next(s, step);
            && r.pushed == s.pushed + (if step.Push? then [Statement(|s.pushed|, step.text)] else [])
            && r.accepted == s.accepted + if step.Enqueue? then {step.id} else {}
  {
  }

  /** Every call's statement is taken as it was given: what entered the queue, and so what was executed, are the
      texts of the calls, numbered in order; and the calls accepted are those that returned. */
  lemma StatementsAsGiven(n: nat, steps: seq<Step>)
    requires n >= 1 && RunOk(Initial(n), steps)
    ensures var s := Run(Initial(n), steps);
            && |s.pushed| == |Texts(steps)|
            && (forall i :: 0 <= i < |s.pushed| ==> s.pushed[i] == Statement(i, Texts(steps)[i]))
            && s.accepted == Returns(steps)
            && (forall st :: st in s.executed ==> st.id < |Texts(steps)| && st.text == Texts(steps)[st.id])
  {
    var s := Run(Initial(n), steps);
    RunRecords(Initial(n), steps);
    assert forall i :: 0 <= i < |s.pushed| ==> s.pushed[0 + i] == Statement(i, Texts(steps)[i]);
    assert Reachable(n, s);
    ReachableOk(n, s);
    hide Run, RunOk, Texts, Returns, Reachable;
    forall st | st in s.executed
      ensures st.id < |Texts(steps)| && st.text == Texts(steps)[st.id]
    {
      ExecutedWasPushed(s, st);
    }
  }

  lemma ExecutedWasPushed(s: State, st: Statement)
    requires Queued(s) && EachOnce(s) && st in s.executed
    ensures st in s.pushed
  {
    assert st in multiset(s.executed) && st in multiset(Popped(s));
  }

  // ---------------------------------------------------------------- what Stop guarantees

  /** The call id has been executed exactly once. */
  ghost predicate ExecutedOnce(s: State, id: nat)
    requires id < |s.pushed|
  {
    multiset(s.executed)[s.pushed[id]] == 1
  }

  lemma {:induction false} PrefixOnce(pushed: seq<Statement>, k: nat, id: nat)
    requires k <= |pushed| && id < |pushed|
    requires forall i :: 0 <= i < |pushed| ==> pushed[i].id == i
    ensures multiset(pushed[..k])[pushed[id]] == if id < k then 1 else 0
  {
    if k > 0 {
      PrefixOnce(pushed, k - 1, id);
      assert pushed[..k] == pushed[..k - 1] + [pushed[k - 1]];
    } else {
      assert pushed[..0] == [];
    }
  }

  /** Nobody holds anything any more. */
  lemma HandsEmpty(s: State)
    requires Joined(s) && s.stop.Returned?
    ensures Gather(s.workers, StatementOf) == multiset{} && Gather(s.workers, TaskOf) == multiset{}
  {
    GatherNone(s.workers, StatementOf);
    GatherNone(s.workers, TaskOf);
  }

  /** When Stop returns the executed statements are the first ones pushed, each exactly once, and they
      are at least as many as the calls accepted when Stop was called. */
  lemma AfterStop(s: State, id: nat)
    requires Invariant(s) && s.stop.Returned? && id < |s.pushed|
    ensures multiset(s.executed) == multiset(Popped(s))
    ensures ExecutedOnce(s, id) <==> id < |Popped(s)|
    ensures |s.acceptedAtStop| <= |Popped(s)| <= |s.accepted|
  {
    HandsEmpty(s);
    hide Gather, Ahead, Joined, Connected, HasEmpty;
    PrefixOnce(s.pushed, |Popped(s)|, id);
    assert multiset(s.executed) == multiset(Popped(s)) by {
      hide Queued, Matched, Latched, Covered, Popped;
    }
    assert CountDown !in s.tasks by {
      assert Outstanding(s)[CountDown] == 0;
    }
    assert |s.pushed| - |s.statements| <= |s.accepted|;
  }

  lemma {:induction false} AfterStopCall(s: State, steps: seq<Step>)
    requires RunOk(s, steps) && !s.stop.NotCalled?
    ensures var r := Run(s, steps);
            && !r.stop.NotCalled?
            && r.acceptedAtStop == s.acceptedAtStop
            && |s.pushed| <= |r.pushed| && r.pushed[..|s.pushed|] == s.pushed
    decreases |steps|
  {
    if |steps| > 0 {
      var t := Next(s, steps[0]);
      assert !t.stop.NotCalled? && t.acceptedAtStop == s.acceptedAtStop;
      assert |s.pushed| <= |t.pushed| && t.pushed[..|s.pushed|] == s.pushed;
      hide Enabled, Next;
      AfterStopCall(t, steps[1..]);
    }
  }

  /** A call still between its push and its task has pushed its statement before one that was accepted. */
  ghost predicate Overtaken(s: State) {
    exists i, j :: i in s.inFlight && j in s.accepted && i < j
  }

  lemma {:induction false} CountBelow(a: set<nat>, k: nat)
    requires forall i: nat :: i < k ==> i in a
    ensures |a| >= k
  {
    if k > 0 {
      CountBelow(a - {k - 1}, k - 1);
    }
  }

  lemma {:induction false} CountWithin(a: set<nat>, k: nat)
    requires forall i :: i in a ==> i < k
    ensures |a| <= k
    ensures |a| == k ==> forall i: nat :: i < k ==> i in a
  {
    if k == 0 {
      assert a == {};
    } else {
      CountWithin(a - {k - 1}, k - 1);
    }
  }

  /** Without an overtaken call the accepted statements are the first ones pushed. */
  lemma InOrder(s: State, j: nat)
    requires Matched(s) && !Overtaken(s) && j in s.accepted
    ensures j < |s.accepted|
  {
    CountBelow(s.accepted, j + 1);
  }

  /** With one, some accepted statement is not among the first as many. */
  lemma OutOfOrder(s: State)
    requires Matched(s) && Overtaken(s)
    ensures exists j :: j in s.accepted && j >= |s.accepted|
  {
    if forall j :: j in s.accepted ==> j < |s.accepted| {
      CountWithin(s.accepted, |s.accepted|);
    }
  }

  // ---------------------------------------------------------------- a run in which Stop returns

  /** How many more steps a worker can take without a new task. */
  ghost function Effort(p: Worker, running: bool): nat {
    match p
    case Head => if running then 2 else 1
    case Taking => if running then 1 else 2
    case GotSql => 6
    case GotCountDown => 3
    case HasStatement(_) => 5
    case Executing(_, _) => 4
    case Returning(_) => 3
    case Exited => 0
  }

  ghost function Efforts(workers: seq<Worker>, running: bool): nat {
    if workers == [] then 0 else Effort(workers[0], running) + Efforts(workers[1..], running)
  }

  lemma {:induction false} EffortsUpdate(workers: seq<Worker>, running: bool, w: nat, p: Worker)
    requires w < |workers|
    ensures Efforts(workers[w := p], running) ==
            Efforts(workers, running) - Effort(workers[w], running) + Effort(p, running)
  {
    var changed := workers[w := p];
    if w == 0 {
      assert changed[1..] == workers[1..];
    } else {
      assert changed[1..] == workers[1..][w - 1 := p];
      EffortsUpdate(workers[1..], running, w - 1, p);
    }
  }

  ghost function Remaining(s: State): nat {
    6 * |s.tasks| + Efforts(s.workers, s.running)
  }

  /** A worker that can do something brings the end nearer. */
  lemma WorkProgress(s: State, w: nat)
    requires Moves(s, w) && !s.workers[w].Exited?
    requires !(s.workers[w].Taking? && s.tasks == [] && s.running)
    ensures Remaining(WorkerStep(s, w)) < Remaining(s)
  {
    EffortsUpdate(s.workers, s.running, w, Proceed(s, s.workers[w]));
  }

  ghost predicate Going(s: State) {
    Invariant(s) && !s.failed && !HasEmpty(s.pushed) && (s.stop.WaitsForLatch? || s.stop.Joins?)
  }

  /** While Stop waits, some step brings its return nearer, without any call of ExecuteSql moving. */
  lemma SomeStep(s: State) returns (step: Step)
    requires Going(s) && |s.workers| > 0
    ensures Enabled(s, step) && (step.Work? || step.PassLatch? || step.StopReturns?)
    ensures step.Work? ==> Moves(s, step.w) && Remaining(Next(s, step)) < Remaining(s)
  {
    var w: nat := 0;
    if s.stop.WaitsForLatch? {
      if s.latch == 0 {
        step := PassLatch;
        return;
      }
      if s.tasks == [] {
        assert CountDown in Gather(s.workers, TaskOf);
        w := GatherSome(s.workers, TaskOf, CountDown);
      }
    } else if forall v :: 0 <= v < |s.workers| ==> s.workers[v].Exited? {
      step := StopReturns;
      return;
    } else {
      w :| w < |s.workers| && !s.workers[w].Exited?;
    }
    step := Work(w);
    if Fails(s, s.workers[w]) {
      FailsExactly(s, w);
    }
    WorkProgress(s, w);
  }

  lemma GoingNext(s: State, step: Step)
    requires Going(s) && Enabled(s, step) && (step.Work? || step.PassLatch? || step.StopReturns?)
    requires step.Work? ==> Moves(s, step.w)
    ensures var t := Next(s, step);
            && Invariant(t) && |t.workers| == |s.workers|
            && t.accepted == s.accepted && t.pushed == s.pushed
            && (step.StopReturns? ==> t.stop.Returned?)
            && (!step.StopReturns? ==> Going(t))
            && (step.PassLatch? ==> s.stop.WaitsForLatch? && t.stop.Joins?)
            && (step.Work? ==> t.stop == s.stop)
  {
    StepKeeps(s, step);
    hide Invariant, HasEmpty, Proceed;
  }

  /** From wherever Stop waits it can come to return while every call in flight stays where it is. */
  lemma Drain(s: State) returns (steps: seq<Step>)
    requires Going(s) && |s.workers| > 0
    ensures RunOk(s, steps)
    ensures var r := Run(s, steps); Invariant(r) && r.stop.Returned? && r.accepted == s.accepted && r.pushed == s.pushed
    decreases if s.stop.WaitsForLatch? then 1 else 0, Remaining(s)
  {
    var step := SomeStep(s);
    GoingNext(s, step);
    var t := Next(s, step);
    var rest := [];
    hide Invariant, Going, Enabled, Next, Moves, Remaining, HasEmpty;
    if !step.StopReturns? {
      rest := Drain(t);
    }
    steps := [step] + rest;
    assert steps[1..] == rest;
  }

  /** Every call of ExecuteSql accepted before Stop was called is executed exactly once by the time Stop
      returns, in every continuation. */
  ghost predicate StopKeepsPromise(s: State)
    requires !s.failed && s.stop.NotCalled?
  {
    forall steps :: RunOk(Next(s, CallStop), steps) && Run(Next(s, CallStop), steps).stop.Returned? ==>
      var r := Run(Next(s, CallStop), steps);
      forall j :: j in s.accepted ==> j < |r.pushed| && ExecutedOnce(r, j)
  }

  lemma PromiseKept(s: State, steps: seq<Step>, j: nat)
    requires Invariant(s) && !s.failed && s.stop.NotCalled? && !Overtaken(s) && j in s.accepted
    requires RunOk(Next(s, CallStop), steps) && Run(Next(s, CallStop), steps).stop.Returned?
    ensures j < |Run(Next(s, CallStop), steps).pushed| && ExecutedOnce(Run(Next(s, CallStop), steps), j)
  {
    var t := Next(s, CallStop);
    StepKeeps(s, CallStop);
    RunKeeps(t, steps);
    AfterStopCall(t, steps);
    InOrder(s, j);
    AfterStop(Run(t, steps), j);
  }

  lemma PromiseBroken(s: State)
    requires Invariant(s) && !s.failed && s.stop.NotCalled? && !HasEmpty(s.pushed) && |s.workers| > 0 && Overtaken(s)
    ensures !StopKeepsPromise(s)
  {
    OutOfOrder(s);
    var j :| j in s.accepted && j >= |s.accepted|;
    var t := Next(s, CallStop);
    StepKeeps(s, CallStop);
    var steps := Drain(t);
    AfterStop(Run(t, steps), j);
  }

  /** Exactly when Stop keeps its promise: when no call of ExecuteSql stands between pushing its statement and
      queueing its task while a call that pushed later has been accepted. A task does not carry its
      statement, so the overtaken call's statement takes an accepted one's task. */
  lemma StopGuarantee(n: nat, s: State)
    requires Reachable(n, s) && s.stop.NotCalled? && !HasEmpty(s.pushed)
    ensures !s.failed && (StopKeepsPromise(s) <==> !Overtaken(s))
  {
    ReachableOk(n, s);
    WorkersStay(n, s);
    hide Invariant, HasEmpty;
    if Overtaken(s) {
      PromiseBroken(s);
    } else {
      forall steps, j |
        RunOk(Next(s, CallStop), steps) && Run(Next(s, CallStop), steps).stop.Returned? && j in s.accepted
        ensures j < |Run(Next(s, CallStop), steps).pushed| && ExecutedOnce(Run(Next(s, CallStop), steps), j)
      {
        PromiseKept(s, steps, j);
      }
    }
  }

  /** It does happen: one caller pushes and is held up, another is served with the first one's statement. */
  lemma PromiseCanBreak(n: nat)
    requires n >= 1
    ensures exists s :: Reachable(n, s) && s.stop.NotCalled? && !s.failed && !StopKeepsPromise(s)
  {
    var s0 := Initial(n);
    var steps := [Push("insert"), Push("update"), Enqueue(1)];
    var s1 := Next(s0, steps[0]);
    var s2 := Next(s1, steps[1]);
    var s3 := Next(s2, steps[2]);
    assert steps[1..][0] == steps[1] && steps[1..][1..] == steps[2..];
    assert steps[2..][0] == steps[2] && steps[2..][1..] == [];
    assert RunOk(s2, steps[2..]) && Run(s2, steps[2..]) == s3;
    assert RunOk(s1, steps[1..]) && Run(s1, steps[1..]) == s3;
    assert RunOk(s0, steps) && Run(s0, steps) == s3;
    assert Reachable(n, s3);
    assert 0 in s3.inFlight && 1 in s3.accepted;
    assert s3.pushed == [Statement(0, "insert"), Statement(1, "update")];
    StopGuarantee(n, s3);
  }

  // ---------------------------------------------------------------- empty statements

  ghost predicate NoPush(steps: seq<Step>) {
    forall i :: 0 <= i < |steps| ==> !steps[i].Push?
  }

  /** Some continuation in which nothing more is pushed ends in a failed assertion. */
  ghost predicate CanFail(s: State) {
    exists steps :: NoPush(steps) && RunOk(s, steps) && Run(s, steps).failed
  }

  /** Without a push the statements in the queue only get fewer. */
  lemma StepShrinks(s: State, step: Step)
    requires Enabled(s, step) && !step.Push? && HasEmpty(Next(s, step).statements)
    ensures HasEmpty(s.statements)
  {
    var t := Next(s, step);
    var i :| 0 <= i < |t.statements| && t.statements[i].text == "";
    if t.statements == s.statements {
    } else {
      assert t.statements == s.statements[1..];
      assert s.statements[i + 1].text == "";
    }
  }

  lemma FailingStep(s: State, step: Step)
    requires Invariant(s) && Enabled(s, step) && Next(s, step).failed
    ensures HasEmpty(s.statements)
  {
    assert step.Work? && Fails(s, s.workers[step.w]);
    FailsExactly(s, step.w);
    hide HasEmpty;
  }

  lemma {:induction false} FailingNeedsEmpty(s: State, steps: seq<Step>)
    requires Invariant(s) && !s.failed && NoPush(steps) && RunOk(s, steps) && Run(s, steps).failed
    ensures HasEmpty(s.statements)
    decreases |steps|
  {
    hide Invariant, HasEmpty, Next, Enabled;
    var t := Next(s, steps[0]);
    if t.failed {
      FailingStep(s, steps[0]);
    } else {
      StepKeeps(s, steps[0]);
      assert NoPush(steps[1..]);
      FailingNeedsEmpty(t, steps[1..]);
      StepShrinks(s, steps[0]);
    }
  }

  ghost predicate Doomed(s: State) {
    Invariant(s) && !s.failed && HasEmpty(s.statements) && s.running && |s.workers| > 0
  }

  /** Steps left, with one task and one step more for each call in flight. */
  ghost function Distance(s: State): nat {
    7 * |s.inFlight| + Remaining(s)
  }

  lemma EnqueueNearer(s: State, id: nat)
    requires id in s.inFlight && !s.failed
    ensures Distance(Next(s, Enqueue(id))) < Distance(s)
  {
    hide Efforts;
  }

  lemma WorkNearer(s: State, w: nat)
    requires Moves(s, w) && !s.failed && !s.workers[w].Exited?
    requires !(s.workers[w].Taking? && s.tasks == [] && s.running)
    ensures Distance(Next(s, Work(w))) < Distance(s)
  {
    WorkProgress(s, w);
    assert Next(s, Work(w)).inFlight == s.inFlight;
    hide Remaining, Proceed;
  }

  /** A worker that is not asleep for want of a task. */
  lemma SomeWorker(s: State) returns (w: nat)
    requires Doomed(s) && s.inFlight == {}
    ensures w < |s.workers| && !s.workers[w].Exited? && !(s.workers[w].Taking? && s.tasks == [])
  {
    w := 0;
    if s.tasks == [] {
      assert |s.statements| == Outstanding(s)[Sql] > 0;
      assert Sql in Gather(s.workers, TaskOf);
      w := GatherSome(s.workers, TaskOf, Sql);
    }
  }

  /** While an empty statement waits, a call in flight queues its task, or some worker goes on. */
  lemma DoomedStep(s: State) returns (step: Step)
    requires Doomed(s)
    ensures Enabled(s, step) && (step.Enqueue? || step.Work?)
    ensures Next(s, step).failed || Distance(Next(s, step)) < Distance(s)
  {
    if s.inFlight != {} {
      var id :| id in s.inFlight;
      step := Enqueue(id);
      EnqueueNearer(s, id);
    } else {
      var w := SomeWorker(s);
      step := Work(w);
      if !Fails(s, s.workers[w]) {
        WorkNearer(s, w);
      }
    }
    hide Distance;
  }

  lemma EmptyWaits(s: State, step: Step)
    requires Enabled(s, step) && !step.Push? && !Next(s, step).failed && HasEmpty(s.statements)
    ensures HasEmpty(Next(s, step).statements)
  {
    var t := Next(s, step);
    var i :| 0 <= i < |s.statements| && s.statements[i].text == "";
    if t.statements == s.statements {
    } else {
      assert t.statements == s.statements[1..] && s.statements[0].text != "";
      assert t.statements[i - 1].text == "";
    }
  }

  lemma SameWorkers(s: State, step: Step)
    requires Enabled(s, step) && (step.Enqueue? || step.Work?)
    ensures |Next(s, step).workers| == |s.workers| && Next(s, step).running == s.running
  {
  }

  lemma DoomedNext(s: State, step: Step)
    requires Doomed(s) && Enabled(s, step) && (step.Enqueue? || step.Work?) && !Next(s, step).failed
    ensures Doomed(Next(s, step))
  {
    hide Invariant, HasEmpty, Next, Enabled;
    StepKeeps(s, step);
    EmptyWaits(s, step);
    SameWorkers(s, step);
  }

  lemma FailingRun(s: State) returns (steps: seq<Step>)
    requires Doomed(s)
    ensures NoPush(steps) && RunOk(s, steps) && Run(s, steps).failed
    decreases Distance(s)
  {
    hide Doomed, Next, Enabled, Distance;
    var step := DoomedStep(s);
    var t := Next(s, step);
    var rest := [];
    if !t.failed {
      DoomedNext(s, step);
      rest := FailingRun(t);
    }
    steps := [step] + rest;
    assert steps[1..] == rest;
  }

  /** Exactly when an assertion can still fail without another push: as long as the pool runs, which it does
      until Stop has waited for the latch, some continuation fails if and only if an empty statement is
      waiting in the queue. */
  lemma EmptyStatementFails(n: nat, s: State)
    requires Reachable(n, s) && s.running && !s.failed
    ensures CanFail(s) <==> HasEmpty(s.statements)
  {
    ReachableOk(n, s);
    WorkersStay(n, s);
    if HasEmpty(s.statements) {
      var steps := FailingRun(s);
    }
    if CanFail(s) {
      var steps :| NoPush(steps) && RunOk(s, steps) && Run(s, steps).failed;
      FailingNeedsEmpty(s, steps);
    }
  }

  /** The shortest such run: one empty statement. */
  lemma EmptyStatementRun(n: nat) returns (steps: seq<Step>)
    requires n >= 1
    ensures steps == [Push(""), Enqueue(0), Work(0), Work(0), Work(0)]
    ensures RunOk(Initial(n), steps) && Run(Initial(n), steps).failed
  {
    steps := [Push(""), Enqueue(0), Work(0), Work(0), Work(0)];
    var s0 := Initial(n);
    var s1 := Next(s0, steps[0]);
    var s2 := Next(s1, steps[1]);
    var s3 := Next(s2, steps[2]);
    var s4 := Next(s3, steps[3]);
    assert s4.workers[0] == GotSql && s4.statements == [Statement(0, "")];
    var s5 := Next(s4, steps[4]);
    assert Enabled(s4, steps[4]);
    assert Enabled(s0, steps[0]) && Enabled(s1, steps[1]) && Enabled(s2, steps[2]) && Enabled(s3, steps[3]);
    assert s5.failed;
    hide Next, Enabled, Initial;
    var t1 := steps[1..];
    var t2 := t1[1..];
    var t3 := t2[1..];
    assert t1[0] == steps[1] && t2[0] == steps[2] && t3[0] == steps[3];
    var t4 := t3[1..];
    assert t4[0] == steps[4] && t4[1..] == [];
    assert RunOk(s5, t4[1..]) && Run(s5, t4[1..]) == s5;
    assert RunOk(s4, t4) && Run(s4, t4) == s5;
    assert RunOk(s3, t3) && Run(s3, t3) == s5;
    assert RunOk(s2, t2) && Run(s2, t2) == s5;
    assert RunOk(s1, t1) && Run(s1, t1) == s5;
  }

  // ---------------------------------------------------------------- one worker keeps the order

  ghost function InHand(p: Worker): seq<Statement> {
    if p.HasStatement? || p.Executing? then [p.st] else []
  }

  ghost predicate OneAtATime(s: State)
    requires |s.statements| <= |s.pushed|
  {
    |s.workers| == 1 && s.executed + InHand(s.workers[0]) == Popped(s)
  }

  lemma OneAtATimeWork(s: State)
    requires Queued(s) && OneAtATime(s)
    ensures Queued(WorkerStep(s, 0)) && OneAtATime(WorkerStep(s, 0))
  {
    QueuedWork(s, 0);
    hide Queued, Popped;
  }

  lemma OneAtATimeKeeps(s: State, step: Step)
    requires Queued(s) && OneAtATime(s) && Enabled(s, step)
    ensures Queued(Next(s, step)) && OneAtATime(Next(s, step))
  {
    if step.Work? {
      assert step.w == 0;
      OneAtATimeWork(s);
      hide OneAtATime, WorkerStep, Queued;
    } else {
      QueuedKeeps(s, step);
      assert Next(s, step).workers == s.workers && Next(s, step).executed == s.executed;
      hide Queued, Popped, Next;
    }
  }

  lemma {:induction false} OneAtATimeRun(s: State, steps: seq<Step>)
    requires Queued(s) && OneAtATime(s) && RunOk(s, steps)
    ensures Queued(Run(s, steps)) && OneAtATime(Run(s, steps))
    decreases |steps|
  {
    if |steps| > 0 {
      OneAtATimeKeeps(s, steps[0]);
      hide Queued, OneAtATime, Enabled, Next;
      OneAtATimeRun(Next(s, steps[0]), steps[1..]);
    }
  }

  /** With a single worker the statements are executed in the order in which they were pushed. */
  lemma OneWorkerInOrder(s: State)
    requires Reachable(1, s)
    ensures s.executed <= s.pushed
  {
    var steps :| RunOk(Initial(1), steps) && Run(Initial(1), steps) == s;
    OneAtATimeRun(Initial(1), steps);
    var done := s.executed + InHand(s.workers[0]);
    assert s.executed <= done <= s.pushed;
  }
}
