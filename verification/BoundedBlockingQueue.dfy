/** The bounded blocking queue: producers and consumers, any number of each, around one mutex and two
    condition variables. A step is what a thread does between taking the mutex and giving it up. */
module BoundedBlockingQueue {

  type Tid = nat

  /** Where the threads are: outside the queue when in none of the four collections. A waiting
      thread sleeps on its condition variable; a woken one has been signalled (or woke up on its
      own) and will take the mutex again and repeat its test. */
  datatype State<T> = State(
    capacity: nat,
    queue: seq<T>,
    putWaiting: map<Tid, T>,
    putWoken: map<Tid, T>,
    takeWaiting: set<Tid>,
    takeWoken: set<Tid>,
    puts: seq<T>,    // items put, in order
    takes: seq<T>)   // items taken, in order

  function Initial<T>(capacity: nat): State<T> {
    State(capacity, [], map[], map[], {}, {}, [], [])
  }

  predicate Outside<T>(s: State<T>, t: Tid) {
    t !in s.putWaiting && t !in s.putWoken && t !in s.takeWaiting && t !in s.takeWoken
  }

  /** signalled is the set of threads the condition variable wakes; it may wake more than one. */
  datatype Step<T> =
    | Put(t: Tid, x: T, signalled: set<Tid>)
    | Take(t: Tid, signalled: set<Tid>)
    | SpuriousPut(t: Tid)
    | SpuriousTake(t: Tid)

  /** Notify wakes at least one waiting thread when there is one. */
  predicate Notified(waiting: set<Tid>, signalled: set<Tid>) {
    signalled <= waiting && (waiting != {} ==> signalled != {})
  }

  predicate Full<T>(s: State<T>) {
    |s.queue| >= s.capacity
  }

  predicate Enabled<T(==)>(s: State<T>, step: Step<T>) {
    match step
    case Put(t, x, signalled) =>
      && (Outside(s, t) || (t in s.putWoken && s.putWoken[t] == x))
      && (!Full(s) ==> Notified(s.takeWaiting, signalled))
    case Take(t, signalled) =>
      && (Outside(s, t) || t in s.takeWoken)
      && (s.queue != [] ==> Notified(s.putWaiting.Keys, signalled))
    case SpuriousPut(t) => t in s.putWaiting
    case SpuriousTake(t) => t in s.takeWaiting
  }

  function Next<T(==)>(s: State<T>, step: Step<T>): State<T>
    requires Enabled(s, step)
  {
    match step
    case Put(t, x, signalled) =>
      if Full(s) then
        s.(putWaiting := s.putWaiting[t := x], putWoken := s.putWoken - {t})
      else
        s.(queue := s.queue + [x], puts := s.puts + [x], putWoken := s.putWoken - {t},
           takeWaiting := s.takeWaiting - signalled, takeWoken := s.takeWoken + signalled)
    case Take(t, signalled) =>
      if s.queue == [] then
        s.(takeWaiting := s.takeWaiting + {t}, takeWoken := s.takeWoken - {t})
      else
        s.(queue := s.queue[1..], takes := s.takes + [s.queue[0]], takeWoken := s.takeWoken - {t},
           putWaiting := s.putWaiting - signalled,
           putWoken := s.putWoken + (map u | u in s.putWaiting && u in signalled :: s.putWaiting[u]))
    case SpuriousPut(t) =>
      s.(putWaiting := s.putWaiting - {t}, putWoken := s.putWoken[t := s.putWaiting[t]])
    case SpuriousTake(t) =>
      s.(takeWaiting := s.takeWaiting - {t}, takeWoken := s.takeWoken + {t})
  }

  ghost predicate RunOk<T>(s: State<T>, steps: seq<Step<T>>)
    decreases |steps|
  {
    |steps| > 0 ==> Enabled(s, steps[0]) && RunOk(Next(s, steps[0]), steps[1..])
  }

  ghost function Run<T>(s: State<T>, steps: seq<Step<T>>): State<T>
    requires RunOk(s, steps)
    decreases |steps|
  {
    if |steps| == 0 then s else Run(Next(s, steps[0]), steps[1..])
  }

  // ---------------------------------------------------------------- the invariant

  /** Who sleeps, who was woken, and how full the queue is: all the wakeup argument needs. */
  datatype View = View(
    putWaiting: set<Tid>, putWoken: set<Tid>, takeWaiting: set<Tid>, takeWoken: set<Tid>,
    size: nat, capacity: nat)
  {
    ghost predicate Apart() {
      && putWaiting !! putWoken
      && takeWaiting !! takeWoken
      && (putWaiting + putWoken) !! (takeWaiting + takeWoken)
    }

    /** While a consumer sleeps, every queued item is promised to a consumer already woken. */
    ghost predicate ItemsPromised() {
      takeWaiting != {} ==> size <= |takeWoken|
    }

    /** While a producer sleeps, every free slot is promised to a producer already woken. */
    ghost predicate SlotsPromised() {
      putWaiting != {} ==> capacity - size <= |putWoken|
    }

    ghost predicate Ok() {
      Apart() && size <= capacity && ItemsPromised() && SlotsPromised()
    }

    /** The same with the two kinds of thread, and items and free slots, exchanged. */
    ghost function Mirror(): View
      requires size <= capacity
    {
      View(takeWaiting, takeWoken, putWaiting, putWoken, capacity - size, capacity)
    }
  }

  ghost function ViewOf<T>(s: State<T>): View {
    View(s.putWaiting.Keys, s.putWoken.Keys, s.takeWaiting, s.takeWoken, |s.queue|, s.capacity)
  }

  ghost predicate Invariant<T>(s: State<T>) {
    ViewOf(s).Ok() && s.puts == s.takes + s.queue
  }

  lemma SizeMinusOne(a: set<Tid>, t: Tid)
    ensures |a - {t}| == if t in a then |a| - 1 else |a|
  {
    if t !in a {
      assert a - {t} == a;
    }
  }

  lemma SizePositive(a: set<Tid>)
    requires a != {}
    ensures |a| >= 1
  {
    var x :| x in a;
    SizeMinusOne(a, x);
  }

  ghost predicate MayPut(v: View, t: Tid) {
    t !in v.putWaiting && t !in v.takeWaiting && t !in v.takeWoken
  }

  /** A producer goes to sleep. */
  ghost function Sleep(v: View, t: Tid): View {
    v.(putWaiting := v.putWaiting + {t}, putWoken := v.putWoken - {t})
  }

  /** A producer uses a free slot and signals. */
  ghost function UseSlot(v: View, t: Tid, signalled: set<Tid>): View {
    v.(putWoken := v.putWoken - {t}, takeWaiting := v.takeWaiting - signalled,
       takeWoken := v.takeWoken + signalled, size := v.size + 1)
  }

  /** A producer wakes up by itself. */
  ghost function Wake(v: View, t: Tid): View {
    v.(putWaiting := v.putWaiting - {t}, putWoken := v.putWoken + {t})
  }

  lemma SleepKeeps(v: View, t: Tid)
    requires v.Ok() && MayPut(v, t) && v.size == v.capacity
    ensures Sleep(v, t).Ok()
  {
  }

  lemma UseSlotApart(v: View, t: Tid, signalled: set<Tid>)
    requires v.Apart() && signalled <= v.takeWaiting
    ensures UseSlot(v, t, signalled).Apart()
  {
    var w := UseSlot(v, t, signalled);
    assert w.putWoken <= v.putWoken;
    assert w.takeWaiting + w.takeWoken == v.takeWaiting + v.takeWoken;
  }

  /** The producer's own promise is used up with the slot, and the new item is promised to the
      consumer it wakes. */
  lemma UseSlotKeeps(v: View, t: Tid, signalled: set<Tid>)
    requires v.Ok() && MayPut(v, t) && v.size < v.capacity && Notified(v.takeWaiting, signalled)
    ensures UseSlot(v, t, signalled).Ok()
  {
    UseSlotApart(v, t, signalled);
    SizeMinusOne(v.putWoken, t);
    assert |v.takeWoken + signalled| == |v.takeWoken| + |signalled|;
    if v.takeWaiting != {} {
      SizePositive(signalled);
    }
    hide View.Apart;
  }

  lemma WakeKeeps(v: View, t: Tid)
    requires v.Ok() && t in v.putWaiting
    ensures Wake(v, t).Ok()
  {
    assert |v.putWoken + {t}| == |v.putWoken| + 1;
  }

  lemma MirrorOk(v: View)
    requires v.size <= v.capacity
    ensures v.Mirror().Ok() <==> v.Ok()
  {
  }

  lemma PutView<T>(s: State<T>, t: Tid, x: T, signalled: set<Tid>)
    requires ViewOf(s).Apart() && Enabled(s, Put(t, x, signalled))
    ensures MayPut(ViewOf(s), t)
    ensures ViewOf(Next(s, Put(t, x, signalled))) ==
            if Full(s) then Sleep(ViewOf(s), t) else UseSlot(ViewOf(s), t, signalled)
  {
  }

  /** What a consumer does is what a producer does in the mirror. */
  lemma TakeView<T>(s: State<T>, t: Tid, signalled: set<Tid>)
    requires ViewOf(s).Apart() && |s.queue| <= s.capacity && Enabled(s, Take(t, signalled))
    ensures MayPut(ViewOf(s).Mirror(), t) && |Next(s, Take(t, signalled)).queue| <= s.capacity
    ensures ViewOf(Next(s, Take(t, signalled))).Mirror() ==
            if s.queue == [] then Sleep(ViewOf(s).Mirror(), t) else UseSlot(ViewOf(s).Mirror(), t, signalled)
  {
    var r := Next(s, Take(t, signalled));
    if s.queue != [] {
      assert r.putWaiting.Keys == s.putWaiting.Keys - signalled;
      assert r.putWoken.Keys == s.putWoken.Keys + signalled;
    }
  }

  lemma PutKeeps<T>(s: State<T>, t: Tid, x: T, signalled: set<Tid>)
    requires ViewOf(s).Ok() && Enabled(s, Put(t, x, signalled))
    ensures ViewOf(Next(s, Put(t, x, signalled))).Ok()
  {
    PutView(s, t, x, signalled);
    hide Next, View.Ok, Sleep, UseSlot, MayPut;
    if Full(s) {
      assert s.capacity == |s.queue| by { FullIsCapacity(s); }
      SleepKeeps(ViewOf(s), t);
    } else {
      UseSlotKeeps(ViewOf(s), t, signalled);
    }
  }

  lemma FullIsCapacity<T>(s: State<T>)
    requires ViewOf(s).Ok()
    ensures |s.queue| <= s.capacity && (Full(s) <==> |s.queue| == s.capacity)
  {
    hide View.Apart, View.ItemsPromised, View.SlotsPromised;
  }

  lemma TakeKeeps<T>(s: State<T>, t: Tid, signalled: set<Tid>)
    requires ViewOf(s).Ok() && Enabled(s, Take(t, signalled))
    ensures ViewOf(Next(s, Take(t, signalled))).Ok()
  {
    FullIsCapacity(s);
    TakeView(s, t, signalled);
    MirrorOk(ViewOf(s));
    MirrorOk(ViewOf(Next(s, Take(t, signalled))));
    hide Next, View.Ok, Sleep, UseSlot, MayPut;
    if s.queue == [] {
      SleepKeeps(ViewOf(s).Mirror(), t);
    } else {
      UseSlotKeeps(ViewOf(s).Mirror(), t, signalled);
    }
  }

  lemma SpuriousPutView<T>(s: State<T>, t: Tid)
    requires t in s.putWaiting
    ensures ViewOf(Next(s, SpuriousPut(t))) == Wake(ViewOf(s), t)
  {
    var r := Next(s, SpuriousPut(t));
    assert r.putWaiting.Keys == s.putWaiting.Keys - {t};
    assert r.putWoken.Keys == s.putWoken.Keys + {t};
  }

  lemma SpuriousPutKeeps<T>(s: State<T>, t: Tid)
    requires ViewOf(s).Ok() && t in s.putWaiting
    ensures ViewOf(Next(s, SpuriousPut(t))).Ok()
  {
    SpuriousPutView(s, t);
    WakeKeeps(ViewOf(s), t);
    hide View.Ok, Wake, Next;
  }

  lemma SpuriousTakeView<T>(s: State<T>, t: Tid)
    requires t in s.takeWaiting && |s.queue| <= s.capacity
    ensures ViewOf(Next(s, SpuriousTake(t))).size <= s.capacity
    ensures ViewOf(Next(s, SpuriousTake(t))).Mirror() == Wake(ViewOf(s).Mirror(), t)
  {
  }

  lemma SpuriousTakeKeeps<T>(s: State<T>, t: Tid)
    requires ViewOf(s).Ok() && t in s.takeWaiting
    ensures ViewOf(Next(s, SpuriousTake(t))).Ok()
  {
    FullIsCapacity(s);
    SpuriousTakeView(s, t);
    assert t in ViewOf(s).Mirror().putWaiting;
    hide View.Ok, View.Mirror, Wake, Next, ViewOf;
    MirrorOk(ViewOf(s));
    MirrorOk(ViewOf(Next(s, SpuriousTake(t))));
    WakeKeeps(ViewOf(s).Mirror(), t);
  }

  lemma HistoryKeeps<T>(s: State<T>, step: Step<T>)
    requires s.puts == s.takes + s.queue && Enabled(s, step)
    ensures Next(s, step).puts == Next(s, step).takes + Next(s, step).queue
  {
    hide Enabled, Notified;
    if step.Take? && s.queue != [] {
      assert s.queue == [s.queue[0]] + s.queue[1..];
    }
  }

  lemma StepKeeps<T>(s: State<T>, step: Step<T>)
    requires Invariant(s) && Enabled(s, step)
    ensures Invariant(Next(s, step)) && Next(s, step).capacity == s.capacity
  {
    HistoryKeeps(s, step);
    hide View.Ok, Enabled;
    match step
    case Put(t, x, signalled) => PutKeeps(s, t, x, signalled);
    case Take(t, signalled) => TakeKeeps(s, t, signalled);
    case SpuriousPut(t) => SpuriousPutKeeps(s, t);
    case SpuriousTake(t) => SpuriousTakeKeeps(s, t);
  }

  lemma {:induction false} RunKeeps<T>(s: State<T>, steps: seq<Step<T>>)
    requires Invariant(s) && RunOk(s, steps)
    ensures Invariant(Run(s, steps)) && Run(s, steps).capacity == s.capacity
    decreases |steps|
  {
    if |steps| > 0 {
      StepKeeps(s, steps[0]);
      RunKeeps(Next(s, steps[0]), steps[1..]);
    }
  }

  // ---------------------------------------------------------------- what it means

  /** In every interleaving the queue stays within its capacity and items leave it in the order
      they came: what was taken is a prefix of what was put, and the queue is the rest. */
  lemma FirstInFirstOut<T>(capacity: nat, steps: seq<Step<T>>)
    requires RunOk(Initial(capacity), steps)
    ensures var s := Run(Initial(capacity), steps);
            |s.queue| <= capacity && s.takes <= s.puts && s.queue == s.puts[|s.takes|..]
  {
    RunKeeps(Initial(capacity), steps);
    var s := Run(Initial(capacity), steps);
    assert s.puts[..|s.takes|] == s.takes;
  }

  /** The items of the Put steps that found room. */
  ghost function ItemsPut<T>(s: State<T>, steps: seq<Step<T>>): seq<T>
    requires RunOk(s, steps)
    decreases |steps|
  {
    if |steps| == 0 then []
    else
      (if steps[0].Put? && |s.queue| < s.capacity then [steps[0].x] else []) + ItemsPut(Next(s, steps[0]), steps[1..])
  }

  /** How many Take steps found an item. */
  ghost function ItemsTaken<T>(s: State<T>, steps: seq<Step<T>>): nat
    requires RunOk(s, steps)
    decreases |steps|
  {
    if |steps| == 0 then 0
    else (if steps[0].Take? && |s.queue| > 0 then 1 else 0) + ItemsTaken(Next(s, steps[0]), steps[1..])
  }

  lemma {:induction false} RunRecords<T>(s: State<T>, steps: seq<Step<T>>)
    requires RunOk(s, steps)
    ensures var r := Run(s, steps);
            r.puts == s.puts + ItemsPut(s, steps) && |r.takes| == |s.takes| + ItemsTaken(s, steps)
    decreases |steps|
  {
    if |steps| > 0 {
      StepRecords(s, steps[0]);
      hide Next, Enabled;
      RunRecords(Next(s, steps[0]), steps[1..]);
    }
  }

  lemma StepRecords<T>(s: State<T>, step: Step<T>)
    requires Enabled(s, step)
    ensures var r := Next(s, step);
            && r.puts == s.puts + (if step.Put? && |s.queue| < s.capacity then [step.x] else [])
            && |r.takes| == |s.takes| + if step.Take? && |s.queue| > 0 then 1 else 0
  {
  }

  /** What goes in comes out: over any run the queue is made of the items of the puts that found room, in order,
      less as many at the front as there were takes that found one, and those are what the takes got. */
  lemma PutsComeOut<T>(capacity: nat, steps: seq<Step<T>>)
    requires RunOk(Initial(capacity), steps)
    ensures var s, puts, n := Run(Initial(capacity), steps), ItemsPut(Initial(capacity), steps),
                              ItemsTaken(Initial(capacity), steps);
            n <= |puts| && s.takes == puts[..n] && s.queue == puts[n..]
  {
    FirstInFirstOut(capacity, steps);
    RunRecords(Initial(capacity), steps);
    var s := Run(Initial(capacity), steps);
    assert [] + ItemsPut(Initial(capacity), steps) == ItemsPut(Initial(capacity), steps);
    hide Run, ItemsPut, ItemsTaken, RunOk;
    assert s.takes == s.puts[..|s.takes|];
  }

  /** A producer that finds room is done, and wakes a sleeping consumer if there is one; one that finds none
      sleeps with its item. */
  lemma PutExactly<T>(s: State<T>, t: Tid, x: T, signalled: set<Tid>)
    requires ViewOf(s).Apart() && Enabled(s, Put(t, x, signalled))
    ensures var r := Next(s, Put(t, x, signalled));
            if |s.queue| < s.capacity
            then r.queue == s.queue + [x] && Outside(r, t)
                 && (s.takeWaiting != {} ==> exists u :: u in s.takeWaiting && u in r.takeWoken)
            else r.queue == s.queue && t in r.putWaiting && r.putWaiting[t] == x
  {
    if |s.queue| < s.capacity && s.takeWaiting != {} {
      var u :| u in signalled;
      assert u in s.takeWaiting && u in Next(s, Put(t, x, signalled)).takeWoken;
    }
  }

  /** A consumer that finds an item is done with the oldest, and wakes a sleeping producer if there is one; one
      that finds none sleeps. */
  lemma TakeExactly<T>(s: State<T>, t: Tid, signalled: set<Tid>)
    requires ViewOf(s).Apart() && Enabled(s, Take(t, signalled))
    ensures var r := Next(s, Take(t, signalled));
            if |s.queue| > 0
            then [s.queue[0]] + r.queue == s.queue && r.takes == s.takes + [s.queue[0]] && Outside(r, t)
                 && (s.putWaiting != map[] ==> exists u :: u in s.putWaiting && u in r.putWoken)
            else r.queue == s.queue && t in r.takeWaiting
  {
    if |s.queue| > 0 && s.putWaiting != map[] {
      var u :| u in signalled;
      assert u in s.putWaiting && u in Next(s, Take(t, signalled)).putWoken;
    }
  }

  /** A thread that waits to put keeps its item until it takes a step of its own. */
  lemma WaitingItemKept<T>(s: State<T>, step: Step<T>, u: Tid)
    requires Invariant(s) && Enabled(s, step) && !(step.Put? && step.t == u)
    requires u in s.putWaiting || u in s.putWoken
    ensures var r := Next(s, step);
            && (u in r.putWaiting || u in r.putWoken)
            && ItemOf(r, u) == ItemOf(s, u)
  {
  }

  ghost function ItemOf<T>(s: State<T>, u: Tid): T
    requires u in s.putWaiting || u in s.putWoken
  {
    if u in s.putWaiting then s.putWaiting[u] else s.putWoken[u]
  }

  /** A woken producer or consumer whose test now succeeds. */
  ghost predicate CanFinish<T>(s: State<T>) {
    (s.takeWoken != {} && s.queue != []) || (s.putWoken != map[] && !Full(s))
  }

  /** No wakeup is lost: while a consumer sleeps there are at least as many woken consumers as items,
      and while a producer sleeps at least as many woken producers as free slots. So nobody sleeps
      through an item or a slot that no woken thread is about to use. */
  lemma NoLostWakeup<T>(capacity: nat, steps: seq<Step<T>>)
    requires RunOk(Initial(capacity), steps)
    ensures var s := Run(Initial(capacity), steps);
            && (s.takeWaiting != {} ==> |s.queue| <= |s.takeWoken|)
            && (s.putWaiting != map[] ==> s.capacity - |s.queue| <= |s.putWoken.Keys|)
            && (s.takeWaiting != {} && s.queue != [] ==> s.takeWoken != {})
            && (s.putWaiting != map[] && !Full(s) ==> s.putWoken != map[])
  {
    RunKeeps(Initial(capacity), steps);
  }

  /** With room for one item a producer and a consumer are never both stuck: while both sleep, some
      woken thread can finish. */
  lemma NeverBothStuck<T>(capacity: nat, steps: seq<Step<T>>)
    requires capacity >= 1 && RunOk(Initial(capacity), steps)
    ensures var s := Run(Initial(capacity), steps);
            s.takeWaiting != {} && s.putWaiting != map[] ==> CanFinish(s)
  {
    RunKeeps(Initial(capacity), steps);
    NoLostWakeup(capacity, steps);
  }

  /** A step of a thread that was woken. */
  ghost predicate OfWoken<T>(s: State<T>, step: Step<T>) {
    (step.Take? && step.t in s.takeWoken) || (step.Put? && step.t in s.putWoken)
  }

  /** A woken thread can finish exactly when one of them has a step that puts or takes an item. */
  lemma FinishStep<T>(s: State<T>)
    ensures CanFinish(s) <==>
              exists step :: Enabled(s, step) && OfWoken(s, step) &&
                (|Next(s, step).puts| == |s.puts| + 1 || |Next(s, step).takes| == |s.takes| + 1)
  {
    if s.takeWoken != {} && s.queue != [] {
      var t :| t in s.takeWoken;
      var step := Take(t, s.putWaiting.Keys);
      assert Enabled(s, step) && OfWoken(s, step);
      assert |Next(s, step).takes| == |s.takes| + 1;
    } else if s.putWoken != map[] && !Full(s) {
      var t :| t in s.putWoken;
      var step := Put(t, s.putWoken[t], s.takeWaiting);
      assert Enabled(s, step) && OfWoken(s, step);
      assert |Next(s, step).puts| == |s.puts| + 1;
    }
  }

  lemma {:induction false} NothingMoves<T>(s: State<T>, steps: seq<Step<T>>)
    requires s.capacity == 0 && s.queue == [] && s.puts == [] && s.takes == [] && RunOk(s, steps)
    ensures Run(s, steps).puts == [] && Run(s, steps).takes == []
    decreases |steps|
  {
    if |steps| > 0 {
      NothingMoves(Next(s, steps[0]), steps[1..]);
    }
  }

  /** A queue of capacity 0 is full and empty at once: everyone waits for ever. The capacity must
      be at least 1 for any item to pass, and then one does. */
  lemma CapacityMatters<T>(capacity: nat, x: T)
    ensures capacity >= 1 <==>
            exists steps: seq<Step<T>> :: RunOk(Initial(capacity), steps) && Run(Initial(capacity), steps).takes != []
  {
    if capacity == 0 {
      forall steps: seq<Step<T>> | RunOk(Initial(capacity), steps)
        ensures Run(Initial(capacity), steps).takes == []
      {
        NothingMoves(Initial(capacity), steps);
      }
    } else {
      var s := Initial<T>(capacity);
      var steps := [Put(0, x, {}), Take(1, {})];
      assert steps[1..] == [Take(1, {})] && steps[1..][1..] == [];
      var s1 := Next(s, steps[0]);
      assert RunOk(s1, steps[1..]);
      assert RunOk(s, steps);
      assert Run(s1, steps[1..]) == Next(s1, Take(1, {}));
      assert Run(s, steps).takes == [x];
    }
  }
}
