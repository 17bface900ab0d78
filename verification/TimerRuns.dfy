/** Whole runs of the timer queue: the invariant, the timerfd, and what they mean for a caller. */
module TimerRuns {
  import opened Wrappers
  import opened TimerSpec
  import opened TimerProofs

  // ---------------------------------------------------------------- the timerfd is armed in time

  /** The timerfd fires no later than the earliest expiration, or 100 microseconds after it was
      last armed if that is later. */
  ghost predicate ArmedInTime(s: State) {
    |s.list| > 0 ==>
      && s.fd.Some?
      && (s.fd.value <= s.list[0].when || s.fd.value <= s.armedAt + 100)
  }

  /** The same, for the timers due by a given time only: what callbacks keep. */
  ghost predicate ArmedFor(s: State, due: int) {
    |s.list| > 0 && s.list[0].when <= due ==> ArmedInTime(s)
  }

  lemma AddArmed(s: State, a: Addr, time: int, due: int)
    requires Indexed(s) && a in s.heap && KeyOf(s, a) !in s.active
    ensures ArmedInTime(s) ==> ArmedInTime(AddTimerInLoop(s, a, time))
    ensures ArmedFor(s, due) ==> ArmedFor(AddTimerInLoop(s, a, time), due)
  {
    InsertIndexed(s, a);
    InsertSortedOk(s.list, EntryOf(s, a));
    hide InsertSorted, Sorted, Indexed;
    ArmDeadline(Insert(s, a).(pending := s.pending - {a}), At(s, a).expiration, time);
  }

  lemma CancelArmed(s: State, k: Key, due: int)
    requires Indexed(s)
    ensures ArmedInTime(s) ==> ArmedInTime(CancelInLoop(s, k))
    ensures ArmedFor(s, due) ==> ArmedFor(CancelInLoop(s, k), due)
  {
    if k in s.active {
      EraseOk(s.list, EntryOf(s, k.addr));
      hide Erase, Sorted;
    }
  }

  lemma DoArmed(s: State, batch: seq<Entry>, n: nat, op: Op, due: int)
    requires WellFormed(s, batch, n) && Legal(s, op)
    ensures ArmedInTime(s) ==> ArmedInTime(Do(s, op))
    ensures ArmedFor(s, due) ==> ArmedFor(Do(s, op), due)
  {
    hide Indexed, Numbered, RunOnce;
    match op
    case New(_, _, _, _) =>
    case Add(a, time) => AddArmed(s, a, time, due);
    case Cancel(k) => CancelArmed(s, k, due);
  }

  lemma {:induction false} DoAllArmed(s: State, batch: seq<Entry>, n: nat, ops: seq<Op>, due: int)
    requires WellFormed(s, batch, n) && AllLegal(s, ops) && ArmedFor(s, due)
    ensures ArmedFor(DoAll(s, ops), due)
    decreases |ops|
  {
    hide WellFormed, Do, Legal, ArmedFor;
    if |ops| > 0 {
      DoOk(s, batch, n, ops[0]);
      DoArmed(s, batch, n, ops[0], due);
      DoAllArmed(Do(s, ops[0]), batch, n, ops[1..], due);
    }
  }

  lemma {:induction false} RunBatchArmed(s: State, batch: seq<Entry>, n: nat, script: seq<seq<Op>>, due: int)
    requires WellFormed(s, batch, n) && n <= |batch| && BatchLegal(s, batch[n..], script) && ArmedFor(s, due)
    ensures ArmedFor(RunBatch(s, batch[n..], script), due)
    decreases |batch| - n
  {
    hide WellFormed, DoAll, AllLegal;
    if n < |batch| {
      assert batch[n..][0] == batch[n] && batch[n..][1..] == batch[n + 1..];
      var s1 := RunOne(s, batch[n]);
      RunOneOk(s, batch, n);
      assert ArmedFor(s1, due);
      DoAllOk(s1, batch, n + 1, Script(script));
      DoAllArmed(s1, batch, n + 1, Script(script), due);
      RunBatchArmed(DoAll(s1, Script(script)), batch, n + 1, Rest(script), due);
    } else {
      assert batch[n..] == [];
    }
  }

  /** A restarted timer is due after the epoch, so it cannot hide an earlier one that was armed for. */
  lemma RestartArmed(s: State, a: Addr, when: int)
    requires Indexed(s) && a in s.heap && KeyOf(s, a) !in s.active && when > 0 && ArmedFor(s, 0)
    ensures ArmedFor(Insert(s.(heap := s.heap[a := At(s, a).(expiration := when)]), a), 0)
  {
    var m := s.(heap := s.heap[a := At(s, a).(expiration := when)]);
    assert forall b :: b != a ==> At(m, b) == At(s, b);
    hide Sorted, Indexed;
    DetachedIndexed(s, m, a);
    InsertIndexed(m, a);
    IndexedSorted(m);
    InsertSortedOk(m.list, EntryOf(m, a));
    hide InsertSorted;
  }

  lemma IndexedSorted(s: State)
    requires Indexed(s)
    ensures Sorted(s.list)
  {
  }

  lemma ResetOneArmed(s: State, batch: seq<Entry>, now: int)
    requires WellFormed(s, batch, |batch|) && |batch| >= 1 && now > 0 && ArmedFor(s, 0)
    ensures ArmedFor(ResetOne(s, batch[0], now), 0)
  {
    var a := batch[0].addr;
    assert Indexed(s) && a in s.heap && KeyOf(s, a) !in s.active by {
      hide Indexed, Numbered, RunOnce;
    }
    hide WellFormed, Indexed;
    if At(s, a).repeat && KeyOf(s, a) !in s.cancelled {
      hide ArmedFor, Insert;
      RestartArmed(s, a, now + At(s, a).interval);
    }
  }

  lemma {:induction false} ResetAllArmed(s: State, batch: seq<Entry>, now: int)
    requires WellFormed(s, batch, |batch|) && now > 0 && ArmedFor(s, 0)
    ensures ArmedFor(ResetAll(s, batch, now), 0)
    decreases |batch|
  {
    hide WellFormed, ArmedFor;
    if |batch| > 0 {
      ResetOneOk(s, batch, now);
      ResetOneArmed(s, batch, now);
      ResetAllArmed(ResetOne(s, batch[0], now), batch[1..], now);
    }
  }

  lemma ResetArmed(r: State, time: int)
    requires Indexed(r) && ArmedFor(r, 0)
    ensures ArmedInTime(if |r.list| > 0 && At(r, r.list[0].addr).expiration > 0
                        then Arm(r, At(r, r.list[0].addr).expiration, time) else r)
  {
    if |r.list| > 0 {
      assert r.list[0] in r.list;
      ArmDeadline(r, At(r, r.list[0].addr).expiration, time);
    }
  }

  lemma NothingDue(s: State, now: int)
    requires WellFormed(s, [], 0)
    ensures ArmedFor(StartCalling(s, now), now)
  {
    var c := s.(fd := None);
    IndexedDependsOn(s, c);
    ExpiredSplits(c, now);
    var r := StartCalling(s, now);
    assert r.list == GetExpired(c, now).list;
    if |r.list| > 0 {
      assert r.list[0] in r.list;
    }
  }

  lemma HandleReadArmed(s: State, now: int, script: seq<seq<Op>>, time: int)
    requires WellFormed(s, [], 0) && EventLegal(s, Wakeup(now, script, time))
    ensures ArmedInTime(HandleRead(s, now, script, time))
  {
    hide WellFormed, StartCalling, RunBatch, BatchLegal, ArmedInTime, ResetAll;
    var batch, s0 := Expired(s, now), StartCalling(s, now);
    StartCallingOk(s, now);
    NothingDue(s, now);
    assert batch[0..] == batch;
    RunBatchOk(s0, batch, 0, script);
    RunBatchArmed(s0, batch, 0, script, now);
    var called := RunBatch(s0, batch, script);
    var c := called.(calling := false);
    assert ArmedFor(c, 0) by { ArmedForSooner(called, c, now); }
    SameWellFormed(called, c, batch, |batch|);
    ResetAllOk(c, batch, now);
    ResetAllArmed(c, batch, now);
    IndexedPart(ResetAll(c, batch, now), [], 0);
    ResetArmed(ResetAll(c, batch, now), time);
  }

  lemma ArmedForSooner(s: State, r: State, due: int)
    requires ArmedFor(s, due) && due > 0
    requires r == s.(calling := r.calling)
    ensures ArmedFor(r, 0)
  {
  }

  lemma IndexedPart(s: State, batch: seq<Entry>, n: nat)
    requires WellFormed(s, batch, n)
    ensures Indexed(s)
  {
  }

  // ---------------------------------------------------------------- every run

  /** What holds whenever the loop is not inside handleRead. */
  ghost predicate Invariant(s: State) {
    WellFormed(s, [], 0) && !s.calling && ArmedInTime(s)
  }

  lemma InitialInvariant()
    ensures Invariant(INITIAL)
  {
  }

  lemma HandleKeeps(s: State, ev: Event)
    requires Invariant(s) && EventLegal(s, ev)
    ensures Invariant(Handle(s, ev))
  {
    hide WellFormed, ArmedInTime, HandleRead, BatchLegal;
    match ev
    case Request(op) =>
      DoOk(s, [], 0, op);
      DoArmed(s, [], 0, op, 0);
    case Wakeup(now, script, time) =>
      HandleReadOk(s, now, script, time);
      HandleReadArmed(s, now, script, time);
  }

  /** The invariant holds after every run, whatever the callbacks add and cancel. */
  lemma {:induction false} RunKeeps(s: State, evs: seq<Event>)
    requires Invariant(s) && RunLegal(s, evs)
    ensures Invariant(HandleAll(s, evs))
    decreases |evs|
  {
    hide Invariant, Handle, EventLegal;
    if |evs| > 0 {
      HandleKeeps(s, evs[0]);
      RunKeeps(Handle(s, evs[0]), evs[1..]);
    }
  }

  // ---------------------------------------------------------------- what the invariant means

  lemma {:induction false} KeysCount(s: State, list: seq<Entry>)
    requires Sorted(list) && forall e :: e in list ==> e == EntryOf(s, e.addr)
    ensures |KeysOf(s, list)| == |list|
    decreases |list|
  {
    if |list| > 0 {
      var n := |list| - 1;
      var front, last := list[..n], list[n];
      KeysCount(s, front);
      assert last in list;
      forall i | 0 <= i < n
        ensures KeyOf(s, front[i].addr) != KeyOf(s, last.addr)
      {
        assert list[i] in list;
        SortedDistinct(list, i, n);
      }
      assert forall i :: 0 <= i < n ==> list[i] == front[i];
      assert KeysOf(s, list) == KeysOf(s, front) + {KeyOf(s, last.addr)};
    }
  }

  /** The source's own assertion: both sets always have the same size. */
  lemma SameSize(s: State)
    requires Indexed(s)
    ensures |s.list| == |s.active|
  {
    KeysCount(s, s.list);
    ExpiredKeys(s, s.list);
    assert KeysOf(s, s.list) == s.active by {
      forall k | k in KeysOf(s, s.list)
        ensures k in s.active
      {
        var i :| 0 <= i < |s.list| && KeyOf(s, s.list[i].addr) == k;
        assert s.list[i] in s.list;
      }
    }
  }

  /** After any run from the start: the two sets index the same timers, a one-shot timer has run at
      most once, no timer was freed twice, every timer created is live or freed, and the timerfd is
      armed in time. */
  lemma EveryRun(evs: seq<Event>)
    requires RunLegal(INITIAL, evs)
    ensures var s := HandleAll(INITIAL, evs);
            && Indexed(s) && |s.list| == |s.active|
            && (forall x :: x in s.oneShots ==> s.runs[x] <= 1)
            && (forall x :: s.freed[x] <= 1)
            && (forall n :: 1 <= n <= s.created ==> (n in s.freed <==> !LiveSequence(s, n)))
            && (forall a :: a in s.heap ==> (KeyOf(s, a) in s.active <==> a !in s.pending))
            && ArmedInTime(s)
  {
    var s := HandleAll(INITIAL, evs);
    assert Invariant(s) by {
      InitialInvariant();
      RunKeeps(INITIAL, evs);
    }
    SameSize(s);
    forall n | 1 <= n <= s.created
      ensures n in s.freed <==> !LiveSequence(s, n)
    {
    }
  }

  /** Cancelling removes exactly the timer with that address and sequence, and frees it. */
  lemma CancelExact(s: State, batch: seq<Entry>, n: nat, k: Key)
    requires WellFormed(s, batch, n) && k in s.active
    ensures var r := CancelInLoop(s, k);
            && (forall e :: e in r.list <==> e in s.list && e.addr != k.addr)
            && r.heap == s.heap - {k.addr} && r.freed == s.freed + multiset{k.sequence}
            && (forall a :: a in r.heap ==> At(r, a) == At(s, a))
            && r.cancelled == s.cancelled && r.pending == s.pending && r.fd == s.fd && r.runs == s.runs
  {
    EraseOk(s.list, EntryOf(s, k.addr));
    hide Sorted, Erase;
  }

  /** A cancellation without effect: nothing is removed, and no allocated timer is remembered as
      cancelled that was not before, so that reset frees none because of it either. */
  ghost predicate Ineffective(s: State, r: State) {
    && r.list == s.list && r.active == s.active && r.heap == s.heap && r.freed == s.freed
    && forall a :: a in s.heap ==> (KeyOf(s, a) in r.cancelled <==> KeyOf(s, a) in s.cancelled)
  }

  /** A stale key, whose sequence is not that of the timer now at the address, cancels nothing. */
  lemma StaleKeyHarmless(s: State, batch: seq<Entry>, n: nat, k: Key)
    requires WellFormed(s, batch, n) && At(s, k.addr).sequence != k.sequence
    ensures Ineffective(s, CancelInLoop(s, k))
  {
  }

  /** Nor does the handle AddTimer returns: it carries sequence 0, which no timer ever has. */
  lemma HandleCancelsNothing(s: State, batch: seq<Entry>, n: nat, a: Addr)
    requires WellFormed(s, batch, n)
    ensures Ineffective(s, CancelInLoop(s, Key(a, 0)))
  {
    assert forall b :: b in s.heap ==> At(s, b) == s.heap[b] && s.heap[b].sequence >= 1;
    assert Key(a, 0) !in s.active;
  }

  /** A timer of the batch was rescheduled one interval after now, or freed. */
  ghost predicate Settled(s: State, r: State, a: Addr, now: int) {
    if At(s, a).repeat && KeyOf(s, a) !in s.cancelled
    then a in r.heap && At(r, a) == At(s, a).(expiration := now + At(s, a).interval) && KeyOf(s, a) in r.active
    else a !in r.heap && At(s, a).sequence in r.freed
  }

  /** Resetting one timer leaves every other one as it was. */
  ghost predicate OthersKept(s: State, r: State, b: Addr) {
    && (forall a :: a != b ==> At(r, a) == At(s, a) && (a in r.heap <==> a in s.heap))
    && s.active <= r.active && r.cancelled == s.cancelled && s.freed <= r.freed
  }

  lemma ResetOneEffect(s: State, e: Entry, now: int)
    requires e.addr in s.heap
    ensures Settled(s, ResetOne(s, e, now), e.addr, now)
    ensures OthersKept(s, ResetOne(s, e, now), e.addr)
  {
    hide InsertSorted;
  }

  /** What a timer outside the rest of the batch is, it stays. */
  lemma {:induction false} ResetAllKeeps(s: State, batch: seq<Entry>, now: int, a: Addr)
    requires WellFormed(s, batch, |batch|) && forall i :: 0 <= i < |batch| ==> batch[i].addr != a
    ensures var r := ResetAll(s, batch, now);
            At(r, a) == At(s, a) && (a in r.heap <==> a in s.heap) && s.active <= r.active && s.freed <= r.freed
    decreases |batch|
  {
    if |batch| > 0 {
      assert batch[0].addr in s.heap;
      ResetOneOk(s, batch, now);
      ResetOneEffect(s, batch[0], now);
      hide WellFormed, ResetOne;
      ResetAllKeeps(ResetOne(s, batch[0], now), batch[1..], now, a);
    }
  }

  /** After the callbacks, each timer of the batch is rescheduled one interval after now if it
      repeats and was not cancelled meanwhile, and freed otherwise. */
  lemma {:induction false} BatchOutcome(s: State, batch: seq<Entry>, now: int, i: nat)
    requires WellFormed(s, batch, |batch|) && i < |batch|
    ensures Settled(s, ResetAll(s, batch, now), batch[i].addr, now)
    decreases |batch|
  {
    hide WellFormed, ResetOne, Settled, OthersKept;
    BatchDistinct(s, batch);
    ResetOneOk(s, batch, now);
    ResetOneEffect(s, batch[0], now);
    var s1, rest := ResetOne(s, batch[0], now), batch[1..];
    if i == 0 {
      ResetAllKeeps(s1, rest, now, batch[0].addr);
      SettledStays(s, s1, ResetAll(s, batch, now), batch[0].addr, now);
    } else {
      BatchOutcome(s1, rest, now, i - 1);
      SettledLater(s, s1, ResetAll(s, batch, now), batch[0].addr, batch[i].addr, now);
    }
  }

  lemma BatchDistinct(s: State, batch: seq<Entry>)
    requires WellFormed(s, batch, |batch|) && |batch| >= 1
    ensures batch[0].addr in s.heap
    ensures forall j :: 0 < j < |batch| ==> batch[j].addr != batch[0].addr
  {
  }

  lemma SettledStays(s: State, s1: State, r: State, a: Addr, now: int)
    requires Settled(s, s1, a, now)
    requires At(r, a) == At(s1, a) && (a in r.heap <==> a in s1.heap) && s1.active <= r.active && s1.freed <= r.freed
    ensures Settled(s, r, a, now)
  {
  }

  lemma SettledLater(s: State, s1: State, r: State, b: Addr, a: Addr, now: int)
    requires OthersKept(s, s1, b) && a != b && Settled(s1, r, a, now)
    ensures Settled(s, r, a, now)
  {
  }
}
