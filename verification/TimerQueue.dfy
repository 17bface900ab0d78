/** The timer queue as it runs on its loop, updating its sets in place. */
module TimerQueue {
  import opened Wrappers
  import opened TimerSpec
  import opened TimerProofs
  import opened TimerRuns
  import TimerDue

  class TimerQueue {
    var list: seq<Entry>
    var active: set<Key>
    var cancelled: set<Key>
    var calling: bool
    var heap: map<Addr, Timer>
    var pending: set<Addr>
    var created: nat
    var fd: Option<int>
    var armedAt: int
    ghost var oneShots: set<int>
    ghost var runs: multiset<int>
    ghost var freed: multiset<int>

    ghost function State(): TimerSpec.State
      reads this
    {
      TimerSpec.State(list, active, cancelled, calling, heap, pending, created, fd, armedAt, oneShots, runs, freed)
    }

    constructor ()
      ensures State() == INITIAL && Invariant(State())
    {
      list, active, cancelled, calling := [], {}, {}, false;
      heap, pending, created, fd, armedAt := map[], {}, 0, None, 0;
      oneShots, runs, freed := {}, multiset{}, multiset{};
      new;
      InitialInvariant();
    }

    /** new Timer(...) at an address the allocator chose. */
    method NewTimer(a: Addr, when: int, interval: nat, repeat: bool)
      requires a !in heap
      modifies this
      ensures State() == TimerSpec.NewTimer(old(State()), a, when, interval, repeat)
      ensures heap == old(heap)[a := Timer(old(created) + 1, when, interval, repeat)]
    {
      created := created + 1;
      heap := heap[a := Timer(created, when, interval, repeat)];
      pending := pending + {a};
      if !repeat {
        oneShots := oneShots + {created};
      }
    }

    /** AddTimer on the loop thread, in a callback or outside: the handle returned carries no sequence
        number. */
    method AddTimer(a: Addr, when: int, interval: nat, repeat: bool, time: int,
                    ghost batch: seq<Entry>, ghost n: nat) returns (id: Key)
      requires WellFormed(State(), batch, n) && a !in heap
      modifies this
      ensures State() == Do(Do(old(State()), New(a, when, interval, repeat)), Add(a, time))
      ensures WellFormed(State(), batch, n)
      ensures old(Invariant(State())) ==> Invariant(State())
      ensures forall e :: e in list <==> e in old(list) || e == Entry(when, a)
      ensures heap == old(heap)[a := Timer(old(created) + 1, when, interval, repeat)]
      ensures id == Key(a, 0)
    {
      hide WellFormed, Invariant, TimerSpec.NewTimer;
      TimerDue.AddedScheduled(State(), batch, n, a, when, interval, repeat, time);
      ghost var s := State();
      AddTimerKeeps(s, batch, n, a, when, interval, repeat, time);
      NewTimer(a, when, interval, repeat);
      PendingReady(State(), batch, n, a);
      AddTimerInLoop(a, time);
      id := Key(a, 0);
    }

    method ResetTimerFd(when: int, time: int)
      modifies this`fd, this`armedAt
      ensures State() == Arm(old(State()), when, time)
    {
      var (sec, nsec) := HowMuchTimeFromNow(when, time);
      fd, armedAt := Some(time + sec * MICRO_SECOND_PER_SECOND + nsec / 1000), time;
    }

    /** Enters a timer into both sets; true when it is now the earliest. */
    method Insert(a: Addr) returns (earliestChanged: bool)
      requires Indexed(State()) && a in heap && KeyOf(State(), a) !in active
      modifies this`list, this`active
      ensures State() == TimerSpec.Insert(old(State()), a)
      ensures earliestChanged == EarliestChanges(old(State()), a)
    {
      hide InsertSorted, Sorted;
      ghost var s := State();
      SameSize(s);
      assert |list| == |active|;
      InsertIndexed(s, a);
      SameSize(TimerSpec.Insert(s, a));
      var timer := heap[a];
      earliestChanged := |list| == 0 || timer.expiration < list[0].when;
      var entry, key := Entry(timer.expiration, a), Key(a, timer.sequence);
      assert entry !in list && key !in active;  // both insertions succeed
      list := InsertSorted(list, entry);
      active := active + {key};
      assert |list| == |active|;
    }

    method AddTimerInLoop(a: Addr, time: int)
      requires Indexed(State()) && a in heap && KeyOf(State(), a) !in active
      modifies this
      ensures State() == TimerSpec.AddTimerInLoop(old(State()), a, time)
    {
      hide InsertSorted, Indexed;
      var expiration := heap[a].expiration;
      var earliestChanged := Insert(a);
      pending := pending - {a};
      if earliestChanged {
        ResetTimerFd(expiration, time);
      }
    }

    method Free(a: Addr)
      requires a in heap
      modifies this`heap, this`freed
      ensures State() == TimerSpec.Free(old(State()), a)
    {
      freed := freed + multiset{heap[a].sequence};
      heap := heap - {a};
    }

    method CancelInLoop(k: Key)
      requires Indexed(State())
      modifies this
      ensures State() == TimerSpec.CancelInLoop(old(State()), k)
    {
      hide Erase, Sorted;
      ghost var s := State();
      SameSize(s);
      assert |list| == |active|;
      if k in active {
        assert k.addr in heap && heap[k.addr] == At(s, k.addr);
        var entry := Entry(heap[k.addr].expiration, k.addr);
        assert entry in list;  // exactly one entry is erased
        list := Erase(list, entry);
        Free(k.addr);
        active := active - {k};
      } else if calling {
        cancelled := cancelled + {k};
      }
    }

    /** Takes the timers due by now out of both sets, in order. */
    method GetExpired(now: int) returns (expired: seq<Entry>)
      requires Indexed(State())
      modifies this`list, this`active
      ensures State() == TimerSpec.GetExpired(old(State()), now)
      ensures expired == Expired(old(State()), now)
    {
      hide Sorted, LowerBound, KeysOf;
      ghost var s := State();
      SameSize(s);
      assert |list| == |active|;
      var n := LowerBound(list, now, UINTPTR_MAX);
      ExpiredSplits(s, now);
      assert n < |list| ==> list[n] in list[n..] && now < list[n].when;
      expired := list[..n];
      assert expired == Expired(s, now);
      assert forall e :: e in expired ==> e in s.list;
      hide Expired, Indexed;
      list := list[n..];
      DeactivateAll(expired);
      KeysOfSame(s, State(), expired);
    }

    /** Takes the timers of a batch out of the active set, one at a time. */
    method DeactivateAll(expired: seq<Entry>)
      requires forall e :: e in expired ==> e.addr in heap
      modifies this`active
      ensures active == old(active) - KeysOf(State(), expired)
      ensures State() == old(State()).(active := active)
    {
      ghost var s := State();
      var i := 0;
      assert KeysOf(s, expired[..0]) == {};
      while i < |expired|
        invariant 0 <= i <= |expired|
        invariant active == s.active - KeysOf(s, expired[..i])
        modifies this`active
      {
        assert expired[i] in expired;
        assert expired[..i + 1] == expired[..i] + [expired[i]];
        KeysOfNext(s, expired[..i], expired[i]);
        active := active - {Key(expired[i].addr, heap[expired[i].addr].sequence)};
        i := i + 1;
      }
      assert expired[..i] == expired;
      KeysOfSame(s, State(), expired);
    }

    /** What a callback does to the queue. */
    method Callback(ops: seq<Op>, ghost batch: seq<Entry>, ghost n: nat)
      requires WellFormed(State(), batch, n) && AllLegal(State(), ops)
      modifies this
      ensures State() == DoAll(old(State()), ops)
      ensures WellFormed(State(), batch, n)
    {
      hide WellFormed, TimerSpec.NewTimer, TimerSpec.AddTimerInLoop, TimerSpec.CancelInLoop, Indexed;
      ghost var s := State();
      var i := 0;
      assert ops[0..] == ops;
      while i < |ops|
        invariant 0 <= i <= |ops|
        invariant WellFormed(State(), batch, n) && AllLegal(State(), ops[i..])
        invariant DoAll(State(), ops[i..]) == DoAll(s, ops)
      {
        assert ops[i..][0] == ops[i] && ops[i..][1..] == ops[i + 1..];
        DoOk(State(), batch, n, ops[i]);
        IndexedPart(State(), batch, n);
        match ops[i] {
          case New(a, when, interval, repeat) => NewTimer(a, when, interval, repeat);
          case Add(a, time) =>
            PendingReady(State(), batch, n, a);
            AddTimerInLoop(a, time);
          case Cancel(k) => CancelInLoop(k);
        }
        i := i + 1;
      }
    }

    /** Restarts a timer that was run, or frees it. */
    method ResetOne(e: Entry, now: int)
      requires Indexed(State()) && e.addr in heap && KeyOf(State(), e.addr) !in active
      modifies this
      ensures State() == TimerSpec.ResetOne(old(State()), e, now)
    {
      hide InsertSorted, TimerSpec.Insert, Indexed;
      var a := e.addr;
      var timer := heap[a];
      if timer.repeat && Key(a, timer.sequence) !in cancelled {
        ghost var before := State();
        heap := heap[a := timer.(expiration := now + timer.interval)];
        RestartReady(before, State(), a);
        var _ := Insert(a);
      } else {
        Free(a);
      }
    }

    /** Restarts the repeating timers that were not cancelled, frees the others, and arms the
        timerfd for the earliest one left. */
    method Reset(expired: seq<Entry>, now: int, time: int)
      requires WellFormed(State(), expired, |expired|)
      modifies this
      ensures State() == TimerSpec.Reset(old(State()), expired, now, time)
    {
      hide WellFormed, TimerSpec.ResetOne, Indexed;
      ghost var s := State();
      var i := 0;
      assert expired[0..] == expired;
      while i < |expired|
        invariant 0 <= i <= |expired|
        invariant WellFormed(State(), expired[i..], |expired| - i)
        invariant ResetAll(State(), expired[i..], now) == ResetAll(s, expired, now)
      {
        ghost var rest := expired[i..];
        assert rest[0] == expired[i] && rest[1..] == expired[i + 1..];
        ResetOneOk(State(), rest, now);
        BatchReady(State(), rest);
        ResetOne(expired[i], now);
        i := i + 1;
      }
      assert expired[i..] == [];
      IndexedPart(State(), [], 0);
      if |list| > 0 {
        FirstLive(State());
        var nextExpired := heap[list[0].addr].expiration;
        if nextExpired > 0 {
          ResetTimerFd(nextExpired, time);
        }
      }
    }

    method HandleRead(now: int, script: seq<seq<Op>>, time: int)
      requires Invariant(State()) && EventLegal(State(), Wakeup(now, script, time))
      modifies this
      ensures State() == TimerSpec.HandleRead(old(State()), now, script, time)
      ensures Invariant(State())
    {
      hide WellFormed, Indexed, ArmedInTime, TimerSpec.GetExpired, RunBatch, BatchLegal, TimerSpec.Reset;
      ghost var s := State();
      HandleKeeps(s, Wakeup(now, script, time));
      StartCallingOk(s, now);
      fd := None;
      IndexedPart(s, [], 0);
      IndexedDependsOn(s, State());
      var expired := GetExpired(now);
      calling, cancelled := true, {};
      assert State() == StartCalling(s, now);
      RunExpired(expired, script);
      ghost var called := State();
      calling := false;
      SameWellFormed(called, State(), expired, |expired|);
      Reset(expired, now, time);
    }

    /** Runs the timers of the batch in order; their callbacks use the queue as they please. */
    method RunExpired(expired: seq<Entry>, script: seq<seq<Op>>)
      requires WellFormed(State(), expired, 0) && BatchLegal(State(), expired, script)
      modifies this
      ensures State() == RunBatch(old(State()), expired, script)
      ensures WellFormed(State(), expired, |expired|)
    {
      hide WellFormed, DoAll, AllLegal;
      ghost var s0 := State();
      var i, rest := 0, script;
      assert expired[0..] == expired;
      while i < |expired|
        invariant 0 <= i <= |expired|
        invariant WellFormed(State(), expired, i)
        invariant BatchLegal(State(), expired[i..], rest)
        invariant RunBatch(State(), expired[i..], rest) == RunBatch(s0, expired, script)
      {
        assert expired[i..][0] == expired[i] && expired[i..][1..] == expired[i + 1..];
        RunOneOk(State(), expired, i);
        BatchMember(State(), expired, i);
        runs := runs + multiset{heap[expired[i].addr].sequence};
        Callback(Script(rest), expired, i + 1);
        rest := Rest(rest);
        i := i + 1;
      }
      assert expired[i..] == [];
    }

    /** The event loop over any sequence of events. */
    method Loop(evs: seq<Event>)
      requires Invariant(State()) && RunLegal(State(), evs)
      modifies this
      ensures State() == HandleAll(old(State()), evs) && Invariant(State())
    {
      hide Invariant, WellFormed, TimerSpec.HandleRead, BatchLegal;
      ghost var s := State();
      var i := 0;
      assert evs[0..] == evs;
      while i < |evs|
        invariant 0 <= i <= |evs|
        invariant Invariant(State()) && RunLegal(State(), evs[i..])
        invariant HandleAll(State(), evs[i..]) == HandleAll(s, evs)
      {
        assert evs[i..][0] == evs[i] && evs[i..][1..] == evs[i + 1..];
        HandleKeeps(State(), evs[i]);
        match evs[i] {
          case Request(op) =>
            InvariantPart(State());
            OneOp(State(), op);
            Callback([op], [], 0);
          case Wakeup(now, script, time) => HandleRead(now, script, time);
        }
        i := i + 1;
      }
      assert evs[i..] == [];
    }
  }

  // ---------------------------------------------------------------- facts the methods use

  lemma KeysOfNext(s: State, front: seq<Entry>, e: Entry)
    ensures KeysOf(s, front + [e]) == KeysOf(s, front) + {KeyOf(s, e.addr)}
  {
    var all := front + [e];
    assert forall i :: 0 <= i < |front| ==> all[i] == front[i];
    assert all[|front|] == e;
  }

  lemma KeysOfSame(s: State, r: State, batch: seq<Entry>)
    requires r.heap == s.heap
    ensures KeysOf(r, batch) == KeysOf(s, batch)
  {
    assert forall a :: KeyOf(r, a) == KeyOf(s, a);
  }

  lemma AddTimerKeeps(s: State, batch: seq<Entry>, n: nat, a: Addr, when: int, interval: nat, repeat: bool, time: int)
    requires WellFormed(s, batch, n) && a !in s.heap
    ensures var s1 := Do(s, New(a, when, interval, repeat));
            var s2 := Do(s1, Add(a, time));
            && a in s1.pending && WellFormed(s1, batch, n) && WellFormed(s2, batch, n)
            && (Invariant(s) ==> Invariant(s2))
  {
    var s1 := Do(s, New(a, when, interval, repeat));
    assert a in s1.pending;
    hide WellFormed, Invariant, TimerSpec.NewTimer, TimerSpec.AddTimerInLoop;
    DoOk(s, batch, n, New(a, when, interval, repeat));
    DoOk(s1, batch, n, Add(a, time));
    if Invariant(s) {
      HandleKeeps(s, Request(New(a, when, interval, repeat)));
      HandleKeeps(s1, Request(Add(a, time)));
    }
  }

  lemma InvariantPart(s: State)
    requires Invariant(s)
    ensures WellFormed(s, [], 0)
  {
  }

  lemma OneOp(s: State, op: Op)
    requires Legal(s, op)
    ensures AllLegal(s, [op]) && DoAll(s, [op]) == Do(s, op)
  {
    hide Do, Legal;
    assert [op][1..] == [];
  }

  lemma PendingReady(s: State, batch: seq<Entry>, n: nat, a: Addr)
    requires WellFormed(s, batch, n) && a in s.pending
    ensures Indexed(s) && a in s.heap && KeyOf(s, a) !in s.active
  {
  }

  lemma BatchReady(s: State, batch: seq<Entry>)
    requires WellFormed(s, batch, |batch|) && |batch| >= 1
    ensures Indexed(s) && batch[0].addr in s.heap && KeyOf(s, batch[0].addr) !in s.active
  {
  }

  lemma BatchMember(s: State, batch: seq<Entry>, i: nat)
    requires WellFormed(s, batch, i) && i < |batch|
    ensures batch[i].addr in s.heap
  {
  }

  lemma RestartReady(s: State, r: State, a: Addr)
    requires Indexed(s) && a in s.heap && KeyOf(s, a) !in s.active
    requires exists when :: r == s.(heap := s.heap[a := s.heap[a].(expiration := when)])
    ensures Indexed(r) && a in r.heap && KeyOf(r, a) !in r.active
  {
    hide Indexed;
    assert forall b :: b != a ==> At(r, b) == At(s, b);
    DetachedIndexed(s, r, a);
  }

  lemma FirstLive(s: State)
    requires Indexed(s) && |s.list| > 0
    ensures s.list[0].addr in s.heap
  {
    assert s.list[0] in s.list;
  }
}
