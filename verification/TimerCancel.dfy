/** What a cancellation means for the rest of every run: once it has taken effect the timer is never
    run again, and inside a batch it takes effect only after the timers of that batch were run. */
module TimerCancel {
  import opened Wrappers
  import opened TimerSpec
  import opened TimerProofs
  import opened TimerRuns
  import opened TimerBatch

  // ---------------------------------------------------------------- freed timers do not run

  /** The timer with sequence x is gone, and has been run as often before as after. */
  ghost predicate StaysGone(s: State, r: State, x: int) {
    x in r.freed && r.runs[x] == s.runs[x]
  }

  lemma DoGone(s: State, op: Op, x: int)
    requires x in s.freed
    ensures StaysGone(s, Do(s, op), x) && Do(s, op).runs == s.runs
  {
    hide InsertSorted, Erase;
  }

  lemma {:induction false} DoAllGone(s: State, ops: seq<Op>, x: int)
    requires x in s.freed
    ensures StaysGone(s, DoAll(s, ops), x)
    decreases |ops|
  {
    hide Do;
    if |ops| > 0 {
      DoGone(s, ops[0], x);
      DoAllGone(Do(s, ops[0]), ops[1..], x);
    }
  }

  /** The timers of a batch are allocated, so no freed one is among them. */
  lemma RunOneGone(s: State, batch: seq<Entry>, n: nat, x: int)
    requires WellFormed(s, batch, n) && n < |batch| && x in s.freed
    ensures StaysGone(s, RunOne(s, batch[n]), x)
  {
    hide Indexed, RunOnce;
    assert batch[n].addr in s.heap && s.heap[batch[n].addr].sequence !in s.freed;
  }

  lemma {:induction false} RunBatchGone(s: State, batch: seq<Entry>, n: nat, script: seq<seq<Op>>, x: int)
    requires WellFormed(s, batch, n) && BatchLegal(s, batch[n..], script) && x in s.freed && n <= |batch|
    ensures StaysGone(s, RunBatch(s, batch[n..], script), x)
    decreases |batch| - n
  {
    hide WellFormed, DoAll, AllLegal, RunOne;
    if n < |batch| {
      assert batch[n..][0] == batch[n] && batch[n..][1..] == batch[n + 1..];
      var s1 := RunOne(s, batch[n]);
      RunOneOk(s, batch, n);
      RunOneGone(s, batch, n, x);
      DoAllOk(s1, batch, n + 1, Script(script));
      DoAllGone(s1, Script(script), x);
      RunBatchGone(DoAll(s1, Script(script)), batch, n + 1, Rest(script), x);
    } else {
      assert batch[n..] == [];
    }
  }

  lemma {:induction false} ResetAllGone(s: State, batch: seq<Entry>, now: int, x: int)
    requires x in s.freed
    ensures StaysGone(s, ResetAll(s, batch, now), x)
    decreases |batch|
  {
    if |batch| > 0 {
      var t := ResetOne(s, batch[0], now);
      assert x in t.freed && t.runs == s.runs by {
        hide InsertSorted;
      }
      hide ResetOne;
      ResetAllGone(t, batch[1..], now, x);
    }
  }

  /** The timers are in order between two events. */
  ghost predicate Settling(s: State) {
    WellFormed(s, [], 0) && !s.calling
  }

  lemma HandleSettling(s: State, ev: Event)
    requires Settling(s) && EventLegal(s, ev)
    ensures Settling(Handle(s, ev))
  {
    hide WellFormed, HandleRead, BatchLegal;
    match ev
    case Request(op) => DoOk(s, [], 0, op);
    case Wakeup(now, script, time) => HandleReadOk(s, now, script, time);
  }

  lemma HandleGone(s: State, ev: Event, x: int)
    requires Settling(s) && EventLegal(s, ev) && x in s.freed
    ensures StaysGone(s, Handle(s, ev), x)
  {
    hide RunBatch, BatchLegal, ResetAll, WellFormed;
    match ev
    case Request(op) => DoGone(s, op, x);
    case Wakeup(now, script, time) =>
      var batch, s0 := Expired(s, now), StartCalling(s, now);
      StartCallingOk(s, now);
      assert batch[0..] == batch;
      RunBatchGone(s0, batch, 0, script, x);
      var called := RunBatch(s0, batch, script);
      ResetAllGone(called.(calling := false), batch, now, x);
  }

  /** A timer that was freed, by a cancellation or otherwise, is never run again: in no later event and
      in no callback of one. */
  lemma {:induction false} FreedNeverRuns(s: State, evs: seq<Event>, x: int)
    requires Settling(s) && RunLegal(s, evs) && x in s.freed
    ensures StaysGone(s, HandleAll(s, evs), x)
    decreases |evs|
  {
    hide Settling, Handle, EventLegal;
    if |evs| > 0 {
      HandleSettling(s, evs[0]);
      HandleGone(s, evs[0], x);
      FreedNeverRuns(Handle(s, evs[0]), evs[1..], x);
    }
  }

  /** So a scheduled timer cancelled between wakeups has been run for the last time. */
  lemma CancelledNeverRuns(s: State, k: Key, evs: seq<Event>)
    requires Settling(s) && k in s.active && RunLegal(CancelInLoop(s, k), evs)
    ensures HandleAll(CancelInLoop(s, k), evs).runs[k.sequence] == s.runs[k.sequence]
  {
    CancelFrees(s, [], 0, k);
    assert EventLegal(s, Request(Cancel(k)));
    HandleSettling(s, Request(Cancel(k)));
    assert Handle(s, Request(Cancel(k))) == CancelInLoop(s, k);
    hide Settling, CancelInLoop;
    FreedNeverRuns(CancelInLoop(s, k), evs, k.sequence);
  }

  lemma CancelFrees(s: State, batch: seq<Entry>, n: nat, k: Key)
    requires WellFormed(s, batch, n) && k in s.active
    ensures k.sequence in CancelInLoop(s, k).freed && CancelInLoop(s, k).runs == s.runs
  {
    hide Numbered, RunOnce, Placed, Sorted, Erase;
    assert k == KeyOf(s, k.addr);
  }

  // ---------------------------------------------------------------- cancelling inside a batch

  /** A timer of the batch being run, which a callback has cancelled. */
  ghost predicate Doomed(s: State, k: Key) {
    && k.addr in s.heap && k == KeyOf(s, k.addr)
    && k !in s.active && k.addr !in s.pending
    && k in s.cancelled && s.calling
  }

  lemma DoDoomed(s: State, batch: seq<Entry>, n: nat, op: Op, k: Key)
    requires WellFormed(s, batch, n) && Legal(s, op) && Doomed(s, k)
    ensures Doomed(Do(s, op), k) && Do(s, op).runs == s.runs
  {
    hide Numbered, RunOnce, Sorted, InsertSorted, Erase;
  }

  lemma {:induction false} DoAllDoomed(s: State, batch: seq<Entry>, n: nat, ops: seq<Op>, k: Key)
    requires WellFormed(s, batch, n) && AllLegal(s, ops) && Doomed(s, k)
    ensures Doomed(DoAll(s, ops), k) && DoAll(s, ops).runs == s.runs
    decreases |ops|
  {
    hide WellFormed, Do, Legal, Doomed;
    if |ops| > 0 {
      DoOk(s, batch, n, ops[0]);
      DoDoomed(s, batch, n, ops[0], k);
      DoAllDoomed(Do(s, ops[0]), batch, n, ops[1..], k);
    }
  }

  /** The timer at a is still to be run in this batch, whose next timer is the one at position n. */
  ghost predicate Ahead(batch: seq<Entry>, n: nat, a: Addr) {
    exists j :: n <= j < |batch| && batch[j].addr == a
  }

  lemma RunOneDoomed(s: State, batch: seq<Entry>, n: nat, k: Key)
    requires WellFormed(s, batch, n) && n < |batch| && Doomed(s, k)
    ensures Doomed(RunOne(s, batch[n]), k)
    ensures RunOne(s, batch[n]).runs[k.sequence] == s.runs[k.sequence] + if batch[n].addr == k.addr then 1 else 0
  {
    hide Indexed, RunOnce;
    var a := batch[n].addr;
    assert a in s.heap && At(s, a) == s.heap[a] && At(s, k.addr) == s.heap[k.addr];
    assert a != k.addr ==> s.heap[a].sequence != s.heap[k.addr].sequence;
  }

  lemma AheadStep(s: State, batch: seq<Entry>, n: nat, a: Addr)
    requires Placed(s, batch) && n < |batch|
    ensures Ahead(batch, n, a) <==> batch[n].addr == a || Ahead(batch, n + 1, a)
    ensures batch[n].addr == a ==> !Ahead(batch, n + 1, a)
  {
    if batch[n].addr == a {
      assert Ahead(batch, n, a);
    }
    if Ahead(batch, n + 1, a) {
      var j :| n + 1 <= j < |batch| && batch[j].addr == a;
      assert n <= j;
    }
  }

  lemma {:induction false} RunBatchDoomed(s: State, batch: seq<Entry>, n: nat, script: seq<seq<Op>>, k: Key)
    requires WellFormed(s, batch, n) && n <= |batch| && BatchLegal(s, batch[n..], script) && Doomed(s, k)
    ensures var r := RunBatch(s, batch[n..], script);
            && Doomed(r, k)
            && r.runs[k.sequence] == s.runs[k.sequence] + if Ahead(batch, n, k.addr) then 1 else 0
    decreases |batch| - n
  {
    if n < |batch| {
      assert batch[n..][0] == batch[n] && batch[n..][1..] == batch[n + 1..];
      var s1 := RunOne(s, batch[n]);
      AheadStep(s, batch, n, k.addr);
      RunOneOk(s, batch, n);
      RunOneDoomed(s, batch, n, k);
      hide WellFormed, DoAll, AllLegal, Doomed, Ahead, RunOne;
      DoAllOk(s1, batch, n + 1, Script(script));
      DoAllDoomed(s1, batch, n + 1, Script(script), k);
      RunBatchDoomed(DoAll(s1, Script(script)), batch, n + 1, Rest(script), k);
    } else {
      assert batch[n..] == [];
    }
  }

  /** The rest of a wakeup from within a callback of the batch's timer n - 1: what that callback still
      does, the callbacks that follow, and the reset. */
  ghost function RestOfWakeup(s: State, batch: seq<Entry>, n: nat, ops: seq<Op>, script: seq<seq<Op>>,
                              now: int, time: int): State
    requires n <= |batch|
  {
    Reset(RunBatch(DoAll(s, ops), batch[n..], script).(calling := false), batch, now, time)
  }

  /** It is the rest of a wakeup: it starts as the wakeup itself, and each operation of a callback and each
      call of one takes it forward. */
  lemma RestOfWakeupSteps(s: State, batch: seq<Entry>, n: nat, op: Op, ops: seq<Op>, script: seq<seq<Op>>,
                          now: int, time: int)
    requires n < |batch|
    ensures HandleRead(s, now, script, time) ==
            RestOfWakeup(StartCalling(s, now), Expired(s, now), 0, [], script, now, time)
    ensures RestOfWakeup(s, batch, n, [op] + ops, script, now, time) ==
            RestOfWakeup(Do(s, op), batch, n, ops, script, now, time)
    ensures RestOfWakeup(s, batch, n, [], script, now, time) ==
            RestOfWakeup(RunOne(s, batch[n]), batch, n + 1, Script(script), Rest(script), now, time)
  {
    assert ([op] + ops)[1..] == ops;
    assert batch[n..][1..] == batch[n + 1..];
    assert Expired(s, now)[0..] == Expired(s, now);
    hide Reset, Do, StartCalling, Expired;
  }

  lemma CancelDooms(s: State, batch: seq<Entry>, n: nat, k: Key)
    requires WellFormed(s, batch, n) && s.calling
    requires k.addr in s.heap && k == KeyOf(s, k.addr) && k !in s.active && k.addr !in s.pending
    ensures Doomed(CancelInLoop(s, k), k) && CancelInLoop(s, k).runs == s.runs
    ensures exists i :: 0 <= i < |batch| && batch[i].addr == k.addr
  {
  }

  lemma SettledCancelled(s: State, r: State, k: Key, now: int)
    requires Settled(s, r, k.addr, now) && k == KeyOf(s, k.addr) && k in s.cancelled
    ensures k.sequence in r.freed
  {
  }

  /** A doomed timer is freed by the reset that ends the wakeup. */
  lemma DoomedFreed(s: State, batch: seq<Entry>, now: int, time: int, k: Key, i: nat)
    requires WellFormed(s, batch, |batch|) && Doomed(s, k) && i < |batch| && batch[i].addr == k.addr
    ensures var r := Reset(s.(calling := false), batch, now, time);
            k.sequence in r.freed && r.runs == s.runs
  {
    var c := s.(calling := false);
    assert k in c.cancelled && k == KeyOf(c, k.addr);
    hide WellFormed, ResetAll, Reset, Doomed, Settled, KeyOf;
    SameWellFormed(s, c, batch, |batch|);
    BatchOutcome(c, batch, now, i);
    SettledCancelled(c, ResetAll(c, batch, now), k, now);
    ResetAllRuns(c, batch, now);
    ResetFreed(c, batch, now, time);
  }

  lemma ResetFreed(s: State, batch: seq<Entry>, now: int, time: int)
    ensures Reset(s, batch, now, time).freed == ResetAll(s, batch, now).freed
    ensures Reset(s, batch, now, time).runs == ResetAll(s, batch, now).runs
  {
    hide ResetAll;
  }

  lemma ResetSettles(s: State, batch: seq<Entry>, now: int, time: int)
    requires WellFormed(s, batch, |batch|)
    ensures Settling(Reset(s.(calling := false), batch, now, time))
  {
    var c := s.(calling := false);
    SameWellFormed(s, c, batch, |batch|);
    ResetAllOk(c, batch, now);
    ResetAllCalling(c, batch, now);
    var r := ResetAll(c, batch, now);
    hide WellFormed, ResetAll;
    SameWellFormed(r, Reset(c, batch, now, time), [], 0);
  }

  lemma {:induction false} ResetAllCalling(s: State, batch: seq<Entry>, now: int)
    ensures ResetAll(s, batch, now).calling == s.calling
    decreases |batch|
  {
    if |batch| > 0 {
      var t := ResetOne(s, batch[0], now);
      assert t.calling == s.calling by {
        hide InsertSorted;
      }
      hide ResetOne;
      ResetAllCalling(t, batch[1..], now);
    }
  }

  /** The rest of a wakeup ends with the timers in order. */
  lemma RestSettles(s: State, batch: seq<Entry>, n: nat, ops: seq<Op>, script: seq<seq<Op>>, now: int, time: int)
    requires WellFormed(s, batch, n) && n <= |batch|
    requires AllLegal(s, ops) && BatchLegal(DoAll(s, ops), batch[n..], script)
    ensures Settling(RestOfWakeup(s, batch, n, ops, script, now, time))
    ensures WellFormed(DoAll(s, ops), batch, n)
    ensures WellFormed(RunBatch(DoAll(s, ops), batch[n..], script), batch, |batch|)
  {
    hide WellFormed, DoAll, AllLegal, RunBatch, BatchLegal, Reset, Settling;
    DoAllOk(s, batch, n, ops);
    RunBatchOk(DoAll(s, ops), batch, n, script);
    ResetSettles(RunBatch(DoAll(s, ops), batch[n..], script), batch, now, time);
  }

  /** Cancelled by a callback while scheduled: freed at once. */
  lemma RestGone(s: State, batch: seq<Entry>, n: nat, ops: seq<Op>, script: seq<seq<Op>>, now: int, time: int, x: int)
    requires WellFormed(s, batch, n) && n <= |batch|
    requires AllLegal(s, ops) && BatchLegal(DoAll(s, ops), batch[n..], script) && x in s.freed
    ensures StaysGone(s, RestOfWakeup(s, batch, n, ops, script, now, time), x)
  {
    RestSettles(s, batch, n, ops, script, now, time);
    hide WellFormed, DoAll, AllLegal, RunBatch, BatchLegal, ResetAll;
    DoAllGone(s, ops, x);
    RunBatchGone(DoAll(s, ops), batch, n, script, x);
    var called := RunBatch(DoAll(s, ops), batch[n..], script);
    ResetAllGone(called.(calling := false), batch, now, x);
  }

  /** Cancelled by a callback while in the batch: freed by the reset, and run before that if its turn is
      still to come. */
  lemma RestDoomed(s: State, batch: seq<Entry>, n: nat, ops: seq<Op>, script: seq<seq<Op>>, now: int, time: int,
                   k: Key, i: nat)
    requires WellFormed(s, batch, n) && n <= |batch|
    requires AllLegal(s, ops) && BatchLegal(DoAll(s, ops), batch[n..], script)
    requires Doomed(s, k) && i < |batch| && batch[i].addr == k.addr
    ensures var r := RestOfWakeup(s, batch, n, ops, script, now, time);
            && k.sequence in r.freed
            && r.runs[k.sequence] == s.runs[k.sequence] + if Ahead(batch, n, k.addr) then 1 else 0
  {
    RestSettles(s, batch, n, ops, script, now, time);
    hide WellFormed, DoAll, AllLegal, RunBatch, BatchLegal, Reset, Doomed, Ahead;
    DoAllDoomed(s, batch, n, ops, k);
    RunBatchDoomed(DoAll(s, ops), batch, n, script, k);
    DoomedFreed(RunBatch(DoAll(s, ops), batch[n..], script), batch, now, time, k, i);
  }

  lemma ActiveNotAhead(s: State, batch: seq<Entry>, n: nat, k: Key)
    requires WellFormed(s, batch, n) && k in s.active
    ensures !Ahead(batch, n, k.addr)
  {
    hide Numbered, RunOnce, Sorted;
    assert k == KeyOf(s, k.addr);
  }

  /** Exactly when a timer still runs after a callback cancelled it, whatever this and later callbacks do and
      whatever happens after the wakeup: once more if its turn in the batch being run is still to come, and
      otherwise never. */
  lemma CancelInBatch(s: State, batch: seq<Entry>, n: nat, k: Key, ops: seq<Op>, script: seq<seq<Op>>,
                      now: int, time: int, evs: seq<Event>)
    requires WellFormed(s, batch, n) && n <= |batch| && s.calling
    requires k.addr in s.heap && k == KeyOf(s, k.addr) && k.addr !in s.pending
    requires AllLegal(CancelInLoop(s, k), ops)
    requires BatchLegal(DoAll(CancelInLoop(s, k), ops), batch[n..], script)
    requires RunLegal(RestOfWakeup(CancelInLoop(s, k), batch, n, ops, script, now, time), evs)
    ensures var r := RestOfWakeup(CancelInLoop(s, k), batch, n, ops, script, now, time);
            HandleAll(r, evs).runs[k.sequence] == s.runs[k.sequence] + if Ahead(batch, n, k.addr) then 1 else 0
  {
    var c := CancelInLoop(s, k);
    CancelOk(s, batch, n, k);
    RestSettles(c, batch, n, ops, script, now, time);
    if k in s.active {
      CancelFrees(s, batch, n, k);
      ActiveNotAhead(s, batch, n, k);
      hide *;
      RestGone(c, batch, n, ops, script, now, time, k.sequence);
      FreedNeverRuns(RestOfWakeup(c, batch, n, ops, script, now, time), evs, k.sequence);
      hide StaysGone;
    } else {
      CancelDooms(s, batch, n, k);
      var i: nat :| i < |batch| && batch[i].addr == k.addr;
      hide *;
      RestDoomed(c, batch, n, ops, script, now, time, k, i);
      FreedNeverRuns(RestOfWakeup(c, batch, n, ops, script, now, time), evs, k.sequence);
    }
  }

  // ---------------------------------------------------------------- cancelling too early

  /** The same state, with one more key remembered as cancelled. */
  ghost predicate Plus(s: State, t: State, k: Key) {
    t == s.(cancelled := s.cancelled + {k})
  }

  lemma DoPlus(s: State, t: State, op: Op, k: Key)
    requires Plus(s, t, k)
    ensures Plus(Do(s, op), Do(t, op), k)
  {
    assert forall a :: At(t, a) == At(s, a);
    match op
    case New(_, _, _, _) =>
    case Add(a, time) => AddPlus(s, t, a, time, k);
    case Cancel(c) => CancelPlus(s, t, c, k);
  }

  lemma AddPlus(s: State, t: State, a: Addr, time: int, k: Key)
    requires Plus(s, t, k)
    ensures Plus(AddTimerInLoop(s, a, time), AddTimerInLoop(t, a, time), k)
  {
    assert At(t, a) == At(s, a);
    hide InsertSorted, At;
  }

  lemma CancelPlus(s: State, t: State, c: Key, k: Key)
    requires Plus(s, t, k)
    ensures Plus(CancelInLoop(s, c), CancelInLoop(t, c), k)
  {
    assert At(t, c.addr) == At(s, c.addr);
    hide Erase, At;
    if c !in s.active && s.calling {
      assert (s.cancelled + {k}) + {c} == (s.cancelled + {c}) + {k};
    }
  }

  lemma {:induction false} DoAllPlus(s: State, t: State, ops: seq<Op>, k: Key)
    requires Plus(s, t, k)
    ensures Plus(DoAll(s, ops), DoAll(t, ops), k)
    decreases |ops|
  {
    hide Do, Plus;
    if |ops| > 0 {
      DoPlus(s, t, ops[0], k);
      DoAllPlus(Do(s, ops[0]), Do(t, ops[0]), ops[1..], k);
    } else {
      assert DoAll(s, ops) == s && DoAll(t, ops) == t;
    }
  }

  lemma {:induction false} RunBatchPlus(s: State, t: State, batch: seq<Entry>, script: seq<seq<Op>>, k: Key)
    requires Plus(s, t, k)
    ensures Plus(RunBatch(s, batch, script), RunBatch(t, batch, script), k)
    decreases |batch|
  {
    if |batch| > 0 {
      var s1, t1 := RunOne(s, batch[0]), RunOne(t, batch[0]);
      assert Plus(s1, t1, k);
      hide Plus, DoAll, RunOne;
      DoAllPlus(s1, t1, Script(script), k);
      RunBatchPlus(DoAll(s1, Script(script)), DoAll(t1, Script(script)), batch[1..], Rest(script), k);
    } else {
      assert RunBatch(s, batch, script) == s && RunBatch(t, batch, script) == t;
    }
  }

  /** The timers of a batch lie at different addresses, and none of them has this key. */
  ghost predicate NotAmong(s: State, batch: seq<Entry>, k: Key) {
    && (forall i, j :: 0 <= i < j < |batch| ==> batch[i].addr != batch[j].addr)
    && (forall i :: 0 <= i < |batch| ==> KeyOf(s, batch[i].addr) != k)
  }

  lemma {:induction false} ResetAllPlus(s: State, t: State, batch: seq<Entry>, now: int, k: Key)
    requires Plus(s, t, k) && NotAmong(s, batch, k)
    ensures Plus(ResetAll(s, batch, now), ResetAll(t, batch, now), k)
    decreases |batch|
  {
    if |batch| > 0 {
      var s1, t1 := ResetOne(s, batch[0], now), ResetOne(t, batch[0], now);
      ResetOnePlus(s, t, batch[0], now, k);
      ResetOneNotAmong(s, batch, now, k);
      hide Plus, ResetOne, NotAmong;
      ResetAllPlus(s1, t1, batch[1..], now, k);
    } else {
      assert ResetAll(s, batch, now) == s && ResetAll(t, batch, now) == t;
    }
  }

  lemma ResetOneNotAmong(s: State, batch: seq<Entry>, now: int, k: Key)
    requires |batch| >= 1 && NotAmong(s, batch, k)
    ensures NotAmong(ResetOne(s, batch[0], now), batch[1..], k)
  {
    hide InsertSorted;
  }

  lemma ResetOnePlus(s: State, t: State, e: Entry, now: int, k: Key)
    requires Plus(s, t, k) && KeyOf(s, e.addr) != k
    ensures Plus(ResetOne(s, e, now), ResetOne(t, e, now), k)
  {
    assert At(t, e.addr) == At(s, e.addr);
    hide InsertSorted;
  }

  lemma RestPlus(s: State, t: State, batch: seq<Entry>, n: nat, ops: seq<Op>, script: seq<seq<Op>>,
                 now: int, time: int, k: Key)
    requires Plus(s, t, k) && n <= |batch| && NotAmong(RunBatch(DoAll(s, ops), batch[n..], script), batch, k)
    ensures Plus(RestOfWakeup(s, batch, n, ops, script, now, time),
                 RestOfWakeup(t, batch, n, ops, script, now, time), k)
  {
    hide DoAll, RunBatch, ResetAll;
    DoAllPlus(s, t, ops, k);
    RunBatchPlus(DoAll(s, ops), DoAll(t, ops), batch[n..], script, k);
    var u, v := RunBatch(DoAll(s, ops), batch[n..], script), RunBatch(DoAll(t, ops), batch[n..], script);
    assert NotAmong(u.(calling := false), batch, k);
    ResetAllPlus(u.(calling := false), v.(calling := false), batch, now, k);
  }

  /** The same state apart from what is remembered as cancelled. */
  ghost predicate Alike(s: State, t: State) {
    t == s.(cancelled := t.cancelled)
  }

  lemma AddAlike(s: State, t: State, a: Addr, time: int)
    requires Alike(s, t)
    ensures Alike(AddTimerInLoop(s, a, time), AddTimerInLoop(t, a, time))
  {
    assert At(t, a) == At(s, a);
    hide InsertSorted, At;
  }

  lemma CancelAlike(s: State, t: State, k: Key)
    requires Alike(s, t)
    ensures Alike(CancelInLoop(s, k), CancelInLoop(t, k))
  {
    assert At(t, k.addr) == At(s, k.addr);
    hide Erase, At;
  }

  lemma DoAlike(s: State, t: State, op: Op)
    requires Alike(s, t)
    ensures Alike(Do(s, op), Do(t, op))
  {
    hide AddTimerInLoop, CancelInLoop;
    match op
    case New(_, _, _, _) =>
    case Add(a, time) => AddAlike(s, t, a, time);
    case Cancel(k) => CancelAlike(s, t, k);
  }

  /** The next wakeup forgets what was remembered. */
  lemma StartAlike(s: State, t: State, now: int)
    requires Alike(s, t)
    ensures StartCalling(s, now) == StartCalling(t, now) && Expired(s, now) == Expired(t, now)
  {
    hide LowerBound;
    var u, v := s.(fd := None), t.(fd := None);
    assert forall a :: KeyOf(v, a) == KeyOf(u, a);
    assert KeysOf(u, Expired(u, now)) == KeysOf(v, Expired(v, now));
  }

  lemma HandleAlike(s: State, t: State, ev: Event)
    requires Alike(s, t)
    ensures Alike(Handle(s, ev), Handle(t, ev))
  {
    match ev
    case Request(op) => DoAlike(s, t, op);
    case Wakeup(now, script, time) =>
      StartAlike(s, t, now);
      hide StartCalling, RunBatch, Reset, Expired;
  }

  lemma {:induction false} HandleAllAlike(s: State, t: State, evs: seq<Event>)
    requires Alike(s, t)
    ensures Alike(HandleAll(s, evs), HandleAll(t, evs))
    decreases |evs|
  {
    hide Alike, Handle;
    if |evs| > 0 {
      HandleAlike(s, t, evs[0]);
      HandleAllAlike(Handle(s, evs[0]), Handle(t, evs[0]), evs[1..]);
    } else {
      assert HandleAll(s, evs) == s && HandleAll(t, evs) == t;
    }
  }

  /** Whatever follows the rest of the wakeup goes in both states alike. */
  lemma RestAlike(s: State, t: State, batch: seq<Entry>, n: nat, k: Key, ops: seq<Op>, script: seq<seq<Op>>,
                  now: int, time: int, evs: seq<Event>)
    requires n <= |batch| && (t == s || Plus(s, t, k))
    requires NotAmong(RunBatch(DoAll(s, ops), batch[n..], script), batch, k)
    ensures Alike(HandleAll(RestOfWakeup(s, batch, n, ops, script, now, time), evs),
                  HandleAll(RestOfWakeup(t, batch, n, ops, script, now, time), evs))
  {
    var u := RestOfWakeup(s, batch, n, ops, script, now, time);
    var v := RestOfWakeup(t, batch, n, ops, script, now, time);
    hide RestOfWakeup, DoAll, RunBatch, NotAmong;
    if t != s {
      RestPlus(s, t, batch, n, ops, script, now, time, k);
    }
    assert Alike(u, v);
    hide Alike, Plus;
    HandleAllAlike(u, v, evs);
  }

  lemma CancelPlusOrSame(s: State, k: Key)
    requires k !in s.active
    ensures CancelInLoop(s, k) == s || Plus(s, CancelInLoop(s, k), k)
    ensures !s.calling ==> CancelInLoop(s, k) == s
  {
  }

  /** A cancellation that comes before the timer was scheduled is lost: whatever follows goes as if it had
      not been made. */
  lemma TooEarlyIsLost(s: State, batch: seq<Entry>, n: nat, k: Key, ops: seq<Op>, script: seq<seq<Op>>,
                       now: int, time: int, evs: seq<Event>)
    requires WellFormed(s, batch, n) && n <= |batch| && k == KeyOf(s, k.addr) && k.addr in s.pending
    ensures !s.calling ==> CancelInLoop(s, k) == s
    ensures Alike(HandleAll(RestOfWakeup(s, batch, n, ops, script, now, time), evs),
                  HandleAll(RestOfWakeup(CancelInLoop(s, k), batch, n, ops, script, now, time), evs))
  {
    assert k !in s.active && NotAmong(RunBatch(DoAll(s, ops), batch[n..], script), batch, k) by {
      hide Indexed, Numbered, RunOnce, DoAll, RunBatch;
    }
    CancelPlusOrSame(s, k);
    hide WellFormed, CancelInLoop, NotAmong, KeyOf, Plus;
    RestAlike(s, CancelInLoop(s, k), batch, n, k, ops, script, now, time, evs);
  }

  // ---------------------------------------------------------------- cancelling what is not there

  /** The timers of the batch keep their keys through the callbacks. */
  lemma BatchKeysKept(s: State, batch: seq<Entry>, n: nat, ops: seq<Op>, script: seq<seq<Op>>, k: Key)
    requires WellFormed(s, batch, n) && n <= |batch|
    requires AllLegal(s, ops) && BatchLegal(DoAll(s, ops), batch[n..], script)
    requires forall i :: 0 <= i < |batch| ==> KeyOf(s, batch[i].addr) != k
    ensures NotAmong(RunBatch(DoAll(s, ops), batch[n..], script), batch, k)
  {
    assert forall i, j :: 0 <= i < j < |batch| ==> batch[i].addr != batch[j].addr by {
      hide Indexed, Numbered, RunOnce;
    }
    hide WellFormed, DoAll, AllLegal, RunBatch, BatchLegal, At;
    DoAllOk(s, batch, n, ops);
    DoAllKeepsBatch(s, batch, n, ops);
    RunBatchRuns(DoAll(s, ops), batch, n, script);
  }

  /** A key that is neither that of a scheduled timer nor that of one in the batch being run cancels
      nothing: whatever this and later callbacks do and whatever comes after the wakeup goes as if the
      cancellation had not been made. */
  lemma StrayKeyIsLost(s: State, batch: seq<Entry>, n: nat, k: Key, ops: seq<Op>, script: seq<seq<Op>>,
                       now: int, time: int, evs: seq<Event>)
    requires WellFormed(s, batch, n) && n <= |batch|
    requires AllLegal(s, ops) && BatchLegal(DoAll(s, ops), batch[n..], script)
    requires k !in s.active && forall i :: 0 <= i < |batch| ==> KeyOf(s, batch[i].addr) != k
    ensures !s.calling ==> CancelInLoop(s, k) == s
    ensures Alike(HandleAll(RestOfWakeup(s, batch, n, ops, script, now, time), evs),
                  HandleAll(RestOfWakeup(CancelInLoop(s, k), batch, n, ops, script, now, time), evs))
  {
    CancelPlusOrSame(s, k);
    hide WellFormed, DoAll, AllLegal, RunBatch, BatchLegal, CancelInLoop, NotAmong, KeyOf, Plus;
    BatchKeysKept(s, batch, n, ops, script, k);
    RestAlike(s, CancelInLoop(s, k), batch, n, k, ops, script, now, time, evs);
  }

  /** So a key whose timer is gone, the address free or in the hands of another one, cancels nothing. */
  lemma StaleKeyIsLost(s: State, batch: seq<Entry>, n: nat, k: Key, ops: seq<Op>, script: seq<seq<Op>>,
                       now: int, time: int, evs: seq<Event>)
    requires WellFormed(s, batch, n) && n <= |batch| && At(s, k.addr).sequence != k.sequence
    requires AllLegal(s, ops) && BatchLegal(DoAll(s, ops), batch[n..], script)
    ensures !s.calling ==> CancelInLoop(s, k) == s
    ensures Alike(HandleAll(RestOfWakeup(s, batch, n, ops, script, now, time), evs),
                  HandleAll(RestOfWakeup(CancelInLoop(s, k), batch, n, ops, script, now, time), evs))
  {
    assert k !in s.active by {
      hide Placed, Numbered, RunOnce;
    }
    hide WellFormed, DoAll, AllLegal, RunBatch, BatchLegal, CancelInLoop, RestOfWakeup, HandleAll, Alike, At;
    StrayKeyIsLost(s, batch, n, k, ops, script, now, time, evs);
  }

  /** And so does the handle that AddTimer returned, which carries sequence 0, ever. */
  lemma HandleIsLost(s: State, batch: seq<Entry>, n: nat, a: Addr, ops: seq<Op>, script: seq<seq<Op>>,
                     now: int, time: int, evs: seq<Event>)
    requires WellFormed(s, batch, n) && n <= |batch|
    requires AllLegal(s, ops) && BatchLegal(DoAll(s, ops), batch[n..], script)
    ensures !s.calling ==> CancelInLoop(s, Key(a, 0)) == s
    ensures Alike(HandleAll(RestOfWakeup(s, batch, n, ops, script, now, time), evs),
                  HandleAll(RestOfWakeup(CancelInLoop(s, Key(a, 0)), batch, n, ops, script, now, time), evs))
  {
    HandleNowhere(s, batch, n, a);
    hide WellFormed, DoAll, AllLegal, RunBatch, BatchLegal, CancelInLoop, RestOfWakeup, HandleAll, Alike, At;
    StrayKeyIsLost(s, batch, n, Key(a, 0), ops, script, now, time, evs);
  }

  lemma HandleNowhere(s: State, batch: seq<Entry>, n: nat, a: Addr)
    requires WellFormed(s, batch, n)
    ensures Key(a, 0) !in s.active && forall i :: 0 <= i < |batch| ==> KeyOf(s, batch[i].addr) != Key(a, 0)
  {
    hide RunOnce, Sorted, Distinct, Complete, FreedOnce;
    assert forall b :: b in s.heap ==> At(s, b) == s.heap[b] && s.heap[b].sequence >= 1;
  }

  // ---------------------------------------------------------------- a run in which it happens

  const REQUESTS: seq<Event> :=
    [Request(New(1, 5, 0, false)), Request(Add(1, 0)), Request(New(2, 5, 0, false)), Request(Add(2, 0))]

  ghost predicate BothDue(s: State) {
    && s.list == [Entry(5, 1), Entry(5, 2)] && s.active == {Key(1, 1), Key(2, 2)}
    && s.heap == map[1 := Timer(1, 5, 0, false), 2 := Timer(2, 5, 0, false)]
    && s.runs == multiset{}
  }

  /** Two one-shot timers, both due at 5. */
  lemma TwoTimers() returns (s: State)
    ensures RunLegal(INITIAL, REQUESTS) && HandleAll(INITIAL, REQUESTS) == s && BothDue(s)
  {
    var s1 := Handle(INITIAL, REQUESTS[0]);
    var s2 := Handle(s1, REQUESTS[1]);
    assert s2.list == [Entry(5, 1)] && s2.active == {Key(1, 1)} && s2.pending == {};
    var s3 := Handle(s2, REQUESTS[2]);
    assert LowerBound([Entry(5, 1)], 5, 2) == 1 by {
      assert [Entry(5, 1)][1..] == [];
    }
    s := Handle(s3, REQUESTS[3]);
    assert BothDue(s);
    assert Legal(s3, Add(2, 0)) && Legal(s2, New(2, 5, 0, false)) && Legal(s1, Add(1, 0));
    hide Handle, Legal, BothDue, LowerBound;
    var rest := REQUESTS[1..];
    assert rest[1..] == [REQUESTS[2], REQUESTS[3]] && rest[1..][1..] == [REQUESTS[3]] && rest[1..][1..][1..] == [];
    assert RunLegal(s3, rest[1..][1..]) && HandleAll(s3, rest[1..][1..]) == s;
    assert RunLegal(s2, rest[1..]) && HandleAll(s2, rest[1..]) == s;
    assert RunLegal(s1, rest) && HandleAll(s1, rest) == s;
  }

  /** They wake up together. */
  lemma BothStart(s: State)
    requires BothDue(s)
    ensures Expired(s, 5) == [Entry(5, 1), Entry(5, 2)]
    ensures var r := StartCalling(s, 5);
            r.heap == s.heap && r.runs == multiset{} && r.calling && Key(2, 2) !in r.active
  {
    assert LowerBound(s.list, 5, UINTPTR_MAX) == 2 by {
      assert s.list[1..] == [Entry(5, 2)] && s.list[1..][1..] == [];
    }
    var c := s.(fd := None);
    var batch := Expired(c, 5);
    assert batch == [Entry(5, 1), Entry(5, 2)];
    hide LowerBound;
    assert KeyOf(c, batch[1].addr) == Key(2, 2);
    assert Key(2, 2) in KeysOf(c, batch);
  }

  /** The first one's callback cancels the second, which then runs. */
  lemma BothRun(s: State, batch: seq<Entry>, script: seq<seq<Op>>)
    requires s.heap == map[1 := Timer(1, 5, 0, false), 2 := Timer(2, 5, 0, false)]
    requires s.runs == multiset{} && s.calling && Key(2, 2) !in s.active
    requires batch == [Entry(5, 1), Entry(5, 2)] && script == [[Cancel(Key(2, 2))]]
    ensures BatchLegal(s, batch, script) && RunBatch(s, batch, script).runs == multiset{1, 2}
  {
    var s1 := RunOne(s, batch[0]);
    var s2 := Do(s1, Cancel(Key(2, 2)));
    var s3 := RunOne(s2, batch[1]);
    assert s2.heap == s.heap && s2.runs == multiset{1} && s3.runs == multiset{1, 2};
    var rest, later := batch[1..], script[1..];
    assert script[0][1..] == [] && later == [] && rest == [batch[1]] && rest[1..] == [];
    assert Script(script) == script[0] && Rest(script) == later && Script(later) == [] && Rest(later) == later;
    assert AllLegal(s1, Script(script)) && AllLegal(s3, Script(later));
    hide Do, RunOne, Legal;
    assert DoAll(s1, Script(script)) == s2 && DoAll(s3, Script(later)) == s3;
    assert BatchLegal(s3, rest[1..], Rest(later)) && RunBatch(s3, rest[1..], Rest(later)) == s3;
    assert RunBatch(s2, rest, later) == s3;
    assert BatchLegal(s2, rest, later);
  }

  lemma FirstCancelsSecond(s: State) returns (ev: Event)
    requires BothDue(s)
    ensures ev == Wakeup(5, [[Cancel(Key(2, 2))]], 5) && EventLegal(s, ev)
    ensures Handle(s, ev).runs == multiset{1, 2}
  {
    var script := [[Cancel(Key(2, 2))]];
    ev := Wakeup(5, script, 5);
    var s0, batch := StartCalling(s, 5), Expired(s, 5);
    BothStart(s);
    BothRun(s0, batch, script);
    hide BothDue, StartCalling, Expired, RunBatch, BatchLegal, ResetAll;
    ResetAllRuns(RunBatch(s0, batch, script).(calling := false), batch, 5);
  }

  /** A timer cancelled by an earlier callback of its batch runs nevertheless. */
  lemma CancelledTimerRuns() returns (evs: seq<Event>)
    ensures evs == REQUESTS + [Wakeup(5, [[Cancel(Key(2, 2))]], 5)]
    ensures RunLegal(INITIAL, evs) && HandleAll(INITIAL, evs).runs[2] == 1
  {
    var s := TwoTimers();
    var ev := FirstCancelsSecond(s);
    hide Handle, EventLegal;
    evs := REQUESTS + [ev];
    RunThenOne(INITIAL, REQUESTS, ev);
  }

  lemma {:induction false} RunThenOne(s: State, evs: seq<Event>, ev: Event)
    requires RunLegal(s, evs) && EventLegal(HandleAll(s, evs), ev)
    ensures RunLegal(s, evs + [ev]) && HandleAll(s, evs + [ev]) == Handle(HandleAll(s, evs), ev)
    decreases |evs|
  {
    hide Handle, EventLegal;
    if |evs| > 0 {
      assert (evs + [ev])[1..] == evs[1..] + [ev];
      RunThenOne(Handle(s, evs[0]), evs[1..], ev);
    } else {
      assert (evs + [ev])[1..] == [];
    }
  }
}
