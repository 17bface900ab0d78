/** When a timer that was added runs: not before its time, and at the first wakeup from then on, unless it is
    cancelled. */
module TimerDue {
  import opened Wrappers
  import opened TimerSpec
  import opened TimerProofs
  import opened TimerRuns
  import opened TimerBatch
  import opened TimerCancel

  function Max(a: int, b: int): int {
    if a < b then b else a
  }

  // ---------------------------------------------------------------- adding

  /** The state after AddTimer on the loop thread, in a callback or outside. */
  function Added(s: State, a: Addr, when: int, interval: nat, repeat: bool, time: int): State {
    Do(Do(s, New(a, when, interval, repeat)), Add(a, time))
  }

  /** The new timer has the next sequence number and is scheduled for the time given, with the interval given;
      no other timer is touched; and the timerfd is armed for it when it is the earliest, but not sooner than
      in 100 microseconds. */
  lemma AddedScheduled(s: State, batch: seq<Entry>, n: nat, a: Addr, when: int, interval: nat, repeat: bool, time: int)
    requires WellFormed(s, batch, n) && a !in s.heap
    ensures var r := Added(s, a, when, interval, repeat, time);
            && (forall e :: e in r.list <==> e in s.list || e == Entry(when, a))
            && r.active == s.active + {Key(a, s.created + 1)} && r.created == s.created + 1
            && r.heap == s.heap[a := Timer(s.created + 1, when, interval, repeat)]
            && r.runs == s.runs && r.freed == s.freed && r.runs[s.created + 1] == 0
            && (if |s.list| == 0 || when < s.list[0].when
                then r.fd == Some(Max(when, time + 100)) && r.armedAt == time
                else r.fd == s.fd && r.armedAt == s.armedAt)
  {
    var s1 := NewTimer(s, a, when, interval, repeat);
    NewReady(s, batch, n, a, when, interval, repeat);
    InsertIndexed(s1, a);
    InsertSortedOk(s1.list, Entry(when, a));
    ArmDeadline(Insert(s1, a).(pending := s1.pending - {a}), when, time);
    hide WellFormed, InsertSorted, Arm;
  }

  lemma NewReady(s: State, batch: seq<Entry>, n: nat, a: Addr, when: int, interval: nat, repeat: bool)
    requires WellFormed(s, batch, n) && a !in s.heap
    ensures var s1 := NewTimer(s, a, when, interval, repeat);
            && Indexed(s1) && Sorted(s1.list) && a in s1.heap && KeyOf(s1, a) !in s1.active
            && s.runs[s.created + 1] == 0
  {
    NewOk(s, batch, n, a, when, interval, repeat);
    hide Sorted, Numbered;
  }

  /** So the timerfd fires for it in time. */
  lemma AddedArmed(s: State, batch: seq<Entry>, n: nat, a: Addr, when: int, interval: nat, repeat: bool, time: int)
    requires WellFormed(s, batch, n) && a !in s.heap && ArmedInTime(s) && s.armedAt <= time
    ensures var r := Added(s, a, when, interval, repeat, time);
            r.fd.Some? && r.fd.value <= Max(when, time + 100)
  {
    AddedScheduled(s, batch, n, a, when, interval, repeat, time);
    hide WellFormed, Added;
  }

  // ---------------------------------------------------------------- left alone

  ghost predicate Scheduled(s: State, k: Key, timer: Timer) {
    k in s.active && k.addr in s.heap && s.heap[k.addr] == timer && timer.sequence == k.sequence
  }

  lemma DoKeepsTimer(s: State, batch: seq<Entry>, n: nat, op: Op, k: Key, timer: Timer)
    requires WellFormed(s, batch, n) && Legal(s, op) && Scheduled(s, k, timer) && op != Cancel(k)
    ensures Scheduled(Do(s, op), k, timer)
  {
    hide Numbered, RunOnce, Sorted, InsertSorted, Erase;
    assert KeyOf(s, k.addr) == k;
    if op.Cancel? && op.key in s.active {
      assert op.key == KeyOf(s, op.key.addr);
    }
  }

  lemma {:induction false} DoAllKeepsTimer(s: State, batch: seq<Entry>, n: nat, ops: seq<Op>, k: Key, timer: Timer)
    requires WellFormed(s, batch, n) && AllLegal(s, ops) && Scheduled(s, k, timer) && Cancel(k) !in ops
    ensures Scheduled(DoAll(s, ops), k, timer)
    decreases |ops|
  {
    hide WellFormed, Do, Legal, Scheduled;
    if |ops| > 0 {
      DoOk(s, batch, n, ops[0]);
      DoKeepsTimer(s, batch, n, ops[0], k, timer);
      DoAllKeepsTimer(Do(s, ops[0]), batch, n, ops[1..], k, timer);
    }
  }

  lemma RunOneKeepsTimer(s: State, e: Entry, k: Key, timer: Timer)
    requires Scheduled(s, k, timer)
    ensures Scheduled(RunOne(s, e), k, timer)
  {
  }

  /** No callback of the wakeup cancels it. */
  ghost predicate Spares(script: seq<seq<Op>>, k: Key) {
    forall i :: 0 <= i < |script| ==> Cancel(k) !in script[i]
  }

  lemma SparesParts(script: seq<seq<Op>>, k: Key)
    requires Spares(script, k)
    ensures Cancel(k) !in Script(script) && Spares(Rest(script), k)
  {
  }

  lemma CallbackKeepsTimer(s: State, batch: seq<Entry>, n: nat, ops: seq<Op>, k: Key, timer: Timer)
    requires WellFormed(s, batch, n) && n < |batch| && AllLegal(RunOne(s, batch[n]), ops)
    requires Scheduled(s, k, timer) && Cancel(k) !in ops
    ensures Scheduled(DoAll(RunOne(s, batch[n]), ops), k, timer)
    ensures WellFormed(DoAll(RunOne(s, batch[n]), ops), batch, n + 1)
  {
    hide WellFormed, DoAll, AllLegal, Scheduled, RunOne;
    RunOneOk(s, batch, n);
    RunOneKeepsTimer(s, batch[n], k, timer);
    DoAllOk(RunOne(s, batch[n]), batch, n + 1, ops);
    DoAllKeepsTimer(RunOne(s, batch[n]), batch, n + 1, ops, k, timer);
  }

  lemma {:induction false} RunBatchKeepsTimer(s: State, batch: seq<Entry>, n: nat, script: seq<seq<Op>>,
                                              k: Key, timer: Timer)
    requires WellFormed(s, batch, n) && n <= |batch| && BatchLegal(s, batch[n..], script)
    requires Scheduled(s, k, timer) && Spares(script, k)
    ensures Scheduled(RunBatch(s, batch[n..], script), k, timer)
    decreases |batch| - n
  {
    hide WellFormed, DoAll, AllLegal, Scheduled, RunOne, Spares, Script, Rest;
    if n < |batch| {
      assert batch[n..][0] == batch[n] && batch[n..][1..] == batch[n + 1..];
      SparesParts(script, k);
      CallbackKeepsTimer(s, batch, n, Script(script), k, timer);
      RunBatchKeepsTimer(DoAll(RunOne(s, batch[n]), Script(script)), batch, n + 1, Rest(script), k, timer);
    } else {
      assert batch[n..] == [];
    }
  }

  lemma StartKeepsTimer(s: State, now: int, k: Key, timer: Timer)
    requires WellFormed(s, [], 0) && Scheduled(s, k, timer) && now < timer.expiration
    ensures Scheduled(StartCalling(s, now), k, timer)
  {
    var c := s.(fd := None);
    assert Indexed(c) by { IndexedDependsOn(s, c); }
    ExpiredSplits(c, now);
    assert KeyOf(c, k.addr) == k && EntryOf(c, k.addr).when == timer.expiration;
    hide Expired, KeysOf, LowerBound, Indexed;
  }

  /** A scheduled timer is in no batch, and neither run nor reset with it. */
  lemma ResetKeepsTimer(s: State, batch: seq<Entry>, now: int, time: int, k: Key, timer: Timer)
    requires WellFormed(s, batch, |batch|) && Scheduled(s, k, timer)
    ensures Scheduled(Reset(s, batch, now, time), k, timer)
  {
    NotInBatch(s, batch, k, timer);
    hide WellFormed, ResetAll;
    ResetAllKeeps(s, batch, now, k.addr);
  }

  lemma NotInBatch(s: State, batch: seq<Entry>, k: Key, timer: Timer)
    requires WellFormed(s, batch, |batch|) && Scheduled(s, k, timer)
    ensures forall i :: 0 <= i < |batch| ==> batch[i].addr != k.addr
  {
    hide Indexed, Numbered, RunOnce;
    assert KeyOf(s, k.addr) == k;
  }

  lemma WakeupKeepsTimer(s: State, now: int, script: seq<seq<Op>>, time: int, k: Key, timer: Timer)
    requires WellFormed(s, [], 0) && EventLegal(s, Wakeup(now, script, time))
    requires Scheduled(s, k, timer) && now < timer.expiration && Spares(script, k)
    ensures Scheduled(HandleRead(s, now, script, time), k, timer)
  {
    var batch, s0 := Expired(s, now), StartCalling(s, now);
    StartCallingOk(s, now);
    StartKeepsTimer(s, now, k, timer);
    assert batch[0..] == batch;
    hide WellFormed, StartCalling, RunBatch, BatchLegal, Reset, Expired;
    RunBatchOk(s0, batch, 0, script);
    RunBatchKeepsTimer(s0, batch, 0, script, k, timer);
    var called := RunBatch(s0, batch, script);
    SameWellFormed(called, called.(calling := false), batch, |batch|);
    ResetKeepsTimer(called.(calling := false), batch, now, time, k, timer);
  }

  /** An event that neither cancels the timer nor comes when it is due. */
  ghost predicate Passes(ev: Event, k: Key, timer: Timer) {
    match ev
    case Request(op) => op != Cancel(k)
    case Wakeup(now, script, _) => now < timer.expiration && Spares(script, k)
  }

  lemma RunsOf(s: State, now: int, script: seq<seq<Op>>, time: int, k: Key, timer: Timer)
    requires WellFormed(s, [], 0) && EventLegal(s, Wakeup(now, script, time)) && Scheduled(s, k, timer)
    ensures HandleRead(s, now, script, time).runs[k.sequence] ==
            s.runs[k.sequence] + if timer.expiration <= now then 1 else 0
  {
    hide WellFormed, HandleRead, EventLegal, Sequences, Expired;
    DueTimersRun(s, now, script, time);
    assert KeyOf(s, k.addr) == k && At(s, k.addr) == timer;
    hide At;
  }

  lemma EventPasses(s: State, ev: Event, k: Key, timer: Timer)
    requires WellFormed(s, [], 0) && EventLegal(s, ev) && Scheduled(s, k, timer) && Passes(ev, k, timer)
    ensures var r := Handle(s, ev); Scheduled(r, k, timer) && r.runs[k.sequence] == s.runs[k.sequence]
  {
    hide WellFormed, HandleRead, BatchLegal, Scheduled;
    match ev
    case Request(op) =>
      DoKeepsTimer(s, [], 0, op, k, timer);
      DoKeepsBatch(s, [], 0, op);
    case Wakeup(now, script, time) =>
      WakeupKeepsTimer(s, now, script, time, k, timer);
      RunsOf(s, now, script, time, k, timer);
  }

  ghost predicate AllPass(evs: seq<Event>, k: Key, timer: Timer) {
    forall i :: 0 <= i < |evs| ==> Passes(evs[i], k, timer)
  }

  lemma AllPassParts(evs: seq<Event>, k: Key, timer: Timer)
    requires AllPass(evs, k, timer) && |evs| > 0
    ensures Passes(evs[0], k, timer) && AllPass(evs[1..], k, timer)
  {
    hide Passes;
  }

  lemma {:induction false} EventsPass(s: State, evs: seq<Event>, k: Key, timer: Timer)
    requires Settling(s) && RunLegal(s, evs) && Scheduled(s, k, timer) && AllPass(evs, k, timer)
    ensures var r := HandleAll(s, evs);
            Settling(r) && Scheduled(r, k, timer) && r.runs[k.sequence] == s.runs[k.sequence]
    decreases |evs|
  {
    if |evs| > 0 {
      assert WellFormed(s, [], 0);
      hide WellFormed, Settling, Handle, EventLegal, Scheduled, Passes, AllPass;
      AllPassParts(evs, k, timer);
      EventPasses(s, evs[0], k, timer);
      HandleSettling(s, evs[0]);
      EventsPass(Handle(s, evs[0]), evs[1..], k, timer);
    }
  }

  /** A timer added for a time that has not come runs at no wakeup before it, and exactly once at the first one
      from then on, whatever else is added, run and cancelled in between and in the same callbacks. */
  lemma AddedRunsWhenDue(s: State, a: Addr, when: int, interval: nat, repeat: bool, time: int,
                         evs: seq<Event>, now: int, script: seq<seq<Op>>, later: int)
    requires Settling(s) && a !in s.heap && RunLegal(Added(s, a, when, interval, repeat, time), evs)
    requires AllPass(evs, Key(a, s.created + 1), Timer(s.created + 1, when, interval, repeat))
    requires EventLegal(HandleAll(Added(s, a, when, interval, repeat, time), evs), Wakeup(now, script, later))
    ensures var t := HandleAll(Added(s, a, when, interval, repeat, time), evs);
            && t.runs[s.created + 1] == 0
            && HandleRead(t, now, script, later).runs[s.created + 1] == if when <= now then 1 else 0
  {
    var k, timer := Key(a, s.created + 1), Timer(s.created + 1, when, interval, repeat);
    var r := Added(s, a, when, interval, repeat, time);
    AddedScheduled(s, [], 0, a, when, interval, repeat, time);
    AddedSettling(s, a, when, interval, repeat, time);
    assert Scheduled(r, k, timer);
    hide Added, AllPass, Scheduled, WellFormed, EventLegal, HandleRead;
    EventsPass(r, evs, k, timer);
    RunsOf(HandleAll(r, evs), now, script, later, k, timer);
  }

  lemma AddedSettling(s: State, a: Addr, when: int, interval: nat, repeat: bool, time: int)
    requires Settling(s) && a !in s.heap
    ensures Settling(Added(s, a, when, interval, repeat, time))
  {
    var n := Request(New(a, when, interval, repeat));
    assert EventLegal(s, n) && EventLegal(Handle(s, n), Request(Add(a, time)));
    hide Settling, EventLegal;
    HandleSettling(s, n);
    HandleSettling(Handle(s, n), Request(Add(a, time)));
  }

  // ---------------------------------------------------------------- the deadline after a wakeup

  /** A wakeup leaves the timerfd armed for the earliest timer exactly, if not sooner than in 100
      microseconds. */
  lemma WakeupArms(s: State, now: int, script: seq<seq<Op>>, time: int)
    requires WellFormed(s, [], 0) && EventLegal(s, Wakeup(now, script, time))
    ensures var r := HandleRead(s, now, script, time);
            |r.list| > 0 && r.list[0].when > 0 ==> r.fd == Some(Max(r.list[0].when, time + 100)) && r.armedAt == time
  {
    HandleReadOk(s, now, script, time);
    IndexedPart(HandleRead(s, now, script, time), [], 0);
    hide WellFormed, StartCalling, RunBatch, BatchLegal, Reset, Expired;
    ResetArms(RunBatch(StartCalling(s, now), Expired(s, now), script).(calling := false), Expired(s, now), now, time);
  }

  lemma ResetArms(s: State, batch: seq<Entry>, now: int, time: int)
    requires Indexed(Reset(s, batch, now, time))
    ensures var r := Reset(s, batch, now, time);
            |r.list| > 0 && r.list[0].when > 0 ==> r.fd == Some(Max(r.list[0].when, time + 100)) && r.armedAt == time
  {
    var q, r := ResetAll(s, batch, now), Reset(s, batch, now, time);
    SameList(s, batch, now, time);
    if |r.list| > 0 {
      assert r.list[0] in r.list;
      hide Sorted, ResetAll, Arm;
      assert At(q, q.list[0].addr) == At(r, r.list[0].addr);
      ArmDeadline(q, r.list[0].when, time);
      ArmedNow(q, r.list[0].when, time);
    }
  }

  lemma SameList(s: State, batch: seq<Entry>, now: int, time: int)
    ensures Reset(s, batch, now, time).list == ResetAll(s, batch, now).list
    ensures Reset(s, batch, now, time).heap == ResetAll(s, batch, now).heap
  {
    hide ResetAll;
  }

  lemma ArmedNow(s: State, when: int, time: int)
    ensures Arm(s, when, time).armedAt == time
  {
  }

  /** The timerfd fires once: with no timer left, and none added meanwhile, it stays silent. */
  lemma WakeupDisarms(s: State, now: int, time: int)
    ensures var r := HandleRead(s, now, [], time); r.list == [] ==> r.fd == None
  {
    var batch := Expired(s, now);
    SilentBatch(StartCalling(s, now), batch);
    var c := RunBatch(StartCalling(s, now), batch, []).(calling := false);
    assert c.fd == None by {
      hide RunBatch, Expired, KeysOf;
    }
    ResetAllFd(c, batch, now);
    SameList(c, batch, now, time);
    hide RunBatch, ResetAll, StartCalling, Expired;
  }

  lemma {:induction false} SilentBatch(s: State, batch: seq<Entry>)
    ensures RunBatch(s, batch, []).fd == s.fd
    decreases |batch|
  {
    if |batch| > 0 {
      SilentBatch(RunOne(s, batch[0]), batch[1..]);
    }
  }

  lemma {:induction false} ResetAllFd(s: State, batch: seq<Entry>, now: int)
    ensures ResetAll(s, batch, now).fd == s.fd
    decreases |batch|
  {
    if |batch| > 0 {
      var t := ResetOne(s, batch[0], now);
      assert t.fd == s.fd by {
        hide InsertSorted;
      }
      hide ResetOne;
      ResetAllFd(t, batch[1..], now);
    }
  }
}
