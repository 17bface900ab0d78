/** What a wakeup does to the timers of its batch: their callbacks cannot touch them, and each is run
    once, in turn. */
module TimerBatch {
  import opened TimerSpec
  import opened TimerProofs

  // ---------------------------------------------------------------- callbacks leave the batch alone

  ghost predicate BatchKept(s: State, r: State, batch: seq<Entry>) {
    forall i :: 0 <= i < |batch| ==> At(r, batch[i].addr) == At(s, batch[i].addr)
  }

  /** A timer of the batch is in neither set and not waiting to be added: no operation reaches it. */
  lemma DoKeepsBatch(s: State, batch: seq<Entry>, n: nat, op: Op)
    requires WellFormed(s, batch, n) && Legal(s, op)
    ensures BatchKept(s, Do(s, op), batch) && Do(s, op).runs == s.runs
  {
    hide Numbered, RunOnce, Sorted, InsertSorted, Erase;
    if op.Cancel? && op.key in s.active {
      assert op.key == KeyOf(s, op.key.addr);
      assert forall i :: 0 <= i < |batch| ==> batch[i].addr != op.key.addr;
    }
  }

  lemma {:induction false} DoAllKeepsBatch(s: State, batch: seq<Entry>, n: nat, ops: seq<Op>)
    requires WellFormed(s, batch, n) && AllLegal(s, ops)
    ensures BatchKept(s, DoAll(s, ops), batch) && DoAll(s, ops).runs == s.runs
    decreases |ops|
  {
    hide WellFormed, Do, Legal, At;
    if |ops| > 0 {
      DoOk(s, batch, n, ops[0]);
      DoKeepsBatch(s, batch, n, ops[0]);
      DoAllKeepsBatch(Do(s, ops[0]), batch, n, ops[1..]);
    }
  }

  /** The sequence numbers of the timers of a batch. */
  ghost function Sequences(s: State, batch: seq<Entry>): multiset<int> {
    if |batch| == 0 then multiset{}
    else multiset{At(s, batch[0].addr).sequence} + Sequences(s, batch[1..])
  }

  lemma {:induction false} SequencesKept(s: State, r: State, batch: seq<Entry>)
    requires BatchKept(s, r, batch)
    ensures Sequences(r, batch) == Sequences(s, batch)
    decreases |batch|
  {
    hide At;
    if |batch| > 0 {
      SequencesKept(s, r, batch[1..]);
    }
  }

  lemma RunOneKeepsBatch(s: State, batch: seq<Entry>, e: Entry)
    ensures BatchKept(s, RunOne(s, e), batch)
  {
  }

  /** One timer of the batch is run, and its callback returns. */
  lemma BatchStep(s: State, batch: seq<Entry>, n: nat, ops: seq<Op>)
    requires WellFormed(s, batch, n) && n < |batch| && AllLegal(RunOne(s, batch[n]), ops)
    ensures var r := DoAll(RunOne(s, batch[n]), ops);
            && WellFormed(r, batch, n + 1) && BatchKept(s, r, batch)
            && r.runs == s.runs + multiset{At(s, batch[n].addr).sequence}
  {
    var s1 := RunOne(s, batch[n]);
    RunOneOk(s, batch, n);
    RunOneKeepsBatch(s, batch, batch[n]);
    assert s1.runs == s.runs + multiset{At(s, batch[n].addr).sequence};
    hide WellFormed, DoAll, AllLegal, RunOne, At;
    DoAllOk(s1, batch, n + 1, ops);
    DoAllKeepsBatch(s1, batch, n + 1, ops);
  }

  lemma KeptTail(s: State, r: State, batch: seq<Entry>, n: nat)
    requires BatchKept(s, r, batch) && n <= |batch|
    ensures Sequences(r, batch[n..]) == Sequences(s, batch[n..])
  {
    hide At;
    SequencesKept(s, r, batch[n..]);
  }

  lemma KeptTwice(s: State, r: State, t: State, batch: seq<Entry>)
    requires BatchKept(s, r, batch) && BatchKept(r, t, batch)
    ensures BatchKept(s, t, batch)
  {
    hide At;
  }

  lemma {:induction false} RunBatchRuns(s: State, batch: seq<Entry>, n: nat, script: seq<seq<Op>>)
    requires WellFormed(s, batch, n) && n <= |batch| && BatchLegal(s, batch[n..], script)
    ensures var r := RunBatch(s, batch[n..], script);
            BatchKept(s, r, batch) && r.runs == s.runs + Sequences(s, batch[n..])
    decreases |batch| - n
  {
    hide WellFormed, DoAll, AllLegal, RunOne, At, BatchKept;
    if n < |batch| {
      assert batch[n..][0] == batch[n] && batch[n..][1..] == batch[n + 1..];
      var s2 := DoAll(RunOne(s, batch[n]), Script(script));
      BatchStep(s, batch, n, Script(script));
      KeptTail(s, s2, batch, n + 1);
      RunBatchRuns(s2, batch, n + 1, Rest(script));
      KeptTwice(s, s2, RunBatch(s2, batch[n + 1..], Rest(script)), batch);
    } else {
      assert batch[n..] == [];
      assert RunBatch(s, batch[n..], script) == s;
      SameKept(s, batch);
    }
  }

  lemma SameKept(s: State, batch: seq<Entry>)
    ensures BatchKept(s, s, batch)
  {
  }

  lemma {:induction false} ResetAllRuns(s: State, batch: seq<Entry>, now: int)
    ensures ResetAll(s, batch, now).runs == s.runs
    decreases |batch|
  {
    if |batch| > 0 {
      var t := ResetOne(s, batch[0], now);
      assert t.runs == s.runs by {
        hide InsertSorted;
      }
      hide ResetOne;
      ResetAllRuns(t, batch[1..], now);
    }
  }

  // ---------------------------------------------------------------- due timers are run

  lemma StartSequences(s: State, now: int, batch: seq<Entry>)
    ensures StartCalling(s, now).runs == s.runs
    ensures Sequences(StartCalling(s, now), batch) == Sequences(s, batch)
  {
    SequencesKept(s, StartCalling(s, now), batch);
  }

  lemma WakeupRuns(s: State, now: int, script: seq<seq<Op>>, time: int)
    requires WellFormed(s, [], 0) && EventLegal(s, Wakeup(now, script, time))
    ensures HandleRead(s, now, script, time).runs == s.runs + Sequences(s, Expired(s, now))
  {
    var batch, s0 := Expired(s, now), StartCalling(s, now);
    StartCallingOk(s, now);
    StartSequences(s, now, batch);
    assert batch[0..] == batch;
    hide WellFormed, StartCalling, RunBatch, BatchLegal, ResetAll, Expired, Sequences;
    RunBatchRuns(s0, batch, 0, script);
    ResetAllRuns(RunBatch(s0, batch, script).(calling := false), batch, now);
  }

  ghost predicate InBatch(batch: seq<Entry>, a: Addr) {
    exists i :: 0 <= i < |batch| && batch[i].addr == a
  }

  lemma {:induction false} SequenceCount(s: State, batch: seq<Entry>, a: Addr)
    requires Distinct(s) && a in s.heap
    requires forall i :: 0 <= i < |batch| ==> batch[i].addr in s.heap
    requires forall i, j :: 0 <= i < j < |batch| ==> batch[i].addr != batch[j].addr
    ensures Sequences(s, batch)[At(s, a).sequence] == if InBatch(batch, a) then 1 else 0
    decreases |batch|
  {
    if |batch| > 0 {
      var b, rest := batch[0].addr, batch[1..];
      SequenceCount(s, rest, a);
      assert At(s, a) == s.heap[a] && At(s, b) == s.heap[b];
      assert InBatch(batch, a) <==> b == a || InBatch(rest, a) by {
        if InBatch(rest, a) {
          var i :| 0 <= i < |rest| && rest[i].addr == a;
          assert batch[i + 1].addr == a;
        }
      }
      assert b == a ==> !InBatch(rest, a);
    }
  }

  /** The batch holds the scheduled timers that are due. */
  lemma DueInBatch(s: State, now: int, a: Addr)
    requires Indexed(s) && a in s.heap
    ensures InBatch(Expired(s, now), a) <==> KeyOf(s, a) in s.active && At(s, a).expiration <= now
  {
    var batch := Expired(s, now);
    ExpiredSplits(s, now);
    hide Expired, GetExpired, Sorted;
    if InBatch(batch, a) {
      var i :| 0 <= i < |batch| && batch[i].addr == a;
      assert batch[i] in batch && batch[i] in s.list;
    }
    if KeyOf(s, a) in s.active && At(s, a).expiration <= now {
      assert EntryOf(s, a) in s.list && EntryOf(s, a) in batch;
      var i :| 0 <= i < |batch| && batch[i] == EntryOf(s, a);
    }
  }

  lemma BatchOnce(s: State, now: int)
    requires WellFormed(s, [], 0)
    ensures var batch := Expired(s, now);
            && (forall i :: 0 <= i < |batch| ==> batch[i].addr in s.heap)
            && (forall i, j :: 0 <= i < j < |batch| ==> batch[i].addr != batch[j].addr)
  {
    StartCallingOk(s, now);
    hide Expired, Sorted, Indexed, Numbered, RunOnce, LowerBound, KeysOf;
  }

  /** A wakeup runs each scheduled timer that is due once and runs nothing else, whatever the callbacks
      add and cancel. */
  lemma DueTimersRun(s: State, now: int, script: seq<seq<Op>>, time: int)
    requires WellFormed(s, [], 0) && EventLegal(s, Wakeup(now, script, time))
    ensures var r := HandleRead(s, now, script, time);
            && r.runs == s.runs + Sequences(s, Expired(s, now))
            && forall a :: a in s.heap ==>
                 r.runs[At(s, a).sequence] == s.runs[At(s, a).sequence] +
                   if KeyOf(s, a) in s.active && At(s, a).expiration <= now then 1 else 0
  {
    WakeupRuns(s, now, script, time);
    BatchOnce(s, now);
    assert Indexed(s) && Distinct(s);
    hide WellFormed, HandleRead, Expired, BatchLegal, Sequences, Indexed, Distinct, At;
    forall a | a in s.heap
      ensures Sequences(s, Expired(s, now))[At(s, a).sequence] ==
              if KeyOf(s, a) in s.active && At(s, a).expiration <= now then 1 else 0
    {
      DueInBatch(s, now, a);
      SequenceCount(s, Expired(s, now), a);
    }
  }

  // ---------------------------------------------------------------- in order

  function Later(script: seq<seq<Op>>, n: nat): seq<seq<Op>> {
    if n <= |script| then script[n..] else []
  }

  /** The callbacks of a batch split at any of its timers. */
  lemma {:induction false} FirstRuns(s: State, batch: seq<Entry>, n: nat, i: nat, script: seq<seq<Op>>)
    requires WellFormed(s, batch, n) && n <= i <= |batch| && BatchLegal(s, batch[n..], script)
    ensures var r := RunBatch(s, batch[n..i], script);
            && r.runs == s.runs + Sequences(s, batch[n..i])
            && RunBatch(s, batch[n..], script) == RunBatch(r, batch[i..], Later(script, i - n))
    decreases i - n
  {
    hide WellFormed, DoAll, AllLegal, RunOne, At, BatchKept;
    if n < i {
      assert batch[n..][0] == batch[n] && batch[n..][1..] == batch[n + 1..];
      assert batch[n..i][0] == batch[n] && batch[n..i][1..] == batch[n + 1..i];
      var s2 := DoAll(RunOne(s, batch[n]), Script(script));
      BatchStep(s, batch, n, Script(script));
      KeptPart(s, s2, batch, n + 1, i);
      LaterRest(script, i - n);
      hide Script, Rest, Later;
      FirstRuns(s2, batch, n + 1, i, Rest(script));
    } else {
      assert batch[n..i] == [] && Later(script, 0) == script;
    }
  }

  lemma LaterRest(script: seq<seq<Op>>, n: nat)
    requires n > 0
    ensures Later(Rest(script), n - 1) == Later(script, n)
  {
  }

  lemma KeptPart(s: State, r: State, batch: seq<Entry>, n: nat, i: nat)
    requires BatchKept(s, r, batch) && n <= i <= |batch|
    ensures Sequences(r, batch[n..i]) == Sequences(s, batch[n..i])
  {
    hide At;
    SequencesKept(s, r, batch[n..i]);
  }

  /** The due timers are run in the order in which they are due: at every moment of a wakeup those run so far
      are the first of them, each once, and the rest follows. */
  lemma DueInOrder(s: State, now: int, script: seq<seq<Op>>, time: int, i: nat)
    requires WellFormed(s, [], 0) && EventLegal(s, Wakeup(now, script, time)) && i <= |Expired(s, now)|
    ensures Sorted(Expired(s, now))
    ensures var batch, s0 := Expired(s, now), StartCalling(s, now);
            var r := RunBatch(s0, batch[..i], script);
            && r.runs == s.runs + Sequences(s, batch[..i])
            && RunBatch(s0, batch, script) == RunBatch(r, batch[i..], Later(script, i))
  {
    var batch, s0 := Expired(s, now), StartCalling(s, now);
    StartCallingOk(s, now);
    StartSequences(s, now, batch[..i]);
    ExpiredSorted(s, now);
    assert batch[0..] == batch && batch[0..i] == batch[..i];
    hide WellFormed, StartCalling, RunBatch, BatchLegal, Expired, Sequences, Sorted;
    FirstRuns(s0, batch, 0, i, script);
  }

  lemma ExpiredSorted(s: State, now: int)
    requires WellFormed(s, [], 0)
    ensures Sorted(Expired(s, now))
  {
    hide Placed, Numbered, RunOnce, LowerBound;
  }
}
