/** What every run of the timer queue keeps, with callbacks adding and cancelling as they please. */
module TimerProofs {
  import opened Wrappers
  import opened TimerSpec

  // ---------------------------------------------------------------- the ordered set

  lemma {:induction false} LowerBoundSplits(list: seq<Entry>, when: int, addr: nat)
    requires Sorted(list)
    ensures var n := LowerBound(list, when, addr);
            && (forall i :: 0 <= i < n ==> Before(list[i], when, addr))
            && (forall i :: n <= i < |list| ==> !Before(list[i], when, addr))
  {
    if |list| == 0 {
    } else if Before(list[0], when, addr) {
      LowerBoundSplits(list[1..], when, addr);
      assert forall i :: 1 <= i < |list| ==> list[i] == list[1..][i - 1];
    } else {
      assert forall i :: 1 <= i < |list| ==> Less(list[0], list[i]);
    }
  }

  lemma InsertSortedOk(list: seq<Entry>, e: Entry)
    requires Sorted(list) && e !in list
    ensures Sorted(InsertSorted(list, e))
    ensures forall x :: x in InsertSorted(list, e) <==> x == e || x in list
    ensures InsertSorted(list, e)[0] == if |list| == 0 || Less(e, list[0]) then e else list[0]
  {
    LowerBoundSplits(list, e.when, e.addr);
    var n := LowerBound(list, e.when, e.addr);
    hide LowerBound, Sorted;
    forall i | n <= i < |list|
      ensures Less(e, list[i])
    {
      assert list[i] in list;
    }
    assert forall i :: 0 <= i < n ==> Less(list[i], e);
    hide Less, Before;
    InsertAtSorted(list, e, n);
    InsertAtMembers(list, e, n);
  }

  lemma InsertAtMembers(list: seq<Entry>, e: Entry, n: nat)
    requires n <= |list|
    ensures forall x :: x in list[..n] + [e] + list[n..] <==> x == e || x in list
  {
    assert list == list[..n] + list[n..];
  }

  lemma InsertAtSorted(list: seq<Entry>, e: Entry, n: nat)
    requires Sorted(list) && n <= |list|
    requires forall i :: 0 <= i < n ==> Less(list[i], e)
    requires forall i :: n <= i < |list| ==> Less(e, list[i])
    ensures Sorted(list[..n] + [e] + list[n..])
  {
    hide Less;
    var r := list[..n] + [e] + list[n..];
    forall i, j | 0 <= i < j < |r|
      ensures Less(r[i], r[j])
    {
      var x := if i < n then i else i - 1;
      var y := if j < n then j else j - 1;
      assert i != n ==> r[i] == list[x];
      assert j != n ==> r[j] == list[y];
    }
  }

  lemma {:induction false} EraseOk(list: seq<Entry>, e: Entry)
    requires Sorted(list) && e in list
    ensures Sorted(Erase(list, e))
    ensures forall x :: x in Erase(list, e) <==> x != e && x in list
    ensures |Erase(list, e)| == |list| - 1
    ensures |list| >= 2 ==> Erase(list, e)[0].when >= list[0].when
  {
    if list[0] != e {
      EraseOk(list[1..], e);
      var r := Erase(list[1..], e);
      assert forall x :: x in r ==> x in list[1..];
      forall j | 0 <= j < |r|
        ensures Less(list[0], r[j])
      {
        assert r[j] in list[1..];
      }
    }
  }

  // ---------------------------------------------------------------- the invariant

  /** The two sets index exactly the same live timers. */
  ghost predicate Indexed(s: State) {
    && Sorted(s.list)
    && (forall e :: e in s.list ==>
          e.addr in s.heap && e == EntryOf(s, e.addr) && KeyOf(s, e.addr) in s.active)
    && (forall k :: k in s.active ==>
          k.addr in s.heap && k == KeyOf(s, k.addr) && EntryOf(s, k.addr) in s.list)
  }

  /** Every allocated timer is scheduled, waiting to be scheduled, or in the batch being run, and
      only one of these. */
  ghost predicate Placed(s: State, batch: seq<Entry>) {
    && (forall a :: a in s.pending ==> a in s.heap && KeyOf(s, a) !in s.active)
    && (forall i :: 0 <= i < |batch| ==>
          var a := batch[i].addr;
          a in s.heap && KeyOf(s, a) !in s.active && a !in s.pending)
    && (forall i, j :: 0 <= i < j < |batch| ==> batch[i].addr != batch[j].addr)
    && (forall a :: a in s.heap ==>
          KeyOf(s, a) in s.active || a in s.pending || exists i :: 0 <= i < |batch| && batch[i].addr == a)
  }

  /** Sequence numbers name timers once and for all: the live ones and the freed ones, each freed
      exactly once, make up all that were created. */
  ghost predicate Numbered(s: State) {
    Bounded(s) && Distinct(s) && FreedOnce(s) && Complete(s)
  }

  ghost predicate Bounded(s: State) {
    && s.created >= 0
    && forall a :: a in s.heap ==> 1 <= s.heap[a].sequence <= s.created && s.heap[a].sequence !in s.freed
  }

  ghost predicate Distinct(s: State) {
    forall a, b :: a in s.heap && b in s.heap && a != b ==> s.heap[a].sequence != s.heap[b].sequence
  }

  ghost predicate FreedOnce(s: State) {
    forall x :: x in s.freed ==> 1 <= x <= s.created && s.freed[x] == 1
  }

  ghost predicate Complete(s: State) {
    forall n :: 1 <= n <= s.created && n !in s.freed ==> LiveSequence(s, n)
  }

  ghost predicate LiveSequence(s: State, n: int) {
    exists a :: a in s.heap && s.heap[a].sequence == n
  }

  /** One-shot timers run at most once: those not yet run are not in the history, and no one-shot
      is in it twice. The first n timers of the batch have been run. */
  ghost predicate RunOnce(s: State, batch: seq<Entry>, n: nat) {
    && n <= |batch|
    && (forall x :: x in s.oneShots ==> x <= s.created)
    && (forall x :: x in s.runs ==> x <= s.created)
    && (forall a :: a in s.heap ==> (s.heap[a].sequence in s.oneShots <==> !s.heap[a].repeat))
    && (forall x :: x in s.oneShots ==> s.runs[x] <= 1)
    && (forall a :: a in s.heap && !s.heap[a].repeat && !HasRun(batch, n, a) ==> s.heap[a].sequence !in s.runs)
  }

  ghost predicate HasRun(batch: seq<Entry>, n: nat, a: Addr)
    requires n <= |batch|
  {
    exists j :: 0 <= j < n && batch[j].addr == a
  }

  ghost predicate WellFormed(s: State, batch: seq<Entry>, n: nat) {
    Indexed(s) && Placed(s, batch) && Numbered(s) && RunOnce(s, batch, n)
  }

  // ---------------------------------------------------------------- single operations

  lemma NewOk(s: State, batch: seq<Entry>, n: nat, a: Addr, when: int, interval: nat, repeat: bool)
    requires WellFormed(s, batch, n) && a !in s.heap
    ensures WellFormed(NewTimer(s, a, when, interval, repeat), batch, n)
  {
    var r := NewTimer(s, a, when, interval, repeat);
    assert forall b :: b != a ==> At(r, b) == At(s, b);
    hide Indexed, Placed, Numbered, RunOnce;
    NewIndexed(s, r, a);
    NewPlaced(s, r, batch, a);
    NewNumbered(s, r, a);
    NewRunOnce(s, r, batch, n, a);
  }

  lemma NewRunOnce(s: State, r: State, batch: seq<Entry>, n: nat, a: Addr)
    requires RunOnce(s, batch, n) && NewStep(s, r, a) && r.runs == s.runs
    requires r.oneShots == if r.heap[a].repeat then s.oneShots else s.oneShots + {r.created}
    requires Bounded(s)
    ensures RunOnce(r, batch, n)
  {
    SameAt(s, r, a);
    hide HasRun, At;
    assert r.created !in s.oneShots && r.created !in s.runs;
  }

  ghost predicate NewStep(s: State, r: State, a: Addr) {
    && a !in s.heap && a in r.heap
    && (forall b :: b != a ==> At(r, b) == At(s, b) && (b in r.heap <==> b in s.heap))
    && r.heap[a].sequence == r.created == s.created + 1
    && r.list == s.list && r.active == s.active && r.pending == s.pending + {a} && r.freed == s.freed
  }

  lemma NewIndexed(s: State, r: State, a: Addr)
    requires Indexed(s) && NewStep(s, r, a)
    ensures Indexed(r)
  {
    hide Sorted;
  }

  lemma NewPlaced(s: State, r: State, batch: seq<Entry>, a: Addr)
    requires Indexed(s) && Placed(s, batch) && NewStep(s, r, a)
    ensures Placed(r, batch)
  {
    hide Sorted;
  }

  lemma NewNumbered(s: State, r: State, a: Addr)
    requires Numbered(s) && NewStep(s, r, a)
    ensures Numbered(r)
  {
    SameAt(s, r, a);
    hide At;
    assert Bounded(r) by { hide Distinct, FreedOnce, Complete; }
    assert Distinct(r) by { hide FreedOnce, Complete; }
    assert FreedOnce(r) by { hide Distinct, Complete, Bounded; }
    forall m | 1 <= m <= r.created && m !in r.freed
      ensures LiveSequence(r, m)
    {
      hide Distinct, FreedOnce, Bounded;
      if m == r.created {
        assert r.heap[a].sequence == m;
      } else {
        assert LiveSequence(s, m);
        var b :| b in s.heap && s.heap[b].sequence == m;
        assert r.heap[b].sequence == m;
      }
    }
  }

  lemma SameAt(s: State, r: State, a: Addr)
    requires forall b :: b != a ==> At(r, b) == At(s, b) && (b in r.heap <==> b in s.heap)
    ensures forall b :: b != a && b in s.heap ==> r.heap[b] == s.heap[b]
  {
    forall b | b != a && b in s.heap
      ensures r.heap[b] == s.heap[b]
    {
      assert At(r, b) == At(s, b);
    }
  }

  lemma InsertIndexed(s: State, a: Addr)
    requires Indexed(s) && a in s.heap && KeyOf(s, a) !in s.active
    ensures Indexed(Insert(s, a))
    ensures EntryOf(s, a) !in s.list
  {
    hide Sorted;
    InsertSortedOk(s.list, EntryOf(s, a));
    var r := Insert(s, a);
    assert forall b :: At(r, b) == At(s, b);
    hide InsertSorted;
  }

  /** Only the two index sets, the timerfd and the flags changed. */
  ghost predicate SameTimers(s: State, r: State) {
    && r.heap == s.heap && r.created == s.created
    && r.oneShots == s.oneShots && r.runs == s.runs && r.freed == s.freed
  }

  lemma SameTimersKeep(s: State, r: State, batch: seq<Entry>, n: nat)
    requires SameTimers(s, r) && Numbered(s) && RunOnce(s, batch, n)
    ensures Numbered(r) && RunOnce(r, batch, n)
  {
  }

  lemma IndexedDependsOn(s: State, r: State)
    requires r.heap == s.heap && r.list == s.list && r.active == s.active
    ensures Indexed(s) ==> Indexed(r)
  {
    hide Sorted;
    assert forall a :: At(r, a) == At(s, a);
  }

  lemma AddOk(s: State, batch: seq<Entry>, n: nat, a: Addr, time: int)
    requires WellFormed(s, batch, n) && a in s.pending
    ensures WellFormed(AddTimerInLoop(s, a, time), batch, n)
  {
    hide Sorted, InsertSorted, RunOnce, Numbered;
    InsertIndexed(s, a);
    var i, r := Insert(s, a), AddTimerInLoop(s, a, time);
    IndexedDependsOn(i, r);
    SameTimersKeep(s, r, batch, n);
    AddPlaced(s, r, batch, a);
  }

  lemma AddPlaced(s: State, r: State, batch: seq<Entry>, a: Addr)
    requires Placed(s, batch) && Indexed(s) && a in s.pending && r.heap == s.heap
    requires r.active == s.active + {KeyOf(s, a)} && r.pending == s.pending - {a}
    ensures Placed(r, batch)
  {
    hide Sorted;
    assert forall b :: At(r, b) == At(s, b);
  }

  lemma FreeNumbered(s: State, r: State, a: Addr)
    requires Numbered(s) && a in s.heap
    requires r.heap == s.heap - {a} && r.freed == s.freed + multiset{s.heap[a].sequence} && r.created == s.created
    ensures Numbered(r)
  {
    assert Bounded(r) by { hide FreedOnce, Complete; }
    assert Distinct(r) by { hide FreedOnce, Complete, Bounded; }
    assert FreedOnce(r) by { hide Distinct, Complete; }
    forall m | 1 <= m <= r.created && m !in r.freed
      ensures LiveSequence(r, m)
    {
      hide Distinct, FreedOnce, Bounded;
      assert m !in s.freed && m != s.heap[a].sequence;
      assert LiveSequence(s, m);
      var b :| b in s.heap && s.heap[b].sequence == m;
      assert b in r.heap;
    }
  }

  lemma FreeRunOnce(s: State, r: State, batch: seq<Entry>, n: nat, a: Addr)
    requires RunOnce(s, batch, n) && a in s.heap && r.heap == s.heap - {a}
    requires r.created == s.created && r.oneShots == s.oneShots && r.runs == s.runs
    ensures RunOnce(r, batch, n)
  {
    hide HasRun;
  }

  lemma FreePlaced(s: State, r: State, batch: seq<Entry>, k: Key)
    requires Indexed(s) && Placed(s, batch) && k in s.active
    requires r.heap == s.heap - {k.addr} && r.active == s.active - {k} && r.pending == s.pending
    ensures Placed(r, batch)
  {
    hide Sorted;
    assert forall b :: b != k.addr ==> At(r, b) == At(s, b);
  }

  lemma FreeIndexed(s: State, r: State, k: Key)
    requires Indexed(s) && k in s.active
    requires r.heap == s.heap - {k.addr} && r.active == s.active - {k} && r.list == Erase(s.list, EntryOf(s, k.addr))
    ensures Indexed(r)
  {
    EraseOk(s.list, EntryOf(s, k.addr));
    hide Sorted, Erase;
    forall e | e in r.list
      ensures e.addr in r.heap && e == EntryOf(r, e.addr) && KeyOf(r, e.addr) in r.active
    {
      FreeEntry(s, r, k, e);
    }
    forall j | j in r.active
      ensures j.addr in r.heap && j == KeyOf(r, j.addr) && EntryOf(r, j.addr) in r.list
    {
      FreeKey(s, r, k, j);
    }
    hide EntryOf, KeyOf;
  }

  lemma FreeEntry(s: State, r: State, k: Key, e: Entry)
    requires Indexed(s) && k in s.active && e in s.list && e != EntryOf(s, k.addr)
    requires r.heap == s.heap - {k.addr} && r.active == s.active - {k}
    ensures e.addr in r.heap && e == EntryOf(r, e.addr) && KeyOf(r, e.addr) in r.active
  {
    hide Sorted;
    assert e == EntryOf(s, e.addr) && e.addr != k.addr;
    assert At(r, e.addr) == At(s, e.addr);
  }

  lemma FreeKey(s: State, r: State, k: Key, j: Key)
    requires Indexed(s) && k in s.active && j in s.active && j != k
    requires r.heap == s.heap - {k.addr} && forall e :: e in r.list <==> e != EntryOf(s, k.addr) && e in s.list
    ensures j.addr in r.heap && j == KeyOf(r, j.addr) && EntryOf(r, j.addr) in r.list
  {
    hide Sorted;
    assert j == KeyOf(s, j.addr) && k == KeyOf(s, k.addr) && j.addr != k.addr;
    assert At(r, j.addr) == At(s, j.addr);
    assert EntryOf(s, j.addr) in s.list && EntryOf(s, j.addr).addr == j.addr;
  }

  lemma CancelOk(s: State, batch: seq<Entry>, n: nat, k: Key)
    requires WellFormed(s, batch, n)
    ensures WellFormed(CancelInLoop(s, k), batch, n)
  {
    var r := CancelInLoop(s, k);
    if k in s.active {
      assert k.addr in s.heap && At(s, k.addr) == s.heap[k.addr];
      FreeIndexed(s, r, k);
      FreePlaced(s, r, batch, k);
      FreeNumbered(s, r, k.addr);
      FreeRunOnce(s, r, batch, n, k.addr);
    } else {
      SameWellFormed(s, r, batch, n);
    }
  }

  lemma SameWellFormed(s: State, r: State, batch: seq<Entry>, n: nat)
    requires WellFormed(s, batch, n)
    requires r == s.(fd := r.fd, armedAt := r.armedAt, calling := r.calling, cancelled := r.cancelled)
    ensures WellFormed(r, batch, n)
  {
    hide Indexed, Numbered, RunOnce;
    IndexedDependsOn(s, r);
    SameTimersKeep(s, r, batch, n);
    assert forall a :: At(r, a) == At(s, a);
  }

  lemma DoOk(s: State, batch: seq<Entry>, n: nat, op: Op)
    requires WellFormed(s, batch, n) && Legal(s, op)
    ensures WellFormed(Do(s, op), batch, n) && Do(s, op).calling == s.calling
  {
    hide WellFormed;
    match op
    case New(a, when, interval, repeat) => NewOk(s, batch, n, a, when, interval, repeat);
    case Add(a, time) => AddOk(s, batch, n, a, time);
    case Cancel(k) => CancelOk(s, batch, n, k);
  }

  lemma {:induction false} DoAllOk(s: State, batch: seq<Entry>, n: nat, ops: seq<Op>)
    requires WellFormed(s, batch, n) && AllLegal(s, ops)
    ensures WellFormed(DoAll(s, ops), batch, n) && DoAll(s, ops).calling == s.calling
    decreases |ops|
  {
    hide WellFormed, Do, Legal;
    if |ops| > 0 {
      DoOk(s, batch, n, ops[0]);
      DoAllOk(Do(s, ops[0]), batch, n, ops[1..]);
    }
  }

  // ---------------------------------------------------------------- the batch

  /** No timer lies at the greatest address, so the sentry comes after every timer due at now. */
  lemma SentryIsLast(e: Entry, now: int)
    ensures Before(e, now, UINTPTR_MAX) <==> e.when <= now
  {
  }

  lemma ExpiredTimes(s: State, now: int)
    requires Sorted(s.list)
    ensures Expired(s, now) + GetExpired(s, now).list == s.list
    ensures forall e :: e in Expired(s, now) ==> e.when <= now && e in s.list
    ensures forall e :: e in GetExpired(s, now).list ==> e.when > now
  {
    var n := LowerBound(s.list, now, UINTPTR_MAX);
    LowerBoundSplits(s.list, now, UINTPTR_MAX);
    var batch, rest := Expired(s, now), GetExpired(s, now).list;
    assert batch == s.list[..n] && rest == s.list[n..];
    hide *;
    forall e | e in batch
      ensures e.when <= now && e in s.list
    {
      var i :| 0 <= i < n && s.list[i] == e;
      SentryIsLast(e, now);
    }
    forall e | e in rest
      ensures e.when > now
    {
      var i :| n <= i < |s.list| && s.list[i] == e;
      SentryIsLast(e, now);
    }
  }

  /** getExpired splits the list exactly at now, in order, and takes the same timers out of both sets. */
  lemma ExpiredSplits(s: State, now: int)
    requires Indexed(s)
    ensures Expired(s, now) + GetExpired(s, now).list == s.list
    ensures forall e :: e in Expired(s, now) ==> e.when <= now
    ensures forall e :: e in GetExpired(s, now).list ==> e.when > now
    ensures forall a :: a in s.heap ==>
              (KeyOf(s, a) in GetExpired(s, now).active <==>
               KeyOf(s, a) in s.active && EntryOf(s, a) !in Expired(s, now))
  {
    ExpiredTimes(s, now);
    hide Expired, KeysOf, Sorted;
    ExpiredKeys(s, Expired(s, now));
    hide Indexed;
  }

  lemma ExpiredKeys(s: State, batch: seq<Entry>)
    requires Indexed(s) && forall e :: e in batch ==> e in s.list
    ensures forall a :: a in s.heap ==>
              (KeyOf(s, a) in KeysOf(s, batch) <==> KeyOf(s, a) in s.active && EntryOf(s, a) in batch)
  {
    hide Sorted;
    forall a | a in s.heap
      ensures KeyOf(s, a) in KeysOf(s, batch) <==> KeyOf(s, a) in s.active && EntryOf(s, a) in batch
    {
      if EntryOf(s, a) in batch {
        var i :| 0 <= i < |batch| && batch[i] == EntryOf(s, a);
        assert KeyOf(s, batch[i].addr) == KeyOf(s, a);
      }
      if KeyOf(s, a) in KeysOf(s, batch) {
        var i :| 0 <= i < |batch| && KeyOf(s, batch[i].addr) == KeyOf(s, a);
        assert batch[i] in batch;
      }
    }
  }

  lemma {:induction false} SplitMembers(list: seq<Entry>, xs: seq<Entry>, ys: seq<Entry>)
    requires xs + ys == list && Sorted(list)
    ensures Sorted(xs) && Sorted(ys)
    ensures forall e :: e in list <==> e in xs || e in ys
    ensures forall e :: e in xs ==> e !in ys
  {
    assert forall i :: 0 <= i < |xs| ==> list[i] == xs[i];
    assert forall i :: 0 <= i < |ys| ==> list[|xs| + i] == ys[i];
    hide Sorted;
    forall e | e in xs
      ensures e !in ys
    {
      var i :| 0 <= i < |xs| && xs[i] == e;
      if e in ys {
        var j :| 0 <= j < |ys| && ys[j] == e;
        SortedDistinct(list, i, |xs| + j);
      }
    }
  }

  lemma SortedDistinct(list: seq<Entry>, i: nat, j: nat)
    requires Sorted(list) && i < j < |list|
    ensures list[i] != list[j]
  {
    assert Less(list[i], list[j]);
  }

  lemma GetExpiredIndexed(s: State, now: int)
    requires Indexed(s)
    ensures Indexed(GetExpired(s, now))
  {
    ExpiredSplits(s, now);
    var r := GetExpired(s, now);
    SplitMembers(s.list, Expired(s, now), r.list);
    hide Sorted, LowerBound, KeysOf, Expired;
    assert forall a :: At(r, a) == At(s, a);
  }

  lemma StartCallingOk(s: State, now: int)
    requires WellFormed(s, [], 0)
    ensures WellFormed(StartCalling(s, now), Expired(s, now), 0)
  {
    hide Numbered, Sorted;
    var c := s.(fd := None);
    SameWellFormed(s, c, [], 0);
    var g, r, batch := GetExpired(c, now), StartCalling(s, now), Expired(s, now);
    GetExpiredIndexed(c, now);
    IndexedDependsOn(g, r);
    BatchPlaced(c, r, now);
    SameTimersKeep(s, r, [], 0);
    assert RunOnce(r, batch, 0);
  }

  lemma BatchPlaced(s: State, r: State, now: int)
    requires Indexed(s) && Placed(s, []) && r.heap == s.heap && r.pending == s.pending
    requires r.active == GetExpired(s, now).active
    ensures Placed(r, Expired(s, now))
  {
    var batch := Expired(s, now);
    BatchDetached(s, r, now);
    BatchCovers(s, r, now);
    assert forall a :: At(r, a) == At(s, a);
    hide Expired, GetExpired, Sorted, Indexed;
  }

  lemma BatchDetached(s: State, r: State, now: int)
    requires Indexed(s) && Placed(s, []) && r.heap == s.heap && r.pending == s.pending
    requires r.active == GetExpired(s, now).active
    ensures var batch := Expired(s, now);
            && (forall i :: 0 <= i < |batch| ==>
                  var a := batch[i].addr; a in r.heap && KeyOf(r, a) !in r.active && a !in r.pending)
            && (forall i, j :: 0 <= i < j < |batch| ==> batch[i].addr != batch[j].addr)
  {
    ExpiredSplits(s, now);
    var batch := Expired(s, now);
    SplitMembers(s.list, batch, GetExpired(s, now).list);
    assert forall a :: At(r, a) == At(s, a);
    hide Expired, GetExpired, Sorted;
    forall i | 0 <= i < |batch|
      ensures var a := batch[i].addr; a in r.heap && KeyOf(r, a) !in r.active && a !in r.pending
    {
      assert batch[i] in batch;
    }
    forall i, j | 0 <= i < j < |batch|
      ensures batch[i].addr != batch[j].addr
    {
      assert batch[i] in batch && batch[j] in batch;
      SortedDistinct(batch, i, j);
    }
  }

  lemma BatchCovers(s: State, r: State, now: int)
    requires Indexed(s) && Placed(s, []) && r.heap == s.heap && r.pending == s.pending
    requires r.active == GetExpired(s, now).active
    ensures var batch := Expired(s, now);
            forall a :: a in r.heap ==>
              KeyOf(r, a) in r.active || a in r.pending || exists i :: 0 <= i < |batch| && batch[i].addr == a
  {
    ExpiredSplits(s, now);
    var batch := Expired(s, now);
    assert forall a :: At(r, a) == At(s, a);
    hide Expired, GetExpired, Sorted;
    forall a | a in r.heap && KeyOf(r, a) !in r.active && a !in r.pending
      ensures exists i :: 0 <= i < |batch| && batch[i].addr == a
    {
      assert KeyOf(s, a) in s.active && EntryOf(s, a) in batch;
      var i :| 0 <= i < |batch| && batch[i] == EntryOf(s, a);
    }
  }

  lemma RunOneOk(s: State, batch: seq<Entry>, n: nat)
    requires WellFormed(s, batch, n) && n < |batch|
    ensures WellFormed(RunOne(s, batch[n]), batch, n + 1)
  {
    var r, a := RunOne(s, batch[n]), batch[n].addr;
    assert !HasRun(batch, n, a) && a in s.heap && At(s, a) == s.heap[a] by {
      hide Indexed, Numbered, RunOnce;
    }
    hide Indexed, RunOnce, Placed, Numbered;
    IndexedDependsOn(s, r);
    PlacedDependsOn(s, r, batch);
    NumberedDependsOn(s, r);
    RunOneHistory(s, r, batch, n, a);
  }

  lemma PlacedDependsOn(s: State, r: State, batch: seq<Entry>)
    requires r.heap == s.heap && r.pending == s.pending && r.active == s.active
    ensures Placed(s, batch) ==> Placed(r, batch)
  {
    assert forall b :: At(r, b) == At(s, b);
  }

  lemma NumberedDependsOn(s: State, r: State)
    requires r.heap == s.heap && r.freed == s.freed && r.created == s.created
    ensures Numbered(s) ==> Numbered(r)
  {
    if Numbered(s) {
      forall m | 1 <= m <= r.created && m !in r.freed
        ensures LiveSequence(r, m)
      {
        assert LiveSequence(s, m);
      }
    }
  }

  lemma RunOneHistory(s: State, r: State, batch: seq<Entry>, n: nat, a: Addr)
    requires RunOnce(s, batch, n) && Numbered(s) && n < |batch|
    requires a == batch[n].addr && a in s.heap && !HasRun(batch, n, a)
    requires r == s.(runs := s.runs + multiset{s.heap[a].sequence})
    ensures RunOnce(r, batch, n + 1)
  {
    forall b | b in r.heap && !r.heap[b].repeat && !HasRun(batch, n + 1, b)
      ensures r.heap[b].sequence !in r.runs
    {
      assert b != a && !HasRun(batch, n, b);
    }
  }

  lemma {:induction false} RunBatchOk(s: State, batch: seq<Entry>, n: nat, script: seq<seq<Op>>)
    requires WellFormed(s, batch, n) && n <= |batch| && BatchLegal(s, batch[n..], script)
    ensures WellFormed(RunBatch(s, batch[n..], script), batch, |batch|)
    ensures RunBatch(s, batch[n..], script).calling == s.calling
    decreases |batch| - n
  {
    hide WellFormed, DoAll, AllLegal;
    if n < |batch| {
      assert batch[n..][0] == batch[n] && batch[n..][1..] == batch[n + 1..];
      var s1 := RunOne(s, batch[n]);
      RunOneOk(s, batch, n);
      DoAllOk(s1, batch, n + 1, Script(script));
      RunBatchOk(DoAll(s1, Script(script)), batch, n + 1, Rest(script));
    } else {
      assert batch[n..] == [];
    }
  }

  /** The batch after its first timer was rescheduled or freed. */
  ghost predicate ResetStep(s: State, r: State, a: Addr) {
    && a in s.heap
    && (forall b :: b != a ==> At(r, b) == At(s, b) && (b in r.heap <==> b in s.heap))
    && r.pending == s.pending && r.oneShots == s.oneShots && r.runs == s.runs && r.created == s.created
    && (if a in r.heap
        then && r.heap[a].sequence == s.heap[a].sequence && r.heap[a].repeat && s.heap[a].repeat
             && r.active == s.active + {KeyOf(r, a)}
        else r.active == s.active)
  }

  lemma ResetOneOk(s: State, batch: seq<Entry>, now: int)
    requires WellFormed(s, batch, |batch|) && |batch| >= 1
    ensures WellFormed(ResetOne(s, batch[0], now), batch[1..], |batch| - 1)
  {
    hide Sorted, InsertSorted;
    var a, r := batch[0].addr, ResetOne(s, batch[0], now);
    assert a in s.heap && KeyOf(s, a) !in s.active && a !in s.pending;
    ResetOneIndexed(s, a, batch[0].when, now);
    ResetOneSteps(s, r, a, batch[0].when, now);
    hide Indexed;
    ResetNumbered(s, r, a);
    ResetPlaced(s, r, batch);
    ResetRunOnce(s, r, batch);
  }

  lemma ResetOneSteps(s: State, r: State, a: Addr, w: int, now: int)
    requires a in s.heap && r == ResetOne(s, Entry(w, a), now)
    ensures ResetStep(s, r, a)
    ensures if a in r.heap then r.freed == s.freed else r.freed == s.freed + multiset{s.heap[a].sequence}
  {
    hide InsertSorted;
  }

  lemma ResetOneIndexed(s: State, a: Addr, w: int, now: int)
    requires Indexed(s) && a in s.heap && KeyOf(s, a) !in s.active
    ensures Indexed(ResetOne(s, Entry(w, a), now))
  {
    hide Indexed, Insert;
    var timer := At(s, a);
    if timer.repeat && KeyOf(s, a) !in s.cancelled {
      var m := s.(heap := s.heap[a := timer.(expiration := now + timer.interval)]);
      DetachedIndexed(s, m, a);
      InsertIndexed(m, a);
    } else {
      DetachedIndexed(s, Free(s, a), a);
    }
  }

  /** Changing or freeing a timer that is not scheduled leaves the index sets right. */
  lemma DetachedIndexed(s: State, r: State, a: Addr)
    requires Indexed(s) && KeyOf(s, a) !in s.active && a in s.heap
    requires r.list == s.list && r.active == s.active
    requires forall b :: b != a ==> At(r, b) == At(s, b) && (b in r.heap <==> b in s.heap)
    requires a in r.heap ==> r.heap[a].sequence == s.heap[a].sequence
    ensures Indexed(r) && (a in r.heap ==> KeyOf(r, a) !in r.active)
  {
    hide Sorted;
  }

  lemma ResetNumbered(s: State, r: State, a: Addr)
    requires Numbered(s) && ResetStep(s, r, a)
    requires if a in r.heap then r.freed == s.freed else r.freed == s.freed + multiset{s.heap[a].sequence}
    ensures Numbered(r)
  {
    SameAt(s, r, a);
    if a in r.heap {
      RestartNumbered(s, r);
    } else {
      assert r.heap == s.heap - {a};
      FreeNumbered(s, r, a);
    }
  }

  lemma RestartNumbered(s: State, r: State)
    requires Numbered(s) && r.heap.Keys == s.heap.Keys
    requires forall b :: b in s.heap ==> r.heap[b].sequence == s.heap[b].sequence
    requires r.freed == s.freed && r.created == s.created
    ensures Numbered(r)
  {
    assert Bounded(r) by { hide FreedOnce, Complete; }
    assert Distinct(r) by { hide FreedOnce, Complete, Bounded; }
    forall m | 1 <= m <= r.created && m !in r.freed
      ensures LiveSequence(r, m)
    {
      hide Distinct, FreedOnce, Bounded;
      assert LiveSequence(s, m);
      var b :| b in s.heap && s.heap[b].sequence == m;
      assert b in r.heap;
    }
  }

  lemma ResetPlaced(s: State, r: State, batch: seq<Entry>)
    requires |batch| >= 1 && Placed(s, batch) && ResetStep(s, r, batch[0].addr)
    ensures Placed(r, batch[1..])
  {
    var rest, a := batch[1..], batch[0].addr;
    assert forall i :: 0 <= i < |rest| ==> rest[i] == batch[i + 1];
    forall b | b in r.heap && KeyOf(r, b) !in r.active && b !in r.pending
      ensures exists i :: 0 <= i < |rest| && rest[i].addr == b
    {
      assert b != a && KeyOf(r, b) == KeyOf(s, b);
      var i :| 0 <= i < |batch| && batch[i].addr == b;
      assert rest[i - 1].addr == b;
    }
  }

  lemma HasRunTail(batch: seq<Entry>, b: Addr)
    requires |batch| >= 1 && b != batch[0].addr
    ensures HasRun(batch, |batch|, b) ==> HasRun(batch[1..], |batch| - 1, b)
  {
    if HasRun(batch, |batch|, b) {
      var j :| 0 <= j < |batch| && batch[j].addr == b;
      assert batch[1..][j - 1].addr == b;
    }
  }

  lemma ResetRunOnce(s: State, r: State, batch: seq<Entry>)
    requires |batch| >= 1 && RunOnce(s, batch, |batch|) && ResetStep(s, r, batch[0].addr)
    ensures RunOnce(r, batch[1..], |batch| - 1)
  {
    SameAt(s, r, batch[0].addr);
    var rest, a := batch[1..], batch[0].addr;
    forall b | b in r.heap && !r.heap[b].repeat && !HasRun(rest, |rest|, b)
      ensures r.heap[b].sequence !in r.runs
    {
      assert b != a;
      HasRunTail(batch, b);
    }
  }

  lemma {:induction false} ResetAllOk(s: State, batch: seq<Entry>, now: int)
    requires WellFormed(s, batch, |batch|)
    ensures WellFormed(ResetAll(s, batch, now), [], 0)
    ensures ResetAll(s, batch, now).calling == s.calling
    decreases |batch|
  {
    hide WellFormed;
    if |batch| > 0 {
      ResetOneOk(s, batch, now);
      ResetAllOk(ResetOne(s, batch[0], now), batch[1..], now);
    }
  }

  lemma HandleReadOk(s: State, now: int, script: seq<seq<Op>>, time: int)
    requires WellFormed(s, [], 0) && EventLegal(s, Wakeup(now, script, time))
    ensures WellFormed(HandleRead(s, now, script, time), [], 0)
    ensures !HandleRead(s, now, script, time).calling
  {
    hide WellFormed, StartCalling, RunBatch, BatchLegal;
    var batch, s0 := Expired(s, now), StartCalling(s, now);
    StartCallingOk(s, now);
    assert batch[0..] == batch;
    RunBatchOk(s0, batch, 0, script);
    var called := RunBatch(s0, batch, script);
    SameWellFormed(called, called.(calling := false), batch, |batch|);
    ResetAllOk(called.(calling := false), batch, now);
    var r := ResetAll(called.(calling := false), batch, now);
    SameWellFormed(r, Reset(called.(calling := false), batch, now, time), [], 0);
  }
}
