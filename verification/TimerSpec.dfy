/** The timer queue as a function of its state. Addresses are reused after a timer is freed, so a
    timer is identified by its address together with its sequence number. */
module TimerSpec {
  import opened Wrappers

  const UINTPTR_MAX: nat := 0xFFFF_FFFF_FFFF_FFFF

  type Addr = a: nat | a < UINTPTR_MAX

  /** interval is the repeat interval truncated to microseconds; it may be 0 for a repeating timer. */
  datatype Timer = Timer(sequence: int, expiration: int, interval: nat, repeat: bool)

  datatype Entry = Entry(when: int, addr: Addr)

  datatype Key = Key(addr: Addr, sequence: int)

  datatype State = State(
    list: seq<Entry>,            // m_TimerList: ordered by (expiration, address)
    active: set<Key>,            // m_ActiveTimers
    cancelled: set<Key>,         // m_CancelTimers
    calling: bool,               // m_bCallingExpiredTimer
    heap: map<Addr, Timer>,      // the timers allocated and not yet freed
    pending: set<Addr>,          // allocated, addTimerInLoop not yet run
    created: nat,                // Timer::s_NumCreated
    fd: Option<int>,             // the timerfd's deadline, in absolute microseconds
    armedAt: int,                // when it was last armed
    oneShots: set<int>,          // sequences of the timers created without an interval
    runs: multiset<int>,         // how often the timer with a sequence was run
    freed: multiset<int>)        // how often the timer with a sequence was freed

  const INITIAL := State([], {}, {}, false, map[], {}, 0, None, 0, {}, multiset{}, multiset{})

  /** The timer a pointer refers to. */
  function At(s: State, a: Addr): Timer {
    if a in s.heap then s.heap[a] else Timer(0, 0, 0, false)
  }

  function KeyOf(s: State, a: Addr): Key {
    Key(a, At(s, a).sequence)
  }

  function EntryOf(s: State, a: Addr): Entry {
    Entry(At(s, a).expiration, a)
  }

  // ---------------------------------------------------------------- the ordered set

  predicate Before(x: Entry, when: int, addr: nat) {
    x.when < when || (x.when == when && x.addr < addr)
  }

  predicate Less(x: Entry, y: Entry) {
    Before(x, y.when, y.addr)
  }

  predicate Sorted(list: seq<Entry>) {
    forall i, j :: 0 <= i < j < |list| ==> Less(list[i], list[j])
  }

  /** std::set::lower_bound: the number of entries before (when, addr). */
  function LowerBound(list: seq<Entry>, when: int, addr: nat): (n: nat)
    ensures n <= |list|
  {
    if |list| == 0 || !Before(list[0], when, addr) then 0 else 1 + LowerBound(list[1..], when, addr)
  }

  function InsertSorted(list: seq<Entry>, e: Entry): seq<Entry> {
    var n := LowerBound(list, e.when, e.addr);
    list[..n] + [e] + list[n..]
  }

  function Erase(list: seq<Entry>, e: Entry): seq<Entry> {
    if |list| == 0 then []
    else if list[0] == e then list[1..]
    else [list[0]] + Erase(list[1..], e)
  }

  // ---------------------------------------------------------------- the timerfd

  const MICRO_SECOND_PER_SECOND: int := 1_000_000

  /** howMuchTimeFromNow: the relative time as seconds and nanoseconds, never below 100 us. */
  function HowMuchTimeFromNow(when: int, time: int): (int, int) {
    var micros := if when - time < 100 then 100 else when - time;
    (micros / MICRO_SECOND_PER_SECOND, (micros % MICRO_SECOND_PER_SECOND) * 1000)
  }

  function Arm(s: State, when: int, time: int): State {
    var (sec, nsec) := HowMuchTimeFromNow(when, time);
    s.(fd := Some(time + sec * MICRO_SECOND_PER_SECOND + nsec / 1000), armedAt := time)
  }

  /** No deadline is rounded by the conversion to seconds and nanoseconds, which is a proper one. */
  lemma ArmDeadline(s: State, when: int, time: int)
    ensures Arm(s, when, time).fd == Some(if when < time + 100 then time + 100 else when)
    ensures var (sec, nsec) := HowMuchTimeFromNow(when, time);
            && 0 <= nsec < 1_000_000_000
            && sec * 1_000_000_000 + nsec == 1000 * (if when < time + 100 then 100 else when - time)
  {
  }

  // ---------------------------------------------------------------- operations on the loop thread

  datatype Op =
    | New(addr: Addr, when: int, interval: nat, repeat: bool)  // new Timer(...), on any thread
    | Add(addr: Addr, time: int)                               // addTimerInLoop
    | Cancel(key: Key)                                         // cancelInLoop

  /** The allocator hands out free addresses; addTimerInLoop runs once for each new timer. */
  predicate Legal(s: State, op: Op) {
    match op
    case New(a, _, _, _) => a !in s.heap
    case Add(a, _) => a in s.pending
    case Cancel(_) => true
  }

  function NewTimer(s: State, a: Addr, when: int, interval: nat, repeat: bool): State {
    var n := s.created + 1;
    s.(heap := s.heap[a := Timer(n, when, interval, repeat)], pending := s.pending + {a}, created := n,
       oneShots := if repeat then s.oneShots else s.oneShots + {n})
  }

  function Insert(s: State, a: Addr): State {
    s.(list := InsertSorted(s.list, EntryOf(s, a)), active := s.active + {KeyOf(s, a)})
  }

  predicate EarliestChanges(s: State, a: Addr) {
    |s.list| == 0 || At(s, a).expiration < s.list[0].when
  }

  function AddTimerInLoop(s: State, a: Addr, time: int): State {
    var r := Insert(s, a).(pending := s.pending - {a});
    if EarliestChanges(s, a) then Arm(r, At(s, a).expiration, time) else r
  }

  function Free(s: State, a: Addr): State {
    s.(heap := s.heap - {a}, freed := s.freed + multiset{At(s, a).sequence})
  }

  function CancelInLoop(s: State, k: Key): State {
    if k in s.active then
      Free(s.(list := Erase(s.list, EntryOf(s, k.addr)), active := s.active - {k}), k.addr)
    else if s.calling then s.(cancelled := s.cancelled + {k})
    else s
  }

  function Do(s: State, op: Op): State {
    match op
    case New(a, when, interval, repeat) => NewTimer(s, a, when, interval, repeat)
    case Add(a, time) => AddTimerInLoop(s, a, time)
    case Cancel(k) => CancelInLoop(s, k)
  }

  function DoAll(s: State, ops: seq<Op>): State
    decreases |ops|
  {
    if |ops| == 0 then s else DoAll(Do(s, ops[0]), ops[1..])
  }

  predicate AllLegal(s: State, ops: seq<Op>)
    decreases |ops|
  {
    |ops| > 0 ==> Legal(s, ops[0]) && AllLegal(Do(s, ops[0]), ops[1..])
  }

  // ---------------------------------------------------------------- handleRead

  function Expired(s: State, now: int): seq<Entry> {
    s.list[..LowerBound(s.list, now, UINTPTR_MAX)]
  }

  function KeysOf(s: State, batch: seq<Entry>): set<Key> {
    set i | 0 <= i < |batch| :: KeyOf(s, batch[i].addr)
  }

  function GetExpired(s: State, now: int): State {
    s.(list := s.list[LowerBound(s.list, now, UINTPTR_MAX)..], active := s.active - KeysOf(s, Expired(s, now)))
  }

  /** The operations a callback performs; callbacks beyond the script do nothing. */
  function Script(script: seq<seq<Op>>): seq<Op> {
    if |script| > 0 then script[0] else []
  }

  function Rest(script: seq<seq<Op>>): seq<seq<Op>> {
    if |script| > 0 then script[1..] else []
  }

  function RunOne(s: State, e: Entry): State {
    s.(runs := s.runs + multiset{At(s, e.addr).sequence})
  }

  function RunBatch(s: State, batch: seq<Entry>, script: seq<seq<Op>>): State
    decreases |batch|
  {
    if |batch| == 0 then s
    else RunBatch(DoAll(RunOne(s, batch[0]), Script(script)), batch[1..], Rest(script))
  }

  predicate BatchLegal(s: State, batch: seq<Entry>, script: seq<seq<Op>>)
    decreases |batch|
  {
    |batch| > 0 ==>
      && AllLegal(RunOne(s, batch[0]), Script(script))
      && BatchLegal(DoAll(RunOne(s, batch[0]), Script(script)), batch[1..], Rest(script))
  }

  function ResetOne(s: State, e: Entry, now: int): State {
    var timer := At(s, e.addr);
    if timer.repeat && KeyOf(s, e.addr) !in s.cancelled then
      Insert(s.(heap := s.heap[e.addr := timer.(expiration := now + timer.interval)]), e.addr)
    else Free(s, e.addr)
  }

  function ResetAll(s: State, batch: seq<Entry>, now: int): State
    decreases |batch|
  {
    if |batch| == 0 then s else ResetAll(ResetOne(s, batch[0], now), batch[1..], now)
  }

  function Reset(s: State, batch: seq<Entry>, now: int, time: int): State {
    var r := ResetAll(s, batch, now);
    if |r.list| > 0 && At(r, r.list[0].addr).expiration > 0
    then Arm(r, At(r, r.list[0].addr).expiration, time) else r
  }

  /** The state in which the callbacks start. */
  function StartCalling(s: State, now: int): State {
    GetExpired(s.(fd := None), now).(calling := true, cancelled := {})
  }

  function HandleRead(s: State, now: int, script: seq<seq<Op>>, time: int): State {
    var batch := Expired(s, now);
    var called := RunBatch(StartCalling(s, now), batch, script);
    Reset(called.(calling := false), batch, now, time)
  }

  // ---------------------------------------------------------------- whole runs

  datatype Event =
    | Request(op: Op)
    | Wakeup(now: int, script: seq<seq<Op>>, time: int)

  /** The clock reads a time after the epoch, and the callbacks' operations are legal. */
  predicate EventLegal(s: State, ev: Event) {
    match ev
    case Request(op) => Legal(s, op)
    case Wakeup(now, script, _) => now > 0 && BatchLegal(StartCalling(s, now), Expired(s, now), script)
  }

  function Handle(s: State, ev: Event): State {
    match ev
    case Request(op) => Do(s, op)
    case Wakeup(now, script, time) => HandleRead(s, now, script, time)
  }

  function HandleAll(s: State, evs: seq<Event>): State
    decreases |evs|
  {
    if |evs| == 0 then s else HandleAll(Handle(s, evs[0]), evs[1..])
  }

  predicate RunLegal(s: State, evs: seq<Event>)
    decreases |evs|
  {
    |evs| > 0 ==> EventLegal(s, evs[0]) && RunLegal(Handle(s, evs[0]), evs[1..])
  }
}
