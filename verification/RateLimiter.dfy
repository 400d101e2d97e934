/** internal/ssh/ratelimit.go: the spacing of command starts on one host.

    Time is an integer that never goes back, durations are integers in nanoseconds. The slots of
    the semaphore are part of ConnectionPool. */
module RateLimiter {

  const SECOND := 1_000_000_000
  const MAX_DELAY := 30 * SECOND

  datatype Bucket = Bucket(baseDelay: int, currentDelay: int, nextAllowedAt: int)

  function NewBucket(delay: int): Bucket {
    Bucket(delay, delay, 0)
  }

  /** The start time reserved at `now`. */
  function SlotAt(b: Bucket, now: int): int {
    (if now > b.nextAllowedAt then now else b.nextAllowedAt) + b.currentDelay
  }

  function Reserved(b: Bucket, now: int): Bucket {
    b.(nextAllowedAt := SlotAt(b, now))
  }

  function Failed(b: Bucket): Bucket {
    b.(currentDelay := if b.currentDelay * 2 > MAX_DELAY then MAX_DELAY else b.currentDelay * 2)
  }

  /** Go's division truncates toward zero; a delay above its base is halved down to the base. */
  function Recovered(b: Bucket): Bucket {
    if b.currentDelay <= b.baseDelay then b
    else
      var half := if b.currentDelay >= 0 then b.currentDelay / 2 else -(-b.currentDelay / 2);
      b.(currentDelay := if half < b.baseDelay then b.baseDelay else half)
  }

  class HostBucket {
    const baseDelay: int
    var currentDelay: int
    var nextAllowedAt: int

    ghost function View(): Bucket
      reads this
    {
      Bucket(baseDelay, currentDelay, nextAllowedAt)
    }

    constructor (delay: int)
      ensures View() == NewBucket(delay)
    {
      baseDelay, currentDelay, nextAllowedAt := delay, delay, 0;
    }

    /** The part of Acquire under the timing mutex. */
    method Reserve(now: int) returns (mySlot: int)
      modifies this`nextAllowedAt
      ensures mySlot == SlotAt(old(View()), now) && View() == Reserved(old(View()), now)
    {
      var base := nextAllowedAt;
      if now > base {
        base := now;
      }
      mySlot := base + currentDelay;
      nextAllowedAt := mySlot;
    }

    method OnTransportError()
      modifies this`currentDelay
      ensures View() == Failed(old(View()))
    {
      var newDelay := currentDelay * 2;
      if newDelay > MAX_DELAY {
        newDelay := MAX_DELAY;
      }
      currentDelay := newDelay;
    }

    method OnSuccess()
      modifies this`currentDelay
      ensures View() == Recovered(old(View()))
    {
      if currentDelay > baseDelay {
        var newDelay := if currentDelay >= 0 then currentDelay / 2 else -(-currentDelay / 2);
        if newDelay < baseDelay {
          newDelay := baseDelay;
        }
        currentDelay := newDelay;
      }
    }
  }

  // ----------------------------------------------------------------- runs

  /** A start is the end of the sleep for the i-th reserved slot; a cancelled slot is never used. */
  datatype Event =
    | Reserve(now: int)
    | TransportError
    | Success
    | Start(i: nat, now: int)
    | Cancel(i: nat)

  datatype Host = Host(bucket: Bucket, clock: int, slots: seq<int>, started: map<nat, int>, cancelled: set<nat>)

  function NewHost(delay: int): Host {
    Host(NewBucket(delay), 0, [], map[], {})
  }

  predicate Waiting(h: Host, i: nat) {
    i < |h.slots| && i !in h.started && i !in h.cancelled
  }

  predicate Enabled(h: Host, e: Event) {
    match e
    case Reserve(now) => now >= h.clock
    case TransportError => true
    case Success => true
    case Start(i, now) => Waiting(h, i) && now >= h.clock && now >= h.slots[i]
    case Cancel(i) => Waiting(h, i)
  }

  function Apply(h: Host, e: Event): Host
    requires Enabled(h, e)
  {
    match e
    case Reserve(now) => h.(bucket := Reserved(h.bucket, now), clock := now, slots := h.slots + [SlotAt(h.bucket, now)])
    case TransportError => h.(bucket := Failed(h.bucket))
    case Success => h.(bucket := Recovered(h.bucket))
    case Start(i, now) => h.(clock := now, started := h.started[i := now])
    case Cancel(i) => h.(cancelled := h.cancelled + {i})
  }

  predicate Run(h: Host, events: seq<Event>)
    decreases |events|
  {
    events == [] || (Enabled(h, events[0]) && Run(Apply(h, events[0]), events[1..]))
  }

  function After(h: Host, events: seq<Event>): Host
    requires Run(h, events)
    decreases |events|
  {
    if events == [] then h else After(Apply(h, events[0]), events[1..])
  }

  /** The earliest time of the i-th slot. */
  function Due(t0: int, delay: int, i: int): int {
    t0 + (i + 1) * delay
  }

  lemma DueNext(t0: int, delay: int, i: int)
    ensures Due(t0, delay, i) == Due(t0, delay, i - 1) + delay && Due(t0, delay, 0) == t0 + delay
  {
    assert (i + 1) * delay == i * delay + delay;
  }

  /** What every step keeps. `t0` is the time of the first reservation. */
  predicate Inv(h: Host, delay: int, t0: int) {
    && h.bucket.baseDelay == delay && delay <= h.bucket.currentDelay <= MAX_DELAY
    && (forall i :: 0 <= i < |h.slots| ==> h.slots[i] >= Due(t0, delay, i))
    && (forall i :: 0 < i < |h.slots| ==> h.slots[i] >= h.slots[i - 1] + delay)
    && (h.slots != [] ==> h.bucket.nextAllowedAt == h.slots[|h.slots| - 1] && t0 <= h.clock)
    && (forall i :: i in h.started ==> i < |h.slots| && h.started[i] >= h.slots[i])
  }

  lemma StepKeepsInv(h: Host, e: Event, delay: int, t0: int)
    requires 0 < delay <= MAX_DELAY && Inv(h, delay, t0) && Enabled(h, e)
    requires h.slots == [] && e.Reserve? ==> e.now == t0
    ensures Inv(Apply(h, e), delay, t0)
  {
    hide Due;
    DueNext(t0, delay, |h.slots|);
  }

  /** The time of the first reservation of a run; `t` when there is none. */
  function FirstReservation(events: seq<Event>, t: int): int {
    if events == [] then t else if events[0].Reserve? then events[0].now else FirstReservation(events[1..], t)
  }

  lemma {:induction false} RunKeepsInv(h: Host, events: seq<Event>, delay: int, t0: int)
    requires 0 < delay <= MAX_DELAY && Inv(h, delay, t0) && Run(h, events)
    requires h.slots == [] ==> t0 == FirstReservation(events, t0)
    ensures Inv(After(h, events), delay, t0)
    decreases |events|
  {
    if events != [] {
      StepKeepsInv(h, events[0], delay, t0);
      hide Inv;
      RunKeepsInv(Apply(h, events[0]), events[1..], delay, t0);
    }
  }

  lemma {:induction false} SpacedSlots(h: Host, delay: int, t0: int, i: nat, j: nat)
    requires Inv(h, delay, t0) && i <= j < |h.slots|
    ensures h.slots[j] - h.slots[i] >= (j - i) * delay
    decreases j
  {
    if i < j {
      SpacedSlots(h, delay, t0, i, j - 1);
      assert (j - i) * delay == (j - 1 - i) * delay + delay;
    }
  }

  /** Main result on delays: with 0 < Delay <= 30s, in every run, whatever errors, successes and
      cancellations occur, the delay stays between Delay and 30s, and reserved slots are at least
      Delay apart. */
  lemma DelaysHold(delay: int, events: seq<Event>)
    requires 0 < delay <= MAX_DELAY && Run(NewHost(delay), events)
    ensures var h := After(NewHost(delay), events);
            && delay <= h.bucket.currentDelay <= MAX_DELAY
            && forall i, j :: 0 <= i <= j < |h.slots| ==> h.slots[j] - h.slots[i] >= (j - i) * delay
  {
    var t0 := FirstReservation(events, 0);
    FirstIsFirst(events, 0);
    RunKeepsInv(NewHost(delay), events, delay, t0);
    var h := After(NewHost(delay), events);
    forall i, j | 0 <= i <= j < |h.slots| ensures h.slots[j] - h.slots[i] >= (j - i) * delay {
      SpacedSlots(h, delay, t0, i, j);
    }
  }

  lemma {:induction false} FirstIsFirst(events: seq<Event>, t: int)
    ensures FirstReservation(events, FirstReservation(events, t)) == FirstReservation(events, t)
  {
    if events != [] && !events[0].Reserve? {
      FirstIsFirst(events[1..], t);
    }
  }

  /** The starts at or before `t`. */
  function StartedBy(h: Host, t: int): set<nat> {
    set i | i in h.started && h.started[i] <= t
  }

  /** Main result on starts: by any time T at most (T - t0) / Delay commands have started. */
  lemma StartsAreSpaced(delay: int, events: seq<Event>, t: int)
    requires 0 < delay <= MAX_DELAY && Run(NewHost(delay), events)
    ensures var h := After(NewHost(delay), events);
            var t0 := FirstReservation(events, 0);
            StartedBy(h, t) != {} ==> |StartedBy(h, t)| * delay <= t - t0
  {
    var t0 := FirstReservation(events, 0);
    FirstIsFirst(events, 0);
    RunKeepsInv(NewHost(delay), events, delay, t0);
    var h := After(NewHost(delay), events);
    var s := StartedBy(h, t);
    if s != {} {
      var m := Largest(s);
      Bounded(s, m + 1);
      assert h.slots[m] >= t0 + (m + 1) * delay;
      Scales(|s|, m + 1, delay);
    }
  }

  lemma Scales(a: nat, b: nat, d: int)
    requires a <= b && d > 0
    ensures a * d <= b * d
  {
  }

  lemma {:induction false} Largest(s: set<nat>) returns (m: nat)
    requires s != {}
    ensures m in s && forall i :: i in s ==> i <= m
    decreases |s|
  {
    var x :| x in s;
    m := x;
    assert s == (s - {x}) + {x};
    if s - {x} != {} {
      var y := Largest(s - {x});
      m := if x > y then x else y;
    }
  }

  lemma {:induction false} Bounded(s: set<nat>, n: nat)
    requires forall i :: i in s ==> i < n
    ensures |s| <= n
    decreases n
  {
    if n > 0 {
      Bounded(s - {n - 1}, n - 1);
      if n - 1 in s {
        assert s == (s - {n - 1}) + {n - 1};
      } else {
        assert s - {n - 1} == s;
      }
    }
  }

  // ------------------------------------------------- no later than needed

  /** The times of the reservations of a run. */
  function Reservations(events: seq<Event>): seq<int> {
    if events == [] then [] else (if events[0].Reserve? then [events[0].now] else []) + Reservations(events[1..])
  }

  /** The i-th slot is the earliest time after which every caller since the j-th, waiting one delay each
      from when the j-th reserved, may start; and some caller's wait is what holds it. */
  predicate IsEarliest(slots: seq<int>, nows: seq<int>, delay: int, i: nat)
    requires i < |slots| == |nows|
  {
    && (forall j :: 0 <= j <= i ==> slots[i] >= Due(nows[j], delay, i - j))
    && (exists j :: 0 <= j <= i && slots[i] == Due(nows[j], delay, i - j))
  }

  predicate EarliestInv(h: Host, nows: seq<int>, delay: int) {
    && h.bucket.baseDelay == h.bucket.currentDelay == delay && |h.slots| == |nows|
    && (forall i :: 0 <= i < |nows| ==> nows[i] <= h.clock)
    && h.bucket.nextAllowedAt == (if h.slots == [] then 0 else h.slots[|h.slots| - 1]) && 0 <= h.clock
    && (forall i :: 0 <= i < |h.slots| ==> IsEarliest(h.slots, nows, delay, i))
  }

  lemma OneMoreEarliest(h: Host, nows: seq<int>, delay: int, now: int)
    requires EarliestInv(h, nows, delay) && now >= h.clock && delay > 0
    ensures EarliestInv(Apply(h, Reserve(now)), nows + [now], delay)
  {
    hide Due;
    var (z, more, n) := (Apply(h, Reserve(now)), nows + [now], |nows|);
    forall i | 0 <= i < n ensures IsEarliest(z.slots, more, delay, i) {
      assert IsEarliest(h.slots, nows, delay, i);
      var j :| 0 <= j <= i && h.slots[i] == Due(nows[j], delay, i - j);
      assert z.slots[i] == Due(more[j], delay, i - j);
    }
    DueNext(now, delay, 0);
    if n > 0 {
      assert IsEarliest(h.slots, nows, delay, n - 1);
      var last := h.slots[n - 1];
      forall j | 0 <= j <= n ensures z.slots[n] >= Due(more[j], delay, n - j) {
        DueNext(more[j], delay, n - j);
      }
      if now <= last {
        var j :| 0 <= j <= n - 1 && last == Due(nows[j], delay, n - 1 - j);
        DueNext(nows[j], delay, n - j);
        assert z.slots[n] == Due(more[j], delay, n - j);
      } else {
        assert z.slots[n] == Due(more[n], delay, n - n);
      }
    } else {
      assert z.slots[n] == Due(more[n], delay, n - n);
    }
    assert IsEarliest(z.slots, more, delay, n);
  }

  lemma {:induction false} RunIsEarliest(h: Host, nows: seq<int>, delay: int, events: seq<Event>)
    requires EarliestInv(h, nows, delay) && Run(h, events) && Errors(events) == 0 && delay > 0
    ensures EarliestInv(After(h, events), nows + Reservations(events), delay)
    decreases |events|
  {
    if events != [] {
      var (e, rest) := (events[0], events[1..]);
      if e.Reserve? {
        OneMoreEarliest(h, nows, delay, e.now);
        hide EarliestInv;
        assert Reservations(events) == [e.now] + Reservations(rest);
        RunIsEarliest(Apply(h, e), nows + [e.now], delay, rest);
        assert nows + [e.now] + Reservations(rest) == nows + Reservations(events);
      } else {
        OthersKeepEarliest(h, nows, delay, e);
        hide EarliestInv;
        RunIsEarliest(Apply(h, e), nows, delay, rest);
        assert [] + Reservations(rest) == Reservations(rest);
      }
    } else {
      assert nows + [] == nows;
    }
  }

  lemma OthersKeepEarliest(h: Host, nows: seq<int>, delay: int, e: Event)
    requires EarliestInv(h, nows, delay) && Enabled(h, e) && !e.Reserve? && !e.TransportError?
    ensures EarliestInv(Apply(h, e), nows, delay)
  {
    hide IsEarliest;
  }

  /** Main result on waits: without errors no slot is later than it has to be. The i-th is the greatest,
      over the callers j up to it, of the time the j-th reserved plus i - j + 1 delays. */
  lemma SlotsAreEarliest(delay: int, events: seq<Event>)
    requires 0 < delay && Run(NewHost(delay), events) && Errors(events) == 0
    ensures var (slots, nows) := (After(NewHost(delay), events).slots, Reservations(events));
            |slots| == |nows| && forall i :: 0 <= i < |slots| ==> IsEarliest(slots, nows, delay, i)
  {
    RunIsEarliest(NewHost(delay), [], delay, events);
    assert [] + Reservations(events) == Reservations(events);
  }

  // --------------------------------------------------- the cap on delays

  ghost predicate FloorHolds(delay: int) {
    forall events: seq<Event> :: Run(NewHost(delay), events) ==> After(NewHost(delay), events).bucket.currentDelay >= delay
  }

  /** The floor needs Delay <= 30s: above that, one transport error lowers the delay to the cap. */
  lemma FloorNeedsCap(delay: int)
    requires 0 < delay
    ensures FloorHolds(delay) <==> delay <= MAX_DELAY
  {
    if delay <= MAX_DELAY {
      forall events: seq<Event> | Run(NewHost(delay), events)
        ensures After(NewHost(delay), events).bucket.currentDelay >= delay
      {
        DelaysHold(delay, events);
      }
    } else {
      var events := [TransportError];
      var h := Apply(NewHost(delay), events[0]);
      assert events[1..] == [] && Run(h, events[1..]);
      assert Run(NewHost(delay), events);
      assert After(NewHost(delay), events) == After(h, []) == h;
    }
  }

  // ------------------------------------------------ doubling and halving

  function Pow2(n: nat): (p: nat)
    ensures p > 0
  {
    if n == 0 then 1 else 2 * Pow2(n - 1)
  }

  function Errors(events: seq<Event>): nat {
    if events == [] then 0 else (if events[0].TransportError? then 1 else 0) + Errors(events[1..])
  }

  function Successes(events: seq<Event>): nat {
    if events == [] then 0 else (if events[0].Success? then 1 else 0) + Successes(events[1..])
  }

  function Least(a: int, b: int): int {
    if a <= b then a else b
  }

  function Most(a: int, b: int): int {
    if a >= b then a else b
  }

  lemma DoublesAgain(d: int, n: nat)
    requires 0 <= d
    ensures d * Pow2(n + 1) == (2 * d) * Pow2(n) >= d * Pow2(n) >= d
  {
    assert d * (2 * Pow2(n)) == (2 * d) * Pow2(n);
    assert d * Pow2(n) >= d * 1;
  }

  /** Main result on errors: in a run without successes, n errors make the delay 2^n times what it was,
      and 30 seconds at most. */
  lemma {:induction false} ErrorsDouble(h: Host, events: seq<Event>)
    requires Run(h, events) && 0 <= h.bucket.currentDelay <= MAX_DELAY && Successes(events) == 0
    ensures After(h, events).bucket.currentDelay == Least(h.bucket.currentDelay * Pow2(Errors(events)), 30_000_000_000)
    ensures After(h, events).bucket.baseDelay == h.bucket.baseDelay
    decreases |events|
  {
    if events != [] {
      var (d, z) := (h.bucket.currentDelay, Apply(h, events[0]));
      ErrorsDouble(z, events[1..]);
      if events[0].TransportError? {
        var n := Errors(events[1..]);
        DoublesAgain(d, n);
        if 2 * d > MAX_DELAY {
          assert MAX_DELAY * Pow2(n) >= MAX_DELAY * 1;
          DoublesAgain(2 * d, n);
        }
      }
    }
  }

  /** `d` halved `n` times, rounded down each time. */
  function Halved(d: int, n: nat): int
    decreases n
  {
    if n == 0 then d else Halved(d / 2, n - 1)
  }

  lemma {:induction false} NoneLarger(d: int, n: nat)
    requires 0 <= d
    ensures 0 <= Halved(d, n) <= d
    decreases n
  {
    if n > 0 {
      NoneLarger(d / 2, n - 1);
    }
  }

  /** Main result on successes: in a run without errors, n successes halve the delay n times, down to the
      base delay. */
  lemma {:induction false} SuccessesHalve(h: Host, events: seq<Event>)
    requires Run(h, events) && 0 <= h.bucket.baseDelay <= h.bucket.currentDelay && Errors(events) == 0
    ensures After(h, events).bucket.currentDelay == Most(Halved(h.bucket.currentDelay, Successes(events)), h.bucket.baseDelay)
    ensures After(h, events).bucket.baseDelay == h.bucket.baseDelay
    decreases |events|
  {
    if events != [] {
      var (d, z) := (h.bucket.currentDelay, Apply(h, events[0]));
      SuccessesHalve(z, events[1..]);
      if events[0].Success? {
        var n := Successes(events[1..]);
        NoneLarger(d / 2, n);
        NoneLarger(h.bucket.baseDelay, n);
      }
    }
  }
}
