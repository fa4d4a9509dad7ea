/** The trusted clock that decides when an Object Lock retention has expired: a persisted high-water
    mark of the wall clock, carried forward by the monotonic clock. */
module Clocks {
  import opened Words

  const NS: int := 1_000_000_000
  const I64_MAX: int := 0x7FFF_FFFF_FFFF_FFFF
  const I64_MIN: int := -0x8000_0000_0000_0000

  predicate InI64(x: int) {
    I64_MIN <= x <= I64_MAX
  }

  function Saturate(x: int): int {
    if x > I64_MAX then I64_MAX else if x < I64_MIN then I64_MIN else x
  }

  /** Division that truncates toward zero. */
  function Seconds(ns: int): int {
    if ns >= 0 then ns / NS else -((-ns) / NS)
  }

  function Max(x: int, y: int): int {
    if x >= y then x else y
  }

  datatype TrustedClock = TrustedClock(lastWall: int, lastMono: int) {
    function TrustedNow(mono: int): int {
      Saturate(lastWall + Seconds(Saturate(mono - lastMono)))
    }

    function LockNow(wall: int, mono: int): int {
      Max(wall, TrustedNow(mono))
    }

    function Refresh(wall: int, mono: int): TrustedClock {
      TrustedClock(Max(wall, TrustedNow(mono)), mono)
    }
  }

  function RebaselineOnBoot(stored: Option<TrustedClock>, wall: int, mono: int): TrustedClock {
    match stored
    case None => TrustedClock(wall, mono)
    case Some(c) => TrustedClock(Max(wall, c.lastWall), mono)
  }

  predicate RetentionExpired(until: int, wall: int, trustedNow: int) {
    until <= Max(wall, trustedNow)
  }

  /** A refresh lowers the high-water mark if and only if the wall clock is behind it and the
      monotonic clock has gone back by a second or more. */
  lemma RefreshLowersIff(c: TrustedClock, wall: int, mono: int)
    requires InI64(c.lastWall) && InI64(c.lastMono) && InI64(wall) && InI64(mono)
    ensures c.Refresh(wall, mono).lastWall < c.lastWall <==>
      wall < c.lastWall && c.lastMono - mono >= NS && c.lastWall > I64_MIN
  {
  }

  // ---------- runs ----------

  /** What happens to the clock. Every reading carries the true time, in nanoseconds, at which it was taken. */
  datatype Event =
    | Sample(wall: int, mono: int, at: int, persisted: bool)
    | Reboot(wall: int, mono: int, at: int, persisted: bool)

  datatype World = World(clock: TrustedClock, stored: Option<TrustedClock>, at: int)

  /** Within one boot the monotonic clock does not go back; the wall clock may do anything. */
  predicate Legal(w: World, v: Event) {
    && InI64(v.wall) && InI64(v.mono)
    && (v.Sample? ==> v.mono >= w.clock.lastMono)
  }

  function After(w: World, v: Event): World {
    match v
    case Sample(wall, mono, at, persisted) =>
      var c := w.clock.Refresh(wall, mono);
      World(c, if persisted then Some(c) else w.stored, at)
    case Reboot(wall, mono, at, persisted) =>
      var c := RebaselineOnBoot(w.stored, wall, mono);
      World(c, if persisted then Some(c) else w.stored, at)
  }

  /** The running clock is never behind the stored one. */
  predicate Ok(w: World) {
    && InI64(w.clock.lastWall) && InI64(w.clock.lastMono)
    && (w.stored.Some? ==> InI64(w.stored.value.lastWall) && w.stored.value.lastWall <= w.clock.lastWall)
  }

  predicate RunLegal(w: World, run: seq<Event>)
    decreases |run|
  {
    run == [] || (Legal(w, run[0]) && RunLegal(After(w, run[0]), run[1..]))
  }

  function AfterAll(w: World, run: seq<Event>): World
    decreases |run|
  {
    if run == [] then w else AfterAll(After(w, run[0]), run[1..])
  }

  lemma StepKeepsMark(w: World, v: Event)
    requires Ok(w) && Legal(w, v)
    ensures Ok(After(w, v))
    ensures w.stored.Some? ==> After(w, v).stored.Some?
    ensures w.stored.Some? ==> w.stored.value.lastWall <= After(w, v).stored.value.lastWall
    ensures v.Sample? ==> w.clock.lastWall <= After(w, v).clock.lastWall
  {
  }

  /** Over any run of refreshes, wall-clock jumps in both directions and reboots, the stored mark never sinks. */
  lemma {:induction false} MarkNeverSinks(w: World, run: seq<Event>)
    requires Ok(w) && RunLegal(w, run)
    ensures Ok(AfterAll(w, run))
    ensures w.stored.Some? ==> AfterAll(w, run).stored.Some?
    ensures w.stored.Some? ==> w.stored.value.lastWall <= AfterAll(w, run).stored.value.lastWall
    decreases |run|
  {
    if run != [] {
      StepKeepsMark(w, run[0]);
      MarkNeverSinks(After(w, run[0]), run[1..]);
    }
  }

  /** The time by which locks are judged is never behind that of an earlier persisted refresh, and a
      retention that was expired then is expired at every later reading, reboots and rolled-back wall
      clocks notwithstanding. */
  lemma ExpiryIsFinal(w: World, v: Event, run: seq<Event>, wall: int, mono: int, until: int)
    requires Ok(w) && Legal(w, v) && v.Sample? && v.persisted
    requires RunLegal(After(w, v), run)
    requires var c := AfterAll(After(w, v), run).clock; InI64(wall) && InI64(mono) && mono >= c.lastMono
    ensures w.clock.LockNow(v.wall, v.mono) <= AfterAll(After(w, v), run).clock.LockNow(wall, mono)
    ensures RetentionExpired(until, v.wall, w.clock.TrustedNow(v.mono)) ==>
      RetentionExpired(until, wall, AfterAll(After(w, v), run).clock.TrustedNow(mono))
  {
    StepKeepsMark(w, v);
    MarkNeverSinks(After(w, v), run);
  }

  // ---------- no early expiry ----------

  /** The wall clock never runs ahead of true time, and the monotonic clock never runs fast. */
  predicate Honest(w: World, v: Event) {
    && v.at >= w.at
    && v.wall * NS <= v.at
    && (v.Sample? ==> v.mono - w.clock.lastMono <= v.at - w.at)
  }

  predicate RunHonest(w: World, run: seq<Event>)
    decreases |run|
  {
    run == [] || (Honest(w, run[0]) && RunHonest(After(w, run[0]), run[1..]))
  }

  /** Neither mark is ahead of true time. */
  predicate NotAhead(w: World) {
    && w.clock.lastWall * NS <= w.at
    && (w.stored.Some? ==> w.stored.value.lastWall * NS <= w.at)
  }

  lemma TrustedNotAhead(c: TrustedClock, mono: int, since: int, at: int)
    requires InI64(c.lastWall) && InI64(c.lastMono) && InI64(mono) && mono >= c.lastMono
    requires c.lastWall * NS <= since && mono - c.lastMono <= at - since
    ensures c.TrustedNow(mono) * NS <= at
  {
    var delta := Saturate(mono - c.lastMono);
    assert Seconds(delta) * NS <= delta <= mono - c.lastMono;
  }

  lemma StepNotAhead(w: World, v: Event)
    requires Ok(w) && Legal(w, v) && Honest(w, v) && NotAhead(w)
    ensures NotAhead(After(w, v))
  {
    if v.Sample? {
      TrustedNotAhead(w.clock, v.mono, w.at, v.at);
    }
  }

  lemma {:induction false} RunNotAhead(w: World, run: seq<Event>)
    requires Ok(w) && RunLegal(w, run) && RunHonest(w, run) && NotAhead(w)
    ensures Ok(AfterAll(w, run)) && NotAhead(AfterAll(w, run))
    decreases |run|
  {
    if run != [] {
      StepKeepsMark(w, run[0]);
      StepNotAhead(w, run[0]);
      RunNotAhead(After(w, run[0]), run[1..]);
    }
  }

  /** Under honest clocks no retention expires early: whenever it is found expired, true time has reached it. */
  lemma NoEarlyExpiry(w: World, run: seq<Event>, wall: int, mono: int, at: int, until: int)
    requires Ok(w) && RunLegal(w, run) && RunHonest(w, run) && NotAhead(w)
    requires var r := AfterAll(w, run);
      && Legal(r, Sample(wall, mono, at, false)) && Honest(r, Sample(wall, mono, at, false))
      && RetentionExpired(until, wall, r.clock.TrustedNow(mono))
    ensures until * NS <= at
  {
    RunNotAhead(w, run);
    var r := AfterAll(w, run);
    TrustedNotAhead(r.clock, mono, r.at, at);
  }

  // ---------- no standstill ----------

  /** A reading of the trusted clock that is within 64 bits. */
  predicate InRange(c: TrustedClock, mono: int) {
    && InI64(c.lastWall) && InI64(c.lastMono) && InI64(mono) && 0 <= mono - c.lastMono <= I64_MAX
    && c.lastWall * NS + (mono - c.lastMono) <= I64_MAX * NS
  }

  /** Between two refreshes the trusted clock advances by the whole seconds of the monotonic clock. */
  lemma TrustedAdvances(c: TrustedClock, mono: int)
    requires InRange(c, mono)
    ensures (c.TrustedNow(mono) - c.lastWall) * NS <= mono - c.lastMono < (c.TrustedNow(mono) - c.lastWall + 1) * NS
  {
    var delta := mono - c.lastMono;
    assert Seconds(delta) * NS <= delta < (Seconds(delta) + 1) * NS;
    assert (c.lastWall + Seconds(delta)) * NS <= I64_MAX * NS;
  }

  /** What an event makes of the mark: it is the wall clock or what was carried forward, whichever is later. */
  lemma MarkIsLater(w: World, v: Event)
    requires Ok(w) && Legal(w, v)
    ensures var mark := After(w, v).clock.lastWall;
      var carried := if v.Sample? then Some(w.clock.TrustedNow(v.mono))
                     else if w.stored.Some? then Some(w.stored.value.lastWall) else None;
      && mark >= v.wall && (carried.Some? ==> mark >= carried.value)
      && (mark == v.wall || Some(mark) == carried) && After(w, v).clock.lastMono == v.mono
  {
  }

  /** A lock is over as soon as either clock says so, and a refresh stores the time by which locks are judged. */
  lemma LockEnds(c: TrustedClock, wall: int, mono: int, until: int)
    ensures until <= c.LockNow(wall, mono) <==> until <= wall || until <= c.TrustedNow(mono)
    ensures RetentionExpired(until, wall, c.TrustedNow(mono)) <==> until <= c.LockNow(wall, mono)
    ensures c.Refresh(wall, mono).lastWall == c.LockNow(wall, mono)
  {
  }

  /** The events of one boot, whose monotonic clock stays within `limit`. */
  predicate OneBoot(run: seq<Event>, limit: int) {
    forall i :: 0 <= i < |run| ==> run[i].Sample? && run[i].mono <= limit
  }

  /** The clock has lost at most the given number of seconds on the monotonic clock, or is at its limit. */
  predicate KeepsUp(c: TrustedClock, d: TrustedClock, lost: nat) {
    d.lastWall == I64_MAX || (d.lastWall - c.lastWall + lost) * NS >= d.lastMono - c.lastMono
  }

  lemma RefreshKeepsUp(c: TrustedClock, wall: int, mono: int)
    requires InI64(c.lastWall) && InI64(c.lastMono) && InI64(wall) && InI64(mono) && 0 <= mono - c.lastMono <= I64_MAX
    ensures KeepsUp(c, c.Refresh(wall, mono), 1)
  {
    var delta := mono - c.lastMono;
    assert delta < (Seconds(delta) + 1) * NS;
  }

  lemma KeepsUpTwice(c: TrustedClock, d: TrustedClock, r: TrustedClock, lost: nat)
    requires KeepsUp(c, d, 1) && KeepsUp(d, r, lost) && d.lastWall <= r.lastWall <= I64_MAX
    ensures KeepsUp(c, r, lost + 1)
  {
  }

  lemma {:induction false} MarkNeverSinksInOneBoot(w: World, run: seq<Event>)
    requires Ok(w) && RunLegal(w, run) && forall i :: 0 <= i < |run| ==> run[i].Sample?
    ensures Ok(AfterAll(w, run)) && w.clock.lastWall <= AfterAll(w, run).clock.lastWall
    decreases |run|
  {
    if run != [] {
      StepKeepsMark(w, run[0]);
      MarkNeverSinksInOneBoot(After(w, run[0]), run[1..]);
    }
  }

  /** Within one boot the mark keeps up with the monotonic clock, less one second for each refresh, whatever
      the wall clock does. */
  lemma {:induction false} MarkKeepsUp(w: World, run: seq<Event>)
    requires Ok(w) && RunLegal(w, run) && OneBoot(run, w.clock.lastMono + I64_MAX)
    ensures KeepsUp(w.clock, AfterAll(w, run).clock, |run|) && Ok(AfterAll(w, run))
    ensures run != [] ==> AfterAll(w, run).clock.lastMono == run[|run| - 1].mono
    decreases |run|
  {
    if run != [] {
      var c, rest := After(w, run[0]), run[1..];
      RefreshKeepsUp(w.clock, run[0].wall, run[0].mono);
      StepKeepsMark(w, run[0]);
      assert forall i :: 0 <= i < |rest| ==> rest[i] == run[i + 1];
      MarkKeepsUp(c, rest);
      MarkNeverSinksInOneBoot(c, rest);
      KeepsUpTwice(w.clock, c.clock, AfterAll(c, rest).clock, |rest|);
    }
  }

  /** So every retention is found expired in the end: as soon as the monotonic clock has gone on for its
      remaining time and a second for each refresh, the last reading included. */
  lemma ExpiresInTheEnd(w: World, run: seq<Event>, wall: int, mono: int, until: int)
    requires Ok(w) && RunLegal(w, run) && OneBoot(run, w.clock.lastMono + I64_MAX) && until <= I64_MAX
    requires InI64(wall) && InI64(mono) && AfterAll(w, run).clock.lastMono <= mono <= w.clock.lastMono + I64_MAX
    requires mono - w.clock.lastMono >= (until - w.clock.lastWall + |run| + 1) * NS
    ensures RetentionExpired(until, wall, AfterAll(w, run).clock.TrustedNow(mono))
  {
    MarkKeepsUp(w, run);
    var c := AfterAll(w, run).clock;
    MonotonicGoesOn(w, run);
    RefreshKeepsUp(c, I64_MIN, mono);
    var last := c.Refresh(I64_MIN, mono);
    if c.lastWall < I64_MAX && last.lastWall < I64_MAX {
      assert (last.lastWall - w.clock.lastWall + |run| + 1) * NS >= mono - w.clock.lastMono;
    }
  }

  lemma {:induction false} MonotonicGoesOn(w: World, run: seq<Event>)
    requires Ok(w) && RunLegal(w, run) && forall i :: 0 <= i < |run| ==> run[i].Sample?
    ensures AfterAll(w, run).clock.lastMono >= w.clock.lastMono
    decreases |run|
  {
    if run != [] {
      StepKeepsMark(w, run[0]);
      MonotonicGoesOn(After(w, run[0]), run[1..]);
    }
  }
}
