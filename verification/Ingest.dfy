/** The resumable ingest job: a cursor moves through the source bucket, key by key.

    Keys are numbered in their order; the cursor of a new job is 0, before every key. What the
    network, the budget and the administrator do is part of the input of a tick. */
module Ingests {
  import opened Words

  const FAILURE_LIST_CAP: nat := 100
  const CONSECUTIVE_ERROR_LIMIT: nat := 10

  datatype JobState = Submitted | Running | Paused | Cancelled | Completed | Failed

  datatype Kind = OnSource | OnObject

  datatype Failure = Failure(kind: Kind, key: nat)

  datatype Job = Job(
    state: JobState, lastKey: nat, listed: nat, copied: nat, skipped: nat, failed: nat, bytes: nat,
    consecutive: nat, failures: seq<Failure>)

  /** How the copy of one key ends. */
  datatype Fate = Vanished | HeadError | UpToDate | MatchError | Archived | GetError | Stored(size: nat) | StoreError

  /** What a tick meets at one key: the budget, the job as the administrator left it, and the fate of the copy. */
  datatype Visit = Visit(overdrawn: bool, latest: Option<JobState>, fate: Fate)

  function RecordFailure(job: Job, kind: Kind, key: nat): Job {
    var all := job.failures + [Failure(kind, key)];
    job.(failures := if |all| > FAILURE_LIST_CAP then all[|all| - FAILURE_LIST_CAP..] else all,
         failed := job.failed + 1)
  }

  function CopyOne(job: Job, key: nat, fate: Fate): Job {
    match fate
    case Vanished | Archived | StoreError => RecordFailure(job, OnObject, key)
    case HeadError | MatchError | GetError =>
      RecordFailure(job.(consecutive := job.consecutive + 1), OnObject, key)
    case UpToDate => job.(skipped := job.skipped + 1, consecutive := 0)
    case Stored(size) => job.(copied := job.copied + 1, bytes := job.bytes + size, consecutive := 0)
  }

  /** The cursor moves on whatever became of the key. */
  function Handle(job: Job, key: nat, fate: Fate): Job {
    var j := CopyOne(job, key, fate);
    j.(lastKey := key, listed := j.listed + 1)
  }

  /** How far a tick got: the job, the keys handled, and whether the page was short and walked to its end.
      A job that a visit finds deleted is not stored again. */
  datatype Progress = Progress(job: Job, handled: nat, short: bool, deleted: bool)

  function Walk(job: Job, keys: seq<nat>, visits: seq<Visit>, short: bool): Progress
    requires |visits| >= |keys|
    decreases |keys|
  {
    if keys == [] then Progress(job, 0, short, false)
    else if visits[0].overdrawn then Progress(job, 0, false, false)
    else match visits[0].latest
      case None => Progress(job, 0, short, true)
      case Some(latest) =>
        if latest == Paused || latest == Cancelled then Progress(job.(state := latest), 0, false, false)
        else
          var j := Handle(job, keys[0], visits[0].fate);
          if j.consecutive > CONSECUTIVE_ERROR_LIMIT then Progress(j.(state := Failed), 1, false, false)
          else
            var p := Walk(j, keys[1..], visits[1..], short);
            p.(handled := p.handled + 1)
  }

  function Settled(p: Progress): Job {
    if p.job.state == Running && p.short then p.job.(state := Completed) else p.job
  }

  /** What a tick leaves in the store. */
  function Left(p: Progress): Option<Job> {
    if p.deleted then None else Some(Settled(p))
  }

  function ListFailed(job: Job): Job {
    var j := RecordFailure(job.(consecutive := job.consecutive + 1), OnSource, 0);
    if j.consecutive > CONSECUTIVE_ERROR_LIMIT then j.(state := Failed) else j
  }

  function Started(job: Job): Job {
    if job.state == Submitted then job.(state := Running) else job
  }

  predicate Active(job: Job) {
    job.state == Submitted || job.state == Running
  }

  predicate Pending(stored: Option<Job>) {
    stored.Some? && Active(stored.value)
  }

  class IngestWorker {
    var stored: Option<Job>
    const batch: nat

    constructor (job: Job, batch: nat)
      ensures stored == Some(job) && this.batch == if batch < 1 then 1 else batch
    {
      stored := Some(job);
      this.batch := if batch < 1 then 1 else batch;
    }

    /** One tick; it has work to do only if a job is submitted or running. */
    method RunTick(listing: Option<seq<nat>>, visits: seq<Visit>) returns (handled: nat, more: bool)
      requires listing.Some? ==> |visits| >= |listing.value|
      modifies this
      ensures !Pending(old(stored)) ==> handled == 0 && !more && stored == old(stored)
      ensures Pending(old(stored)) && listing.None? ==>
        handled == 0 && more && stored == Some(ListFailed(Started(old(stored).value)))
      ensures Pending(old(stored)) && listing.Some? ==>
        var p := Walk(Started(old(stored).value), listing.value, visits, |listing.value| < batch);
        && handled == p.handled
        && stored == Left(p)
        && more == (!p.deleted && Settled(p).state == Running)
    {
      if stored.None? || !(stored.value.state == Submitted || stored.value.state == Running) {
        return 0, false;
      }
      var job := stored.value;
      if job.state == Submitted {
        job := job.(state := Running);
        stored := Some(job);
      }
      if listing.None? {
        job := job.(consecutive := job.consecutive + 1);
        job := RecordFailure(job, OnSource, 0);
        if job.consecutive > CONSECUTIVE_ERROR_LIMIT {
          job := job.(state := Failed);
        }
        stored := Some(job);
        return 0, true;
      }
      var p := WalkPage(job, listing.value, visits, |listing.value| < batch);
      handled := p.handled;
      if p.deleted {
        stored := None;
        return handled, false;
      }
      job := p.job;
      if job.state == Running && p.short {
        job := job.(state := Completed);
      }
      stored := Some(job);
      more := job.state == Running;
    }
  }

  /** One key of a walk. */
  lemma WalkFrom(job: Job, keys: seq<nat>, visits: seq<Visit>, short: bool, i: nat)
    requires |visits| >= |keys| && i < |keys|
    ensures var w, v := Walk(job, keys[i..], visits[i..], short), visits[i];
      && (v.overdrawn ==> w == Progress(job, 0, false, false))
      && (!v.overdrawn && v.latest.None? ==> w == Progress(job, 0, short, true))
      && (!v.overdrawn && v.latest.Some? && (v.latest.value == Paused || v.latest.value == Cancelled) ==>
          w == Progress(job.(state := v.latest.value), 0, false, false))
      && (Open(v) ==>
          var j := Handle(job, keys[i], v.fate);
          if j.consecutive > CONSECUTIVE_ERROR_LIMIT then w == Progress(j.(state := Failed), 1, false, false)
          else var q := Walk(j, keys[i + 1..], visits[i + 1..], short); w == q.(handled := q.handled + 1))
  {
    assert keys[i..][1..] == keys[i + 1..] && visits[i..][1..] == visits[i + 1..];
  }

  /** The loop over the keys of a page. */
  method WalkPage(start: Job, keys: seq<nat>, visits: seq<Visit>, page: bool) returns (p: Progress)
    requires |visits| >= |keys|
    ensures p == Walk(start, keys, visits, page)
  {
    var job, short, i := start, page, 0;
    assert keys[0..] == keys && visits[0..] == visits;
    while i < |keys|
      invariant 0 <= i <= |keys|
      invariant var q := Walk(job, keys[i..], visits[i..], short);
        Walk(start, keys, visits, page) == q.(handled := q.handled + i)
    {
      WalkFrom(job, keys, visits, short, i);
      var v := visits[i];
      if v.overdrawn {
        return Progress(job, i, false, false);
      }
      if v.latest.None? {
        return Progress(job, i, short, true);
      }
      if v.latest.value == Paused || v.latest.value == Cancelled {
        return Progress(job.(state := v.latest.value), i, false, false);
      }
      job := Handle(job, keys[i], v.fate);
      i := i + 1;
      if job.consecutive > CONSECUTIVE_ERROR_LIMIT {
        return Progress(job.(state := Failed), i, false, false);
      }
    }
    assert keys[i..] == [];
    p := Progress(job, i, short, false);
  }

  // ---------- one tick ----------

  /** A page of keys: ascending, behind the cursor. */
  ghost predicate IsPage(cursor: nat, keys: seq<nat>) {
    && (forall i :: 0 <= i < |keys| ==> keys[i] > cursor)
    && forall i, j :: 0 <= i < j < |keys| ==> keys[i] < keys[j]
  }

  /** Every key that was handled was copied, skipped or failed. */
  function Accounted(job: Job): nat {
    job.copied + job.skipped + job.failed
  }

  /** Where a tick leaves the cursor, and what it counts: exactly the handled keys, each once. */
  lemma {:induction false} WalkMoves(job: Job, keys: seq<nat>, visits: seq<Visit>, short: bool)
    requires |visits| >= |keys| && IsPage(job.lastKey, keys)
    ensures var p := Walk(job, keys, visits, short);
      && p.handled <= |keys|
      && p.job.lastKey == (if p.handled == 0 then job.lastKey else keys[p.handled - 1])
      && (p.handled > 0 ==> p.job.lastKey > job.lastKey)
      && p.job.listed == job.listed + p.handled
      && Accounted(p.job) == Accounted(job) + p.handled
      && p.job.bytes >= job.bytes
    decreases |keys|
  {
    if keys != [] && !visits[0].overdrawn && visits[0].latest.Some?
      && visits[0].latest.value != Paused && visits[0].latest.value != Cancelled
    {
      var j := Handle(job, keys[0], visits[0].fate);
      if j.consecutive <= CONSECUTIVE_ERROR_LIMIT {
        WalkMoves(j, keys[1..], visits[1..], short);
      }
    }
  }

  lemma {:induction false} FailureListIsBounded(job: Job, keys: seq<nat>, visits: seq<Visit>, short: bool)
    requires |visits| >= |keys| && |job.failures| <= FAILURE_LIST_CAP
    ensures |Walk(job, keys, visits, short).job.failures| <= FAILURE_LIST_CAP
    decreases |keys|
  {
    if keys != [] && !visits[0].overdrawn && visits[0].latest.Some?
      && visits[0].latest.value != Paused && visits[0].latest.value != Cancelled
    {
      var j := Handle(job, keys[0], visits[0].fate);
      if j.consecutive <= CONSECUTIVE_ERROR_LIMIT {
        FailureListIsBounded(j, keys[1..], visits[1..], short);
      }
    }
  }

  /** A visit that lets the walk go on to its key. */
  predicate Open(v: Visit) {
    !v.overdrawn && v.latest.Some? && v.latest.value != Paused && v.latest.value != Cancelled
  }

  /** A fate that does not add to the run of systemic errors. */
  predicate Harmless(f: Fate) {
    !(f.HeadError? || f.MatchError? || f.GetError?)
  }

  /** A tick without pauses, overdrafts or systemic errors handles its whole page. */
  lemma {:induction false} OpenWalk(job: Job, keys: seq<nat>, visits: seq<Visit>, short: bool)
    requires |visits| >= |keys| && job.consecutive <= CONSECUTIVE_ERROR_LIMIT
    requires forall i :: 0 <= i < |keys| ==> Open(visits[i]) && Harmless(visits[i].fate)
    ensures var p := Walk(job, keys, visits, short);
      p.handled == |keys| && p.short == short && !p.deleted && p.job.state == job.state &&
      p.job.consecutive <= CONSECUTIVE_ERROR_LIMIT
    decreases |keys|
  {
    if keys != [] {
      OpenWalk(Handle(job, keys[0], visits[0].fate), keys[1..], visits[1..], short);
    }
  }

  /** The run of systemic errors after the first `n` visits, counted from `start`. */
  function Streak(start: nat, visits: seq<Visit>, n: nat): nat
    requires n <= |visits|
    decreases n
  {
    if n == 0 then start
    else
      var f := visits[0].fate;
      Streak(if !Harmless(f) then start + 1 else if f.UpToDate? || f.Stored? then 0 else start, visits[1..], n - 1)
  }

  /** The walk goes on behind visit `i`. */
  predicate Passes(start: nat, visits: seq<Visit>, i: nat)
    requires i < |visits|
  {
    Open(visits[i]) && Streak(start, visits, i + 1) <= CONSECUTIVE_ERROR_LIMIT
  }

  /** Nothing stops the walk before visit `n`. */
  predicate Reaches(start: nat, visits: seq<Visit>, n: nat)
    requires n <= |visits|
  {
    forall i :: 0 <= i < n ==> Passes(start, visits, i)
  }

  /** A visit before the end of the page is reached within budget, and finds the job paused, cancelled
      or (None) deleted. */
  predicate Notices(start: nat, visits: seq<Visit>, n: nat, found: Option<JobState>)
    requires n < |visits|
  {
    Reaches(start, visits, n) && !visits[n].overdrawn && visits[n].latest == found
  }

  function StateOf(job: Option<Job>): Option<JobState> {
    if job.Some? then Some(job.value.state) else None
  }

  lemma PassesNext(start: nat, visits: seq<Visit>, i: nat)
    requires 0 < i < |visits|
    ensures Passes(start, visits, i) <==> Passes(Streak(start, visits, 1), visits[1..], i - 1)
  {
  }

  lemma ReachesNext(start: nat, visits: seq<Visit>, n: nat, next: nat)
    requires 0 < n <= |visits| && next == Streak(start, visits, 1)
    ensures Reaches(start, visits, n) <==> Passes(start, visits, 0) && Reaches(next, visits[1..], n - 1)
  {
    forall i | 0 < i < n ensures Passes(start, visits, i) <==> Passes(next, visits[1..], i - 1) {
      PassesNext(start, visits, i);
    }
    if Passes(start, visits, 0) && Reaches(next, visits[1..], n - 1) {
      forall i | 0 <= i < n ensures Passes(start, visits, i) {
        if i > 0 {
          assert Passes(next, visits[1..], i - 1);
        }
      }
    }
    if Reaches(start, visits, n) {
      forall i | 0 <= i < n - 1 ensures Passes(next, visits[1..], i) {
        assert Passes(start, visits, i + 1);
      }
    }
  }

  /** A pause, a cancellation or a deletion takes effect if and only if some visit notices it. */
  lemma {:induction false} NoticedIff(job: Job, keys: seq<nat>, visits: seq<Visit>, short: bool, found: Option<JobState>)
    requires |visits| >= |keys| && job.state == Running
    requires found in {None, Some(Paused), Some(Cancelled)}
    ensures StateOf(Left(Walk(job, keys, visits, short))) == found <==>
            exists n :: 0 <= n < |keys| && Notices(job.consecutive, visits, n, found)
    decreases |keys|
  {
    if keys != [] {
      var now := !visits[0].overdrawn && visits[0].latest == found;
      assert now <==> Notices(job.consecutive, visits, 0, found);
      if Open(visits[0]) {
        var j := Handle(job, keys[0], visits[0].fate);
        assert j.consecutive == Streak(job.consecutive, visits, 1);
        forall n | 0 < n < |keys|
          ensures Notices(job.consecutive, visits, n, found) <==>
                  j.consecutive <= CONSECUTIVE_ERROR_LIMIT && Notices(j.consecutive, visits[1..], n - 1, found)
        {
          ReachesNext(job.consecutive, visits, n, j.consecutive);
        }
        if j.consecutive <= CONSECUTIVE_ERROR_LIMIT {
          NoticedIff(j, keys[1..], visits[1..], short, found);
          if n :| 0 <= n < |keys[1..]| && Notices(j.consecutive, visits[1..], n, found) {
            assert Notices(job.consecutive, visits, n + 1, found);
          }
        }
      } else {
        forall n | 0 < n < |keys| ensures !Notices(job.consecutive, visits, n, found) {
          ReachesNext(job.consecutive, visits, n, Streak(job.consecutive, visits, 1));
        }
      }
    }
  }

  lemma EmptyWalk(job: Job, visits: seq<Visit>)
    ensures Walk(job, [], visits, true) == Progress(job, 0, true, false)
  {
  }

  /** A tick that overwrites a pause. The visit behind the last key is what the store holds when the
      tick ends: here the pause comes while the last key is copied, and the job is stored as completed. */
  lemma PauseInTheLastCopy(job: Job, key: nat, size: nat)
    requires job.state == Running
    ensures var visits := [Visit(false, Some(Running), Stored(size)), Visit(false, Some(Paused), UpToDate)];
      StateOf(Left(Walk(job, [key], visits, true))) == Some(Completed)
  {
    var visits := [Visit(false, Some(Running), Stored(size)), Visit(false, Some(Paused), UpToDate)];
    WalkFrom(job, [key], visits, true, 0);
    EmptyWalk(Handle(job, key, Stored(size)), visits[1..]);
  }

  /** The same behind a visit without budget, which does not read the job. */
  lemma PauseBehindOverdraft(job: Job, key: nat, fate: Fate)
    requires job.state == Running
    ensures StateOf(Left(Walk(job, [key], [Visit(true, Some(Paused), fate)], true))) == Some(Running)
  {
  }

  /** And behind the error that is one too many. */
  lemma PauseBehindErrors(job: Job, k: nat, l: nat, fate: Fate)
    requires job.state == Running && job.consecutive == CONSECUTIVE_ERROR_LIMIT
    ensures var visits := [Visit(false, Some(Running), GetError), Visit(false, Some(Paused), fate)];
      StateOf(Left(Walk(job, [k, l], visits, true))) == Some(Failed)
  {
    var j := Handle(job, k, GetError);
    assert j.consecutive == CONSECUTIVE_ERROR_LIMIT + 1;
  }

  // ---------- runs ----------

  /** The stored job, the keys that have ever been handled, and the failed listings so far. */
  datatype World = World(job: Job, handled: set<nat>, listErrors: nat)

  datatype Event =
    | Tick(visits: seq<Visit>)
    | ListError
    /** The process dies after `n` keys of a tick: they were handled, but nothing was stored. */
    | Crash(n: nat)
    | Admin(state: JobState)

  /** The first `limit` keys of the ascending source behind the cursor. */
  function Page(source: seq<nat>, cursor: nat, limit: nat): seq<nat> {
    if source == [] || limit == 0 then []
    else if source[0] <= cursor then Page(source[1..], cursor, limit)
    else [source[0]] + Page(source[1..], cursor, limit - 1)
  }

  function Firsts(keys: seq<nat>, n: nat): set<nat> {
    set i | 0 <= i < n && i < |keys| :: keys[i]
  }

  predicate Legal(source: seq<nat>, batch: nat, w: World, v: Event) {
    match v
    case Tick(visits) =>
      var page := Page(source, w.job.lastKey, batch);
      Active(w.job) && |visits| >= |page| && forall i :: 0 <= i < |visits| ==> visits[i].latest.Some?
    case ListError => Active(w.job)
    case Crash(n) => Active(w.job)
    case Admin(state) => state == Running || state == Paused || state == Cancelled
  }

  function After(source: seq<nat>, batch: nat, w: World, v: Event): World
    requires Legal(source, batch, w, v)
  {
    var page := Page(source, w.job.lastKey, batch);
    match v
    case Tick(visits) =>
      var p := Walk(Started(w.job), page, visits, |page| < batch);
      World(Settled(p), w.handled + Firsts(page, p.handled), w.listErrors)
    case ListError => World(ListFailed(Started(w.job)), w.handled, w.listErrors + 1)
    case Crash(n) => World(Started(w.job), w.handled + Firsts(page, n), w.listErrors)
    case Admin(state) => w.(job := w.job.(state := state))
  }

  ghost predicate Ascending(source: seq<nat>) {
    && (forall i :: 0 <= i < |source| ==> source[i] > 0)
    && forall i, j :: 0 <= i < j < |source| ==> source[i] < source[j]
  }

  /** No key is behind the cursor without having been handled; a completed job has handled them all;
      and the books balance. */
  ghost predicate Ok(source: seq<nat>, w: World) {
    && (forall k :: k in source && k <= w.job.lastKey ==> k in w.handled)
    && (w.job.state == Completed ==> forall k :: k in source ==> k in w.handled)
    && Accounted(w.job) == w.job.listed + w.listErrors
    && |w.job.failures| <= FAILURE_LIST_CAP
  }

  /** A page holds keys of the source behind the cursor, in order. */
  lemma {:induction false} PageIsSound(source: seq<nat>, cursor: nat, limit: nat)
    requires Ascending(source)
    ensures var page := Page(source, cursor, limit);
      |page| <= limit && (forall k :: k in page ==> k in source) && IsPage(cursor, page)
    decreases |source|
  {
    if source != [] && limit > 0 {
      var rest := source[1..];
      PageIsSound(rest, cursor, if source[0] <= cursor then limit else limit - 1);
      if source[0] > cursor {
        var tail := Page(rest, cursor, limit - 1);
        forall i | 0 <= i < |tail| ensures source[0] < tail[i] {
          assert tail[i] in rest;
        }
      }
    }
  }

  ghost predicate OnOrBehind(page: seq<nat>, limit: nat, k: nat) {
    k in page || (|page| == limit && forall i :: 0 <= i < |page| ==> page[i] < k)
  }

  /** A page misses no key: one behind the cursor that is not on it lies behind the page's last key,
      and there is none when the page is short. */
  lemma {:induction false} PageMissesNone(source: seq<nat>, cursor: nat, limit: nat, k: nat)
    requires Ascending(source) && k in source && k > cursor
    ensures OnOrBehind(Page(source, cursor, limit), limit, k)
    decreases |source|
  {
    if limit > 0 && k != source[0] {
      assert k in source[1..];
      PageMissesNone(source[1..], cursor, if source[0] <= cursor then limit else limit - 1, k);
    }
  }

  lemma PageIsComplete(source: seq<nat>, cursor: nat, limit: nat)
    requires Ascending(source)
    ensures var page := Page(source, cursor, limit);
      && IsPage(cursor, page) && |page| <= limit
      && (forall k :: k in page ==> k in source)
      && (forall k :: k in source && k > cursor ==> OnOrBehind(page, limit, k))
  {
    PageIsSound(source, cursor, limit);
    forall k | k in source && k > cursor ensures OnOrBehind(Page(source, cursor, limit), limit, k) {
      PageMissesNone(source, cursor, limit, k);
    }
  }

  lemma ReachedIsHandled(source: seq<nat>, cursor: nat, page: seq<nat>, limit: nat, n: nat, k: nat)
    requires Ascending(source) && page == Page(source, cursor, limit) && n <= |page|
    requires k in source && cursor < k && (n > 0 && k <= page[n - 1])
    ensures k in Firsts(page, n)
  {
    PageIsComplete(source, cursor, limit);
    if k in page {
      var i :| 0 <= i < |page| && page[i] == k;
      assert i < n;
    }
  }

  lemma {:induction false} ShortMeansAll(job: Job, keys: seq<nat>, visits: seq<Visit>, short: bool)
    requires |visits| >= |keys| && forall i :: 0 <= i < |visits| ==> visits[i].latest.Some?
    ensures var p := Walk(job, keys, visits, short);
      !p.deleted && (p.short ==> short && p.handled == |keys|)
    ensures job.state != Completed ==> Walk(job, keys, visits, short).job.state != Completed
    decreases |keys|
  {
    if keys != [] && Open(visits[0]) {
      var j := Handle(job, keys[0], visits[0].fate);
      if j.consecutive <= CONSECUTIVE_ERROR_LIMIT {
        ShortMeansAll(j, keys[1..], visits[1..], short);
      }
    }
  }

  lemma TickKeeps(source: seq<nat>, batch: nat, w: World, visits: seq<Visit>)
    requires Ascending(source) && batch > 0 && Ok(source, w) && Legal(source, batch, w, Tick(visits))
    ensures Ok(source, After(source, batch, w, Tick(visits)))
    ensures After(source, batch, w, Tick(visits)).job.lastKey >= w.job.lastKey
  {
    var page, job := Page(source, w.job.lastKey, batch), Started(w.job);
    var p := Walk(job, page, visits, |page| < batch);
    PageIsComplete(source, w.job.lastKey, batch);
    WalkMoves(job, page, visits, |page| < batch);
    FailureListIsBounded(job, page, visits, |page| < batch);
    ShortMeansAll(job, page, visits, |page| < batch);
    var r := After(source, batch, w, Tick(visits));
    forall k | k in source && k <= r.job.lastKey ensures k in r.handled {
      if k > w.job.lastKey {
        ReachedIsHandled(source, w.job.lastKey, page, batch, p.handled, k);
      }
    }
    if r.job.state == Completed {
      forall k | k in source ensures k in r.handled {
        if k > w.job.lastKey {
          assert k in page;
          var i :| 0 <= i < |page| && page[i] == k;
        }
      }
    }
  }

  lemma StepKeeps(source: seq<nat>, batch: nat, w: World, v: Event)
    requires Ascending(source) && batch > 0 && Ok(source, w) && Legal(source, batch, w, v)
    ensures Ok(source, After(source, batch, w, v))
    ensures After(source, batch, w, v).job.lastKey >= w.job.lastKey
    ensures w.handled <= After(source, batch, w, v).handled
  {
    if v.Tick? {
      TickKeeps(source, batch, w, v.visits);
    }
  }

  predicate RunLegal(source: seq<nat>, batch: nat, w: World, run: seq<Event>)
    decreases |run|
  {
    run == [] || (Legal(source, batch, w, run[0]) && RunLegal(source, batch, After(source, batch, w, run[0]), run[1..]))
  }

  function AfterAll(source: seq<nat>, batch: nat, w: World, run: seq<Event>): World
    requires RunLegal(source, batch, w, run)
    decreases |run|
  {
    if run == [] then w else AfterAll(source, batch, After(source, batch, w, run[0]), run[1..])
  }

  /** Over any run of ticks, list errors, crashes in mid-batch, pauses and resumptions: no key behind the
      cursor was missed, a completed job has handled every key, and every listed key and every failed
      listing is counted exactly once as copied, skipped or failed. */
  lemma {:induction false} NoKeyIsMissed(source: seq<nat>, batch: nat, w: World, run: seq<Event>)
    requires Ascending(source) && batch > 0 && Ok(source, w) && RunLegal(source, batch, w, run)
    ensures Ok(source, AfterAll(source, batch, w, run))
    ensures AfterAll(source, batch, w, run).job.lastKey >= w.job.lastKey
    decreases |run|
  {
    if run != [] {
      StepKeeps(source, batch, w, run[0]);
      NoKeyIsMissed(source, batch, After(source, batch, w, run[0]), run[1..]);
    }
  }

  // ---------- completion ----------

  /** The keys still ahead of the cursor. */
  function Ahead(source: seq<nat>, cursor: nat): nat {
    if source == [] then 0 else (if source[0] > cursor then 1 else 0) + Ahead(source[1..], cursor)
  }

  lemma {:induction false} AheadShrinks(source: seq<nat>, cursor: nat, further: nat, k: nat)
    requires cursor < k <= further && k in source
    ensures Ahead(source, further) < Ahead(source, cursor)
  {
    AheadMonotone(source[1..], cursor, further);
    if source[0] != k {
      AheadShrinks(source[1..], cursor, further, k);
    }
  }

  lemma {:induction false} AheadMonotone(source: seq<nat>, cursor: nat, further: nat)
    requires cursor <= further
    ensures Ahead(source, further) <= Ahead(source, cursor)
  {
    if source != [] {
      AheadMonotone(source[1..], cursor, further);
    }
  }

  /** A tick that nothing disturbs: no pause, no overdraft, no systemic error. */
  predicate Undisturbed(source: seq<nat>, batch: nat, w: World, visits: seq<Visit>) {
    var page := Page(source, w.job.lastKey, batch);
    && Legal(source, batch, w, Tick(visits)) && w.job.consecutive <= CONSECUTIVE_ERROR_LIMIT
    && forall i :: 0 <= i < |page| ==> Open(visits[i]) && Harmless(visits[i].fate)
  }

  /** Such a tick completes the job or leaves fewer keys ahead. */
  lemma TickProgresses(source: seq<nat>, batch: nat, w: World, visits: seq<Visit>)
    requires Ascending(source) && batch > 0 && Undisturbed(source, batch, w, visits)
    ensures var r := After(source, batch, w, Tick(visits));
      && r.job.consecutive <= CONSECUTIVE_ERROR_LIMIT
      && (r.job.state == Completed ||
          (r.job.state == Running && Ahead(source, r.job.lastKey) < Ahead(source, w.job.lastKey)))
  {
    var page, job := Page(source, w.job.lastKey, batch), Started(w.job);
    PageIsComplete(source, w.job.lastKey, batch);
    OpenWalk(job, page, visits, |page| < batch);
    WalkMoves(job, page, visits, |page| < batch);
    if |page| == batch {
      assert page[0] in page;
      AheadShrinks(source, w.job.lastKey, page[|page| - 1], page[0]);
    }
  }

  ghost predicate AllUndisturbed(source: seq<nat>, batch: nat, w: World, ticks: seq<seq<Visit>>)
    decreases |ticks|
  {
    ticks == [] || w.job.state == Completed ||
    (Undisturbed(source, batch, w, ticks[0]) &&
     AllUndisturbed(source, batch, After(source, batch, w, Tick(ticks[0])), ticks[1..]))
  }

  /** Ticks until the job is completed. */
  ghost function Ticked(source: seq<nat>, batch: nat, w: World, ticks: seq<seq<Visit>>): World
    requires AllUndisturbed(source, batch, w, ticks)
    decreases |ticks|
  {
    if ticks == [] || w.job.state == Completed then w
    else Ticked(source, batch, After(source, batch, w, Tick(ticks[0])), ticks[1..])
  }

  /** On a fixed source, undisturbed ticks complete the job, one more than there are keys ahead at most,
      and then every key has been handled. */
  lemma {:induction false} TicksComplete(source: seq<nat>, batch: nat, w: World, ticks: seq<seq<Visit>>)
    requires Ascending(source) && batch > 0 && Ok(source, w)
    requires AllUndisturbed(source, batch, w, ticks) && |ticks| > Ahead(source, w.job.lastKey)
    ensures var r := Ticked(source, batch, w, ticks);
      r.job.state == Completed && forall k :: k in source ==> k in r.handled
    decreases |ticks|
  {
    if w.job.state != Completed {
      TickProgresses(source, batch, w, ticks[0]);
      TickKeeps(source, batch, w, ticks[0]);
      if After(source, batch, w, Tick(ticks[0])).job.state != Completed {
        TicksComplete(source, batch, After(source, batch, w, Tick(ticks[0])), ticks[1..]);
      }
    }
  }

  // ---------- what a tick counts ----------

  datatype Outcome = WasCopied | WasSkipped | HasFailed

  function OutcomeOf(f: Fate): Outcome {
    if f.Stored? then WasCopied else if f.UpToDate? then WasSkipped else HasFailed
  }

  /** How many of the first `n` visits end that way. */
  function Times(visits: seq<Visit>, n: nat, o: Outcome): nat
    requires n <= |visits|
  {
    if n == 0 then 0 else (if OutcomeOf(visits[0].fate) == o then 1 else 0) + Times(visits[1..], n - 1, o)
  }

  function Sizes(visits: seq<Visit>, n: nat): nat
    requires n <= |visits|
  {
    if n == 0 then 0 else (if visits[0].fate.Stored? then visits[0].fate.size else 0) + Sizes(visits[1..], n - 1)
  }

  /** The failures among the first `n` keys, in order. */
  function FailuresOf(keys: seq<nat>, visits: seq<Visit>, n: nat): seq<Failure>
    requires n <= |keys| <= |visits|
  {
    if n == 0 then []
    else (if OutcomeOf(visits[0].fate) == HasFailed then [Failure(OnObject, keys[0])] else []) +
         FailuresOf(keys[1..], visits[1..], n - 1)
  }

  function LastHundred(all: seq<Failure>): seq<Failure> {
    if |all| > 100 then all[|all| - 100..] else all
  }

  lemma LastOfLast(a: seq<Failure>, b: seq<Failure>)
    ensures LastHundred(LastHundred(a) + b) == LastHundred(a + b)
  {
  }

  /** The job with the counts of the first `n` visits. */
  ghost predicate Counted(job: Job, r: Job, keys: seq<nat>, visits: seq<Visit>, n: nat)
    requires n <= |keys| <= |visits|
  {
    && r.copied == job.copied + Times(visits, n, WasCopied)
    && r.skipped == job.skipped + Times(visits, n, WasSkipped)
    && r.failed == job.failed + Times(visits, n, HasFailed)
    && r.bytes == job.bytes + Sizes(visits, n)
    && r.consecutive == Streak(job.consecutive, visits, n)
    && r.failures == LastHundred(job.failures + FailuresOf(keys, visits, n))
  }

  lemma CountsOne(job: Job, keys: seq<nat>, visits: seq<Visit>)
    requires 1 <= |keys| <= |visits| && |job.failures| <= 100
    ensures var j, f := Handle(job, keys[0], visits[0].fate), visits[0].fate;
      && j.copied == job.copied + (if OutcomeOf(f) == WasCopied then 1 else 0)
      && j.skipped == job.skipped + (if OutcomeOf(f) == WasSkipped then 1 else 0)
      && j.failed == job.failed + (if OutcomeOf(f) == HasFailed then 1 else 0)
      && j.bytes == job.bytes + (if f.Stored? then f.size else 0)
      && j.consecutive == Streak(job.consecutive, visits, 1) && |j.failures| <= 100
      && j.failures == LastHundred(job.failures + (if OutcomeOf(f) == HasFailed then [Failure(OnObject, keys[0])] else []))
  {
  }

  lemma CountsOn(job: Job, j: Job, r: Job, keys: seq<nat>, visits: seq<Visit>, n: nat)
    requires 1 <= n <= |keys| <= |visits| && |job.failures| <= 100 && j == Handle(job, keys[0], visits[0].fate)
    requires Counted(j, r, keys[1..], visits[1..], n - 1)
    ensures Counted(job, r, keys, visits, n)
  {
    CountsOne(job, keys, visits);
    var now := if OutcomeOf(visits[0].fate) == HasFailed then [Failure(OnObject, keys[0])] else [];
    var later := FailuresOf(keys[1..], visits[1..], n - 1);
    LastOfLast(job.failures + now, later);
    assert job.failures + now + later == job.failures + (now + later);
  }

  /** What stops a walk behind `n` keys, and what it leaves: too many errors in a row fail the job, a visit
      that finds it paused or cancelled takes that over, one that finds it deleted ends it, and one without
      budget leaves the rest for later. */
  ghost predicate Stops(job: Job, p: Progress, keys: seq<nat>, visits: seq<Visit>, short: bool)
    requires p.handled <= |keys| <= |visits|
  {
    var n := p.handled;
    && (forall i :: 0 <= i < n ==> Open(visits[i]))
    && (forall i :: 0 < i < n ==> Streak(job.consecutive, visits, i) <= 10)
    && if n > 0 && Streak(job.consecutive, visits, n) > 10 then p.job.state == Failed && !p.short && !p.deleted
       else if n == |keys| then p.job.state == job.state && p.short == short && !p.deleted
       else !Open(visits[n]) &&
            if visits[n].overdrawn then p.job.state == job.state && !p.short && !p.deleted
            else if visits[n].latest.None? then p.deleted
            else p.job.state == visits[n].latest.value && !p.short && !p.deleted
  }

  lemma StreakNext(start: nat, visits: seq<Visit>, i: nat)
    requires 0 < i <= |visits|
    ensures Streak(start, visits, i) == Streak(Streak(start, visits, 1), visits[1..], i - 1)
  {
  }

  lemma StopsOn(job: Job, j: Job, p: Progress, keys: seq<nat>, visits: seq<Visit>, short: bool)
    requires 1 <= |keys| <= |visits| && p.handled < |keys| && Open(visits[0]) && j == Handle(job, keys[0], visits[0].fate)
    requires j.consecutive == Streak(job.consecutive, visits, 1) <= 10
    requires Stops(j, p, keys[1..], visits[1..], short)
    ensures Stops(job, p.(handled := p.handled + 1), keys, visits, short)
  {
    var n := p.handled + 1;
    forall i | 0 < i <= n ensures Streak(job.consecutive, visits, i) == Streak(j.consecutive, visits[1..], i - 1) {
      StreakNext(job.consecutive, visits, i);
    }
    forall i | 0 <= i < n ensures Open(visits[i]) {
      assert i > 0 ==> visits[1..][i - 1] == visits[i];
    }
    assert n < |keys| ==> visits[1..][n - 1] == visits[n];
  }

  lemma StopsAtOnce(job: Job, keys: seq<nat>, visits: seq<Visit>, short: bool)
    requires |visits| >= |keys| && |job.failures| <= 100 && (keys == [] || !Open(visits[0]))
    ensures var p := Walk(job, keys, visits, short);
      && p.handled == 0 && Counted(job, p.job, keys, visits, 0) && Stops(job, p, keys, visits, short)
  {
  }

  lemma FailsAfterOne(job: Job, keys: seq<nat>, visits: seq<Visit>, short: bool)
    requires |visits| >= |keys| >= 1 && |job.failures| <= 100 && Open(visits[0])
    requires Handle(job, keys[0], visits[0].fate).consecutive > CONSECUTIVE_ERROR_LIMIT
    ensures var p := Walk(job, keys, visits, short);
      && p.handled == 1 && Counted(job, p.job, keys, visits, 1) && Stops(job, p, keys, visits, short)
  {
    var j := Handle(job, keys[0], visits[0].fate);
    CountsOne(job, keys, visits);
    assert Counted(j, j.(state := Failed), keys[1..], visits[1..], 0);
    CountsOn(job, j, j.(state := Failed), keys, visits, 1);
  }

  /** A tick counts each handled key as what became of it, lists the last hundred failures in order, and
      stops where the visits say. */
  lemma {:induction false} WalkCounts(job: Job, keys: seq<nat>, visits: seq<Visit>, short: bool)
    requires |visits| >= |keys| && |job.failures| <= 100
    ensures var p := Walk(job, keys, visits, short);
      && p.handled <= |keys| && Counted(job, p.job, keys, visits, p.handled) && Stops(job, p, keys, visits, short)
    decreases |keys|
  {
    if keys == [] || !Open(visits[0]) {
      StopsAtOnce(job, keys, visits, short);
    } else {
      var j := Handle(job, keys[0], visits[0].fate);
      CountsOne(job, keys, visits);
      if j.consecutive <= CONSECUTIVE_ERROR_LIMIT {
        var p := Walk(j, keys[1..], visits[1..], short);
        WalkCounts(j, keys[1..], visits[1..], short);
        CountsOn(job, j, p.job, keys, visits, p.handled + 1);
        StopsOn(job, j, p, keys, visits, short);
      } else {
        FailsAfterOne(job, keys, visits, short);
      }
    }
  }

  /** A failed listing counts as a failure of the source, and as one more error in a row. */
  lemma ListFailureCounts(job: Job)
    ensures var j := ListFailed(job);
      && j.failed == job.failed + 1 && j.consecutive == job.consecutive + 1
      && (|job.failures| <= 100 ==> j.failures == LastHundred(job.failures + [Failure(OnSource, 0)]))
      && j.state == (if job.consecutive >= 10 then Failed else job.state)
      && j == job.(failed := j.failed, consecutive := j.consecutive, failures := j.failures, state := j.state)
  {
  }

  /** Listings that keep failing fail the job, at the eleventh error in a row and not before. */
  lemma {:induction false} ListErrorsFail(source: seq<nat>, batch: nat, w: World, run: seq<Event>)
    requires Active(w.job) && w.job.consecutive + |run| <= 11 && forall i :: 0 <= i < |run| ==> run[i] == ListError
    ensures RunLegal(source, batch, w, run)
    ensures var r := AfterAll(source, batch, w, run);
      && r.job.consecutive == w.job.consecutive + |run| && r.job.failed == w.job.failed + |run|
      && (run != [] ==> r.job.state == if r.job.consecutive == 11 then Failed else Running)
    decreases |run|
  {
    if run != [] {
      assert run[0] == ListError;
      var c := After(source, batch, w, ListError);
      if |run| > 1 {
        assert forall i :: 0 <= i < |run[1..]| ==> run[1..][i] == run[i + 1];
        ListErrorsFail(source, batch, c, run[1..]);
      } else {
        assert run[1..] == [];
      }
    }
  }
}
