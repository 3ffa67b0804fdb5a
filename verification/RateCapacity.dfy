// How much the rate limiter really lets through. A window's own count forgets
// a session that is evicted after 300 idle seconds, so over a stretch longer
// than that a session may pass several times what the window allows; how often
// depends on the interval of the cleanup thread. The largest number any run can
// reach is computed exactly, and with it exactly the configurations whose limits
// hold of every run.
module RateCapacity {
  import opened Common
  import opened RateLimit

  // ------------------------------------------------------------ the capacity

  /** The most an evictionless session can pass in `k` minutes, but for the day
      limit: in bursts at the minute limit, up to the hour limit each hour. */
  function Hourly(c: Config, k: nat): nat {
    if k < 60 then Min(LimitOf(c, Hour), k * LimitOf(c, Minute))
    else Min(LimitOf(c, Hour), 60 * LimitOf(c, Minute)) + Hourly(c, k - 60)
  }

  function Steady(c: Config, k: nat): nat {
    Min(LimitOf(c, Day), Hourly(c, k))
  }

  /** The least time from one eviction to the next, with `j` bursts in between:
      the last of them is followed by 300 idle seconds, and the cleanup thread
      keeps its interval. */
  function Cycle(c: Config, j: nat): nat {
    Max(SweepInterval(c), 240 + 60 * j)
  }

  function Left(r: nat, spent: nat): nat {
    if r > spent then r - spent else 0
  }

  /** The most that can pass in the `r` seconds before an eviction. */
  function Before(c: Config, r: nat): nat
    decreases r, 1, 0
  {
    if r <= 300 then 0 else BeforeUpTo(c, r, (r - 241) / 60)
  }

  /** The same with at most `j` bursts after the eviction before it. */
  function BeforeUpTo(c: Config, r: nat, j: nat): nat
    requires j > 0 ==> 240 + 60 * j < r
    decreases r, 0, j
  {
    if j == 0 then 0 else Max(BeforeUpTo(c, r, j - 1), Steady(c, j) + Before(c, Left(r, Cycle(c, j))))
  }

  /** The most that can pass in `n` seconds, evictions included. */
  function Best(c: Config, n: nat): nat {
    BestUpTo(c, n, (n + 59) / 60)
  }

  /** The same with at most `k` bursts after the last eviction. */
  function BestUpTo(c: Config, n: nat, k: nat): nat
    requires k > 0 ==> 60 * (k - 1) < n
    decreases k
  {
    if k == 0 then 0 else Max(BestUpTo(c, n, k - 1), Steady(c, k) + Before(c, n - 60 * (k - 1)))
  }

  lemma {:induction false} BeforeAtLeast(c: Config, r: nat, m: nat, j: nat)
    requires 1 <= j <= m && 240 + 60 * m < r
    ensures Steady(c, j) + Before(c, Left(r, Cycle(c, j))) <= BeforeUpTo(c, r, m)
    decreases m
  {
    if j < m { BeforeAtLeast(c, r, m - 1, j); }
  }

  lemma {:induction false} BeforeIsReached(c: Config, r: nat, m: nat) returns (j: nat)
    requires 1 <= m && 240 + 60 * m < r
    ensures 1 <= j <= m && BeforeUpTo(c, r, m) == Steady(c, j) + Before(c, Left(r, Cycle(c, j)))
    decreases m
  {
    j := m;
    if m > 1 && BeforeUpTo(c, r, m) != Steady(c, m) + Before(c, Left(r, Cycle(c, m))) {
      j := BeforeIsReached(c, r, m - 1);
    }
  }

  /** The capacity before an eviction: what some number of bursts reaches, and
      none exceeds. */
  lemma BeforeTakes(c: Config, r: nat, j: nat)
    requires 1 <= j && 240 + 60 * j < r
    ensures Steady(c, j) + Before(c, Left(r, Cycle(c, j))) <= Before(c, r)
  {
    BeforeAtLeast(c, r, (r - 241) / 60, j);
  }

  lemma BeforeTaken(c: Config, r: nat) returns (j: nat)
    requires r > 300
    ensures 1 <= j && 240 + 60 * j < r && Before(c, r) == Steady(c, j) + Before(c, Left(r, Cycle(c, j)))
  {
    j := BeforeIsReached(c, r, (r - 241) / 60);
  }

  lemma {:induction false} BeforeGrows(c: Config, r: nat, more: nat)
    requires r <= more
    ensures Before(c, r) <= Before(c, more)
    decreases r
  {
    if r > 300 {
      var j := BeforeTaken(c, r);
      var spent := Cycle(c, j);
      BeforeGrows(c, Left(r, spent), Left(more, spent));
      BeforeTakes(c, more, j);
    }
  }

  lemma {:induction false} BestAtLeast(c: Config, n: nat, m: nat, k: nat)
    requires 1 <= k <= m && 60 * (m - 1) < n
    ensures Steady(c, k) + Before(c, n - 60 * (k - 1)) <= BestUpTo(c, n, m)
    decreases m
  {
    if k < m { BestAtLeast(c, n, m - 1, k); }
  }

  lemma {:induction false} BestIsReached(c: Config, n: nat, m: nat) returns (k: nat)
    requires 1 <= m && 60 * (m - 1) < n
    ensures 1 <= k <= m && BestUpTo(c, n, m) == Steady(c, k) + Before(c, n - 60 * (k - 1))
    decreases m
  {
    k := m;
    if m > 1 && BestUpTo(c, n, m) != Steady(c, m) + Before(c, n - 60 * (m - 1)) {
      k := BestIsReached(c, n, m - 1);
    }
  }

  /** The same for the capacity. */
  lemma BestTakes(c: Config, n: nat, k: nat)
    requires 1 <= k && 60 * (k - 1) < n
    ensures Steady(c, k) + Before(c, n - 60 * (k - 1)) <= Best(c, n)
  {
    BestAtLeast(c, n, (n + 59) / 60, k);
  }

  lemma BestTaken(c: Config, n: nat) returns (k: nat)
    requires n > 0
    ensures 1 <= k && 60 * (k - 1) < n && Best(c, n) == Steady(c, k) + Before(c, n - 60 * (k - 1))
  {
    k := BestIsReached(c, n, (n + 59) / 60);
  }

  // ---------------------------------------------------------- counting times

  /** Elements inside one interval that lie inside another. */
  lemma {:induction false} WithinShift(times: seq<int>, to: int, size: nat, to': int, size': nat)
    requires forall i :: 0 <= i < |times| && to - size < times[i] <= to ==> to' - size' < times[i] <= to'
    ensures Within(times, to, size) <= Within(times, to', size')
  {
    if times != [] {
      WithinShift(times[..|times| - 1], to, size, to', size');
    }
  }

  lemma {:induction false} WithinAdd(times: seq<int>, to: int, a: nat, b: nat)
    ensures Within(times, to, a + b) == Within(times, to, a) + Within(times, to - a, b)
  {
    if times != [] { WithinAdd(times[..|times| - 1], to, a, b); }
  }

  lemma {:induction false} WithinNone(times: seq<int>, to: int, size: nat)
    requires forall i :: 0 <= i < |times| ==> !(to - size < times[i] <= to)
    ensures Within(times, to, size) == 0
  {
    if times != [] { WithinNone(times[..|times| - 1], to, size); }
  }

  lemma {:induction false} WithinConcat(a: seq<int>, b: seq<int>, to: int, size: nat)
    ensures Within(a + b, to, size) == Within(a, to, size) + Within(b, to, size)
  {
    if b == [] {
      assert a + b == a;
    } else {
      assert (a + b)[..|a + b| - 1] == a + b[..|b| - 1];
      WithinConcat(a, b[..|b| - 1], to, size);
    }
  }

  // ------------------------------------------------ one stretch of a session

  /** Every window bounds these times. */
  ghost predicate Calm(c: Config, times: seq<int>) {
    Bounded(c, times, Minute) && Bounded(c, times, Hour) && Bounded(c, times, Day)
  }

  lemma {:induction false} MinutesBound(c: Config, times: seq<int>, to: int, k: nat)
    requires Calm(c, times)
    ensures Within(times, to, 60 * k) <= k * LimitOf(c, Minute)
    decreases k
  {
    if k == 0 {
      WithinNone(times, to, 0);
    } else {
      WithinAdd(times, to, 60, 60 * (k - 1));
      MinutesBound(c, times, to - 60, k - 1);
      assert Within(times, to, SizeOf(Minute)) <= LimitOf(c, Minute);
      assert k * LimitOf(c, Minute) == LimitOf(c, Minute) + (k - 1) * LimitOf(c, Minute);
    }
  }

  lemma {:induction false} HourlyBound(c: Config, times: seq<int>, to: int, k: nat)
    requires Calm(c, times)
    ensures Within(times, to, 60 * k) <= Hourly(c, k)
    decreases k
  {
    assert Within(times, to, SizeOf(Hour)) <= LimitOf(c, Hour);
    if k < 60 {
      MinutesBound(c, times, to, k);
      WithinShift(times, to, 60 * k, to, SizeOf(Hour));
    } else {
      WithinAdd(times, to, 3600, 60 * (k - 60));
      MinutesBound(c, times, to, 60);
      HourlyBound(c, times, to - 3600, k - 60);
    }
  }

  lemma SteadyBound(c: Config, times: seq<int>, to: int, k: nat)
    requires Calm(c, times) && k <= 1440
    ensures Within(times, to, 60 * k) <= Steady(c, k)
  {
    HourlyBound(c, times, to, k);
    WithinShift(times, to, 60 * k, to, SizeOf(Day));
    assert Within(times, to, SizeOf(Day)) <= LimitOf(c, Day);
  }

  // -------------------------------------------- the stretches between evictions

  predicate Sorted(times: seq<int>) {
    forall i, j :: 0 <= i < j < |times| ==> times[i] <= times[j]
  }

  predicate AllAtMost(times: seq<int>, t: int) {
    forall i :: 0 <= i < |times| ==> times[i] <= t
  }

  predicate AllAtLeast(times: seq<int>, t: int) {
    forall i :: 0 <= i < |times| ==> times[i] >= t
  }

  /** The times between two evictions, and the sweep they come after. */
  datatype Stretch = Stretch(since: int, times: seq<int>)

  predicate AllBefore(es: seq<Stretch>, t: int) {
    forall i :: 0 <= i < |es| ==> AllAtMost(es[i].times, t)
  }

  /** The last sweep, if there was one, allows for another at time `t`. */
  predicate SweptBy(c: Config, es: seq<Stretch>, t: int) {
    es != [] ==> es[|es| - 1].since + SweepInterval(c) <= t
  }

  /** The last stretch is calm and starts with a sweep that found everything
      before it idle for 300 seconds. */
  ghost predicate LastFits(c: Config, es: seq<Stretch>)
    requires es != []
  {
    var before, last := es[..|es| - 1], es[|es| - 1];
    && Calm(c, last.times) && Sorted(last.times) && AllAtLeast(last.times, last.since)
    && AllBefore(before, last.since - IDLE_TIMEOUT) && SweptBy(c, before, last.since)
  }

  ghost predicate Spaced(c: Config, es: seq<Stretch>) {
    es == [] || (LastFits(c, es) && Spaced(c, es[..|es| - 1]))
  }

  function WithinAll(es: seq<Stretch>, to: int, size: nat): nat {
    if es == [] then 0 else WithinAll(es[..|es| - 1], to, size) + Within(es[|es| - 1].times, to, size)
  }

  /** The first time inside the interval, if there is one. */
  lemma {:induction false} FirstInside(times: seq<int>, to: int, size: nat) returns (i: nat)
    requires Sorted(times)
    ensures i <= |times|
    ensures i < |times| ==> to - size < times[i] <= to
    ensures i < |times| ==> forall j :: 0 <= j < i ==> times[j] <= to - size
    ensures i == |times| ==> Within(times, to, size) == 0
  {
    i := 0;
    while i < |times| && times[i] <= to - size
      invariant i <= |times| && forall j :: 0 <= j < i ==> times[j] <= to - size
    {
      i := i + 1;
    }
    if i < |times| && times[i] > to {
      assert forall j :: 0 <= j < |times| ==> !(to - size < times[j] <= to);
      i := |times|;
    }
    if i == |times| { WithinNone(times, to, size); }
  }

  /** What a stretch has inside the interval, from its first time there on. */
  lemma PartOfStretch(c: Config, times: seq<int>, i: nat, to: int, n: nat, end: int, k: nat)
    requires Calm(c, times) && Sorted(times) && i < |times| && k <= 1440
    requires forall j :: 0 <= j < i ==> times[j] <= to - n
    requires forall j :: 0 <= j < |times| && times[j] <= to ==> times[j] <= end
    requires end - 60 * k < times[i]
    ensures Within(times, to, n) <= Steady(c, k)
  {
    assert forall j :: i <= j < |times| ==> times[i] <= times[j];
    WithinShift(times, to, n, end, 60 * k);
    SteadyBound(c, times, end, k);
  }

  /** What passed in the interval up to 300 seconds before a sweep at `e`. */
  lemma {:induction false} BeforeBound(c: Config, es: seq<Stretch>, e: int, to: int, n: nat, r: nat)
    requires Spaced(c, es) && AllBefore(es, e - IDLE_TIMEOUT) && SweptBy(c, es, e)
    requires r <= DAY && e - (to - n) <= r
    ensures WithinAll(es, to, n) <= Before(c, r)
    decreases |es|
  {
    if es != [] {
      var rest, last := es[..|es| - 1], es[|es| - 1];
      var times := last.times;
      var i := FirstInside(times, to, n);
      if i == |times| {
        BeforeBound(c, rest, last.since, to, n, r);
      } else {
        var end := times[|times| - 1];
        assert times[i] <= end <= e - IDLE_TIMEOUT;
        var j := (end - times[i]) / 60 + 1;
        assert 60 * (j - 1) <= end - times[i] < 60 * j;
        PartOfStretch(c, times, i, to, n, end, j);
        var left := Left(r, Cycle(c, j));
        assert last.since <= times[i] && last.since + Cycle(c, j) <= e;
        BeforeBound(c, rest, last.since, to, n, left);
        BeforeTakes(c, r, j);
      }
    }
  }

  /** However the stretches fall, the capacity bounds what an interval holds. */
  lemma {:induction false} SpacedBound(c: Config, es: seq<Stretch>, to: int, n: nat)
    requires Spaced(c, es) && n <= DAY
    ensures WithinAll(es, to, n) <= Best(c, n)
    decreases |es|
  {
    if es != [] {
      var rest, last := es[..|es| - 1], es[|es| - 1];
      var times := last.times;
      var i := FirstInside(times, to, n);
      if i == |times| {
        SpacedBound(c, rest, to, n);
      } else {
        var k := (to - times[i]) / 60 + 1;
        assert 60 * (k - 1) <= to - times[i] < 60 * k;
        PartOfStretch(c, times, i, to, n, to, k);
        BeforeBound(c, rest, last.since, to, n, n - 60 * (k - 1));
        BestTakes(c, n, k);
      }
    }
  }

  // ------------------------------------------------- every run is spaced out

  /** The accepted times of `id`, cut where it is evicted; the last stretch is
      that of the session tracked now, if any. The first counts as coming after a
      sweep at `origin`. */
  function Stretches(c: Config, run: seq<Op>, id: string, origin: int): (es: seq<Stretch>)
    ensures es != []
  {
    if run == [] then [Stretch(origin, [])]
    else
      Continued(c, After(c, run[..|run| - 1]), Stretches(c, run[..|run| - 1], id, origin), run[|run| - 1], id)
  }

  /** One operation more. */
  function Continued(c: Config, m: Sessions, es: seq<Stretch>, op: Op, id: string): (r: seq<Stretch>)
    requires es != []
    ensures r != []
  {
    match op
    case DoCheck(i, now) =>
      if i == id && Check(c, m, id, now).1 == Allowed then Extended(es, now) else es
    case DoCleanup(now) => if id in m && id !in Cleaned(m, now) then es + [Stretch(now, [])] else es
  }

  function Extended(es: seq<Stretch>, t: int): seq<Stretch>
    requires es != []
  {
    var last := es[|es| - 1];
    es[..|es| - 1] + [last.(times := last.times + [t])]
  }

  lemma {:induction false} StretchesHoldAll(c: Config, run: seq<Op>, id: string, origin: int, to: int, size: nat)
    ensures WithinAll(Stretches(c, run, id, origin), to, size) == Within(Accepted(c, run, id), to, size)
  {
    if run != [] {
      var before, op := run[..|run| - 1], run[|run| - 1];
      StretchesHoldAll(c, before, id, origin, to, size);
      var es := Stretches(c, before, id, origin);
      match op
      case DoCheck(i, now) =>
        ExtendedHolds(es, now, to, size);
        WithinConcat(Accepted(c, before, id), [now], to, size);
      case DoCleanup(now) =>
        assert (es + [Stretch(now, [])])[..|es|] == es;
        WithinNone([], to, size);
    }
  }

  lemma {:induction false} ExtendedHolds(es: seq<Stretch>, now: int, to: int, size: nat)
    requires es != []
    ensures WithinAll(Extended(es, now), to, size) == WithinAll(es, to, size) + Within([now], to, size)
  {
    var grown := Extended(es, now);
    assert grown[..|grown| - 1] == es[..|es| - 1];
    WithinConcat(es[|es| - 1].times, [now], to, size);
  }

  /** Every window of the session counts these times. */
  ghost predicate AllCover(c: Config, s: Session, times: seq<int>, now: int) {
    Covers(c, s, Minute, times, now) && Covers(c, s, Hour, times, now) && Covers(c, s, Day, times, now)
  }

  /** What ties the stretches to the tracked sessions at time `now`. */
  ghost predicate Follows(c: Config, m: Sessions, es: seq<Stretch>, now: int, id: string) {
    && es != [] && Spaced(c, es)
    && var last := es[|es| - 1];
       last.since <= now &&
       if id in m then
         && m[id].lastActivity <= now && AllAtMost(last.times, m[id].lastActivity)
         && AllCover(c, m[id], last.times, now)
       else last.times == []
  }

  lemma {:induction false} FollowsLater(c: Config, m: Sessions, es: seq<Stretch>, now: int, later: int, id: string)
    requires Follows(c, m, es, now, id) && now <= later
    ensures Follows(c, m, es, later, id)
  {
  }

  lemma {:induction false} FollowsEviction(c: Config, m: Sessions, es: seq<Stretch>, now: int, id: string)
    requires Follows(c, m, es, now, id) && id in m && id !in Cleaned(m, now) && SweptBy(c, es, now)
    ensures Follows(c, Cleaned(m, now), es + [Stretch(now, [])], now, id)
  {
    var more := es + [Stretch(now, [])];
    assert more[..|more| - 1] == es;
    NothingIsCalm(c);
    forall i | 0 <= i < |es| ensures AllAtMost(es[i].times, now - IDLE_TIMEOUT) {
      if i < |es| - 1 { assert es[i] == es[..|es| - 1][i]; }
    }
  }

  lemma NothingIsCalm(c: Config)
    ensures Calm(c, [])
  {
  }

  lemma {:induction false} FollowsCleanup(c: Config, m: Sessions, es: seq<Stretch>, now: int, id: string)
    requires Follows(c, m, es, now, id) && (id in m <==> id in Cleaned(m, now))
    ensures Follows(c, Cleaned(m, now), es, now, id)
  {
    assert id in m ==> Cleaned(m, now)[id] == m[id];
  }

  lemma NewSessionCovers(c: Config, now: int)
    ensures AllCover(c, NewSession(c, now), [], now)
  {
  }

  lemma ChainedCoversAll(c: Config, s: Session, last: seq<int>, now: int)
    requires AllCover(c, s, last, now)
    ensures var (s', ok) := Chained(s, now);
      AllCover(c, s', if ok then last + [now] else last, now) && s'.lastActivity == now
  {
    ChainedCovers(c, s, Minute, last, now);
    ChainedCovers(c, s, Hour, last, now);
    ChainedCovers(c, s, Day, last, now);
  }

  lemma AcceptedStaysCalm(c: Config, s: Session, last: seq<int>, now: int)
    requires Calm(c, last) && AllCover(c, s, last, now) && Chained(s, now).1
    ensures Calm(c, last + [now])
  {
    StaysBounded(c, s, Minute, last, now);
    StaysBounded(c, s, Hour, last, now);
    StaysBounded(c, s, Day, last, now);
  }

  lemma StaysBounded(c: Config, s: Session, k: Kind, last: seq<int>, now: int)
    requires Bounded(c, last, k) && Covers(c, s, k, last, now) && Chained(s, now).1
    ensures Bounded(c, last + [now], k)
  {
    ChainedCovers(c, s, k, last, now);
    AcceptedFits(c, last, now, k);
  }

  lemma {:induction false} FollowsCheck(c: Config, m: Sessions, es: seq<Stretch>, now: int, id: string)
    requires c.enabled && Follows(c, m, es, now, id)
    ensures var (m', v) := Check(c, m, id, now);
      Follows(c, m', if v == Allowed then Extended(es, now) else es, now, id)
  {
    var v := Check(c, m, id, now).1;
    if v != TooManySessions {
      var s, last := if id in m then m[id] else NewSession(c, now), es[|es| - 1].times;
      if id !in m { NewSessionCovers(c, now); }
      ChainedCoversAll(c, s, last, now);
      if v == Allowed {
        AcceptedStaysCalm(c, s, last, now);
        FollowsAllowed(c, m[id := Chained(s, now).0], es, now, id);
      } else {
        FollowsRefused(c, m[id := Chained(s, now).0], es, now, id);
      }
    }
  }

  lemma {:induction false} FollowsAllowed(c: Config, m: Sessions, es: seq<Stretch>, now: int, id: string)
    requires es != [] && Spaced(c, es) && es[|es| - 1].since <= now
    requires Calm(c, es[|es| - 1].times + [now]) && AllAtMost(es[|es| - 1].times, now)
    requires id in m && m[id].lastActivity == now && AllCover(c, m[id], es[|es| - 1].times + [now], now)
    ensures Follows(c, m, Extended(es, now), now, id)
  {
    var grown := Extended(es, now);
    assert grown[..|grown| - 1] == es[..|es| - 1];
  }

  lemma {:induction false} FollowsRefused(c: Config, m: Sessions, es: seq<Stretch>, now: int, id: string)
    requires es != [] && Spaced(c, es) && es[|es| - 1].since <= now
    requires AllAtMost(es[|es| - 1].times, now)
    requires id in m && m[id].lastActivity == now && AllCover(c, m[id], es[|es| - 1].times, now)
    ensures Follows(c, m, es, now, id)
  {
  }

  lemma {:induction false} FollowsOtherCheck(c: Config, m: Sessions, es: seq<Stretch>, now: int, other: string, id: string)
    requires Follows(c, m, es, now, id) && other != id
    ensures Follows(c, Check(c, m, other, now).0, es, now, id)
  {
    var m' := Check(c, m, other, now).0;
    assert (id in m' <==> id in m) && (id in m ==> m'[id] == m[id]);
  }

  lemma {:induction false} FollowsStep(c: Config, m: Sessions, es: seq<Stretch>, op: Op, id: string)
    requires c.enabled && Follows(c, m, es, op.now, id)
    requires op.DoCleanup? ==> SweptBy(c, es, op.now)
    ensures Follows(c, Apply(c, m, op), Continued(c, m, es, op, id), op.now, id)
  {
    match op
    case DoCleanup(t) =>
      if id in m && id !in Cleaned(m, t) { FollowsEviction(c, m, es, t, id); } else { FollowsCleanup(c, m, es, t, id); }
    case DoCheck(i, t) =>
      if i == id { FollowsCheck(c, m, es, t, id); } else { FollowsOtherCheck(c, m, es, t, i, id); }
  }

  /** Everything happens at least one sweep interval after `origin`. */
  predicate StartsAfter(c: Config, run: seq<Op>, origin: int) {
    forall i :: 0 <= i < |run| ==> origin + SweepInterval(c) <= run[i].now
  }

  /** The last stretch comes after `origin` or a sweep of the run. */
  ghost predicate SinceASweep(run: seq<Op>, es: seq<Stretch>, origin: int)
    requires es != []
  {
    es[|es| - 1].since == origin || exists i :: 0 <= i < |run| && run[i] == DoCleanup(es[|es| - 1].since)
  }

  lemma {:induction false} StretchesSinceASweep(c: Config, run: seq<Op>, id: string, origin: int)
    ensures SinceASweep(run, Stretches(c, run, id, origin), origin)
  {
    if run != [] {
      var before, op := run[..|run| - 1], run[|run| - 1];
      StretchesSinceASweep(c, before, id, origin);
      var es := Stretches(c, before, id, origin);
      if es[|es| - 1].since != origin {
        var i :| 0 <= i < |before| && before[i] == DoCleanup(es[|es| - 1].since);
        assert run[i] == before[i];
      }
      assert run[|before|] == op;
    }
  }

  lemma {:induction false} NextSweepFits(c: Config, run: seq<Op>, es: seq<Stretch>, origin: int)
    requires run != [] && run[|run| - 1].DoCleanup? && SweepsApart(c, run) && StartsAfter(c, run, origin)
    requires es != [] && SinceASweep(run[..|run| - 1], es, origin)
    ensures SweptBy(c, es, run[|run| - 1].now)
  {
    var before := run[..|run| - 1];
    if es[|es| - 1].since != origin {
      var i :| 0 <= i < |before| && before[i] == DoCleanup(es[|es| - 1].since);
      assert run[i] == before[i];
    }
  }

  lemma {:induction false} RunsFollow(c: Config, run: seq<Op>, id: string, origin: int, now: int)
    requires c.enabled && Timed(run) && SweepsApart(c, run) && StartsAfter(c, run, origin)
    requires origin <= now && (run != [] ==> run[|run| - 1].now <= now)
    ensures Follows(c, After(c, run), Stretches(c, run, id, origin), now, id)
    decreases |run|
  {
    if run == [] {
      NothingIsCalm(c);
    } else {
      var before, op := run[..|run| - 1], run[|run| - 1];
      assert origin <= op.now;
      RunsFollow(c, before, id, origin, op.now);
      StretchesSinceASweep(c, before, id, origin);
      if op.DoCleanup? { NextSweepFits(c, run, Stretches(c, before, id, origin), origin); }
      FollowsStep(c, After(c, before), Stretches(c, before, id, origin), op, id);
      FollowsLater(c, After(c, run), Stretches(c, run, id, origin), op.now, now, id);
    }
  }

  /** No run lets more through in `n` seconds than the capacity. */
  lemma CapacityBound(c: Config, run: seq<Op>, id: string, to: int, n: nat)
    requires c.enabled && Timed(run) && SweepsApart(c, run) && n <= DAY
    ensures Within(Accepted(c, run, id), to, n) <= Best(c, n)
  {
    var origin := (if run == [] then 0 else run[0].now) - SweepInterval(c);
    RunsFollow(c, run, id, origin, if run == [] then 0 else run[|run| - 1].now);
    StretchesHoldAll(c, run, id, origin, to, n);
    SpacedBound(c, Stretches(c, run, id, origin), to, n);
  }

  // ------------------------------------------------- the capacity is reached

  lemma {:induction false} HourlyGrows(c: Config, k: nat)
    requires k >= 1
    ensures 0 <= Hourly(c, k) - Hourly(c, k - 1) <= LimitOf(c, Minute)
    ensures Hourly(c, k) - (if k >= 60 then Hourly(c, k - 60) else 0) <= LimitOf(c, Hour)
    ensures Hourly(c, 0) == 0
  {
    var m := LimitOf(c, Minute);
    assert k * m == (k - 1) * m + m;
    if k == 60 {
      assert Hourly(c, 0) == 0 && 60 * m == 59 * m + m;
    } else if k > 60 {
      HourlyGrows(c, k - 60);
    }
  }

  lemma SteadyGrows(c: Config, k: nat)
    requires k >= 1
    ensures 0 <= Steady(c, k) - Steady(c, k - 1) <= LimitOf(c, Minute)
    ensures Steady(c, k) - (if k >= 60 then Steady(c, k - 60) else 0) <= LimitOf(c, Hour)
    ensures Steady(c, k) <= LimitOf(c, Day) && Steady(c, 0) == 0
  {
    HourlyGrows(c, k);
  }

  function Repeat<T>(n: nat, x: T): seq<T> {
    if n == 0 then [] else Repeat(n - 1, x) + [x]
  }

  lemma {:induction false} RepeatIs<T>(n: nat, x: T)
    ensures |Repeat(n, x)| == n && forall i :: 0 <= i < n ==> Repeat(n, x)[i] == x
  {
    if n > 0 { RepeatIs(n - 1, x); }
  }

  function Increment(c: Config, k: nat): nat
    requires k >= 1
  {
    SteadyGrows(c, k);
    Steady(c, k) - Steady(c, k - 1)
  }

  /** Bursts at the start of each of `k` minutes from `start`. */
  function Bursts(c: Config, k: nat, start: int): seq<int> {
    if k == 0 then [] else Bursts(c, k - 1, start) + Repeat(Increment(c, k), start + 60 * (k - 1))
  }

  /** The same with only the first `i` requests of the last burst. */
  function Prefix(c: Config, k: nat, i: nat, start: int): seq<int>
    requires k >= 1
  {
    Bursts(c, k - 1, start) + Repeat(i, start + 60 * (k - 1))
  }

  lemma {:induction false} LaterConcat(a: seq<int>, b: seq<int>, cut: int)
    ensures Later(a + b, cut) == Later(a, cut) + Later(b, cut)
  {
    if b == [] {
      assert a + b == a;
    } else {
      assert (a + b)[..|a + b| - 1] == a + b[..|b| - 1];
      LaterConcat(a, b[..|b| - 1], cut);
    }
  }

  lemma {:induction false} LaterRepeat(n: nat, x: int, cut: int)
    ensures Later(Repeat(n, x), cut) == if x > cut then n else 0
  {
    if n > 0 { LaterRepeat(n - 1, x, cut); }
  }

  lemma LaterLastBurst(c: Config, k: nat, start: int, cut: int)
    requires k >= 1
    ensures Later(Bursts(c, k, start), cut)
      == Later(Bursts(c, k - 1, start), cut) + (if start + 60 * (k - 1) > cut then Increment(c, k) else 0)
  {
    LaterConcat(Bursts(c, k - 1, start), Repeat(Increment(c, k), start + 60 * (k - 1)), cut);
    LaterRepeat(Increment(c, k), start + 60 * (k - 1), cut);
  }

  /** What the bursts from minute `j` on amount to. */
  lemma {:induction false} LaterBursts(c: Config, k: nat, start: int, j: nat)
    requires j <= k
    ensures Later(Bursts(c, k, start), start + 60 * (j - 1)) == Steady(c, k) - Steady(c, j)
    decreases k
  {
    if k > j {
      LaterLastBurst(c, k, start, start + 60 * (j - 1));
      LaterBursts(c, k - 1, start, j);
    } else {
      BurstsBefore(c, k, start);
      LaterIsNone(Bursts(c, k, start), start + 60 * (j - 1));
    }
  }

  lemma LaterIsNone(times: seq<int>, cut: int)
    requires AllAtMost(times, cut)
    ensures Later(times, cut) == 0
  {
    NoneLater(times, cut);
  }

  lemma {:induction false} BurstsBefore(c: Config, k: nat, start: int)
    ensures AllAtMost(Bursts(c, k, start), start + 60 * (k - 1))
    ensures AllAtLeast(Bursts(c, k, start), start)
    ensures |Bursts(c, k, start)| == Steady(c, k)
  {
    if k == 0 {
      assert Steady(c, 0) == 0;
    } else {
      BurstsBefore(c, k - 1, start);
      RepeatIs(Increment(c, k), start + 60 * (k - 1));
    }
  }

  /** Every window has room for one more at time `now`. */
  predicate HasRoom(c: Config, times: seq<int>, now: int) {
    && Later(times, now - MINUTE) < LimitOf(c, Minute)
    && Later(times, now - HOUR) < LimitOf(c, Hour)
    && Later(times, now - DAY) < LimitOf(c, Day)
  }

  /** In the `k`-th burst there is room until it has its size. */
  lemma BurstsHaveRoom(c: Config, k: nat, i: nat, start: int)
    requires 1 <= k <= 1440 && i < Increment(c, k)
    ensures HasRoom(c, Prefix(c, k, i, start), start + 60 * (k - 1))
  {
    SteadyGrows(c, k);
    var now := start + 60 * (k - 1);
    LaterPrefix(c, k, i, start, k - 1, now - MINUTE);
    if k > 60 {
      LaterPrefix(c, k, i, start, k - 60, now - HOUR);
    } else {
      LaterPrefixAll(c, k, i, start, now - HOUR);
      assert Steady(c, 0) == 0;
      HourAtFirst(c, k);
    }
    LaterPrefixAll(c, k, i, start, now - DAY);
  }

  lemma HourAtFirst(c: Config, k: nat)
    requires k <= 60
    ensures Steady(c, k) <= LimitOf(c, Hour)
  {
    assert Hourly(c, 0) == 0;
  }

  lemma {:induction false} LaterPart(c: Config, k: nat, i: nat, start: int, cut: int)
    requires 1 <= k && cut < start + 60 * (k - 1)
    ensures Later(Prefix(c, k, i, start), cut) == Later(Bursts(c, k - 1, start), cut) + i
  {
    LaterConcat(Bursts(c, k - 1, start), Repeat(i, start + 60 * (k - 1)), cut);
    LaterRepeat(i, start + 60 * (k - 1), cut);
  }

  lemma {:induction false} LaterPrefix(c: Config, k: nat, i: nat, start: int, j: nat, cut: int)
    requires 1 <= k && j <= k - 1 && cut == start + 60 * (j - 1)
    ensures Later(Prefix(c, k, i, start), cut) == Steady(c, k - 1) - Steady(c, j) + i
  {
    LaterPart(c, k, i, start, cut);
    LaterBursts(c, k - 1, start, j);
  }

  lemma {:induction false} LaterPrefixAll(c: Config, k: nat, i: nat, start: int, cut: int)
    requires 1 <= k && cut < start
    ensures Later(Prefix(c, k, i, start), cut) == Steady(c, k - 1) + i
  {
    LaterPart(c, k, i, start, cut);
    BurstsBefore(c, k - 1, start);
    LaterIsAll(Bursts(c, k - 1, start), cut);
  }

  lemma {:induction false} LaterIsAll(times: seq<int>, cut: int)
    requires forall i :: 0 <= i < |times| ==> times[i] > cut
    ensures Later(times, cut) == |times|
  {
    if times != [] { LaterIsAll(times[..|times| - 1], cut); }
  }

  /** The windows count nothing but these times. */
  ghost predicate CountsOnly(c: Config, s: Session, times: seq<int>) {
    WindowOnly(c, s, Minute, times) && WindowOnly(c, s, Hour, times) && WindowOnly(c, s, Day, times)
  }

  ghost predicate WindowOnly(c: Config, s: Session, k: Kind, times: seq<int>) {
    && WindowShaped(c, s, k)
    && forall cut :: Later(WindowOf(s, k).requests, cut) <= Later(times, cut)
  }

  lemma {:induction false} RetainedIsFewer(requests: seq<int>, now: int, size: nat, cut: int)
    ensures Later(Retained(requests, now, size), cut) <= Later(requests, cut)
  {
    if requests != [] {
      var before, last := requests[..|requests| - 1], requests[|requests| - 1];
      RetainedIsFewer(before, now, size, cut);
      LaterAppend(Retained(before, now, size), last, cut);
    }
  }

  lemma CheckedCountsOnly(w: Window, now: int, times: seq<int>)
    requires forall cut :: Later(w.requests, cut) <= Later(times, cut)
    requires Later(times, now - w.size) < Limit(w)
    ensures var (w', ok) := Checked(w, now);
      && ok && w'.size == w.size && Limit(w') == Limit(w)
      && forall cut :: Later(w'.requests, cut) <= Later(times + [now], cut)
  {
    var kept := Retained(w.requests, now, w.size);
    RetainedCounts(w.requests, now, w.size, now);
    assert Later(w.requests, now - w.size) <= Later(times, now - w.size);
    forall cut ensures Later(kept + [now], cut) <= Later(times + [now], cut) {
      RetainedIsFewer(w.requests, now, w.size, cut);
      LaterAppend(kept, now, cut);
      LaterAppend(times, now, cut);
    }
  }

  /** With room everywhere a check is let through. */
  lemma RoomIsAllowed(c: Config, s: Session, times: seq<int>, now: int)
    requires CountsOnly(c, s, times) && HasRoom(c, times, now)
    ensures var (s', ok) := Chained(s, now);
      ok && CountsOnly(c, s', times + [now]) && s'.lastActivity == now
  {
    CheckedCountsOnly(s.minute, now, times);
    CheckedCountsOnly(s.hour, now, times);
    CheckedCountsOnly(s.day, now, times);
  }

  /** Only `id` is tracked, if at all, and its windows hold just these times. */
  ghost predicate Alone(c: Config, m: Sessions, id: string, times: seq<int>, now: int) {
    if id in m then m.Keys == {id} && CountsOnly(c, m[id], times) && m[id].lastActivity <= now
    else m == map[] && times == []
  }

  lemma OneMoreCheck(c: Config, run: seq<Op>, id: string, times: seq<int>, before: int, now: int)
    requires c.enabled && c.maxConcurrentSessions >= 1 && before <= now
    requires Alone(c, After(c, run), id, times, before) && HasRoom(c, times, now)
    ensures var more := run + [DoCheck(id, now)];
      && Alone(c, After(c, more), id, times + [now], now)
      && Accepted(c, more, id) == Accepted(c, run, id) + [now]
  {
    var m, more := After(c, run), run + [DoCheck(id, now)];
    assert more[..|run|] == run;
    var s := if id in m then m[id] else NewSession(c, now);
    assert CountsOnly(c, s, times);
    RoomIsAllowed(c, s, times, now);
    assert After(c, more) == m[id := Chained(s, now).0];
    assert m[id := Chained(s, now).0].Keys == {id};
  }

  function Checks(id: string, times: seq<int>): seq<Op> {
    if times == [] then [] else Checks(id, times[..|times| - 1]) + [DoCheck(id, times[|times| - 1])]
  }

  predicate EndsBy(run: seq<Op>, t: int) {
    Timed(run) && (run != [] ==> run[|run| - 1].now <= t)
  }

  lemma TimedStep(run: seq<Op>, op: Op)
    requires EndsBy(run, op.now)
    ensures EndsBy(run + [op], op.now)
  {
  }

  /** Checks at these times, the last not after `now`, are all let through
      after `run`. */
  ghost predicate Played(c: Config, run: seq<Op>, id: string, times: seq<int>, now: int) {
    var all := run + Checks(id, times);
    && Alone(c, After(c, all), id, times, now) && EndsBy(all, now)
    && Accepted(c, all, id) == Accepted(c, run, id) + times
  }

  lemma PlayOne(c: Config, run: seq<Op>, id: string, times: seq<int>, now: int)
    requires c.enabled && c.maxConcurrentSessions >= 1
    requires Played(c, run, id, times, now) && HasRoom(c, times, now)
    ensures Played(c, run, id, times + [now], now)
  {
    var all := run + Checks(id, times);
    ChecksSnoc(run, id, times, now);
    OneMoreCheck(c, all, id, times, now, now);
    TimedStep(all, DoCheck(id, now));
    Associates(Accepted(c, run, id), times, now);
  }

  lemma ChecksSnoc(run: seq<Op>, id: string, times: seq<int>, now: int)
    ensures run + Checks(id, times + [now]) == run + Checks(id, times) + [DoCheck(id, now)]
  {
    assert (times + [now])[..|times|] == times;
  }

  lemma Associates(a: seq<int>, b: seq<int>, x: int)
    ensures a + b + [x] == a + (b + [x])
  {
  }

  lemma PlayNone(c: Config, run: seq<Op>, id: string, now: int)
    requires After(c, run) == map[] && EndsBy(run, now)
    ensures Played(c, run, id, [], now)
  {
    assert run + Checks(id, []) == run && Accepted(c, run, id) + [] == Accepted(c, run, id);
  }

  /** Induction on a number of equal elements at the end. */
  lemma {:induction false} ByRepeat(p: seq<int> -> bool, times: seq<int>, i: nat, x: int)
    requires p(times)
    requires forall j :: 0 <= j < i && p(times + Repeat(j, x)) ==> p(times + Repeat(j, x) + [x])
    ensures p(times + Repeat(i, x))
  {
    if i == 0 {
      assert times + Repeat(0, x) == times;
    } else {
      ByRepeat(p, times, i - 1, x);
      assert times + Repeat(i, x) == times + Repeat(i - 1, x) + [x];
    }
  }

  /** A burst of `n` requests, each of which has room. */
  lemma PlayBurst(c: Config, run: seq<Op>, id: string, times: seq<int>, n: nat, now: int)
    requires c.enabled && c.maxConcurrentSessions >= 1 && Played(c, run, id, times, now)
    requires forall j :: 0 <= j < n ==> HasRoom(c, times + Repeat(j, now), now)
    ensures Played(c, run, id, times + Repeat(n, now), now)
  {
    var p := (ts: seq<int>) => Played(c, run, id, ts, now);
    forall j | 0 <= j < n && p(times + Repeat(j, now)) ensures p(times + Repeat(j, now) + [now]) {
      PlayOne(c, run, id, times + Repeat(j, now), now);
    }
    ByRepeat(p, times, n, now);
  }

  lemma RoomForBurst(c: Config, k: nat, start: int, times: seq<int>, now: int)
    requires 1 <= k <= 1440 && times == Bursts(c, k - 1, start) && now == start + 60 * (k - 1)
    ensures forall j :: 0 <= j < Increment(c, k) ==> HasRoom(c, times + Repeat(j, now), now)
  {
    forall j | 0 <= j < Increment(c, k) ensures HasRoom(c, times + Repeat(j, now), now) {
      BurstsHaveRoom(c, k, j, start);
    }
  }

  lemma BurstIsAllowed(c: Config, run: seq<Op>, id: string, k: nat, start: int)
    requires c.enabled && c.maxConcurrentSessions >= 1 && 1 <= k <= 1440
    requires Played(c, run, id, Bursts(c, k - 1, start), start + 60 * (k - 1))
    ensures Played(c, run, id, Bursts(c, k, start), start + 60 * (k - 1))
  {
    var times, now := Bursts(c, k - 1, start), start + 60 * (k - 1);
    RoomForBurst(c, k, start, times, now);
    PlayBurst(c, run, id, times, Increment(c, k), now);
  }

  lemma PlayedLater(c: Config, run: seq<Op>, id: string, times: seq<int>, now: int, later: int)
    requires Played(c, run, id, times, now) && now <= later
    ensures Played(c, run, id, times, later)
  {
  }

  /** After `run`, in which `id` is not tracked, all the bursts are let through. */
  lemma {:induction false} BurstsAreAllowed(c: Config, run: seq<Op>, id: string, k: nat, start: int)
    requires c.enabled && c.maxConcurrentSessions >= 1 && After(c, run) == map[] && EndsBy(run, start)
    requires k <= 1440
    ensures Played(c, run, id, Bursts(c, k, start), start + 60 * Max(k - 1, 0))
    decreases k
  {
    if k == 0 {
      PlayNone(c, run, id, start);
    } else {
      BurstsAreAllowed(c, run, id, k - 1, start);
      PlayedLater(c, run, id, Bursts(c, k - 1, start), start + 60 * Max(k - 2, 0), start + 60 * (k - 1));
      BurstIsAllowed(c, run, id, k, start);
    }
  }

  /** A run that has ended by `e` with a sweep that left no session; so far it
      has let these times through. */
  ghost predicate Swept(c: Config, run: seq<Op>, id: string, e: int, times: seq<int>) {
    && EndsBy(run, e) && SweepsApart(c, run) && After(c, run) == map[]
    && Accepted(c, run, id) == times && AllAtMost(times, e)
  }

  lemma {:induction false} ChecksOnly(id: string, times: seq<int>)
    ensures forall i :: 0 <= i < |Checks(id, times)| ==> Checks(id, times)[i].DoCheck?
  {
    if times != [] { ChecksOnly(id, times[..|times| - 1]); }
  }

  /** After a sweep at `e` a session starts afresh with `k` bursts. */
  lemma {:induction false} OneStretchMore(c: Config, earlier: seq<Op>, id: string, e: int, times: seq<int>, k: nat, start: int)
      returns (run: seq<Op>)
    requires c.enabled && c.maxConcurrentSessions >= 1 && 1 <= k <= 1440
    requires Swept(c, earlier, id, e, times) && e <= start
    ensures EndsBy(run, start + 60 * (k - 1)) && SweepsApart(c, run)
    ensures Accepted(c, run, id) == times + Bursts(c, k, start)
    ensures Alone(c, After(c, run), id, Bursts(c, k, start), start + 60 * (k - 1))
    ensures forall i :: 0 <= i < |run| && run[i].DoCleanup? ==> run[i].now <= e
  {
    BurstsAreAllowed(c, earlier, id, k, start);
    ChecksOnly(id, Bursts(c, k, start));
    run := earlier + Checks(id, Bursts(c, k, start));
  }

  /** A sweep 300 idle seconds later, one interval after the sweeps before it. */
  lemma {:induction false} EvictedWhenIdle(c: Config, run: seq<Op>, id: string, busy: seq<int>, end: int, last: int, e: int)
    requires EndsBy(run, end) && SweepsApart(c, run) && Alone(c, After(c, run), id, busy, end)
    requires AllAtMost(Accepted(c, run, id), end) && end + IDLE_TIMEOUT <= e
    requires forall i :: 0 <= i < |run| && run[i].DoCleanup? ==> run[i].now <= last
    requires last + SweepInterval(c) <= e
    ensures Swept(c, run + [DoCleanup(e)], id, e, Accepted(c, run, id))
  {
    assert (run + [DoCleanup(e)])[..|run|] == run;
    TimedStep(run, DoCleanup(e));
    var m := After(c, run);
    assert forall i :: i in m ==> i == id;
    assert Cleaned(m, e) == map[];
  }

  lemma {:induction false} BurstsCount(c: Config, earlier: seq<int>, k: nat, start: int, cut: int)
    requires cut < start
    ensures Later(earlier + Bursts(c, k, start), cut) == Later(earlier, cut) + Steady(c, k)
    ensures AllAtMost(Bursts(c, k, start), start + 60 * (k - 1))
  {
    LaterConcat(earlier, Bursts(c, k, start), cut);
    BurstsBefore(c, k, start);
    LaterIsAll(Bursts(c, k, start), cut);
  }

  /** A sweep at `e`, one cycle after the last one, with `j` bursts in between. */
  lemma {:induction false} OneCycleMore(c: Config, earlier: seq<Op>, id: string, e': int, times: seq<int>, j: nat, e: int)
      returns (run: seq<Op>)
    requires c.enabled && c.maxConcurrentSessions >= 1 && 1 <= j <= 1440
    requires Swept(c, earlier, id, e', times) && e == e' + Cycle(c, j)
    ensures Swept(c, run, id, e, times + Bursts(c, j, e - 240 - 60 * j))
  {
    var start := e - 240 - 60 * j;
    var busy := OneStretchMore(c, earlier, id, e', times, j, start);
    BurstsBefore(c, j, start);
    EvictedWhenIdle(c, busy, id, Bursts(c, j, start), start + 60 * (j - 1), e', e);
    run := busy + [DoCleanup(e)];
  }

  /** Some run ends with a sweep that leaves no session, and has let `cap`
      requests through in the `r` seconds before it. */
  ghost predicate AttainsBefore(c: Config, r: nat, id: string, cap: nat) {
    exists run, e, times :: Swept(c, run, id, e, times) && Later(times, e - r) >= cap
  }

  lemma NothingAttained(c: Config, r: nat, id: string)
    ensures AttainsBefore(c, r, id, 0)
  {
    assert Swept(c, [], id, 0, []);
  }

  lemma {:induction false} CycleCounts(c: Config, times: seq<int>, j: nat, e: int, r: nat, cap: nat)
    requires 240 + 60 * j < r && (cap == 0 || Later(times, e - r) >= cap)
    ensures Later(times + Bursts(c, j, e - 240 - 60 * j), e - r) >= Steady(c, j) + cap
  {
    BurstsCount(c, times, j, e - 240 - 60 * j, e - r);
  }

  /** One cycle more lets through what its bursts amount to. */
  lemma {:induction false} CycleAttained(c: Config, r: nat, id: string, j: nat, cap: nat)
    requires c.enabled && c.maxConcurrentSessions >= 1 && 1 <= j && 240 + 60 * j < r <= DAY
    requires AttainsBefore(c, Left(r, Cycle(c, j)), id, cap) && (r <= Cycle(c, j) ==> cap == 0)
    ensures AttainsBefore(c, r, id, Steady(c, j) + cap)
  {
    var cycle := Cycle(c, j);
    var earlier, e', times :| Swept(c, earlier, id, e', times) && Later(times, e' - Left(r, cycle)) >= cap;
    var e := e' + cycle;
    CycleCounts(c, times, j, e, r, cap);
    CycleAttainedBy(c, r, id, j, cap, earlier, e', times, e);
  }

  lemma {:induction false} CycleAttainedBy(c: Config, r: nat, id: string, j: nat, cap: nat,
                                           earlier: seq<Op>, e': int, times: seq<int>, e: int)
    requires c.enabled && c.maxConcurrentSessions >= 1 && 1 <= j <= 1440
    requires Swept(c, earlier, id, e', times) && e == e' + Cycle(c, j)
    requires Later(times + Bursts(c, j, e - 240 - 60 * j), e - r) >= Steady(c, j) + cap
    ensures AttainsBefore(c, r, id, Steady(c, j) + cap)
  {
    var run := OneCycleMore(c, earlier, id, e', times, j, e);
    assert Swept(c, run, id, e, times + Bursts(c, j, e - 240 - 60 * j));
  }

  /** Before an eviction the capacity is attained. */
  lemma {:induction false} BeforeReached(c: Config, r: nat, id: string)
    requires c.enabled && c.maxConcurrentSessions >= 1 && r <= DAY
    ensures AttainsBefore(c, r, id, Before(c, r))
    decreases r
  {
    if r <= 300 {
      NothingAttained(c, r, id);
    } else {
      var j := BeforeTaken(c, r);
      var left := Left(r, Cycle(c, j));
      BeforeReached(c, left, id);
      assert left == 0 ==> Before(c, left) == 0;
      CycleAttained(c, r, id, j, Before(c, left));
    }
  }

  lemma {:induction false} LaterIsWithin(times: seq<int>, to: int, n: nat)
    requires AllAtMost(times, to)
    ensures Within(times, to, n) == Later(times, to - n)
  {
    if times != [] { LaterIsWithin(times[..|times| - 1], to, n); }
  }

  lemma {:induction false} LastCounts(c: Config, times: seq<int>, k: nat, e: int, n: nat)
    requires 1 <= k && 60 * (k - 1) < n && AllAtMost(times, e)
    ensures var to := e + 60 * (k - 1);
      Within(times + Bursts(c, k, e), to, n) == Later(times, e - (n - 60 * (k - 1))) + Steady(c, k)
  {
    var to := e + 60 * (k - 1);
    assert to - n == e - (n - 60 * (k - 1));
    BurstsCount(c, times, k, e, to - n);
    LaterIsWithin(times + Bursts(c, k, e), to, n);
  }

  /** The runs of a limiter: the clock never runs backwards, and its cleanup
      thread keeps its interval. */
  predicate Possible(c: Config, run: seq<Op>) {
    Timed(run) && SweepsApart(c, run)
  }

  /** Some run lets `cap` requests through in `n` seconds. */
  ghost predicate Attains(c: Config, n: nat, id: string, cap: nat) {
    exists run, to :: Possible(c, run) && Within(Accepted(c, run, id), to, n) >= cap
  }

  lemma {:induction false} LastAttained(c: Config, n: nat, id: string, k: nat, cap: nat)
    requires c.enabled && c.maxConcurrentSessions >= 1 && 1 <= k && 60 * (k - 1) < n <= DAY
    requires AttainsBefore(c, n - 60 * (k - 1), id, cap)
    ensures Attains(c, n, id, Steady(c, k) + cap)
  {
    var r: nat := n - 60 * (k - 1);
    var earlier, e, times :| Swept(c, earlier, id, e, times) && Later(times, e - r) >= cap;
    LastCounts(c, times, k, e, n);
    LastAttainedBy(c, n, id, k, Steady(c, k) + cap, earlier, e, times);
  }

  lemma {:induction false} LastAttainedBy(c: Config, n: nat, id: string, k: nat, cap: nat,
                                          earlier: seq<Op>, e: int, times: seq<int>)
    requires c.enabled && c.maxConcurrentSessions >= 1 && 1 <= k <= 1440
    requires Swept(c, earlier, id, e, times)
    requires Within(times + Bursts(c, k, e), e + 60 * (k - 1), n) >= cap
    ensures Attains(c, n, id, cap)
  {
    var run := OneStretchMore(c, earlier, id, e, times, k, e);
    assert Possible(c, run) && Within(Accepted(c, run, id), e + 60 * (k - 1), n) >= cap;
  }

  lemma NothingIsPossible(c: Config, id: string)
    ensures Attains(c, 0, id, 0)
  {
    assert Possible(c, []) && Within(Accepted(c, [], id), 0, 0) >= 0;
  }

  /** As much as the capacity allows is let through by some run. */
  lemma {:induction false} CapacityReached(c: Config, n: nat, id: string)
    requires c.enabled && c.maxConcurrentSessions >= 1 && n <= DAY
    ensures Attains(c, n, id, Best(c, n))
  {
    if n == 0 {
      NothingIsPossible(c, id);
    } else {
      var k := BestTaken(c, n);
      BeforeReached(c, n - 60 * (k - 1), id);
      LastAttained(c, n, id, k, Before(c, n - 60 * (k - 1)));
    }
  }

  // ---------------------------------------------------------------- theorems

  /** The most requests any run lets through in `n` seconds is exactly
      `Best(c, n)`: no run exceeds it, and one reaches it. */
  lemma CapacityIsExact(c: Config, n: nat, id: string)
    requires c.enabled && c.maxConcurrentSessions >= 1 && n <= DAY
    ensures forall run, to :: Possible(c, run) ==> Within(Accepted(c, run, id), to, n) <= Best(c, n)
    ensures exists run, to :: Possible(c, run) && Within(Accepted(c, run, id), to, n) == Best(c, n)
  {
    forall run, to | Possible(c, run) ensures Within(Accepted(c, run, id), to, n) <= Best(c, n) {
      CapacityBound(c, run, id, to, n);
    }
    CapacityReached(c, n, id);
    var run, to :| Possible(c, run) && Within(Accepted(c, run, id), to, n) >= Best(c, n);
    assert Within(Accepted(c, run, id), to, n) == Best(c, n);
  }

  /** The limit of window `k` holds of every run of this configuration. */
  ghost predicate BoundHolds(c: Config, k: Kind) {
    forall run, id, to :: Possible(c, run) ==> Within(Accepted(c, run, id), to, SizeOf(k)) <= LimitOf(c, k)
  }

  /** Exactly the configurations whose limit holds, for each window. */
  lemma BoundHoldsIff(c: Config, k: Kind)
    requires c.enabled && c.maxConcurrentSessions >= 1
    ensures BoundHolds(c, k) <==> Best(c, SizeOf(k)) <= LimitOf(c, k)
  {
    if Best(c, SizeOf(k)) <= LimitOf(c, k) {
      forall run, id, to | Possible(c, run) ensures Within(Accepted(c, run, id), to, SizeOf(k)) <= LimitOf(c, k) {
        CapacityBound(c, run, id, to, SizeOf(k));
      }
    } else {
      LongWindowExceeded(c, "", k);
    }
  }

  /** Otherwise some run exceeds it. */
  lemma LongWindowExceeded(c: Config, id: string, k: Kind)
    requires c.enabled && c.maxConcurrentSessions >= 1 && Best(c, SizeOf(k)) > LimitOf(c, k)
    ensures exists run, to :: Possible(c, run) && Within(Accepted(c, run, id), to, SizeOf(k)) > LimitOf(c, k)
  {
    CapacityReached(c, SizeOf(k), id);
    var run, to :| Possible(c, run) && Within(Accepted(c, run, id), to, SizeOf(k)) >= Best(c, SizeOf(k));
    Exceeds(c, run, id, to, SizeOf(k), LimitOf(c, k));
  }

  lemma Exceeds(c: Config, run: seq<Op>, id: string, to: int, size: nat, limit: nat)
    requires Possible(c, run) && Within(Accepted(c, run, id), to, size) > limit
    ensures exists r, t :: Possible(c, r) && Within(Accepted(c, r, id), t, size) > limit
  {
  }

  // -------------------------------------------------------- in closed form

  lemma ProductsAdd(a: nat, b: nat, n: nat, m: nat)
    requires a + b <= n
    ensures a * m + b * m <= n * m
  {
    assert (a + b) * m + (n - a - b) * m == n * m;
    assert (a + b) * m == a * m + b * m;
    assert (n - a - b) * m >= 0;
  }

  lemma {:induction false} HourlyWithinMinutes(c: Config, k: nat)
    ensures Hourly(c, k) <= k * LimitOf(c, Minute)
  {
    if k >= 60 {
      HourlyWithinMinutes(c, k - 60);
      ProductsAdd(60, k - 60, k, LimitOf(c, Minute));
    }
  }

  /** How many bursts fit into the `r` seconds before an eviction. */
  function Slots(r: nat): nat {
    if r <= 300 then 0 else (r - 241) / 60
  }

  lemma {:induction false} BeforeWithinMinutes(c: Config, r: nat)
    ensures Before(c, r) <= Slots(r) * LimitOf(c, Minute)
    decreases r
  {
    if r > 300 {
      var j := BeforeTaken(c, r);
      var left := Left(r, Cycle(c, j));
      BeforeWithinMinutes(c, left);
      HourlyWithinMinutes(c, j);
      assert j + Slots(left) <= Slots(r);
      ProductsAdd(j, Slots(left), Slots(r), LimitOf(c, Minute));
    }
  }

  function Minutes(k: Kind): (n: nat)
    ensures SizeOf(k) == 60 * n
  {
    match k case Minute => 1 case Hour => 60 case Day => 1440
  }

  /** Between evictions nothing but the minute limit and this one binds. */
  ghost predicate OnlyMinutesBind(c: Config, k: Kind) {
    forall j :: 0 <= j <= Minutes(k) ==> Steady(c, j) == Min(LimitOf(c, k), j * LimitOf(c, Minute))
  }

  /** Then the limit holds of every run exactly if it leaves room for full
      bursts in all but four of the minutes. */
  lemma BoundHoldsIfMinutesFit(c: Config, k: Kind)
    requires c.enabled && c.maxConcurrentSessions >= 1 && k != Minute
    requires LimitOf(c, Minute) >= 1 && LimitOf(c, k) >= 1 && OnlyMinutesBind(c, k)
    ensures BoundHolds(c, k) <==> (Minutes(k) - 4) * LimitOf(c, Minute) <= LimitOf(c, k)
  {
    BoundHoldsIff(c, k);
    var n, m := Minutes(k), LimitOf(c, Minute);
    if (n - 4) * m <= LimitOf(c, k) {
      BestFits(c, k);
    } else {
      OneEvictionPasses(c, n);
      assert (n - 5) * m + m == (n - 4) * m;
      assert Steady(c, n - 5) == Min(LimitOf(c, k), (n - 5) * m) && Steady(c, 1) == Min(LimitOf(c, k), 1 * m);
    }
  }

  /** One eviction is enough for a last burst, whatever the sweep interval. */
  lemma OneEvictionPasses(c: Config, n: nat)
    requires n >= 6
    ensures Best(c, 60 * n) >= Steady(c, n - 5) + Steady(c, 1)
  {
    BestTakes(c, 60 * n, n - 5);
    BeforeTakes(c, 360, 1);
  }

  lemma {:induction false} BestFits(c: Config, k: Kind)
    requires k != Minute && OnlyMinutesBind(c, k)
    requires (Minutes(k) - 4) * LimitOf(c, Minute) <= LimitOf(c, k)
    ensures Best(c, SizeOf(k)) <= LimitOf(c, k)
  {
    var n, m := Minutes(k), LimitOf(c, Minute);
    var j := BestTaken(c, 60 * n);
    var r: nat := 60 * n - 60 * (j - 1);
    assert Steady(c, j) == Min(LimitOf(c, k), j * m);
    BeforeWithinMinutes(c, r);
    if r > 300 {
      assert j + Slots(r) == n - 4;
      ProductsAdd(j, Slots(r), n - 4, m);
    }
  }

  /** The hour limit, when the day limit is no smaller: it holds of every run if
      and only if 56 bursts at the minute limit stay within it. */
  lemma HourBoundIff(c: Config)
    requires c.enabled && c.maxConcurrentSessions >= 1
    requires LimitOf(c, Minute) >= 1 && 1 <= LimitOf(c, Hour) <= LimitOf(c, Day)
    ensures BoundHolds(c, Hour) <==> 56 * LimitOf(c, Minute) <= LimitOf(c, Hour)
  {
    forall j | 0 <= j <= 60 ensures Steady(c, j) == Min(LimitOf(c, Hour), j * LimitOf(c, Minute)) {
      assert Hourly(c, 0) == 0;
    }
    BoundHoldsIfMinutesFit(c, Hour);
  }

  lemma {:induction false} HourlyUnbound(c: Config, k: nat)
    requires 60 * LimitOf(c, Minute) <= LimitOf(c, Hour)
    ensures Hourly(c, k) == k * LimitOf(c, Minute)
  {
    var m := LimitOf(c, Minute);
    if k < 60 {
      assert k * m + (60 - k) * m == 60 * m;
    } else {
      HourlyUnbound(c, k - 60);
      assert k * m == 60 * m + (k - 60) * m;
    }
  }

  /** The day limit, when the minute limit keeps the hour limit from binding. */
  lemma DayBoundIff(c: Config)
    requires c.enabled && c.maxConcurrentSessions >= 1
    requires LimitOf(c, Minute) >= 1 && LimitOf(c, Day) >= 1 && 60 * LimitOf(c, Minute) <= LimitOf(c, Hour)
    ensures BoundHolds(c, Day) <==> 1436 * LimitOf(c, Minute) <= LimitOf(c, Day)
  {
    forall j | 0 <= j <= 1440 ensures Steady(c, j) == Min(LimitOf(c, Day), j * LimitOf(c, Minute)) {
      HourlyUnbound(c, j);
    }
    BoundHoldsIfMinutesFit(c, Day);
  }

  /** A limit that a session can use up five minutes early is exceeded, whatever
      binds it. */
  lemma ExceededIfReachedEarly(c: Config, k: Kind)
    requires c.enabled && c.maxConcurrentSessions >= 1 && k != Minute
    requires LimitOf(c, Minute) >= 1 && LimitOf(c, Hour) >= 1 && LimitOf(c, Day) >= 1
    requires Steady(c, Minutes(k) - 5) >= LimitOf(c, k)
    ensures !BoundHolds(c, k)
  {
    BoundHoldsIff(c, k);
    OneEvictionPasses(c, Minutes(k));
    assert Steady(c, 1) >= 1;
  }

  lemma {:induction false} HourlyAtLeast(c: Config, hours: nat, k: nat)
    requires k >= 60 * hours
    ensures Hourly(c, k) >= hours * Min(LimitOf(c, Hour), 60 * LimitOf(c, Minute))
    decreases hours
  {
    var h := Min(LimitOf(c, Hour), 60 * LimitOf(c, Minute));
    if hours > 0 {
      HourlyAtLeast(c, hours - 1, k - 60);
      assert hours * h == h + (hours - 1) * h;
    }
  }

  /** The default configuration: 60 a minute, 1000 an hour, 10000 a day, a burst
      allowance of 10, five sessions, and a sweep every 300 seconds. */
  const DEFAULT := Config(true, 60, 1000, 10000, 10, 5, 300)

  /** Its minute limit holds; its hour and day limits do not. */
  lemma DefaultLimits()
    ensures BoundHolds(DEFAULT, Minute) && !BoundHolds(DEFAULT, Hour) && !BoundHolds(DEFAULT, Day)
  {
    forall run, id, to | Possible(DEFAULT, run) ensures Within(Accepted(DEFAULT, run, id), to, SizeOf(Minute)) <= LimitOf(DEFAULT, Minute) {
      MinuteBound(DEFAULT, run, id, to);
    }
    HourBoundIff(DEFAULT);
    HourlyAtLeast(DEFAULT, 10, 1435);
    ExceededIfReachedEarly(DEFAULT, Day);
  }

  // -------------------------------------------- where the sweep interval counts

  lemma {:induction false} FrequentSweeps(c: Config, q: nat)
    requires SweepInterval(c) <= 300
    ensures Before(c, 300 * q + 1) >= q * Steady(c, 1)
  {
    if q > 0 {
      FrequentSweeps(c, q - 1);
      var r: nat := 300 * q + 1;
      BeforeTakes(c, r, 1);
      assert q * Steady(c, 1) == (q - 1) * Steady(c, 1) + Steady(c, 1);
    }
  }

  /** With sweeps often enough, a limit below one burst each five minutes fails. */
  lemma ExceededByFrequentSweeps(c: Config, k: Kind)
    requires c.enabled && c.maxConcurrentSessions >= 1 && SweepInterval(c) <= 300
    requires (SizeOf(k) + 299) / 300 * Steady(c, 1) > LimitOf(c, k)
    ensures !BoundHolds(c, k)
  {
    BoundHoldsIff(c, k);
    BestOfFrequentSweeps(c, SizeOf(k), (SizeOf(k) - 1) / 300);
  }

  lemma {:induction false} BestOfFrequentSweeps(c: Config, n: nat, q: nat)
    requires SweepInterval(c) <= 300 && 300 * q < n
    ensures Best(c, n) >= (q + 1) * Steady(c, 1)
  {
    var one := Steady(c, 1);
    FrequentSweeps(c, q);
    var r: nat := 300 * q + 1;
    BeforeGrows(c, r, n);
    BestTakes(c, n, 1);
    assert (q + 1) * one == q * one + one;
  }

  lemma {:induction false} HourlyWithinHours(c: Config, k: nat)
    ensures Hourly(c, k) <= (k + 59) / 60 * LimitOf(c, Hour)
  {
    if k >= 60 {
      HourlyWithinHours(c, k - 60);
      ProductsAdd(1, (k - 1) / 60, (k + 59) / 60, LimitOf(c, Hour));
    }
  }

  /** With sweeps no more often than the window is long, it sees one eviction; the
      hour limit then admits what fits into one hour more, and an idle timeout less. */
  lemma HoldsUnderRareSweeps(c: Config)
    requires c.enabled && c.maxConcurrentSessions >= 1 && SweepInterval(c) >= DAY
    requires 25 * LimitOf(c, Hour) <= LimitOf(c, Day)
    ensures BoundHolds(c, Day)
  {
    BoundHoldsIff(c, Day);
    var k := BestTaken(c, DAY);
    var r: nat := DAY - 60 * (k - 1);
    if r > 300 {
      var j := BeforeTaken(c, r);
      assert Left(r, Cycle(c, j)) == 0 && j + k <= 1436;
      HourlyWithinHours(c, k);
      HourlyWithinHours(c, j);
      ProductsAdd((k + 59) / 60, (j + 59) / 60, 25, LimitOf(c, Hour));
    }
  }

  /** So whether a day limit holds may hang on the sweep interval alone. */
  lemma IntervalMatters()
    ensures var often := Config(true, 10, 10, 250, 0, 5, 300);
      BoundHolds(often.(cleanupInterval := DAY), Day) && !BoundHolds(often, Day)
  {
    var often := Config(true, 10, 10, 250, 0, 5, 300);
    HoldsUnderRareSweeps(often.(cleanupInterval := DAY));
    assert Hourly(often, 1) == 10;
    ExceededByFrequentSweeps(often, Day);
  }

  /** The window of kind `k` bounds every run of every limiter. */
  ghost predicate BoundsEveryRun(k: Kind) {
    forall c: Config :: c.enabled ==> BoundHolds(c, k)
  }

  /** Over all configurations only the minute window does, the one no longer
      than the idle timeout. */
  lemma BoundedIffShorterThanTheTimeout(k: Kind)
    ensures BoundsEveryRun(k) <==> SizeOf(k) <= IDLE_TIMEOUT
    ensures BoundsEveryRun(k) <==> k == Minute
  {
    if k == Minute {
      forall c: Config | c.enabled ensures BoundHolds(c, Minute) {
        forall run, id, to | Possible(c, run) ensures Within(Accepted(c, run, id), to, SizeOf(Minute)) <= LimitOf(c, Minute) {
          MinuteBound(c, run, id, to);
        }
      }
    } else {
      DefaultLimits();
      assert DEFAULT.enabled && !BoundHolds(DEFAULT, k);
    }
  }
}
