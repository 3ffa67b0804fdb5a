// The sliding-window rate limiter: three chained windows per session, a cap on
// the number of sessions, and a cleanup thread that evicts idle sessions.
// Times are seconds of one monotone clock, read once per operation.
module RateLimit {
  datatype Config = Config(
    enabled: bool, requestsPerMinute: nat, requestsPerHour: nat, requestsPerDay: nat,
    burstAllowance: nat, maxConcurrentSessions: nat, cleanupInterval: nat)

  const MINUTE := 60
  const HOUR := 3600
  const DAY := 86400
  const IDLE_TIMEOUT := 300

  // ------------------------------------------------------------ one window

  datatype Window = Window(requests: seq<int>, size: nat, maxRequests: nat, burst: nat)

  function Retained(requests: seq<int>, now: int, size: nat): seq<int> {
    if requests == [] then []
    else
      var before := Retained(requests[..|requests| - 1], now, size);
      if now - requests[|requests| - 1] < size then before + [requests[|requests| - 1]] else before
  }

  function Limit(w: Window): nat { w.maxRequests + w.burst }

  /** The window after a check, and whether the request is let through. */
  function Checked(w: Window, now: int): (Window, bool) {
    var kept := Retained(w.requests, now, w.size);
    if |kept| >= Limit(w) then (w.(requests := kept), false)
    else (w.(requests := kept + [now]), true)
  }

  // ----------------------------------------------------------- the sessions

  datatype Session = Session(minute: Window, hour: Window, day: Window, lastActivity: int)

  datatype Verdict = Allowed | LimitExceeded | TooManySessions

  type Sessions = map<string, Session>

  function NewSession(c: Config, now: int): Session {
    Session(Window([], MINUTE, c.requestsPerMinute, c.burstAllowance),
            Window([], HOUR, c.requestsPerHour, c.burstAllowance),
            Window([], DAY, c.requestsPerDay, c.burstAllowance), now)
  }

  /** The chain stops at the first window that refuses; the windows before it
      have already counted the request. */
  function Chained(s: Session, now: int): (Session, bool) {
    var (minute, ok1) := Checked(s.minute, now);
    var s1 := s.(minute := minute, lastActivity := now);
    if !ok1 then (s1, false)
    else
      var (hour, ok2) := Checked(s.hour, now);
      var s2 := s1.(hour := hour);
      if !ok2 then (s2, false)
      else
        var (day, ok3) := Checked(s.day, now);
        (s2.(day := day), ok3)
  }

  function Check(c: Config, m: Sessions, id: string, now: int): (Sessions, Verdict) {
    if !c.enabled then (m, Allowed)
    else if |m| >= c.maxConcurrentSessions && id !in m then (m, TooManySessions)
    else
      var (s, ok) := Chained(if id in m then m[id] else NewSession(c, now), now);
      (m[id := s], if ok then Allowed else LimitExceeded)
  }

  function Cleaned(m: Sessions, now: int): Sessions {
    map id | id in m && now - m[id].lastActivity < IDLE_TIMEOUT :: m[id]
  }

  // ------------------------------------------------------------------- runs

  datatype Op = DoCheck(id: string, now: int) | DoCleanup(now: int)

  function Apply(c: Config, m: Sessions, op: Op): Sessions {
    match op
    case DoCheck(id, now) => Check(c, m, id, now).0
    case DoCleanup(now) => Cleaned(m, now)
  }

  function After(c: Config, run: seq<Op>): Sessions {
    if run == [] then map[] else Apply(c, After(c, run[..|run| - 1]), run[|run| - 1])
  }

  /** The times at which requests of `id` were let through, in order. */
  function Accepted(c: Config, run: seq<Op>, id: string): seq<int> {
    if run == [] then []
    else
      var before := Accepted(c, run[..|run| - 1], id);
      match run[|run| - 1]
      case DoCheck(i, now) =>
        if i == id && Check(c, After(c, run[..|run| - 1]), id, now).1 == Allowed then before + [now] else before
      case DoCleanup(_) => before
  }

  /** The clock never runs backwards. */
  predicate Timed(run: seq<Op>) {
    forall i, j :: 0 <= i < j < |run| ==> run[i].now <= run[j].now
  }

  /** The cleanup thread wakes every second and sweeps once its interval is up. */
  function SweepInterval(c: Config): nat {
    if c.cleanupInterval == 0 then 1 else c.cleanupInterval
  }

  /** So two sweeps are at least that far apart. */
  predicate SweepsApart(c: Config, run: seq<Op>) {
    forall i, j :: 0 <= i < j < |run| && run[i].DoCleanup? && run[j].DoCleanup? ==>
      run[i].now + SweepInterval(c) <= run[j].now
  }

  /** Accepted requests in the half-open interval of length `size` ending at `to`. */
  function Within(times: seq<int>, to: int, size: nat): nat {
    if times == [] then 0
    else Within(times[..|times| - 1], to, size)
         + if to - size < times[|times| - 1] <= to then 1 else 0
  }

  datatype Kind = Minute | Hour | Day

  function SizeOf(k: Kind): nat {
    match k case Minute => MINUTE case Hour => HOUR case Day => DAY
  }

  function LimitOf(c: Config, k: Kind): nat {
    c.burstAllowance +
    match k case Minute => c.requestsPerMinute case Hour => c.requestsPerHour case Day => c.requestsPerDay
  }

  function WindowOf(s: Session, k: Kind): Window {
    match k case Minute => s.minute case Hour => s.hour case Day => s.day
  }

  /** Whenever a cleanup drops `id`, its last activity is at least one window
      ago.  For the minute window the idle timeout guarantees it. */
  ghost predicate EvictedOnlyWhenStale(c: Config, run: seq<Op>, id: string, size: nat) {
    forall i :: 0 <= i < |run| && run[i].DoCleanup? ==>
      var m := After(c, run[..i]);
      id in m && id !in Cleaned(m, run[i].now) ==> run[i].now - m[id].lastActivity >= size
  }

  // ------------------------------------------------------------- counting

  /** Elements strictly later than `cut`. */
  function Later(times: seq<int>, cut: int): nat {
    if times == [] then 0
    else Later(times[..|times| - 1], cut) + if times[|times| - 1] > cut then 1 else 0
  }

  lemma LaterAppend(times: seq<int>, t: int, cut: int)
    ensures Later(times + [t], cut) == Later(times, cut) + if t > cut then 1 else 0
  {
    assert (times + [t])[..|times|] == times;
  }

  lemma {:induction false} RetainedCounts(requests: seq<int>, now: int, size: nat, cut: int)
    ensures cut >= now - size ==> Later(Retained(requests, now, size), cut) == Later(requests, cut)
    ensures Later(requests, cut) <= |requests|
    ensures |Retained(requests, now, size)| == Later(requests, now - size)
    decreases |requests|
  {
    if requests != [] {
      var before, last := requests[..|requests| - 1], requests[|requests| - 1];
      RetainedCounts(before, now, size, cut);
      LaterAppend(Retained(before, now, size), last, cut);
    }
  }

  lemma {:induction false} NoneLater(times: seq<int>, cut: int)
    requires forall i :: 0 <= i < |times| ==> times[i] <= cut
    ensures Later(times, cut) == 0
  {
    if times != [] { NoneLater(times[..|times| - 1], cut); }
  }

  // -------------------------------------------------------------- invariant

  /** What ties the tracked sessions to the times `id` was let through, at or
      before `now`: a tracked session's window has counted at least every one
      of the last `size` seconds, and for an untracked one there is none. */
  ghost predicate Tracks(c: Config, m: Sessions, times: seq<int>, now: int, id: string, k: Kind) {
    && (id in m ==>
          && m[id].lastActivity <= now
          && (forall i :: 0 <= i < |times| ==> times[i] <= m[id].lastActivity)
          && Covers(c, m[id], k, times, now))
    && (id !in m ==> Later(times, now - SizeOf(k)) == 0)
  }

  predicate WindowShaped(c: Config, s: Session, k: Kind) {
    WindowOf(s, k).size == SizeOf(k) && Limit(WindowOf(s, k)) == LimitOf(c, k)
  }

  lemma {:induction false} LaterIsAntitone(times: seq<int>, a: int, b: int)
    requires a <= b
    ensures Later(times, b) <= Later(times, a)
  {
    if times != [] { LaterIsAntitone(times[..|times| - 1], a, b); }
  }

  lemma {:induction false} WithinIsLater(times: seq<int>, to: int, size: nat)
    ensures Within(times, to, size) <= Later(times, to - size)
  {
    if times != [] { WithinIsLater(times[..|times| - 1], to, size); }
  }

  // ------------------------------------------- a check keeps the bookkeeping

  /** A session's window of kind `k` covers the accepted times up to `now`. */
  ghost predicate Covers(c: Config, s: Session, k: Kind, times: seq<int>, now: int) {
    && WindowShaped(c, s, k)
    && (forall cut :: cut >= now - SizeOf(k) ==> Later(times, cut) <= Later(WindowOf(s, k).requests, cut))
  }

  lemma CheckedWindow(w: Window, now: int, times: seq<int>)
    requires forall cut :: cut >= now - w.size ==> Later(times, cut) <= Later(w.requests, cut)
    ensures var (w', ok) := Checked(w, now);
      && w'.size == w.size && Limit(w') == Limit(w)
      && (ok ==> Later(times, now - w.size) + 1 <= Limit(w))
      && (forall cut :: cut >= now - w.size ==>
            Later(times, cut) + (if ok && now > cut then 1 else 0) <= Later(w'.requests, cut))
  {
    var (w', ok) := Checked(w, now);
    var kept := Retained(w.requests, now, w.size);
    forall cut | cut >= now - w.size
      ensures Later(times, cut) + (if ok && now > cut then 1 else 0) <= Later(w'.requests, cut)
    {
      RetainedCounts(w.requests, now, w.size, cut);
      LaterAppend(kept, now, cut);
    }
    RetainedCounts(w.requests, now, w.size, now - w.size);
  }

  /** Refused exactly when some window already counts its limit. */
  lemma AllowedIffEveryWindowHasRoom(c: Config, s: Session, now: int)
    requires forall k :: WindowShaped(c, s, k)
    ensures Chained(s, now).1 <==>
      forall k :: Later(WindowOf(s, k).requests, now - SizeOf(k)) < LimitOf(c, k)
  {
    forall k
      ensures Checked(WindowOf(s, k), now).1 <==> Later(WindowOf(s, k).requests, now - SizeOf(k)) < LimitOf(c, k)
    {
      assert WindowShaped(c, s, k);
      RetainedCounts(WindowOf(s, k).requests, now, SizeOf(k), now);
    }
    assert WindowOf(s, Minute) == s.minute && WindowOf(s, Hour) == s.hour && WindowOf(s, Day) == s.day;
  }

  lemma ChainedCovers(c: Config, s: Session, k: Kind, times: seq<int>, now: int)
    requires Covers(c, s, k, times, now)
    ensures var (s', ok) := Chained(s, now);
      var times' := if ok then times + [now] else times;
      && Covers(c, s', k, times', now) && s'.lastActivity == now
      && (ok ==> Later(times', now - SizeOf(k)) <= LimitOf(c, k))
  {
    var (s', ok) := Chained(s, now);
    var w := WindowOf(s, k);
    CheckedWindow(w, now, times);
    if ok {
      forall cut ensures Later(times + [now], cut) == Later(times, cut) + if now > cut then 1 else 0 {
        LaterAppend(times, now, cut);
      }
    }
    if !ok {
      assert WindowOf(s', k) == w || WindowOf(s', k) == Checked(w, now).0;
    }
  }

  lemma TracksAges(c: Config, m: Sessions, times: seq<int>, now: int, later: int, id: string, k: Kind)
    requires Tracks(c, m, times, now, id, k) && now <= later
    ensures Tracks(c, m, times, later, id, k)
  {
    LaterIsAntitone(times, now - SizeOf(k), later - SizeOf(k));
  }

  /** A cleanup: at most it evicts `id` when stale. */
  lemma CleanupTracks(c: Config, m: Sessions, times: seq<int>, now: int, id: string, k: Kind)
    requires Tracks(c, m, times, now, id, k)
    requires id in m && id !in Cleaned(m, now) ==> now - m[id].lastActivity >= SizeOf(k)
    ensures Tracks(c, Cleaned(m, now), times, now, id, k)
  {
    if id in m && id !in Cleaned(m, now) {
      NoneLater(times, now - SizeOf(k));
    }
  }

  /** The session a check works on, tracked or new, covers the history. */
  lemma StartingSessionCovers(c: Config, m: Sessions, times: seq<int>, now: int, id: string, k: Kind)
    requires Tracks(c, m, times, now, id, k)
    ensures Covers(c, if id in m then m[id] else NewSession(c, now), k, times, now)
    ensures forall i :: 0 <= i < |times| ==> times[i] <= now
  {
    if id !in m {
      forall cut | cut >= now - SizeOf(k) ensures Later(times, cut) == 0 {
        LaterIsAntitone(times, now - SizeOf(k), cut);
      }
      NotLater(times, now - SizeOf(k));
    }
  }

  /** A check of `id`: the windows absorb it, and a request that is let through
      still fits the limit. */
  lemma CheckTracks(c: Config, m: Sessions, times: seq<int>, now: int, id: string, k: Kind)
    requires c.enabled && Tracks(c, m, times, now, id, k)
    ensures var (m', v) := Check(c, m, id, now);
      var times' := if v == Allowed then times + [now] else times;
      && Tracks(c, m', times', now, id, k)
      && (v == Allowed ==> Later(times', now - SizeOf(k)) <= LimitOf(c, k))
  {
    var (m', v) := Check(c, m, id, now);
    if v != TooManySessions {
      var s := if id in m then m[id] else NewSession(c, now);
      StartingSessionCovers(c, m, times, now, id, k);
      ChainedCovers(c, s, k, times, now);
      assert m' == m[id := Chained(s, now).0] && (v == Allowed <==> Chained(s, now).1);
    }
  }

  lemma {:induction false} NotLater(times: seq<int>, cut: int)
    requires Later(times, cut) == 0
    ensures forall i :: 0 <= i < |times| ==> times[i] <= cut
  {
    if times != [] { NotLater(times[..|times| - 1], cut); }
  }

  ghost predicate Bounded(c: Config, times: seq<int>, k: Kind) {
    forall to :: Within(times, to, SizeOf(k)) <= LimitOf(c, k)
  }

  /** A check of another session does not touch this one. */
  lemma OtherCheckTracks(c: Config, m: Sessions, times: seq<int>, now: int, other: string, id: string, k: Kind)
    requires Tracks(c, m, times, now, id, k) && other != id
    ensures Tracks(c, Check(c, m, other, now).0, times, now, id, k)
  {
    var m' := Check(c, m, other, now).0;
    assert (id in m' <==> id in m) && (id in m ==> m'[id] == m[id]);
  }

  function Grown(c: Config, m: Sessions, times: seq<int>, op: Op, id: string): seq<int> {
    if op.DoCheck? && op.id == id && Check(c, m, id, op.now).1 == Allowed then times + [op.now] else times
  }

  lemma StepTracks(c: Config, m: Sessions, times: seq<int>, op: Op, id: string, k: Kind)
    requires c.enabled && Tracks(c, m, times, op.now, id, k) && Bounded(c, times, k)
    requires op.DoCleanup? && id in m && id !in Cleaned(m, op.now) ==> op.now - m[id].lastActivity >= SizeOf(k)
    ensures Tracks(c, Apply(c, m, op), Grown(c, m, times, op, id), op.now, id, k)
    ensures Bounded(c, Grown(c, m, times, op, id), k)
  {
    match op
    case DoCleanup(now) =>
      CleanupTracks(c, m, times, now, id, k);
    case DoCheck(i, now) =>
      if i != id {
        OtherCheckTracks(c, m, times, now, i, id, k);
      } else {
        OwnCheckTracks(c, m, times, now, id, k);
      }
  }

  lemma OwnCheckTracks(c: Config, m: Sessions, times: seq<int>, now: int, id: string, k: Kind)
    requires c.enabled && Tracks(c, m, times, now, id, k) && Bounded(c, times, k)
    ensures Tracks(c, Check(c, m, id, now).0, Grown(c, m, times, DoCheck(id, now), id), now, id, k)
    ensures Bounded(c, Grown(c, m, times, DoCheck(id, now), id), k)
  {
    CheckTracks(c, m, times, now, id, k);
    if Check(c, m, id, now).1 == Allowed {
      AcceptedFits(c, times, now, k);
    }
  }

  lemma {:induction false} Bookkeeping(c: Config, run: seq<Op>, id: string, k: Kind, now: int)
    requires c.enabled && Timed(run) && (run != [] ==> run[|run| - 1].now <= now)
    requires EvictedOnlyWhenStale(c, run, id, SizeOf(k))
    ensures Tracks(c, After(c, run), Accepted(c, run, id), now, id, k)
    ensures Bounded(c, Accepted(c, run, id), k)
    decreases |run|
  {
    if run != [] {
      var before, op := run[..|run| - 1], run[|run| - 1];
      assert forall i :: 0 <= i < |before| ==> before[..i] == run[..i];
      Bookkeeping(c, before, id, k, op.now);
      var m, times := After(c, before), Accepted(c, before, id);
      StepTracks(c, m, times, op, id, k);
      assert Accepted(c, run, id) == Grown(c, m, times, op, id);
      TracksAges(c, Apply(c, m, op), Grown(c, m, times, op, id), op.now, now, id, k);
    }
  }

  lemma AcceptedFits(c: Config, times: seq<int>, now: int, k: Kind)
    requires Bounded(c, times, k) && Later(times + [now], now - SizeOf(k)) <= LimitOf(c, k)
    ensures Bounded(c, times + [now], k)
  {
    assert (times + [now])[..|times|] == times;
    forall to
      ensures Within(times + [now], to, SizeOf(k)) <= LimitOf(c, k)
    {
      if to < now {
        assert Within(times + [now], to, SizeOf(k)) == Within(times, to, SizeOf(k));
      } else {
        WithinIsLater(times + [now], to, SizeOf(k));
        LaterIsAntitone(times + [now], now - SizeOf(k), to - SizeOf(k));
      }
    }
  }

  // ---------------------------------------------------------------- theorems

  /** In every run of checks and cleanups of any sessions, however evictions
      fall, a session is let through at most requests_per_minute + burst times
      in any 60 seconds: an evicted session has been idle for longer. */
  lemma MinuteBound(c: Config, run: seq<Op>, id: string, to: int)
    requires c.enabled && Timed(run)
    ensures Within(Accepted(c, run, id), to, MINUTE) <= c.requestsPerMinute + c.burstAllowance
  {
    Bookkeeping(c, run, id, Minute, if run == [] then 0 else run[|run| - 1].now);
    assert Bounded(c, Accepted(c, run, id), Minute);
  }

  /** The hour and day bounds hold of the runs that evict the session only after
      it has been idle for the whole window; in particular if it is never evicted. */
  lemma WindowBound(c: Config, run: seq<Op>, id: string, to: int, k: Kind)
    requires c.enabled && Timed(run) && EvictedOnlyWhenStale(c, run, id, SizeOf(k))
    ensures Within(Accepted(c, run, id), to, SizeOf(k)) <= LimitOf(c, k)
  {
    Bookkeeping(c, run, id, k, if run == [] then 0 else run[|run| - 1].now);
    assert Bounded(c, Accepted(c, run, id), k);
  }

  /** The session cap, over every run. */
  lemma {:induction false} SessionCap(c: Config, run: seq<Op>)
    ensures |After(c, run)| <= c.maxConcurrentSessions
    decreases |run|
  {
    if run != [] {
      var before, op := run[..|run| - 1], run[|run| - 1];
      SessionCap(c, before);
      var m := After(c, before);
      match op
      case DoCheck(id, now) =>
        var m' := Check(c, m, id, now).0;
        if m' != m {
          assert m'.Keys == m.Keys + {id};
          assert |m'| == |m'.Keys| && |m| == |m.Keys|;
        }
      case DoCleanup(now) =>
        SubsetSize(Cleaned(m, now).Keys, m.Keys);
    }
  }

  lemma {:induction false} SubsetSize<T>(a: set<T>, b: set<T>)
    requires a <= b
    ensures |a| <= |b|
  {
    if a != {} {
      var x :| x in a;
      SubsetSize(a - {x}, b - {x});
    }
  }

  /** The sessions a run checks. */
  function Ids(run: seq<Op>): set<string> {
    set op | op in run && op.DoCheck? :: op.id
  }

  lemma {:induction false} TrackedAreChecked(c: Config, run: seq<Op>)
    ensures After(c, run).Keys <= Ids(run)
  {
    if run != [] {
      var before, op := run[..|run| - 1], run[|run| - 1];
      TrackedAreChecked(c, before);
      assert forall o :: o in before ==> o in run;
      assert Ids(before) <= Ids(run);
      assert op in run && (op.DoCheck? ==> op.id in Ids(run));
    }
  }

  /** In a run over no more sessions than the cap, none is turned away for it. */
  lemma {:induction false} FewSessionsAreAdmitted(c: Config, run: seq<Op>, i: nat)
    requires |Ids(run)| <= c.maxConcurrentSessions && i < |run| && run[i].DoCheck?
    ensures Check(c, After(c, run[..i]), run[i].id, run[i].now).1 != TooManySessions
  {
    var m, id := After(c, run[..i]), run[i].id;
    TrackedAreChecked(c, run[..i]);
    assert forall o :: o in run[..i] ==> o in run;
    assert Ids(run[..i]) <= Ids(run) && id in Ids(run);
    if id !in m {
      assert m.Keys + {id} <= Ids(run);
      SubsetSize(m.Keys + {id}, Ids(run));
      assert |m.Keys + {id}| == |m.Keys| + 1 && |m| == |m.Keys|;
    }
  }

  lemma {:induction false} TrackedAreShaped(c: Config, run: seq<Op>, id: string, k: Kind)
    requires id in After(c, run)
    ensures WindowShaped(c, After(c, run)[id], k)
  {
    var before, op := run[..|run| - 1], run[|run| - 1];
    if id in After(c, before) { TrackedAreShaped(c, before, id, k); }
  }

  /** What a window counts at `now`. */
  function CountAt(w: Window, now: int): nat { Later(w.requests, now - w.size) }

  /** A window after a check that it let pass, or not, or that never came to it. */
  ghost predicate Recorded(before: Window, after: Window, now: int, asked: bool, admitted: bool) {
    && after.size == before.size
    && if !asked then after == before
       else forall cut :: cut >= now - before.size ==>
         Later(after.requests, cut) == Later(before.requests, cut) + (if admitted && now > cut then 1 else 0)
  }

  lemma CheckedRecords(w: Window, now: int)
    ensures var (w', ok) := Checked(w, now);
      && (ok <==> CountAt(w, now) < w.maxRequests + w.burst)
      && Recorded(w, w', now, true, ok)
  {
    var kept := Retained(w.requests, now, w.size);
    RetainedCounts(w.requests, now, w.size, now);
    forall cut | cut >= now - w.size
      ensures Later(Checked(w, now).0.requests, cut)
        == Later(w.requests, cut) + (if Checked(w, now).1 && now > cut then 1 else 0)
    {
      RetainedCounts(w.requests, now, w.size, cut);
      LaterAppend(kept, now, cut);
    }
  }

  /** The three windows in turn: a request counts in a window that has room even
      when a later one refuses it, and the later ones never see it then. */
  ghost predicate Passes(c: Config, s: Session, now: int, s': Session, v: Verdict) {
    var minute := CountAt(s.minute, now) < c.requestsPerMinute + c.burstAllowance;
    var hour := CountAt(s.hour, now) < c.requestsPerHour + c.burstAllowance;
    var day := CountAt(s.day, now) < c.requestsPerDay + c.burstAllowance;
    && v == (if minute && hour && day then Allowed else LimitExceeded)
    && Recorded(s.minute, s'.minute, now, true, minute)
    && Recorded(s.hour, s'.hour, now, minute, hour)
    && Recorded(s.day, s'.day, now, minute && hour, day)
  }

  lemma ChainRecords(c: Config, s: Session, now: int)
    requires forall k :: WindowShaped(c, s, k)
    ensures var (s', ok) := Chained(s, now);
      Passes(c, s, now, s', if ok then Allowed else LimitExceeded) && s'.lastActivity == now
  {
    assert WindowShaped(c, s, Minute) && WindowShaped(c, s, Hour) && WindowShaped(c, s, Day);
    CheckedRecords(s.minute, now);
    CheckedRecords(s.hour, now);
    CheckedRecords(s.day, now);
  }

  /** What a check may answer, and what it leaves: nothing happens when the limiter
      is off; a session that is not tracked is turned away if and only if the cap
      is reached; otherwise the request passes if and only if every window of the
      session, or of a new one, counts less than its limit. */
  ghost predicate Answers(c: Config, m: Sessions, id: string, now: int, m': Sessions, v: Verdict) {
    && (!c.enabled ==> v == Allowed && m' == m)
    && (v == TooManySessions <==> c.enabled && id !in m && |m| >= c.maxConcurrentSessions)
    && (v == TooManySessions ==> m' == m)
    && (c.enabled && v != TooManySessions ==>
         && id in m' && m' - {id} == m - {id} && m'[id].lastActivity == now
         && Passes(c, if id in m then m[id] else NewSession(c, now), now, m'[id], v))
  }

  lemma {:induction false} CheckAnswers(c: Config, run: seq<Op>, id: string, now: int)
    ensures var m := After(c, run); var (m', v) := Check(c, m, id, now); Answers(c, m, id, now, m', v)
  {
    var m := After(c, run);
    var s := if id in m then m[id] else NewSession(c, now);
    forall k ensures WindowShaped(c, s, k) {
      if id in m { TrackedAreShaped(c, run, id, k); }
    }
    ChainRecords(c, s, now);
    var s' := Chained(s, now).0;
    assert m[id := s'] - {id} == m - {id};
  }

  lemma {:induction false} MinuteHolds(c: Config, run: seq<Op>, id: string, now: int)
    requires c.enabled && Timed(run) && (run != [] ==> run[|run| - 1].now <= now)
    ensures forall to :: Within(Accepted(c, run, id), to, MINUTE) <= c.requestsPerMinute + c.burstAllowance
  {
    forall to ensures Within(Accepted(c, run, id), to, MINUTE) <= c.requestsPerMinute + c.burstAllowance {
      MinuteBound(c, run, id, to);
    }
  }

  // ------------------------------------------------------------- the limiter

  class RateLimiter {
    const config: Config
    var sessions: Sessions
    ghost var run: seq<Op>   // the checks and cleanups so far

    ghost predicate Valid()
      reads this
    {
      sessions == After(config, run) && Timed(run)
    }

    ghost predicate NotBefore(now: int)
      reads this
    {
      run == [] || run[|run| - 1].now <= now
    }

    constructor (config: Config)
      ensures Valid() && run == [] && this.config == config
    {
      this.config := config;
      sessions, run := map[], [];
    }

    /** `TimeWindow::check`: drop what has left the window, then count. */
    static method CheckWindow(w: Window, now: int) returns (w': Window, ok: bool)
      ensures (w', ok) == Checked(w, now)
    {
      var kept := [];
      for i := 0 to |w.requests|
        invariant kept == Retained(w.requests[..i], now, w.size)
      {
        assert w.requests[..i + 1][..i] == w.requests[..i];
        if now - w.requests[i] < w.size {
          kept := kept + [w.requests[i]];
        }
      }
      assert w.requests[..|w.requests|] == w.requests;
      if |kept| >= w.maxRequests + w.burst {
        return w.(requests := kept), false;
      }
      return w.(requests := kept + [now]), true;
    }

    method CheckRequest(id: string, now: int) returns (verdict: Verdict)
      requires Valid() && NotBefore(now)
      modifies this
      ensures Valid() && run == old(run) + [DoCheck(id, now)]
      ensures verdict == Check(config, old(sessions), id, now).1
      ensures config.enabled ==> forall to ::
        Within(Accepted(config, run, id), to, MINUTE) <= config.requestsPerMinute + config.burstAllowance
      ensures |sessions| <= config.maxConcurrentSessions
      ensures Answers(config, old(sessions), id, now, sessions, verdict)
    {
      ghost var before := run;
      verdict := Answer(id, now);
      run := run + [DoCheck(id, now)];
      assert run[..|before|] == before;
      SessionCap(config, run);
      if config.enabled {
        MinuteHolds(config, run, id, now);
      }
    }

    method Answer(id: string, now: int) returns (verdict: Verdict)
      requires Valid()
      modifies this`sessions
      ensures (sessions, verdict) == Check(config, old(sessions), id, now)
      ensures Answers(config, old(sessions), id, now, sessions, verdict)
    {
      CheckAnswers(config, run, id, now);
      verdict := Decide(id, now);
    }

    method Decide(id: string, now: int) returns (verdict: Verdict)
      modifies this`sessions
      ensures (sessions, verdict) == Check(config, old(sessions), id, now)
    {
      if !config.enabled {
        return Allowed;
      }
      if |sessions| >= config.maxConcurrentSessions && id !in sessions {
        return TooManySessions;
      }
      var s := if id in sessions then sessions[id] else NewSession(config, now);
      var ok;
      s, ok := CheckChain(s, now);
      sessions := sessions[id := s];
      verdict := if ok then Allowed else LimitExceeded;
    }

    static method CheckChain(start: Session, now: int) returns (s: Session, ok: bool)
      ensures (s, ok) == Chained(start, now)
    {
      s := start.(lastActivity := now);
      var w;
      w, ok := CheckWindow(s.minute, now);
      s := s.(minute := w);
      if !ok { return; }
      w, ok := CheckWindow(s.hour, now);
      s := s.(hour := w);
      if !ok { return; }
      w, ok := CheckWindow(s.day, now);
      s := s.(day := w);
    }

    /** The `retain` of the cleanup thread. */
    method Cleanup(now: int)
      requires Valid() && NotBefore(now)
      modifies this
      ensures Valid() && run == old(run) + [DoCleanup(now)]
      ensures forall id :: id in sessions <==> id in old(sessions) && now - old(sessions)[id].lastActivity < IDLE_TIMEOUT
    {
      ghost var before := run;
      run := run + [DoCleanup(now)];
      assert run[..|before|] == before;
      sessions := Cleaned(sessions, now);
    }

    /** Any checks by other threads between two times. */
    method OtherChecks(since: int, until: int)
      requires Valid() && NotBefore(since) && since <= until
      modifies this
      ensures Valid() && NotBefore(until) && old(run) <= run
      ensures forall i :: |old(run)| <= i < |run| ==> run[i].DoCheck?
    {
      var steps: nat, last := *, since;
      while steps > 0
        invariant Valid() && NotBefore(last) && last <= until && old(run) <= run
        invariant forall i :: |old(run)| <= i < |run| ==> run[i].DoCheck?
      {
        var id: string, now: int := *, *;
        if last <= now <= until {
          var _ := CheckRequest(id, now);
          last := now;
        }
        steps := steps - 1;
      }
    }

    /** `elapsed` wake-ups by time `last` since the last sweep. */
    ghost predicate Paced(elapsed: nat, last: int)
      reads this
    {
      && NotBefore(last) && SweepsApart(config, run)
      && forall i :: 0 <= i < |run| && run[i].DoCleanup? ==> run[i].now + elapsed <= last
    }

    /** One turn of the loop: a sweep if the interval is up. */
    method Wake(elapsed: nat, now: int) returns (count: nat)
      requires Valid() && Paced(elapsed + 1, now)
      modifies this
      ensures Valid() && Paced(count, now)
      ensures count == if elapsed + 1 >= config.cleanupInterval then 0 else elapsed + 1
    {
      count := elapsed + 1;
      if count >= config.cleanupInterval {
        count := 0;
        Cleanup(now);
      }
    }

    /** `cleanup_loop`, woken at these times, never less than a second apart: its
        sweeps are at least the interval apart, whatever is checked meanwhile. */
    method CleanupLoop(start: int, wakeups: seq<int>)
      requires Valid() && run == []
      requires forall i :: 0 <= i < |wakeups| ==>
        wakeups[i] >= 1 + if i == 0 then start else wakeups[i - 1]
      modifies this
      ensures Valid() && SweepsApart(config, run)
    {
      var elapsed: nat, last := 0, start;
      for i := 0 to |wakeups|
        invariant Valid() && Paced(elapsed, last)
        invariant last == if i == 0 then start else wakeups[i - 1]
      {
        OtherChecks(last, wakeups[i]);
        last := wakeups[i];
        elapsed := Wake(elapsed, last);
      }
    }
  }
}
