// The correlation protocol of the server's control channel: a server-initiated
// request is created with a deadline, pushed to the client, and waits for the
// client's POST-back.  Every region under the channel's lock is one step; the
// event wait and the pop that follows it are separate steps, so anything may
// happen between them.
module ControlProtocol {
  import opened Common
  import opened PostBack

  type Id = string

  // ---------------------------------------------------------- step machine

  /** A `_Pending` object.  A waiter keeps its reference after the entry has
      left the table, so objects outlive their entries.  `at` records when the
      result came. */
  datatype Entry = Entry(deadline: int, result: Option<Body>, at: int)

  datatype Waiter =
    | Blocked(id: Id, until: int)   // in event.wait
    | Expired(id: Id)               // the wait returned False, the pop is still to come
    | Woken(id: Id)                 // the wait returned True, the pop is still to come

  datatype State = State(
    now: int, objects: map<Id, Entry>, pending: set<Id>, waiters: map<nat, Waiter>)

  datatype Label =
    | Tick(to: int)
    | Create(id: Id, ttl: int)
    | Post(path: Id, posted: Posted)
    | Begin(thread: nat, id: Id, timeout: int)
    | Wake(thread: nat)
    | GiveUp(thread: nat)
    | Pop(thread: nat)
    | Cancel(id: Id)
    | Sweep(at: int)

  datatype Event =
    | Silent
    | Created(id: Id, deadline: int)
    | Accepted(id: Id, body: Body, at: int)
    | Ignored(id: Id)
    | Unknown(thread: nat, id: Id)
    | Returned(thread: nat, id: Id, body: Body)
    | TimedOut(thread: nat, id: Id)
    | Cancelled(id: Id, existed: bool)

  const INITIAL: State := State(0, map[], {}, map[])

  predicate WellFormed(s: State) {
    && s.pending <= s.objects.Keys
    && (forall t :: t in s.waiters ==> s.waiters[t].id in s.objects)
    && (forall t :: t in s.waiters && s.waiters[t].Woken? ==> s.objects[s.waiters[t].id].result.Some?)
    // the wait is bounded by what is left of the TTL
    && (forall t :: t in s.waiters && s.waiters[t].Blocked? ==> s.waiters[t].until <= s.objects[s.waiters[t].id].deadline)
  }

  predicate Enabled(s: State, l: Label)
    requires WellFormed(s)
  {
    match l
    case Tick(to) => to >= s.now
    case Create(id, ttl) => id !in s.objects && ttl > 0   // ids are fresh UUIDs
    case Post(_, _) => true
    case Begin(t, _, timeout) => t !in s.waiters && timeout >= 0
    case Wake(t) => t in s.waiters && s.waiters[t].Blocked? && s.objects[s.waiters[t].id].result.Some?
    // an event set before the time is up ends the wait with True
    case GiveUp(t) =>
      && t in s.waiters && s.waiters[t].Blocked? && s.now >= s.waiters[t].until
      && s.objects[s.waiters[t].id].result.None?
    case Pop(t) => t in s.waiters && !s.waiters[t].Blocked?
    case Cancel(_) => true
    case Sweep(at) => at <= s.now   // the clock is read before the lock is taken
  }

  function Fired(s: State, l: Label): (State, Event)
    requires WellFormed(s) && Enabled(s, l)
  {
    match l
    case Tick(to) => (s.(now := to), Silent)
    case Create(id, ttl) =>
      (s.(objects := s.objects[id := Entry(s.now + ttl, None, 0)], pending := s.pending + {id}),
       Created(id, s.now + ttl))
    case Post(path, posted) => FiredPost(s, path, Normalized(posted))
    case Begin(t, id, timeout) => FiredBegin(s, t, id, timeout)
    case Wake(t) => (s.(waiters := s.waiters[t := Woken(s.waiters[t].id)]), Silent)
    case GiveUp(t) => (s.(waiters := s.waiters[t := Expired(s.waiters[t].id)]), Silent)
    case Pop(t) =>
      var w := s.waiters[t];
      (s.(pending := s.pending - {w.id}, waiters := s.waiters - {t}),
       if w.Woken? then Returned(t, w.id, s.objects[w.id].result.value) else TimedOut(t, w.id))
    case Cancel(id) => (s.(pending := s.pending - {id}), Cancelled(id, id in s.pending))
    case Sweep(at) =>
      (s.(pending := set id | id in s.pending && at <= s.objects[id].deadline), Silent)
  }

  function FiredPost(s: State, path: Id, body: Body): (State, Event)
    requires WellFormed(s)
  {
    if body.correlationId != Text(path) || path !in s.pending || s.objects[path].result.Some? then
      (s, Ignored(path))
    else if s.now > s.objects[path].deadline then
      (s.(pending := s.pending - {path}), Ignored(path))
    else
      (s.(objects := s.objects[path := s.objects[path].(result := Some(body), at := s.now)]),
       Accepted(path, body, s.now))
  }

  function FiredBegin(s: State, t: nat, id: Id, timeout: int): (State, Event)
    requires WellFormed(s)
  {
    if id !in s.pending then
      (s, Unknown(t, id))
    else if s.objects[id].result.Some? then
      (s.(pending := s.pending - {id}), Returned(t, id, s.objects[id].result.value))
    else
      var wait := Min(timeout, Max(s.objects[id].deadline - s.now, 0));
      (s.(waiters := s.waiters[t := if wait <= 0 then Expired(id) else Blocked(id, s.now + wait)]), Silent)
  }

  lemma FiredKeepsWellFormed(s: State, l: Label)
    requires WellFormed(s) && Enabled(s, l)
    ensures WellFormed(Fired(s, l).0)
  {
  }

  /** The result is this POST-back: a yes only for the boolean, and null for what
      is missing. */
  predicate Holds(result: Option<Body>, posted: Posted) {
    && result.Some? && (result.value.ok <==> posted.ok == Some(Bool(true)))
    && result.value.payload == (if posted.payload.Some? then posted.payload.value else Null)
    && result.value.error == (if posted.error.Some? then posted.error.value else Null)
  }

  /** A POST-back is accepted exactly for the id of its path, while that waits and
      in time; then it is the result, and nothing else changes. One that came late
      costs the entry its place in the table, any other changes nothing. */
  lemma PostMeaning(s: State, path: Id, posted: Posted)
    requires WellFormed(s)
    ensures var (s', e) := Fired(s, Post(path, posted));
      var waiting := posted.correlationId == Some(Text(path)) && path in s.pending && s.objects[path].result.None?;
      && (e.Accepted? <==> waiting && s.now <= s.objects[path].deadline)
      && s'.now == s.now && s'.waiters == s.waiters
      && (if e.Accepted? then
            && s'.pending == s.pending && path in s'.objects && Holds(s'.objects[path].result, posted)
            && s'.objects[path].deadline == s.objects[path].deadline && s'.objects[path].at == s.now
            && s'.objects - {path} == s.objects - {path}
          else s'.objects == s.objects && s'.pending == s.pending - (if waiting then {path} else {}))
  {
    var (s', e) := Fired(s, Post(path, posted));
    if e.Accepted? {
      assert s'.objects - {path} == s.objects - {path};
    }
  }

  /** `run` takes `s` to `s'` and is seen from outside as `trace`. */
  ghost predicate Run(s: State, run: seq<Label>, trace: seq<Event>, s': State)
    requires WellFormed(s)
    decreases |run|
  {
    if run == [] then trace == [] && s' == s
    else
      && Enabled(s, run[0]) && trace != []
      && var (m, e) := Fired(s, run[0]);
         WellFormed(m) && trace[0] == e && Run(m, run[1..], trace[1..], s')
  }

  // ---------------------------------------------------- what a trace can show

  /** Created at `c` and accepted at `a`, before position `k` and in time. */
  predicate AcceptedAt(h: seq<Event>, c: nat, a: nat, k: nat, id: Id, body: Body) {
    && c < a < k <= |h|
    && h[c].Created? && h[c].id == id
    && h[a].Accepted? && h[a].id == id && h[a].body == body
    && h[a].at <= h[c].deadline
  }

  ghost predicate AcceptedBefore(h: seq<Event>, k: nat, id: Id, body: Body) {
    exists c, a :: AcceptedAt(h, c, a, k, id, body)
  }

  ghost predicate CreatedBefore(h: seq<Event>, id: Id, deadline: int) {
    exists c :: 0 <= c < |h| && h[c] == Created(id, deadline)
  }

  ghost predicate AtMostOneAccepted(h: seq<Event>) {
    forall i, j :: 0 <= i < j < |h| && h[i].Accepted? && h[j].Accepted? ==> h[i].id != h[j].id
  }

  ghost predicate ReturnsAreAccepted(h: seq<Event>) {
    forall j :: 0 <= j < |h| && h[j].Returned? ==> AcceptedBefore(h, j, h[j].id, h[j].body)
  }

  /** How the objects of a state reflect what has been seen so far. */
  ghost predicate Reflects(h: seq<Event>, s: State) {
    && (forall id :: id in s.objects ==> CreatedBefore(h, id, s.objects[id].deadline))
    && (forall id :: id in s.objects && s.objects[id].result.Some? ==>
          AcceptedBefore(h, |h|, id, s.objects[id].result.value))
    && (forall i :: 0 <= i < |h| && h[i].Accepted? ==>
          h[i].id in s.objects && s.objects[h[i].id].result == Some(h[i].body))
  }

  lemma AcceptedBeforeLasts(h: seq<Event>, k: nat, e: Event, id: Id, body: Body)
    requires AcceptedBefore(h, k, id, body)
    ensures AcceptedBefore(h + [e], k, id, body)
    ensures AcceptedBefore(h + [e], |h| + 1, id, body)
  {
    var c, a :| AcceptedAt(h, c, a, k, id, body);
    assert AcceptedAt(h + [e], c, a, k, id, body);
    assert AcceptedAt(h + [e], c, a, |h| + 1, id, body);
  }

  lemma FiredReflectsCreation(h: seq<Event>, s: State, l: Label, id: Id)
    requires WellFormed(s) && Enabled(s, l) && Reflects(h, s)
    requires id in Fired(s, l).0.objects
    ensures CreatedBefore(h + [Fired(s, l).1], id, Fired(s, l).0.objects[id].deadline)
  {
    var h' := h + [Fired(s, l).1];
    if id in s.objects {
      var c :| 0 <= c < |h| && h[c] == Created(id, s.objects[id].deadline);
      assert h'[c] == h[c];
    } else {
      assert h'[|h|] == Created(id, Fired(s, l).0.objects[id].deadline);
    }
  }

  lemma FiredReflectsAcceptance(h: seq<Event>, s: State, l: Label, id: Id)
    requires WellFormed(s) && Enabled(s, l) && Reflects(h, s)
    requires id in Fired(s, l).0.objects && Fired(s, l).0.objects[id].result.Some?
    ensures AcceptedBefore(h + [Fired(s, l).1], |h| + 1, id, Fired(s, l).0.objects[id].result.value)
  {
    var (s', e) := Fired(s, l);
    var body := s'.objects[id].result.value;
    if s.objects[id].result.Some? {
      AcceptedBeforeLasts(h, |h|, e, id, body);
    } else {
      var c :| 0 <= c < |h| && h[c] == Created(id, s.objects[id].deadline);
      assert AcceptedAt(h + [e], c, |h|, |h| + 1, id, body);
    }
  }

  lemma FiredKeepsAccepted(h: seq<Event>, s: State, l: Label, i: nat)
    requires WellFormed(s) && Enabled(s, l) && Reflects(h, s)
    requires i <= |h| && (h + [Fired(s, l).1])[i].Accepted?
    ensures var (s', e) := Fired(s, l); var a := (h + [e])[i];
      a.id in s'.objects && s'.objects[a.id].result == Some(a.body)
  {
    if i < |h| {
      assert (h + [Fired(s, l).1])[i] == h[i];
    }
  }

  lemma FiredReflects(h: seq<Event>, s: State, l: Label)
    requires WellFormed(s) && Enabled(s, l) && Reflects(h, s)
    ensures Reflects(h + [Fired(s, l).1], Fired(s, l).0)
  {
    var (s', e) := Fired(s, l);
    forall id | id in s'.objects
      ensures CreatedBefore(h + [e], id, s'.objects[id].deadline)
    {
      FiredReflectsCreation(h, s, l, id);
    }
    forall id | id in s'.objects && s'.objects[id].result.Some?
      ensures AcceptedBefore(h + [e], |h| + 1, id, s'.objects[id].result.value)
    {
      FiredReflectsAcceptance(h, s, l, id);
    }
    forall i | 0 <= i < |h + [e]| && (h + [e])[i].Accepted?
      ensures (h + [e])[i].id in s'.objects && s'.objects[(h + [e])[i].id].result == Some((h + [e])[i].body)
    {
      FiredKeepsAccepted(h, s, l, i);
    }
  }

  lemma {:induction false} FiredKeepsTraceLaws(h: seq<Event>, s: State, l: Label)
    requires WellFormed(s) && Enabled(s, l) && Reflects(h, s)
    requires AtMostOneAccepted(h) && ReturnsAreAccepted(h)
    ensures AtMostOneAccepted(h + [Fired(s, l).1])
    ensures ReturnsAreAccepted(h + [Fired(s, l).1])
  {
    var (s', e) := Fired(s, l);
    var h' := h + [e];
    forall j | 0 <= j < |h'| && h'[j].Returned?
      ensures AcceptedBefore(h', j, h'[j].id, h'[j].body)
    {
      AcceptedBeforeLasts(h, j, e, h'[j].id, h'[j].body);
    }
  }

  lemma {:induction false} RunKeepsTraceLaws(h: seq<Event>, s: State, run: seq<Label>, trace: seq<Event>, s': State)
    requires WellFormed(s) && Run(s, run, trace, s') && Reflects(h, s)
    requires AtMostOneAccepted(h) && ReturnsAreAccepted(h)
    ensures WellFormed(s') && Reflects(h + trace, s')
    ensures AtMostOneAccepted(h + trace) && ReturnsAreAccepted(h + trace)
    decreases |run|
  {
    if run == [] {
      assert h + trace == h;
    } else {
      var (m, e) := Fired(s, run[0]);
      FiredReflects(h, s, run[0]);
      FiredKeepsTraceLaws(h, s, run[0]);
      RunKeepsTraceLaws(h + [e], m, run[1..], trace[1..], s');
      assert h + [e] + trace[1..] == h + trace;
    }
  }

  /** Over every interleaving of create, POST-back, await, cancel and sweep: at
      most one POST-back per correlation id is accepted, and whatever an await
      returns is that very body, accepted before and not after the deadline its
      creation announced. */
  lemma DeliveredBodyIsTheAcceptedOne(run: seq<Label>, trace: seq<Event>, s': State)
    requires Run(INITIAL, run, trace, s')
    ensures forall i, j :: 0 <= i < j < |trace| && trace[i].Accepted? && trace[j].Accepted? ==> trace[i].id != trace[j].id
    ensures forall j :: 0 <= j < |trace| && trace[j].Returned? ==>
      exists c, a :: AcceptedAt(trace, c, a, j, trace[j].id, trace[j].body)
  {
    RunKeepsTraceLaws([], INITIAL, run, trace, s');
    assert [] + trace == trace;
    forall j | 0 <= j < |trace| && trace[j].Returned?
      ensures exists c, a :: AcceptedAt(trace, c, a, j, trace[j].id, trace[j].body)
    {
      assert AcceptedBefore(trace, j, trace[j].id, trace[j].body);
    }
  }

  lemma Prepend(s: State, l: Label, m: State, e: Event, run: seq<Label>, trace: seq<Event>, s': State)
    requires WellFormed(s) && Enabled(s, l) && Fired(s, l) == (m, e) && WellFormed(m)
    requires Run(m, run, trace, s')
    ensures Run(s, [l] + run, [e] + trace, s')
  {
    assert ([l] + run)[1..] == run && ([e] + trace)[1..] == trace;
  }

  /** An accepted POST-back is no promise of delivery.  From every state where
      a thread waits for an open request, the wait may run out first: the
      POST-back is then still accepted, and the thread still times out. */
  lemma AcceptedMayStillTimeOut(s: State, t: nat, posted: Posted)
    requires WellFormed(s) && t in s.waiters && s.waiters[t].Blocked? && s.now <= s.waiters[t].until
    requires Normalized(posted).correlationId == Text(s.waiters[t].id)
    requires s.waiters[t].id in s.pending && s.objects[s.waiters[t].id].result == None
    ensures var id, until, body := s.waiters[t].id, s.waiters[t].until, Normalized(posted);
      exists s' :: Run(s, [Tick(until), GiveUp(t), Post(id, posted), Pop(t)],
                       [Silent, Silent, Accepted(id, body, until), TimedOut(t, id)], s')
  {
    var id, until, body := s.waiters[t].id, s.waiters[t].until, Normalized(posted);
    var s1 := Fired(s, Tick(until)).0;
    var s2 := Fired(s1, GiveUp(t)).0;
    var s4 := AcceptedTooLate(s2, t, posted);
    var run, trace := [Post(id, posted), Pop(t)], [Accepted(id, body, until), TimedOut(t, id)];
    Prepend(s1, GiveUp(t), s2, Silent, run, trace, s4);
    Prepend(s, Tick(until), s1, Silent, [GiveUp(t)] + run, [Silent] + trace, s4);
    assert [Tick(until)] + ([GiveUp(t)] + run) == [Tick(until), GiveUp(t), Post(id, posted), Pop(t)];
    assert [Silent] + ([Silent] + trace) == [Silent, Silent, Accepted(id, body, until), TimedOut(t, id)];
  }

  lemma AcceptedTooLate(s: State, t: nat, posted: Posted) returns (s': State)
    requires WellFormed(s) && t in s.waiters && s.waiters[t].Expired?
    requires var id := s.waiters[t].id;
      && Normalized(posted).correlationId == Text(id) && id in s.pending
      && s.objects[id].result == None && s.now <= s.objects[id].deadline
    ensures var id := s.waiters[t].id;
      Run(s, [Post(id, posted), Pop(t)], [Accepted(id, Normalized(posted), s.now), TimedOut(t, id)], s')
  {
    var id := s.waiters[t].id;
    var m := Fired(s, Post(id, posted)).0;
    FiredKeepsWellFormed(s, Post(id, posted));
    s' := Fired(m, Pop(t)).0;
    FiredKeepsWellFormed(m, Pop(t));
    Prepend(m, Pop(t), s', TimedOut(t, id), [], [], s');
    Prepend(s, Post(id, posted), m, Accepted(id, Normalized(posted), s.now), [Pop(t)], [TimedOut(t, id)], s');
    assert [Post(id, posted)] + [Pop(t)] == [Post(id, posted), Pop(t)];
  }

  // -------------------------------------------------- exactly when it arrives

  /** Thread `t` awaits `id`, whose body has come. */
  ghost predicate Answered(s: State, t: nat, id: Id, body: Body) {
    && t in s.waiters && s.waiters[t].id == id
    && id in s.objects && s.objects[id].result == Some(body)
  }

  /** Nothing but its own pop moves such a thread into or out of having timed out. */
  lemma StaysAnswered(s: State, t: nat, id: Id, body: Body, l: Label)
    requires WellFormed(s) && Answered(s, t, id, body) && Enabled(s, l) && l != Pop(t)
    ensures var s' := Fired(s, l).0;
      Answered(s', t, id, body) && (s'.waiters[t].Expired? <==> s.waiters[t].Expired?)
  {
  }

  lemma {:induction false} NextPop(s: State, t: nat, id: Id, body: Body, run: seq<Label>, trace: seq<Event>, s': State)
    requires WellFormed(s) && Answered(s, t, id, body)
    requires Run(s, run + [Pop(t)], trace, s') && Pop(t) !in run
    ensures |trace| == |run| + 1
    ensures trace[|run|] == if s.waiters[t].Expired? then TimedOut(t, id) else Returned(t, id, body)
    decreases |run|
  {
    var all := run + [Pop(t)];
    if run != [] {
      assert all[0] == run[0] && all[1..] == run[1..] + [Pop(t)];
      StaysAnswered(s, t, id, body, run[0]);
      NextPop(Fired(s, run[0]).0, t, id, body, run[1..], trace[1..], s');
    } else {
      assert all[0] == Pop(t) && all[1..] == [];
    }
  }

  /** A POST-back that is accepted while thread `t` waits for it reaches `t`
      exactly if the wait of `t` had not run out by then, whatever happens
      between the acceptance and the end of the await. */
  lemma AcceptedReachesTheWaiterIff(s: State, t: nat, posted: Posted, run: seq<Label>, trace: seq<Event>, s': State)
    requires WellFormed(s) && t in s.waiters
    requires var post := Post(s.waiters[t].id, posted);
      && Fired(s, post).1.Accepted? && WellFormed(Fired(s, post).0)
      && Run(Fired(s, post).0, run + [Pop(t)], trace, s')
    requires Pop(t) !in run
    ensures |trace| == |run| + 1
    ensures var id := s.waiters[t].id;
      && (trace[|run|] == Returned(t, id, Normalized(posted)) <==> !s.waiters[t].Expired?)
      && (trace[|run|] == TimedOut(t, id) <==> s.waiters[t].Expired?)
  {
    var id := s.waiters[t].id;
    NextPop(Fired(s, Post(id, posted)).0, t, id, Normalized(posted), run, trace, s');
  }

  // ---------------------------------------------------- what a step may change

  /** Whatever other threads do: objects are never lost, their deadlines and
      results never change once set, an entry that left the table never comes
      back, and thread `me` stays where it is. */
  ghost predicate Rely(me: nat, a: State, b: State) {
    && a.now <= b.now
    && a.objects.Keys <= b.objects.Keys
    && (forall id :: id in a.objects ==>
          && a.objects[id].deadline == b.objects[id].deadline
          && (a.objects[id].result.Some? ==> b.objects[id] == a.objects[id])
          && (a.objects[id].result.None? && b.objects[id].result.Some? ==> a.now <= b.objects[id].at)
          && (id in b.pending ==> id in a.pending))
    && (me in a.waiters <==> me in b.waiters)
    && (me in a.waiters ==> a.waiters[me] == b.waiters[me])
  }

  lemma RelyTransitive(me: nat, a: State, b: State, c: State)
    requires Rely(me, a, b) && Rely(me, b, c)
    ensures Rely(me, a, c)
  {
  }

  predicate MovesThread(l: Label, me: nat) {
    (l.Begin? || l.Wake? || l.GiveUp? || l.Pop?) && l.thread == me
  }

  lemma StepsOfOthersRespectRely(me: nat, s: State, l: Label)
    requires WellFormed(s) && Enabled(s, l) && !MovesThread(l, me)
    ensures Rely(me, s, Fired(s, l).0)
  {
  }

  lemma {:induction false} RunsOfOthersRespectRely(me: nat, s: State, run: seq<Label>, trace: seq<Event>, s': State)
    requires WellFormed(s) && Run(s, run, trace, s')
    requires forall k :: 0 <= k < |run| ==> !MovesThread(run[k], me)
    ensures WellFormed(s') && Rely(me, s, s')
    decreases |run|
  {
    if run != [] {
      assert !MovesThread(run[0], me);
      StepsOfOthersRespectRely(me, s, run[0]);
      RunsOfOthersRespectRely(me, Fired(s, run[0]).0, run[1..], trace[1..], s');
    }
  }

  // ------------------------------------------------- the owner of a request

  ghost predicate Unawaited(s: State, id: Id) {
    forall t :: t in s.waiters ==> s.waiters[t].id != id
  }

  /** While only its owner cancels or awaits it, a request leaves the table for
      one reason: its deadline has passed. */
  ghost predicate Guarded(id: Id, a: State, b: State) {
    a.now <= b.now && (id in a.objects && Unawaited(a, id) ==>
      && id in b.objects && Unawaited(b, id) && b.objects[id].deadline == a.objects[id].deadline
      && (id in a.pending && id !in b.pending ==> b.now > b.objects[id].deadline))
  }

  predicate TouchesRequest(l: Label, id: Id) {
    (l.Cancel? || l.Begin?) && l.id == id
  }

  lemma StepsOfOthersGuard(id: Id, s: State, l: Label)
    requires WellFormed(s) && Enabled(s, l) && !TouchesRequest(l, id)
    ensures Guarded(id, s, Fired(s, l).0)
  {
  }

  lemma GuardedTransitive(id: Id, a: State, b: State, c: State)
    requires Guarded(id, a, b) && Guarded(id, b, c)
    ensures Guarded(id, a, c)
  {
  }
}
