// The Python control channel itself: a table of `Pending` objects that waiters
// keep referring to after their entry is gone.  Each method below is one
// region under the lock and is proved to be one step of ControlProtocol; the
// blocking operations are built from those regions with arbitrary activity of
// other threads in between.
module ControlServer {
  import opened Common
  import opened ControlProtocol
  import opened PostBack

  datatype Failure =
    | UnknownCorrelation | PostbackTimedOut | NoClient | HookDenied
    | Rejected(reason: Option<string>)
    | Crashed(error: Json)   // AttributeError: the reason is not a string
    | NotADecision | InvalidResult

  const LOST := "control:"
  const MALFORMED := "tool"
  const ATTRIBUTE := "object has no attribute 'startswith'"

  /** What the caller reads. */
  function Message(f: Failure): string {
    match f
    case UnknownCorrelation => LOST + " await_postback on unknown or expired correlation"
    case PostbackTimedOut => PREFIX + " correlation timed out waiting for POST-back"
    case NoClient => PREFIX + " requires a connected client"
    case HookDenied => PREFIX + " hook not allowed"
    case Rejected(reason) => NormalizeDenial(if reason.Some? then reason.value else PREFIX + " rejected by client")
    case Crashed(_) => ATTRIBUTE
    case NotADecision => PREFIX + " hook response payload is not a decision"
    case InvalidResult => MALFORMED + " client returned invalid tool-execution-result"
  }

  /** The refusal a body that is not ok ends in: a falsy reason counts as none. */
  function Refusal(error: Json): Failure {
    if Falsy(error) then Rejected(None)
    else if error.Text? then Rejected(Some(error.text))
    else Crashed(error)
  }

  /** Every failure reads as a denial but for a lost correlation, a malformed
      result and a reason that is not a string. */
  lemma FailuresReadAsDenials(f: Failure)
    ensures PREFIX <= Message(f) <==> f != UnknownCorrelation && f != InvalidResult && !f.Crashed?
  {
    assert PREFIX[0] == 'p' && LOST[0] == 'c' && MALFORMED[0] == 't' && ATTRIBUTE[0] == 'o';
    var m := Message(f);
    assert f == UnknownCorrelation ==> m[0] == LOST[0];
    assert f == InvalidResult ==> m[0] == MALFORMED[0];
  }

  /** Fail closed, exactly as far as the code goes: a refusal by the peer reads
      as a denial if and only if the reason it sent is falsy or a string. */
  lemma RefusalsReadAsDenials(error: Json)
    ensures PREFIX <= Message(Refusal(error)) <==> Nothing(error) || error.Text?
    ensures Nothing(error) ==> Message(Refusal(error)) == "permission: rejected by client"
    ensures error.Text? && error.text != "" ==>
      Message(Refusal(error)) == if "permission:" <= error.text then error.text else "permission: " + error.text
  {
    FailuresReadAsDenials(Refusal(error));
    assert PREFIX + " rejected by client" == "permission: rejected by client";
    assert PREFIX + " " == "permission: ";
  }

  /** No reason at all, for Python: null, false, zero or something empty. */
  predicate Nothing(error: Json) {
    error == Null || error == Bool(false) || error == Number(0.0) || error == Text("") || error == Array([]) || error == Object([])
  }

  /** `f` is the failure a body that is not ok must end in, by its reason. */
  predicate RefusedFor(error: Json, f: Failure) {
    match f
    case Rejected(None) => Nothing(error)
    case Rejected(Some(reason)) => error == Text(reason) && reason != ""
    case Crashed(e) => e == error && !error.Text? && !Nothing(error)
    case _ => false
  }

  // ---------------------------------------------------- reading a tool result

  /** The five fields of a tool-execution-result, defaults filled in. */
  datatype WireResult = WireResult(toolName: Json, success: bool, outputJson: Json, errorMessage: Json, stepId: Json)

  /** `dict.get`: the last value given for a name, or null. */
  function Field(fields: seq<(string, Json)>, name: string): Json {
    if fields == [] then Null
    else if fields[|fields| - 1].0 == name then fields[|fields| - 1].1
    else Field(fields[..|fields| - 1], name)
  }

  function OrDefault(j: Json, default: Json): Json {
    if j == Null then default else j
  }

  function ParseResult(fields: seq<(string, Json)>): WireResult {
    WireResult(
      OrDefault(Field(fields, "tool-name"), Text("")),
      Field(fields, "success") == Bool(true),
      OrDefault(Field(fields, "output-json"), Text("{}")),
      Field(fields, "error-message"),
      OrDefault(Field(fields, "step-id"), Number(0.0)))
  }

  /** The `k`-th field is the last one of that name. */
  predicate LastOf(fields: seq<(string, Json)>, name: string, k: int) {
    0 <= k < |fields| && fields[k].0 == name && forall j :: k < j < |fields| ==> fields[j].0 != name
  }

  /** `r` is the last value given for the name, or `default` if there is none or
      it is null. */
  ghost predicate GivenOr(fields: seq<(string, Json)>, name: string, default: Json, r: Json) {
    if exists k :: LastOf(fields, name, k) && fields[k].1 != Null
    then exists k :: LastOf(fields, name, k) && r == fields[k].1
    else r == default
  }

  /** What the five fields of a result must be, by the payload. */
  ghost predicate ResultOf(fields: seq<(string, Json)>, r: WireResult) {
    && GivenOr(fields, "tool-name", Text(""), r.toolName)
    && GivenOr(fields, "output-json", Text("{}"), r.outputJson)
    && GivenOr(fields, "step-id", Number(0.0), r.stepId)
    && GivenOr(fields, "error-message", Null, r.errorMessage)
    && (r.success <==> exists k :: LastOf(fields, "success", k) && fields[k].1 == Bool(true))
  }

  lemma {:induction false} LastOfBefore(fields: seq<(string, Json)>, name: string, k: int)
    requires fields != [] && fields[|fields| - 1].0 != name
    ensures LastOf(fields, name, k) <==> LastOf(fields[..|fields| - 1], name, k)
  {
  }

  lemma {:induction false} FieldIsLast(fields: seq<(string, Json)>, name: string)
    ensures (exists k :: LastOf(fields, name, k) && fields[k].1 == Field(fields, name))
      || (Field(fields, name) == Null && forall k :: !LastOf(fields, name, k))
  {
    if fields != [] {
      var before, n := fields[..|fields| - 1], |fields| - 1;
      if fields[n].0 == name {
        assert LastOf(fields, name, n);
      } else {
        FieldIsLast(before, name);
        forall k ensures LastOf(fields, name, k) <==> LastOf(before, name, k) { LastOfBefore(fields, name, k); }
        if k :| LastOf(before, name, k) && before[k].1 == Field(before, name) {
          assert LastOf(fields, name, k);
        }
      }
    }
  }

  lemma LastIsUnique(fields: seq<(string, Json)>, name: string, j: int, k: int)
    requires LastOf(fields, name, j) && LastOf(fields, name, k)
    ensures j == k
  {
  }

  lemma {:induction false} FieldIsGiven(fields: seq<(string, Json)>, name: string, default: Json)
    ensures GivenOr(fields, name, default, OrDefault(Field(fields, name), default))
  {
    FieldIsLast(fields, name);
    forall j, k | LastOf(fields, name, j) && LastOf(fields, name, k) ensures j == k { LastIsUnique(fields, name, j, k); }
  }

  /** Reading the fields as a dictionary gives just that. */
  lemma {:induction false} ParsedIsResult(fields: seq<(string, Json)>)
    ensures ResultOf(fields, ParseResult(fields))
  {
    FieldIsGiven(fields, "tool-name", Text(""));
    FieldIsGiven(fields, "output-json", Text("{}"));
    FieldIsGiven(fields, "step-id", Number(0.0));
    FieldIsGiven(fields, "error-message", Null);
    SuccessIsGiven(fields);
  }

  lemma {:induction false} SuccessIsGiven(fields: seq<(string, Json)>)
    ensures Field(fields, "success") == Bool(true) <==>
      exists k :: LastOf(fields, "success", k) && fields[k].1 == Bool(true)
  {
    FieldIsLast(fields, "success");
    forall j, k | LastOf(fields, "success", j) && LastOf(fields, "success", k) ensures j == k {
      LastIsUnique(fields, "success", j, k);
    }
  }

  // ------------------------------------------------------------- the channel

  class Pending {
    const deadline: int
    var result: Option<Body>
    var resolved: bool   // the event is set exactly when this is

    constructor (deadline: int)
      ensures this.deadline == deadline && result == None && !resolved
    {
      this.deadline := deadline;
      result, resolved := None, false;
    }
  }

  ghost predicate Distinct(objects: map<Id, Pending>) {
    forall a, b :: a in objects && b in objects && a != b ==> objects[a] != objects[b]
  }

  ghost predicate Kept(before: map<Id, Pending>, after: map<Id, Pending>) {
    forall id :: id in before ==> id in after && after[id] == before[id]
  }

  class ControlChannel {
    var clients: set<string>
    var pending: map<Id, Pending>
    var now: int                       // time.monotonic()
    // Two records of the run, which the source keeps in its heap and on its stacks.
    var objects: map<Id, Pending>      // every pending object ever created
    var waiters: map<nat, Waiter>      // where each awaiting thread is suspended

    ghost var state: State             // the protocol state this object stands for

    ghost predicate Valid()
      reads this, objects.Values
    {
      && WellFormed(state)
      && state.now == now && state.pending == pending.Keys && state.waiters == waiters
      && state.objects.Keys == objects.Keys
      && (forall id :: id in pending ==> pending[id] == objects[id])
      && Distinct(objects)
      && (forall id :: id in objects ==>
            && state.objects[id].deadline == objects[id].deadline && state.objects[id].result == objects[id].result
            && (objects[id].resolved <==> objects[id].result.Some?))
    }

    constructor ()
      ensures Valid() && state == INITIAL && clients == {}
    {
      clients, pending, now, objects, waiters, state := {}, map[], 0, map[], map[], INITIAL;
    }

    // ------------------------------------------------------- lock regions

    method CreateCorrelation(id: Id, ttl: int)
      requires Valid() && Enabled(state, Create(id, ttl))
      modifies this`pending, this`objects, this`state
      ensures Valid() && state == Fired(old(state), Create(id, ttl)).0
      ensures objects.Keys == old(objects.Keys) + {id} && fresh(objects[id])
      ensures objects[id].deadline == now + ttl
      ensures forall i :: i in old(objects) ==> objects[i] == old(objects[i])
    {
      var p := new Pending(now + ttl);
      FiredKeepsWellFormed(state, Create(id, ttl));
      state := Fired(state, Create(id, ttl)).0;
      pending := pending[id := p];
      objects := objects[id := p];
    }

    method ResolvePostback(path: Id, posted: Posted) returns (accepted: bool)
      requires Valid()
      modifies this`pending, this`state, objects.Values
      ensures Valid() && objects == old(objects)
      ensures state == Fired(old(state), Post(path, posted)).0
      ensures accepted <==> Fired(old(state), Post(path, posted)).1.Accepted?
      ensures accepted <==>
        && posted.correlationId == Some(Text(path)) && path in old(pending)
        && !old(objects[path].resolved) && now <= objects[path].deadline
    {
      FiredKeepsWellFormed(state, Post(path, posted));
      state := Fired(state, Post(path, posted)).0;
      var body := Normalized(posted);
      if body.correlationId != Text(path) || path !in pending {
        return false;
      }
      var p := pending[path];
      if p.resolved {
        return false;
      }
      if now > p.deadline {
        pending := pending - {path};
        return false;
      }
      p.result := Some(body);
      p.resolved := true;
      accepted := true;
    }

    method CancelPending(id: Id) returns (existed: bool)
      requires Valid()
      modifies this`pending, this`state
      ensures Valid() && state == Fired(old(state), Cancel(id)).0
      ensures existed <==> id in old(pending)
      ensures pending == old(pending) - {id}
    {
      existed := id in pending;
      state := Fired(state, Cancel(id)).0;
      pending := pending - {id};
    }

    method SweepExpired(at: int)
      requires Valid() && at <= now
      modifies this`pending, this`state
      ensures Valid() && state == Fired(old(state), Sweep(at)).0
      ensures forall id :: id in pending <==> id in old(pending) && objects[id].deadline >= at
    {
      var keys := pending.Keys;
      while keys != {}
        modifies this`pending
        invariant keys <= old(pending.Keys)
        invariant pending.Keys <= old(pending.Keys)
        invariant forall id :: id in pending ==> pending[id] == old(pending)[id]
        invariant forall id :: id in old(pending) ==>
          (id in pending <==> id in keys || objects[id].deadline >= at)
        decreases keys
      {
        var id :| id in keys;
        if id in pending && at > pending[id].deadline {
          pending := pending - {id};
        }
        keys := keys - {id};
      }
      state := Fired(state, Sweep(at)).0;
    }

    /** First region of await_postback: unknown, already resolved, or wait. */
    method AwaitBegin(thread: nat, id: Id, timeout: int)
      returns (known: bool, body: Option<Body>, wait: int)
      requires Valid() && Enabled(state, Begin(thread, id, timeout))
      modifies this`pending, this`waiters, this`state
      ensures Valid() && state == Fired(old(state), Begin(thread, id, timeout)).0
      ensures known <==> id in old(pending)
      ensures known ==> (body.Some? <==> objects[id].resolved)
      ensures known && body.Some? ==> id !in pending && thread !in waiters && objects[id].result == body
      ensures known && body.None? ==> wait == Min(timeout, Max(objects[id].deadline - now, 0))
      ensures known && body.None? ==>
        thread in waiters && waiters[thread] == if wait <= 0 then Expired(id) else Blocked(id, now + wait)
      ensures !known ==> thread !in waiters
    {
      known, body, wait := id in pending, None, 0;
      if !known {
        return;
      }
      var p := pending[id];
      if p.resolved {
        body := p.result;
        TakeResolved(thread, id, timeout);
        return;
      }
      wait := Suspend(thread, id, timeout);
    }

    /** The entry was resolved before anybody waited. */
    method TakeResolved(thread: nat, id: Id, timeout: int)
      requires Valid() && Enabled(state, Begin(thread, id, timeout))
      requires id in pending && pending[id].resolved
      modifies this`pending, this`state
      ensures Valid() && state == Fired(old(state), Begin(thread, id, timeout)).0
      ensures id !in pending
    {
      FiredKeepsWellFormed(state, Begin(thread, id, timeout));
      state := Fired(state, Begin(thread, id, timeout)).0;
      pending := pending - {id};
    }

    /** The wait starts, bounded by what is left of the TTL. */
    method Suspend(thread: nat, id: Id, timeout: int) returns (wait: int)
      requires Valid() && Enabled(state, Begin(thread, id, timeout))
      requires id in pending && !pending[id].resolved
      modifies this`waiters, this`state
      ensures Valid() && state == Fired(old(state), Begin(thread, id, timeout)).0
      ensures wait == Min(timeout, Max(objects[id].deadline - now, 0))
      ensures thread in waiters && waiters[thread] == if wait <= 0 then Expired(id) else Blocked(id, now + wait)
    {
      FiredKeepsWellFormed(state, Begin(thread, id, timeout));
      state := Fired(state, Begin(thread, id, timeout)).0;
      wait := Min(timeout, Max(pending[id].deadline - now, 0));
      waiters := waiters[thread := if wait <= 0 then Expired(id) else Blocked(id, now + wait)];
    }

    /** No POST-back for `id` was accepted before time `t`. */
    ghost predicate NothingBefore(id: Id, t: int)
      reads this
    {
      id in state.objects && (state.objects[id].result.None? || state.objects[id].at >= t)
    }

    /** The event wait ends, with what it returned: False only if the event was
        still unset when the time was up. */
    method WaitReturns(thread: nat, signalled: bool)
      requires Valid() && thread in waiters && waiters[thread].Blocked?
      requires objects[waiters[thread].id].resolved <==> signalled
      requires !signalled ==> now >= waiters[thread].until
      modifies this`waiters, this`state
      ensures Valid()
      ensures Enabled(old(state), if signalled then Wake(thread) else GiveUp(thread))
      ensures state == Fired(old(state), if signalled then Wake(thread) else GiveUp(thread)).0
      ensures waiters == old(waiters)[thread := if signalled then Woken(old(waiters[thread].id)) else Expired(old(waiters[thread].id))]
      ensures !signalled ==> NothingBefore(old(waiters[thread].id), now)
    {
      var id := waiters[thread].id;
      assert state.objects[id].result == objects[id].result;
      state := Fired(state, if signalled then Wake(thread) else GiveUp(thread)).0;
      waiters := waiters[thread := if signalled then Woken(id) else Expired(id)];
    }

    /** Last region: the entry leaves the table on both outcomes. */
    method AwaitPop(thread: nat, id: Id)
      requires Valid() && thread in waiters && !waiters[thread].Blocked? && waiters[thread].id == id
      modifies this`pending, this`waiters, this`state
      ensures Valid() && Enabled(old(state), Pop(thread)) && state == Fired(old(state), Pop(thread)).0
      ensures thread !in waiters && id !in pending
    {
      FiredKeepsWellFormed(state, Pop(thread));
      state := Fired(state, Pop(thread)).0;
      pending := pending - {id};
      waiters := waiters - {thread};
    }

    method Clock(to: int)
      requires Valid() && to >= now
      modifies this`now, this`state
      ensures Valid() && state == Fired(old(state), Tick(to)).0
    {
      state := Fired(state, Tick(to)).0;
      now := to;
    }

    // -------------------------------------------------- the other threads

    /** Any number of steps of threads other than `me`, in any order; `mine` is a
        request only `me` may cancel or await. */
    method Others(me: nat, mine: Option<Id>)
      requires Valid()
      modifies this, objects.Values
      ensures Valid() && Rely(me, old(state), state)
      ensures mine.Some? ==> Guarded(mine.value, old(state), state)
      ensures Kept(old(objects), objects) && fresh(objects.Values - old(objects.Values))
    {
      var steps: nat := *;
      while steps > 0
        invariant Valid() && Rely(me, old(state), state)
        invariant mine.Some? ==> Guarded(mine.value, old(state), state)
        invariant Kept(old(objects), objects) && fresh(objects.Values - old(objects.Values))
      {
        ghost var before := state;
        OneOther(me, mine);
        RelyTransitive(me, old(state), before, state);
        if mine.Some? { GuardedTransitive(mine.value, old(state), before, state); }
        steps := steps - 1;
      }
    }

    /** What a step of the others guarantees. */
    ghost predicate Harmless(me: nat, mine: Option<Id>, a: State, b: State) {
      Rely(me, a, b) && (mine.Some? ==> Guarded(mine.value, a, b))
    }

    lemma HarmlessStep(me: nat, mine: Option<Id>, s: State, l: Label)
      requires WellFormed(s) && Enabled(s, l) && !MovesThread(l, me)
      requires mine.Some? ==> !TouchesRequest(l, mine.value)
      ensures Harmless(me, mine, s, Fired(s, l).0)
    {
      StepsOfOthersRespectRely(me, s, l);
      if mine.Some? { StepsOfOthersGuard(mine.value, s, l); }
    }

    method OneOther(me: nat, mine: Option<Id>)
      requires Valid()
      modifies this, objects.Values
      ensures Valid() && Harmless(me, mine, old(state), state)
      ensures Kept(old(objects), objects) && fresh(objects.Values - old(objects.Values))
    {
      var id: Id, amount: int := *, *;
      if {
        case true =>
          clients := *;
        case amount >= now =>
          HarmlessStep(me, mine, state, Tick(amount));
          Clock(amount);
        case amount > 0 && id !in objects =>
          HarmlessStep(me, mine, state, Create(id, amount));
          CreateCorrelation(id, amount);
        case true =>
          var posted: Posted := *;
          HarmlessStep(me, mine, state, Post(id, posted));
          var _ := ResolvePostback(id, posted);
        case mine != Some(id) =>
          HarmlessStep(me, mine, state, Cancel(id));
          var _ := CancelPending(id);
        case amount <= now =>
          HarmlessStep(me, mine, state, Sweep(amount));
          SweepExpired(amount);
        case amount >= 0 && mine != Some(id) =>
          var t: nat := *;
          if t != me {
            AnotherWaiter(me, mine, t, id, amount);
          }
      }
    }

    /** One step of some other thread's await. */
    method AnotherWaiter(me: nat, mine: Option<Id>, t: nat, id: Id, timeout: int)
      requires Valid() && timeout >= 0 && t != me && mine != Some(id)
      modifies this`pending, this`waiters, this`state
      ensures Valid() && Harmless(me, mine, old(state), state)
    {
      if t !in waiters {
        HarmlessStep(me, mine, state, Begin(t, id, timeout));
        var _, _, _ := AwaitBegin(t, id, timeout);
      } else if waiters[t].Blocked? {
        if objects[waiters[t].id].resolved {
          HarmlessStep(me, mine, state, Wake(t));
          WaitReturns(t, true);
        } else if waiters[t].until <= now {
          HarmlessStep(me, mine, state, GiveUp(t));
          WaitReturns(t, false);
        }
      } else {
        HarmlessStep(me, mine, state, Pop(t));
        AwaitPop(t, waiters[t].id);
      }
    }

    // ------------------------------------------------- blocking operations

    /** The POST-back accepted for `id` said yes and carried `payload`. */
    ghost predicate AcceptedWith(id: Id, payload: Json)
      reads this, objects.Values
    {
      && id in objects && objects[id].result.Some?
      && objects[id].result.value.ok && objects[id].result.value.payload == payload
    }

    /** What thread `me` can count on for `id` while others run. */
    method Elsewhere(me: nat, id: Id)
      requires Valid()
      modifies this, objects.Values
      ensures Valid() && fresh(objects.Values - old(objects.Values)) && now >= old(now)
      ensures (me in waiters <==> me in old(waiters)) && (me in waiters ==> waiters[me] == old(waiters[me]))
      ensures id in old(objects) ==>
        && id in objects && objects[id] == old(objects[id])
        && (old(objects[id].result.Some?) ==> objects[id].result == old(objects[id].result))
        && (id in pending ==> id in old(pending))
      ensures forall t :: t <= old(now) && old(NothingBefore(id, t)) ==> NothingBefore(id, t)
    {
      Others(me, None);
      assert id in old(objects) ==> old(state.objects[id].result) == old(objects[id].result);
    }

    /** The same for the request `me` has created and not awaited yet. */
    method ElsewhereOwned(me: nat, id: Id)
      requires Valid() && id in objects && Unawaited(state, id) && me !in waiters
      modifies this, objects.Values
      ensures Valid() && fresh(objects.Values - old(objects.Values)) && now >= old(now)
      ensures me !in waiters && Unawaited(state, id)
      ensures id in objects && objects[id] == old(objects[id])
      ensures old(id in pending || now > objects[id].deadline) ==> id in pending || now > objects[id].deadline
    {
      Others(me, Some(id));
      assert state.objects[id].deadline == objects[id].deadline;
    }

    /** Other threads run until the event is set or the time is up. */
    method ElsewhereUntil(me: nat, id: Id, until: int)
      requires Valid() && me in waiters && waiters[me] == Blocked(id, until)
      modifies this, objects.Values
      ensures Valid() && fresh(objects.Values - old(objects.Values)) && now >= old(now)
      ensures me in waiters && waiters[me] == Blocked(id, until) && id in objects
      ensures objects[id].resolved || now >= until
      ensures id in old(objects) && objects[id] == old(objects[id])
    {
      Elsewhere(me, id);
      if !objects[id].resolved && now < until {
        Clock(until);
      }
    }

    /** `event.wait`: whether the signal was seen in time. */
    method EventWait(thread: nat, id: Id, until: int) returns (signalled: bool)
      requires Valid() && thread in waiters && waiters[thread] == Blocked(id, until)
      modifies this, objects.Values
      ensures Valid() && fresh(objects.Values - old(objects.Values)) && now >= old(now)
      ensures thread in waiters && waiters[thread] == if signalled then Woken(id) else Expired(id)
      ensures !signalled ==> now >= until && NothingBefore(id, now)
      ensures id in objects && (id in old(objects) ==> objects[id] == old(objects[id]))
    {
      ElsewhereUntil(thread, id, until);
      signalled := objects[id].resolved;
      WaitReturns(thread, signalled);
    }

    /** Last region of await_postback, other threads running before it. */
    method PopLater(thread: nat, id: Id)
      requires Valid() && thread in waiters
      requires waiters[thread] == Woken(id) || waiters[thread] == Expired(id)
      modifies this, objects.Values
      ensures Valid() && fresh(objects.Values - old(objects.Values))
      ensures thread !in waiters && id in objects && id !in pending
      ensures objects[id] == old(objects[id]) && now >= old(now)
      ensures old(waiters[thread].Woken?) ==> objects[id].result.Some?
      ensures forall t :: t <= old(now) && old(NothingBefore(id, t)) ==> NothingBefore(id, t)
    {
      Elsewhere(thread, id);
      AwaitPop(thread, id);
    }

    /** What await_postback returns once the wait is over. */
    method Consume(thread: nat, id: Id) returns (r: Result<Body, Failure>)
      requires Valid() && thread in waiters
      requires waiters[thread] == Woken(id) || waiters[thread] == Expired(id)
      modifies this, objects.Values
      ensures Valid() && thread !in waiters && id in objects && id !in pending
      ensures objects[id] == old(objects[id]) && now >= old(now)
      ensures r.Ok? <==> old(waiters[thread].Woken?)
      ensures r.Ok? ==> objects[id].result == Some(r.value)
      ensures r.Err? ==> r.error == PostbackTimedOut
      ensures forall t :: t <= old(now) && old(NothingBefore(id, t)) ==> NothingBefore(id, t)
    {
      var signalled := waiters[thread].Woken?;
      PopLater(thread, id);
      Elsewhere(thread, id);
      if signalled {
        r := Ok(objects[id].result.value);
      } else {
        r := Err(PostbackTimedOut);
      }
    }

    /** The waiting part of await_postback: the wait, then the last region. */
    method WaitAndConsume(thread: nat, id: Id, wait: int) returns (r: Result<Body, Failure>)
      requires Valid() && thread in waiters
      requires waiters[thread] == if wait <= 0 then Expired(id) else Blocked(id, now + wait)
      requires wait <= 0 ==> NothingBefore(id, now)
      modifies this, objects.Values
      ensures Valid() && thread !in waiters && id in objects && id !in pending && now >= old(now)
      ensures id in old(objects) ==> objects[id] == old(objects[id])
      ensures r.Ok? ==> objects[id].result == Some(r.value)
      ensures r.Err? ==> r.error == PostbackTimedOut && TimeIsUp(id, old(now) + Max(wait, 0))
    {
      if wait > 0 {
        var _ := EventWait(thread, id, now + wait);
      }
      r := Consume(thread, id);
    }

    /** Time `t` has come without a POST-back for `id` having been accepted. */
    ghost predicate TimeIsUp(id: Id, t: int)
      reads this
    {
      now >= t && NothingBefore(id, t)
    }

    /** `await_postback`: other threads run whenever the lock is not held. A
        timeout means that nothing was accepted before the wait ended. */
    method AwaitPostback(thread: nat, id: Id, timeout: int) returns (r: Result<Body, Failure>)
      requires Valid() && thread !in waiters && timeout >= 0
      modifies this, objects.Values
      ensures Valid() && thread !in waiters && id !in pending && now >= old(now)
      ensures r.Ok? ==> id in objects && objects[id].result == Some(r.value)
      ensures id in old(pending) ==> id in objects && objects[id] == old(objects[id])
      ensures r.Err? ==> r.error == if id in old(pending) then PostbackTimedOut else UnknownCorrelation
      ensures r == Err(PostbackTimedOut) ==>
        id in objects && TimeIsUp(id, Max(old(now), Min(old(now) + timeout, objects[id].deadline)))
    {
      var known, body, wait := AwaitBegin(thread, id, timeout);
      if !known {
        return Err(UnknownCorrelation);
      }
      if body.Some? {
        return Ok(body.value);
      }
      r := WaitAndConsume(thread, id, wait);
    }

    /** Why no body was delivered: nobody was connected, or the deadline passed;
        and if it passed in a wait, nothing had been accepted before it. */
    ghost predicate Undelivered(id: Id, f: Failure, client: string, deadline: int)
      reads this
    {
      match f
      case NoClient => client !in clients
      case UnknownCorrelation => now > deadline
      case PostbackTimedOut => TimeIsUp(id, deadline)
      case _ => false
    }

    /** The POST-back accepted for `id` carries the flaw that `f` reports. */
    ghost predicate AcceptedBadly(id: Id, f: Failure)
      reads this, objects.Values
    {
      && id in objects && objects[id].result.Some?
      && var body := objects[id].result.value;
         match f
         case Rejected(_) => !body.ok && RefusedFor(body.error, f)
         case Crashed(_) => !body.ok && RefusedFor(body.error, f)
         case InvalidResult => body.ok && !body.payload.Object?
         case NotADecision => body.ok && body.payload == Null
         case _ => false
    }

    /** Create, and whatever happens before the next region. */
    method Open(thread: nat, id: Id, ttl: int, others: bool)
      requires Valid() && thread !in waiters && id !in objects && ttl > 0
      modifies this, objects.Values
      ensures Valid() && thread !in waiters && now >= old(now)
      ensures fresh(objects.Values - old(objects.Values))
      ensures id in objects && objects[id].deadline == old(now) + ttl && Unawaited(state, id)
      ensures id in pending || now > objects[id].deadline
      ensures !others ==> clients == old(clients)
    {
      assert Unawaited(state, id);
      CreateCorrelation(id, ttl);
      if others { ElsewhereOwned(thread, id); }
    }

    /** The part `_execute_remote` and `_request_decision` share: correlate,
        require the client, push, wait. `others` says whether other threads may run
        before the client is looked up. */
    method Exchange(thread: nat, id: Id, client: string, ttl: int, others: bool) returns (r: Result<Body, Failure>)
      requires Valid() && thread !in waiters && id !in objects && ttl > 0
      modifies this, objects.Values
      ensures Valid() && id !in pending
      ensures r.Ok? ==> id in objects && objects[id].result == Some(r.value)
      ensures r.Err? ==> Undelivered(id, r.error, client, old(now) + ttl)
      ensures !others ==> (r == Err(NoClient) <==> client !in old(clients))
    {
      Open(thread, id, ttl, others);
      if client !in clients {
        var _ := CancelPending(id);
        return Err(NoClient);
      }
      ElsewhereOwned(thread, id);   // push: the frame goes out, or the client is dropped
      r := AwaitPostback(thread, id, ttl);
      if r == Err(PostbackTimedOut) {
        StillNothingBefore(id, objects[id].deadline);
      }
    }

    /** Being quiet up to a later time is being quiet up to an earlier one. */
    lemma StillNothingBefore(id: Id, t: int)
      ensures forall u :: u >= t && NothingBefore(id, u) ==> NothingBefore(id, t)
    {
    }

    /** `_execute_remote`: every exit leaves no entry, a result is the payload of
        the accepted POST-back, and every refusal has its cause. */
    method ExecuteRemote(thread: nat, id: Id, client: string, ttl: int, others: bool) returns (r: Result<WireResult, Failure>)
      requires Valid() && thread !in waiters && id !in objects && ttl > 0
      modifies this, objects.Values
      ensures Valid() && id !in pending
      ensures r.Ok? ==> exists p: Json :: p.Object? && AcceptedWith(id, p) && ResultOf(p.fields, r.value)
      ensures r.Err? ==>
        || (r.error != NotADecision && AcceptedBadly(id, r.error))
        || Undelivered(id, r.error, client, old(now) + ttl)
      ensures !others ==> (r == Err(NoClient) <==> client !in old(clients))
    {
      var body := Exchange(thread, id, client, ttl, others);
      if body.Err? {
        return Err(body.error);
      }
      if !body.value.ok {
        return Err(Refusal(body.value.error));
      }
      if !body.value.payload.Object? {
        return Err(InvalidResult);
      }
      assert AcceptedWith(id, body.value.payload);
      ParsedIsResult(body.value.payload.fields);
      r := Ok(ParseResult(body.value.payload.fields));
    }

    /** `_request_decision`. */
    method RequestDecision(thread: nat, id: Id, client: string, ttl: int, allowed: bool, encode: Json -> string, others: bool)
      returns (r: Result<string, Failure>)
      requires Valid() && thread !in waiters && id !in objects && ttl > 0
      modifies this, objects.Values
      ensures Valid() && id !in pending
      ensures !allowed ==> r == Err(HookDenied) && state == old(state)
      ensures allowed && r.Err? ==>
        || (r.error != InvalidResult && AcceptedBadly(id, r.error))
        || Undelivered(id, r.error, client, old(now) + ttl)
      ensures r.Ok? ==> exists p: Json ::
        p != Null && AcceptedWith(id, p) && r.value == if p.Text? then p.text else encode(p)
      ensures allowed && !others ==> (r == Err(NoClient) <==> client !in old(clients))
    {
      if !allowed {
        return Err(HookDenied);
      }
      var body := Exchange(thread, id, client, ttl, others);
      if body.Err? {
        return Err(body.error);
      }
      if !body.value.ok {
        return Err(Refusal(body.value.error));
      }
      if body.value.payload == Null {
        return Err(NotADecision);
      }
      assert AcceptedWith(id, body.value.payload);
      r := Ok(Decision(body.value.payload, encode));
    }
  }
}
