// The same protocol in the Rust runtime: a table of one-shot senders. An entry
// leaves the table when its POST-back is accepted, so there is no sweep; the
// two servers are proved to give the same verdict to every POST-back whose
// fields have the types the Rust server decodes.
module RuntimeControl {
  import opened Common
  import opened ControlProtocol
  import opened PostBack

  datatype Kind = Tool | Hook

  datatype Pending = Pending(kind: Kind, deadline: int)

  /** A decoded POST-back. */
  datatype PostbackBody = PostbackBody(correlationId: Id, ok: bool, payload: Json, error: Option<string>)

  /** `Json<PostbackBody>`: the id, the flag and the payload must be there, and
      the fields must have their types. */
  function Decoded(p: Posted): Option<PostbackBody> {
    match (p.correlationId, p.ok, p.payload, p.error)
    case (Some(Text(id)), Some(Bool(ok)), Some(payload), None) => Some(PostbackBody(id, ok, payload, None))
    case (Some(Text(id)), Some(Bool(ok)), Some(payload), Some(Null)) => Some(PostbackBody(id, ok, payload, None))
    case (Some(Text(id)), Some(Bool(ok)), Some(payload), Some(Text(e))) => Some(PostbackBody(id, ok, payload, Some(e)))
    case _ => None
  }

  /** The same POST-back as the Python server holds it. */
  function AsBody(b: PostbackBody): Body {
    Body(Text(b.correlationId), b.ok, b.payload, if b.error.Some? then Text(b.error.value) else Null)
  }

  /** A POST-back decodes exactly if the id is a string, the flag a boolean, the
      payload there, and the reason a string, null or missing; and then to them. */
  lemma DecodesIff(p: Posted)
    ensures Decoded(p).Some? <==>
      && (exists id :: p.correlationId == Some(Text(id))) && (exists b :: p.ok == Some(Bool(b))) && p.payload.Some?
      && (p.error in {None, Some(Null)} || exists e :: p.error == Some(Text(e)))
    ensures Decoded(p).Some? ==> var b := Decoded(p).value;
      && p.correlationId == Some(Text(b.correlationId)) && p.ok == Some(Bool(b.ok)) && p.payload == Some(b.payload)
      && (if b.error.Some? then p.error == Some(Text(b.error.value)) else p.error in {None, Some(Null)})
  {
  }

  lemma DecodedIsNormalized(p: Posted)
    requires Decoded(p).Some?
    ensures AsBody(Decoded(p).value) == Normalized(p)
  {
  }

  /** The receiving end of a one-shot channel; `at` records when the body came. */
  datatype Slot = Waiting | Sent(body: PostbackBody, at: int) | Dropped

  /** `slots` records every channel ever made; a sender lives in `pending`. */
  datatype Table = Table(now: int, pending: map<Id, Pending>, slots: map<Id, Slot>)

  /** A channel is open exactly as long as its sender is in the table. */
  predicate Sound(t: Table) {
    && t.pending.Keys <= t.slots.Keys
    && forall id :: id in t.slots ==> (t.slots[id].Waiting? <==> id in t.pending)
  }

  function Registered(t: Table, id: Id, kind: Kind, ttl: int): Table {
    t.(pending := t.pending[id := Pending(kind, t.now + ttl)], slots := t.slots[id := Waiting])
  }

  /** Removing a sender that has not been used closes the channel. */
  function Withdrawn(t: Table, id: Id): Table {
    if id in t.pending then t.(pending := t.pending - {id}, slots := t.slots[id := Dropped]) else t
  }

  predicate Accepts(t: Table, body: PostbackBody) {
    body.correlationId in t.pending && t.now <= t.pending[body.correlationId].deadline
  }

  function Completed(t: Table, body: PostbackBody): Table {
    if Accepts(t, body) then
      t.(pending := t.pending - {body.correlationId}, slots := t.slots[body.correlationId := Sent(body, t.now)])
    else Withdrawn(t, body.correlationId)
  }

  // ------------------------------------- the same verdicts as the Python server

  predicate Open(s: State, id: Id)
    requires WellFormed(s)
  {
    id in s.pending && s.objects[id].result.None? && s.now <= s.objects[id].deadline
  }

  /** Both servers have the same open requests and have delivered the same bodies. */
  ghost predicate Same(s: State, t: Table)
    requires WellFormed(s)
  {
    && Sound(t) && s.now == t.now && s.objects.Keys == t.slots.Keys
    && forall id :: id in s.objects ==> SameAt(s, t, id)
  }

  ghost predicate SameAt(s: State, t: Table, id: Id)
    requires WellFormed(s) && id in s.objects && id in t.slots
  {
    && (id in t.pending ==> t.pending[id].deadline == s.objects[id].deadline)
    && (Open(s, id) <==> id in t.pending && t.now <= t.pending[id].deadline)
    && (t.slots[id].Sent? <==> s.objects[id].result.Some?)
    && (t.slots[id].Sent? ==> s.objects[id].result == Some(AsBody(t.slots[id].body)))
  }

  /** The HTTP handler: a body that does not decode or names another request
      never reaches the channel. */
  function Handled(t: Table, path: Id, body: Option<PostbackBody>): Table {
    if body.Some? && body.value.correlationId == path then Completed(t, body.value) else t
  }

  /** What the Rust server does when the Python server takes step `l`: there is
      no sweep, and only a waiter that gave up removes its entry. */
  function Mirrored(s: State, t: Table, l: Label, kind: Kind): Table
    requires WellFormed(s) && Enabled(s, l)
  {
    match l
    case Tick(to) => t.(now := to)
    case Create(id, ttl) => Registered(t, id, kind, ttl)
    case Post(path, posted) => Handled(t, path, Decoded(posted))
    case Cancel(id) => Withdrawn(t, id)
    case Pop(thread) => if s.waiters[thread].Expired? then Withdrawn(t, s.waiters[thread].id) else t
    case _ => t
  }

  predicate RustAccepts(t: Table, l: Label) {
    && l.Post? && Decoded(l.posted).Some?
    && Decoded(l.posted).value.correlationId == l.path && Accepts(t, Decoded(l.posted).value)
  }

  /** From related states: the Rust server accepts exactly what the Python server
      accepts and it can decode. */
  lemma OneVerdict(s: State, t: Table, l: Label)
    requires WellFormed(s) && Enabled(s, l) && Same(s, t)
    ensures RustAccepts(t, l) <==> Fired(s, l).1.Accepted? && Decoded(l.posted).Some?
  {
    if l.Post? {
      if l.path in s.objects { assert SameAt(s, t, l.path); }
      if Decoded(l.posted).Some? { DecodedIsNormalized(l.posted); }
    }
  }

  /** Every POST-back of the step, if it is one, can be decoded. */
  predicate Typed(l: Label) {
    l.Post? ==> Decoded(l.posted).Some?
  }

  lemma MirroredIsSound(s: State, t: Table, l: Label, kind: Kind)
    requires WellFormed(s) && Enabled(s, l) && Same(s, t) && Typed(l)
    ensures Sound(Mirrored(s, t, l, kind))
    ensures Mirrored(s, t, l, kind).slots.Keys == Fired(s, l).0.objects.Keys
  {
    if l.Post? && l.path in s.objects { assert SameAt(s, t, l.path); }
  }

  lemma StaysSameAt(s: State, t: Table, l: Label, kind: Kind, id: Id)
    requires WellFormed(s) && Enabled(s, l) && Same(s, t) && Typed(l)
    requires WellFormed(Fired(s, l).0) && id in Fired(s, l).0.objects && id in Mirrored(s, t, l, kind).slots
    ensures SameAt(Fired(s, l).0, Mirrored(s, t, l, kind), id)
  {
    if id in s.objects { assert SameAt(s, t, id); }
    if l.Post? { StaysSameAfterPost(s, t, l, kind, id); }
  }

  lemma StaysSameAfterPost(s: State, t: Table, l: Label, kind: Kind, id: Id)
    requires WellFormed(s) && l.Post? && Sound(t) && s.now == t.now && s.objects.Keys == t.slots.Keys && Typed(l)
    requires WellFormed(Fired(s, l).0) && id in s.objects && SameAt(s, t, id) && id in Mirrored(s, t, l, kind).slots
    ensures SameAt(Fired(s, l).0, Mirrored(s, t, l, kind), id)
  {
    DecodedIsNormalized(l.posted);
  }

  lemma StaysSame(s: State, t: Table, l: Label, kind: Kind)
    requires WellFormed(s) && Enabled(s, l) && Same(s, t) && Typed(l)
    ensures WellFormed(Fired(s, l).0) && Same(Fired(s, l).0, Mirrored(s, t, l, kind))
  {
    FiredKeepsWellFormed(s, l);
    MirroredIsSound(s, t, l, kind);
    forall id | id in Fired(s, l).0.objects ensures SameAt(Fired(s, l).0, Mirrored(s, t, l, kind), id) {
      StaysSameAt(s, t, l, kind, id);
    }
  }

  /** Along a run of the Python server, the Rust server starting from `t` accepts
      exactly the POST-backs the trace shows as accepted. */
  ghost predicate Agrees(s: State, t: Table, run: seq<Label>, trace: seq<Event>, kind: Kind)
    requires WellFormed(s)
    decreases |run|
  {
    run == [] || (
    && trace != [] && Enabled(s, run[0])
    && (trace[0].Accepted? <==> RustAccepts(t, run[0]))
    && WellFormed(Fired(s, run[0]).0)
    && Agrees(Fired(s, run[0]).0, Mirrored(s, t, run[0], kind), run[1..], trace[1..], kind))
  }

  lemma {:induction false} RunsAgree(s: State, t: Table, run: seq<Label>, trace: seq<Event>, s': State, kind: Kind)
    requires WellFormed(s) && Run(s, run, trace, s') && Same(s, t)
    requires forall k :: 0 <= k < |run| ==> Typed(run[k])
    ensures Agrees(s, t, run, trace, kind)
    decreases |run|
  {
    if run != [] {
      assert Typed(run[0]);
      OneVerdict(s, t, run[0]);
      StaysSame(s, t, run[0], kind);
      RunsAgree(Fired(s, run[0]).0, Mirrored(s, t, run[0], kind), run[1..], trace[1..], s', kind);
    }
  }

  /** Whatever happens on the Python server with POST-backs that decode, the Rust
      server would have accepted the same ones. */
  lemma ServersAgree(run: seq<Label>, trace: seq<Event>, s': State, kind: Kind)
    requires Run(INITIAL, run, trace, s')
    requires forall k :: 0 <= k < |run| ==> Typed(run[k])
    ensures Agrees(INITIAL, Table(0, map[], map[]), run, trace, kind)
  {
    RunsAgree(INITIAL, Table(0, map[], map[]), run, trace, s', kind);
  }

  /** The proviso is exact: from related states with an open request, one step
      leaves the servers related if and only if its POST-back decodes. */
  lemma RelatedAfterPostIff(s: State, t: Table, posted: Posted, path: Id, kind: Kind)
    requires WellFormed(s) && Same(s, t) && Fired(s, Post(path, posted)).1.Accepted?
    ensures WellFormed(Fired(s, Post(path, posted)).0)
    ensures Same(Fired(s, Post(path, posted)).0, Mirrored(s, t, Post(path, posted), kind)) <==> Decoded(posted).Some?
  {
    var l := Post(path, posted);
    FiredKeepsWellFormed(s, l);
    assert SameAt(s, t, path);
    if Decoded(posted).Some? {
      StaysSame(s, t, l, kind);
    } else {
      assert !SameAt(Fired(s, l).0, Mirrored(s, t, l, kind), path);
    }
  }

  // --------------------------------------------------------------- the channel

  /** The decoded `tool-execution-result` record. */
  datatype ToolExecutionResult = ToolExecutionResult(
    toolName: string, success: bool, outputJson: string, errorMessage: Option<string>, stepId: nat)

  datatype Failure =
    | NoClient | NoAnswer | HookDenied
    | Rejected(reason: Option<string>) | InvalidResult

  const MALFORMED := "tool"

  /** What the caller reads; here an empty reason counts as given. */
  function Message(f: Failure): string {
    match f
    case NoClient => PREFIX + " requires a connected client"
    case NoAnswer => PREFIX + " timed out waiting for client response"
    case HookDenied => PREFIX + " hook is not allowed"
    case Rejected(reason) => NormalizeDenial(if reason.Some? then reason.value else PREFIX + " rejected by client")
    case InvalidResult => MALFORMED + " client returned invalid tool-execution-result"
  }

  /** Only a malformed result does not read as a denial. */
  lemma RefusalsReadAsDenials(f: Failure)
    ensures PREFIX <= Message(f) <==> f != InvalidResult
    ensures f == Rejected(None) ==> Message(f) == "permission: rejected by client"
    ensures f.Rejected? && f.reason.Some? ==> var t := f.reason.value;
      Message(f) == if "permission:" <= t then t else "permission: " + t
  {
    assert PREFIX[0] == 'p' && MALFORMED[0] == 't';
    assert PREFIX + " rejected by client" == "permission: rejected by client" && PREFIX + " " == "permission: ";
    assert f == InvalidResult ==> Message(f)[0] == MALFORMED[0];
  }

  /** What others may do to the request `id`: time passes, a used or dropped
      channel stays as it is, and an entry leaves the table, for good, only when
      it is answered or its deadline has passed. */
  predicate Undisturbed(a: Table, b: Table, id: Id) {
    && a.now <= b.now
    && (id in a.slots ==>
      && id in b.slots
      && (!a.slots[id].Waiting? ==> b.slots[id] == a.slots[id])
      && (a.slots[id].Waiting? && b.slots[id].Sent? ==> a.now <= b.slots[id].at)
      && (id in b.pending ==> id in a.pending && b.pending[id] == a.pending[id])
      && (id in a.pending && id !in b.pending && !b.slots[id].Sent? ==> b.now > a.pending[id].deadline))
  }

  class ControlChannel {
    var clients: set<string>
    var pending: map<Id, Pending>
    var now: int                 // Instant::now()
    var slots: map<Id, Slot>     // the channels, which the source keeps on the stacks of the waiters

    function View(): Table
      reads this
    {
      Table(now, pending, slots)
    }

    predicate Valid()
      reads this
    {
      Sound(View())
    }

    method RegisterPending(id: Id, kind: Kind, ttl: int)
      requires Valid() && id !in slots   // a fresh UUID
      modifies `pending, `slots
      ensures Valid() && View() == Registered(old(View()), id, kind, ttl)
      ensures pending == old(pending)[id := Pending(kind, now + ttl)] && slots == old(slots)[id := Waiting]
    {
      slots := slots[id := Waiting];
      pending := pending[id := Pending(kind, now + ttl)];
    }

    method CancelPending(id: Id)
      requires Valid()
      modifies `pending, `slots
      ensures Valid() && View() == Withdrawn(old(View()), id)
      ensures pending == old(pending) - {id}
      ensures slots == if id in old(pending) then old(slots)[id := Dropped] else old(slots)
    {
      if id in pending {
        slots := slots[id := Dropped];
      }
      pending := pending - {id};
    }

    method CompletePostback(body: PostbackBody) returns (accepted: bool)
      requires Valid()
      modifies `pending, `slots
      ensures Valid() && View() == Completed(old(View()), body)
      ensures accepted <==> Accepts(old(View()), body)
      ensures accepted <==> body.correlationId in old(pending) && now <= old(pending)[body.correlationId].deadline
      ensures pending == old(pending) - {body.correlationId}
      ensures slots == if accepted then old(slots)[body.correlationId := Sent(body, now)]
        else if body.correlationId in old(pending) then old(slots)[body.correlationId := Dropped] else old(slots)
    {
      var id := body.correlationId;
      if id !in pending {
        return false;
      }
      var p := pending[id];
      pending := pending - {id};
      if p.deadline < now {
        slots := slots[id := Dropped];
        return false;
      }
      slots := slots[id := Sent(body, now)];
      accepted := true;
    }

    /** Any activity of other threads and clients; only its owner cancels `id`. */
    method Others(id: Id)
      requires Valid() && id in slots
      modifies this
      ensures Valid() && Undisturbed(old(View()), View(), id)
    {
      var steps: nat := *;
      while steps > 0
        invariant Valid() && Undisturbed(old(View()), View(), id)
      {
        OneOther(id);
        steps := steps - 1;
      }
    }

    method OneOther(id: Id)
      requires Valid() && id in slots
      modifies this
      ensures Valid() && Undisturbed(old(View()), View(), id)
    {
      var other: Id, amount: int, body: PostbackBody := *, *, *;
      if {
        case true => clients := *;
        case amount >= now => now := amount;
        case other !in slots =>
          var kind := *;
          RegisterPending(other, kind, amount);
        case other != id => CancelPending(other);
        case true => var _ := CompletePostback(body);
      }
    }

    /** `tokio::time::timeout` on the receiver: its outcome, or `None` once the
        time is up with nothing sent. */
    method Receive(id: Id, until: int) returns (slot: Option<Slot>)
      requires Valid() && id in slots
      modifies this
      ensures Valid() && Undisturbed(old(View()), View(), id) && id in slots
      ensures slot.Some? ==> slot.value == slots[id] && !slots[id].Waiting?
      ensures slot.None? ==> slots[id].Waiting? && now >= until
    {
      Others(id);
      if slots[id].Waiting? && now < until {
        now := until;
      }
      slot := if slots[id].Waiting? then None else Some(slots[id]);
    }

    /** Why no body was received: nobody was connected, or the deadline has come
        without a body having been accepted before it. */
    predicate Undelivered(id: Id, f: Failure, client: string, deadline: int)
      reads this
    {
      match f
      case NoClient => client !in clients
      case NoAnswer => now >= deadline && id in slots && (slots[id].Sent? ==> slots[id].at >= deadline)
      case _ => false
    }

    /** The part the two callers share: register, require the client, push, wait.
        `others` says whether other threads may run before the client is looked up. */
    method Exchange(id: Id, kind: Kind, client: string, ttl: int, others: bool) returns (r: Result<PostbackBody, Failure>)
      requires Valid() && id !in slots
      modifies this
      ensures Valid() && id !in pending
      ensures r.Ok? ==> id in slots && slots[id].Sent? && slots[id].body == r.value
      ensures r.Err? ==> Undelivered(id, r.error, client, old(now) + ttl)
      ensures !others ==> (r == Err(NoClient) <==> client !in old(clients))
    {
      RegisterPending(id, kind, ttl);
      if others { Others(id); }
      if client !in clients {
        CancelPending(id);
        return Err(NoClient);
      }
      Others(id);   // push
      var until := now + ttl;
      var slot := Receive(id, until);
      if slot.Some? && slot.value.Sent? {
        return Ok(slot.value.body);
      }
      Others(id);
      CancelPending(id);
      r := Err(NoAnswer);
    }

    /** The accepted POST-back for `id` is what `r` was made of: its decoded
        payload, or the flaw that `r` reports. */
    predicate AnsweredWith(id: Id, decode: Json -> Option<ToolExecutionResult>, r: Result<ToolExecutionResult, Failure>)
      reads this
    {
      && id in slots && slots[id].Sent?
      && var body := slots[id].body;
         && (r == Err(Rejected(body.error)) <==> !body.ok)
         && (r == Err(InvalidResult) <==> body.ok && decode(body.payload) == None)
         && (r.Ok? <==> body.ok && decode(body.payload).Some?)
         && (r.Ok? ==> decode(body.payload) == Some(r.value))
    }

    predicate AcceptedWith(id: Id, payload: Json)
      reads this
    {
      id in slots && slots[id].Sent? && slots[id].body.ok && slots[id].body.payload == payload
    }

    /** `execute_remote`, for every decoder of tool results: each exit leaves no
        entry; unless no body was received, the outcome is exactly what the
        accepted body decodes to. */
    method ExecuteRemote(id: Id, client: string, ttl: int, decode: Json -> Option<ToolExecutionResult>, others: bool)
      returns (r: Result<ToolExecutionResult, Failure>)
      requires Valid() && id !in slots
      modifies this
      ensures Valid() && id !in pending
      ensures AnsweredWith(id, decode, r) || (r.Err? && Undelivered(id, r.error, client, old(now) + ttl))
      ensures !others ==> (r == Err(NoClient) <==> client !in old(clients))
    {
      var body := Exchange(id, Tool, client, ttl, others);
      if body.Err? {
        return Err(body.error);
      }
      if !body.value.ok {
        return Err(Rejected(body.value.error));
      }
      var result := decode(body.value.payload);
      if result.None? {
        return Err(InvalidResult);
      }
      r := Ok(result.value);
    }

    /** `request_hook_decision`: any payload is a decision. */
    method RequestHookDecision(id: Id, client: string, ttl: int, allowed: bool, encode: Json -> string, others: bool)
      returns (r: Result<string, Failure>)
      requires Valid() && id !in slots
      modifies this
      ensures Valid() && id !in pending
      ensures !allowed ==> r == Err(HookDenied) && View() == old(View())
      ensures r.Ok? ==> exists p: Json :: AcceptedWith(id, p) && r.value == if p.Text? then p.text else encode(p)
      ensures allowed && !others ==> (r == Err(NoClient) <==> client !in old(clients))
      ensures allowed && r.Err? ==>
        || (id in slots && slots[id].Sent? && !slots[id].body.ok && r.error == Rejected(slots[id].body.error))
        || Undelivered(id, r.error, client, old(now) + ttl)
    {
      if !allowed {
        return Err(HookDenied);
      }
      var body := Exchange(id, Hook, client, ttl, others);
      if body.Err? {
        return Err(body.error);
      }
      if !body.value.ok {
        return Err(Rejected(body.value.error));
      }
      assert AcceptedWith(id, body.value.payload);
      r := Ok(Decision(body.value.payload, encode));
    }
  }
}
