// The tool router: one registry of owners and two side tables, filled by
// registrations that may fail half-way, and the dispatch that relies on them.
module Router {
  import opened Common

  datatype Owner = Server | Client | Mcp

  datatype Definition = Definition(name: string, description: string)

  /** A local tool: arguments in, output or failure message out. */
  type Handler = string -> Result<string, string>

  datatype Entry = Entry(owner: Owner, definition: Definition)

  /** The tables, and the registrations that have released the registry and not
      filled the second table yet, by the step that began them. */
  datatype Tables = Tables(
    registry: map<string, Entry>, localHandlers: map<string, Handler>,
    toolServer: map<string, string>, mcpServers: set<string>,
    locals: map<nat, (string, Handler)>, connects: map<nat, string>, clock: nat)

  const EMPTY: Tables := Tables(map[], map[], map[], {}, map[], map[], 0)

  // ----------------------------------------------------------- registration

  /** The registry replaces an entry of the same owner and rejects another's. */
  predicate Collides(registry: map<string, Entry>, owner: Owner, name: string) {
    name in registry && registry[name].owner != owner
  }

  /** One step is what happens under the locks taken together. */
  datatype Step =
    | BeginLocal(definition: Definition, handler: Handler)
    | EndLocal(token: nat)
    | ClientTools(definitions: seq<Definition>)
    | BeginConnect(server: string, builtin: bool, reachable: bool, tools: seq<Definition>)
    | EndConnect(token: nat)

  /** Client definitions up to the first collision. */
  function RegisterClient(t: Tables, defs: seq<Definition>): (Tables, bool)
    decreases |defs|
  {
    if defs == [] then (t, true)
    else if Collides(t.registry, Client, defs[0].name) then (t, false)
    else RegisterClient(t.(registry := t.registry[defs[0].name := Entry(Client, defs[0])]), defs[1..])
  }

  /** The tools of an MCP server up to the first collision. */
  function RegisterMcp(t: Tables, server: string, tools: seq<Definition>): (Tables, bool)
    decreases |tools|
  {
    if tools == [] then (t, true)
    else if Collides(t.registry, Mcp, tools[0].name) then (t, false)
    else
      RegisterMcp(t.(registry := t.registry[tools[0].name := Entry(Mcp, tools[0])],
                     toolServer := t.toolServer[tools[0].name := server]),
                  server, tools[1..])
  }

  /** A step and whether it succeeded; what was registered before a failure stays. */
  function Stepped(t: Tables, s: Step): (Tables, bool) {
    match s
    case BeginLocal(d, h) =>
      if Collides(t.registry, Server, d.name) then (t, false)
      else (t.(registry := t.registry[d.name := Entry(Server, d)], locals := t.locals[t.clock := (d.name, h)]), true)
    case EndLocal(token) =>
      if token !in t.locals then (t, false)
      else (t.(localHandlers := t.localHandlers[t.locals[token].0 := t.locals[token].1], locals := t.locals - {token}), true)
    case ClientTools(defs) => RegisterClient(t, defs)
    case BeginConnect(server, builtin, reachable, tools) =>
      if builtin || !reachable then (t, false)
      else
        var (t', ok) := RegisterMcp(t, server, tools);
        if ok then (t'.(connects := t'.connects[t.clock := server]), true) else (t', false)
    case EndConnect(token) =>
      if token !in t.connects then (t, false)
      else (t.(mcpServers := t.mcpServers + {t.connects[token]}, connects := t.connects - {token}), true)
  }

  // ------------------------------------------- what a list registers, and how far

  predicate Named(defs: seq<Definition>, name: string) {
    exists i :: 0 <= i < |defs| && defs[i].name == name
  }

  /** No later definition has its name. */
  predicate LastNamed(defs: seq<Definition>, i: int) {
    0 <= i < |defs| && forall j :: i < j < |defs| ==> defs[j].name != defs[i].name
  }

  predicate Taken(registry: map<string, Entry>, owner: Owner, name: string) {
    name in registry && registry[name].owner != owner
  }

  /** `after` has these definitions, the last one of each name, and is otherwise
      what it was. */
  ghost predicate Filled(before: map<string, Entry>, after: map<string, Entry>, owner: Owner, defs: seq<Definition>) {
    && (forall n :: n in after <==> n in before || Named(defs, n))
    && (forall n :: n in before && !Named(defs, n) ==> after[n] == before[n])
    && (forall i :: LastNamed(defs, i) ==> defs[i].name in after && after[defs[i].name] == Entry(owner, defs[i]))
  }

  /** The first `k` were registered, and the next, if any, is another owner's. */
  ghost predicate FilledUpTo(before: map<string, Entry>, after: map<string, Entry>, owner: Owner, defs: seq<Definition>, k: int) {
    && 0 <= k <= |defs| && Filled(before, after, owner, defs[..k])
    && (forall i :: 0 <= i < k ==> !Taken(before, owner, defs[i].name))
    && (k < |defs| ==> Taken(before, owner, defs[k].name))
  }

  lemma {:induction false} OneMoreFilled(before: map<string, Entry>, after: map<string, Entry>, owner: Owner, defs: seq<Definition>)
    requires defs != [] && Filled(before[defs[0].name := Entry(owner, defs[0])], after, owner, defs[1..])
    ensures Filled(before, after, owner, defs)
  {
    var d := defs[0];
    forall n ensures Named(defs, n) <==> n == d.name || Named(defs[1..], n) {
      if Named(defs[1..], n) {
        var i :| 0 <= i < |defs[1..]| && defs[1..][i].name == n;
        assert defs[i + 1].name == n;
      }
      if i :| 0 < i < |defs| && defs[i].name == n { assert defs[1..][i - 1].name == n; }
      assert defs[0].name == d.name;
    }
    forall i | LastNamed(defs, i) ensures defs[i].name in after && after[defs[i].name] == Entry(owner, defs[i]) {
      if i > 0 {
        assert defs[1..][i - 1] == defs[i];
        assert LastNamed(defs[1..], i - 1);
      } else {
        assert !Named(defs[1..], d.name);
      }
    }
  }

  lemma {:induction false} NothingFilled(before: map<string, Entry>, owner: Owner)
    ensures Filled(before, before, owner, [])
  {
  }

  lemma {:induction false} OneMoreUpTo(before: map<string, Entry>, after: map<string, Entry>, owner: Owner, defs: seq<Definition>, k: int)
    requires defs != [] && !Taken(before, owner, defs[0].name)
    requires FilledUpTo(before[defs[0].name := Entry(owner, defs[0])], after, owner, defs[1..], k)
    ensures FilledUpTo(before, after, owner, defs, k + 1)
  {
    assert defs[..k + 1][1..] == defs[1..][..k] && defs[..k + 1][0] == defs[0];
    OneMoreFilled(before, after, owner, defs[..k + 1]);
    var m := before[defs[0].name := Entry(owner, defs[0])];
    forall i | 0 <= i < k + 1 ensures !Taken(before, owner, defs[i].name) {
      if i > 0 { assert defs[i] == defs[1..][i - 1] && !Taken(m, owner, defs[1..][i - 1].name); }
    }
    assert k + 1 < |defs| ==> defs[k + 1] == defs[1..][k];
  }

  lemma {:induction false} NothingUpTo(before: map<string, Entry>, owner: Owner, defs: seq<Definition>)
    requires defs == [] || Taken(before, owner, defs[0].name)
    ensures FilledUpTo(before, before, owner, defs, 0)
  {
    NothingFilled(before, owner);
    assert defs[..0] == [];
  }

  /** Client definitions are registered up to the first collision. */
  lemma {:induction false} ClientToolsMeaning(t: Tables, defs: seq<Definition>) returns (k: int)
    ensures var (t', ok) := RegisterClient(t, defs);
      FilledUpTo(t.registry, t'.registry, Client, defs, k) && (ok <==> k == |defs|) && t'.toolServer == t.toolServer
    decreases |defs|
  {
    if defs == [] || Collides(t.registry, Client, defs[0].name) {
      NothingUpTo(t.registry, Client, defs);
      k := 0;
    } else {
      var m := t.(registry := t.registry[defs[0].name := Entry(Client, defs[0])]);
      k := ClientToolsMeaning(m, defs[1..]);
      OneMoreUpTo(t.registry, RegisterClient(m, defs[1..]).0.registry, Client, defs, k);
      k := k + 1;
    }
  }

  /** All were registered, or some up to a collision. */
  ghost predicate FilledSoFar(before: map<string, Entry>, after: map<string, Entry>, owner: Owner, defs: seq<Definition>, ok: bool) {
    exists k :: FilledUpTo(before, after, owner, defs, k) && (ok <==> k == |defs|)
  }

  lemma {:induction false} ClientToolsFill(t: Tables, defs: seq<Definition>)
    ensures var (t', ok) := RegisterClient(t, defs); FilledSoFar(t.registry, t'.registry, Client, defs, ok)
  {
    var k := ClientToolsMeaning(t, defs);
  }

  /** So are the tools of a server, and their names are mapped to it. */
  ghost predicate Mapped(before: map<string, string>, after: map<string, string>, server: string, tools: seq<Definition>) {
    && (forall n :: n in after <==> n in before || Named(tools, n))
    && (forall n :: n in after ==> after[n] == if Named(tools, n) then server else before[n])
  }

  lemma {:induction false} OneMoreMapped(before: map<string, string>, after: map<string, string>, server: string,
                                         tools: seq<Definition>, k: int)
    requires tools != [] && 0 <= k < |tools| && Mapped(before[tools[0].name := server], after, server, tools[1..][..k])
    ensures Mapped(before, after, server, tools[..k + 1])
  {
    var some, more := tools[..k + 1], tools[1..][..k];
    forall n ensures Named(some, n) <==> n == tools[0].name || Named(more, n) {
      if Named(more, n) {
        var i :| 0 <= i < |more| && more[i].name == n;
        assert some[i + 1].name == n;
      }
      if i :| 0 < i < |some| && some[i].name == n { assert more[i - 1].name == n; }
      assert some[0].name == tools[0].name;
    }
  }

  lemma {:induction false} McpToolsMeaning(t: Tables, server: string, tools: seq<Definition>) returns (k: int)
    ensures var (t', ok) := RegisterMcp(t, server, tools);
      && FilledUpTo(t.registry, t'.registry, Mcp, tools, k) && (ok <==> k == |tools|)
      && Mapped(t.toolServer, t'.toolServer, server, tools[..k])
    decreases |tools|
  {
    if tools == [] || Collides(t.registry, Mcp, tools[0].name) {
      NothingUpTo(t.registry, Mcp, tools);
      k := 0;
      assert tools[..0] == [];
    } else {
      var d := tools[0];
      var m := t.(registry := t.registry[d.name := Entry(Mcp, d)], toolServer := t.toolServer[d.name := server]);
      k := McpToolsMeaning(m, server, tools[1..]);
      OneMoreUpTo(t.registry, RegisterMcp(m, server, tools[1..]).0.registry, Mcp, tools, k);
      OneMoreMapped(t.toolServer, RegisterMcp(m, server, tools[1..]).0.toolServer, server, tools, k);
      k := k + 1;
    }
  }

  function Ticked(t: Tables): Tables { t.(clock := t.clock + 1) }

  function After(run: seq<Step>): Tables {
    if run == [] then EMPTY else Ticked(Stepped(After(run[..|run| - 1]), run[|run| - 1]).0)
  }

  // ------------------------------------------------------ the tables agree

  predicate OwnedBy(t: Tables, owner: Owner, name: string) {
    name in t.registry && t.registry[name].owner == owner
  }

  ghost predicate Agree(t: Tables) {
    && (forall n :: n in t.localHandlers ==> OwnedBy(t, Server, n))
    && (forall n :: OwnedBy(t, Server, n) && n !in t.localHandlers ==> InFlight(t, n))
    && (forall k :: k in t.locals ==> OwnedBy(t, Server, t.locals[k].0))
    && (forall n :: n in t.toolServer <==> OwnedBy(t, Mcp, n))
    && (forall n :: n in t.registry ==> t.registry[n].definition.name == n)
    && (forall k :: k in t.locals ==> k < t.clock)
  }

  /** A registration of `name` has filled the registry only. */
  ghost predicate InFlight(t: Tables, name: string) {
    exists k :: k in t.locals && t.locals[k].0 == name
  }

  ghost predicate OtherwiseSame(t: Tables, t': Tables) {
    && t'.localHandlers == t.localHandlers && t'.mcpServers == t.mcpServers
    && t'.locals == t.locals && t'.connects == t.connects && t'.clock == t.clock
  }

  ghost predicate OwnersKept(before: Tables, after: Tables) {
    forall n :: n in before.registry ==> OwnedBy(after, before.registry[n].owner, n)
  }

  /** Entries of the other two owners leave the handlers alone. */
  lemma OneEntryAgrees(t: Tables, m: Tables)
    requires Agree(t) && OtherwiseSame(t, m) && OwnersKept(t, m)
    requires forall n :: OwnedBy(m, Server, n) <==> OwnedBy(t, Server, n)
    requires forall n :: n in m.toolServer <==> OwnedBy(m, Mcp, n)
    requires forall n :: n in m.registry ==> m.registry[n].definition.name == n
    ensures Agree(m)
  {
    forall n | OwnedBy(m, Server, n) && n !in m.localHandlers ensures InFlight(m, n) {
      assert InFlight(t, n);
    }
  }

  lemma {:induction false} RegisterClientAgrees(t: Tables, defs: seq<Definition>)
    requires Agree(t)
    ensures var t' := RegisterClient(t, defs).0;
      Agree(t') && OwnersKept(t, t') && OtherwiseSame(t, t') && t'.toolServer == t.toolServer
      && (forall n :: OwnedBy(t', Server, n) <==> OwnedBy(t, Server, n))
    decreases |defs|
  {
    if defs != [] && !Collides(t.registry, Client, defs[0].name) {
      var m := t.(registry := t.registry[defs[0].name := Entry(Client, defs[0])]);
      OneEntryAgrees(t, m);
      RegisterClientAgrees(m, defs[1..]);
    }
  }

  lemma {:induction false} RegisterMcpAgrees(t: Tables, server: string, tools: seq<Definition>)
    requires Agree(t)
    ensures var t' := RegisterMcp(t, server, tools).0;
      && Agree(t') && OwnersKept(t, t') && OtherwiseSame(t, t')
      && (forall n :: OwnedBy(t', Server, n) <==> OwnedBy(t, Server, n))
      && (forall n :: n in t'.toolServer ==>
            t'.toolServer[n] == server || (n in t.toolServer && t'.toolServer[n] == t.toolServer[n]))
    decreases |tools|
  {
    if tools != [] && !Collides(t.registry, Mcp, tools[0].name) {
      var d := tools[0];
      var m := t.(registry := t.registry[d.name := Entry(Mcp, d)], toolServer := t.toolServer[d.name := server]);
      OneEntryAgrees(t, m);
      RegisterMcpAgrees(m, server, tools[1..]);
    }
  }

  lemma BeginLocalAgrees(t: Tables, d: Definition, h: Handler)
    requires Agree(t) && !Collides(t.registry, Server, d.name)
    ensures var t' := Ticked(Stepped(t, BeginLocal(d, h)).0); Agree(t') && OwnersKept(t, t')
  {
    var t' := Ticked(Stepped(t, BeginLocal(d, h)).0);
    forall n | OwnedBy(t', Server, n) && n !in t'.localHandlers ensures InFlight(t', n) {
      if n == d.name {
        assert t'.locals[t.clock].0 == n;
      } else {
        assert InFlight(t, n);
        var k :| k in t.locals && t.locals[k].0 == n;
        assert t'.locals[k].0 == n;
      }
    }
  }

  lemma EndLocalAgrees(t: Tables, token: nat)
    requires Agree(t) && token in t.locals
    ensures var t' := Ticked(Stepped(t, EndLocal(token)).0); Agree(t') && OwnersKept(t, t')
  {
    var t' := Ticked(Stepped(t, EndLocal(token)).0);
    forall n | OwnedBy(t', Server, n) && n !in t'.localHandlers ensures InFlight(t', n) {
      assert InFlight(t, n);
      var k :| k in t.locals && t.locals[k].0 == n;
      assert k in t'.locals && t'.locals[k].0 == n;
    }
  }

  /** A step that leaves the handlers alone, one tick later. */
  lemma TickAgrees(t: Tables, m: Tables)
    requires Agree(m) && OwnersKept(t, m)
    ensures Agree(Ticked(m)) && OwnersKept(t, Ticked(m))
  {
    forall n | OwnedBy(m, Server, n) && n !in m.localHandlers ensures InFlight(Ticked(m), n) {
      assert InFlight(m, n);
    }
  }

  lemma ConnectsDoNotMatter(m: Tables, connects: map<nat, string>, servers: set<string>)
    requires Agree(m)
    ensures Agree(m.(connects := connects, mcpServers := servers))
  {
    var m' := m.(connects := connects, mcpServers := servers);
    forall n | OwnedBy(m', Server, n) && n !in m'.localHandlers ensures InFlight(m', n) {
      assert InFlight(m, n);
    }
  }

  /** Every step of every registration keeps the tables in agreement. */
  lemma SteppedAgrees(t: Tables, s: Step)
    requires Agree(t)
    ensures var t' := Ticked(Stepped(t, s).0); Agree(t') && OwnersKept(t, t')
  {
    var m := Stepped(t, s).0;
    if !Stepped(t, s).1 && (s.BeginLocal? || s.EndLocal? || s.EndConnect?) {
      TickAgrees(t, t);
    } else {
      match s
      case BeginLocal(d, h) => BeginLocalAgrees(t, d, h);
      case EndLocal(token) => EndLocalAgrees(t, token);
      case ClientTools(defs) =>
        RegisterClientAgrees(t, defs);
        TickAgrees(t, m);
      case BeginConnect(server, builtin, reachable, tools) =>
        RegisterMcpAgrees(t, server, tools);
        ConnectsDoNotMatter(RegisterMcp(t, server, tools).0, m.connects, m.mcpServers);
        TickAgrees(t, m);
      case EndConnect(token) =>
        ConnectsDoNotMatter(t, m.connects, m.mcpServers);
        TickAgrees(t, m);
    }
  }

  /** Over any interleaving of registrations, failed ones included: a handler is
      there only for a server-owned name, a server-owned name without one is
      between the two halves of its registration, and the server table holds
      exactly the mcp-owned names. */
  lemma {:induction false} TablesAgree(run: seq<Step>)
    ensures Agree(After(run)) && After(run).clock == |run|
  {
    if run != [] {
      TablesAgree(run[..|run| - 1]);
      SteppedAgrees(After(run[..|run| - 1]), run[|run| - 1]);
      ClockStays(After(run[..|run| - 1]), run[|run| - 1]);
    }
  }

  lemma ClockStays(t: Tables, s: Step)
    requires Agree(t)
    ensures Stepped(t, s).0.clock == t.clock
  {
    match s
    case ClientTools(defs) => RegisterClientAgrees(t, defs);
    case BeginConnect(server, _, _, tools) => RegisterMcpAgrees(t, server, tools);
    case _ =>
  }

  /** A tool's owner never changes. */
  lemma {:induction false} OwnerNeverChanges(run: seq<Step>, more: seq<Step>, name: string)
    requires name in After(run).registry
    ensures OwnedBy(After(run + more), After(run).registry[name].owner, name)
    decreases |more|
  {
    if more == [] {
      assert run + more == run;
    } else {
      var before := more[..|more| - 1];
      OwnerNeverChanges(run, before, name);
      assert (run + more)[..|run + more| - 1] == run + before;
      TablesAgree(run + before);
      SteppedAgrees(After(run + before), more[|more| - 1]);
    }
  }

  // ----------------------------------------- what a run has begun and finished

  /** At step `i` of `run`, the registry gets a local tool `name`. */
  ghost predicate BegunAt(run: seq<Step>, name: string, i: nat)
    requires i < |run|
  {
    run[i].BeginLocal? && run[i].definition.name == name && Stepped(After(run[..i]), run[i]).1
  }

  /** At step `i` of `run`, the handler of `name` is filled in with `h`. */
  ghost predicate FinishedAt(run: seq<Step>, name: string, i: nat)
    requires i < |run|
  {
    && run[i].EndLocal? && run[i].token in After(run[..i]).locals
    && After(run[..i]).locals[run[i].token].0 == name
  }

  ghost predicate Begun(run: seq<Step>, name: string) {
    exists i :: 0 <= i < |run| && BegunAt(run, name, i)
  }

  ghost predicate Finished(run: seq<Step>, name: string) {
    exists i :: 0 <= i < |run| && FinishedAt(run, name, i)
  }

  /** The last step decides, or the steps before it. */
  lemma LastOrBefore(run: seq<Step>, name: string)
    requires run != []
    ensures var before := run[..|run| - 1];
      && (Begun(run, name) <==> Begun(before, name) || BegunAt(run, name, |before|))
      && (Finished(run, name) <==> Finished(before, name) || FinishedAt(run, name, |before|))
  {
    var before := run[..|run| - 1];
    assert forall i :: 0 <= i < |before| ==> run[..i] == before[..i];
    assert forall i :: 0 <= i < |before| ==> (BegunAt(run, name, i) <==> BegunAt(before, name, i));
    assert forall i :: 0 <= i < |before| ==> (FinishedAt(run, name, i) <==> FinishedAt(before, name, i));
  }

  lemma StepOnServerNames(t: Tables, s: Step, name: string)
    requires Agree(t)
    ensures var t' := Stepped(t, s).0;
      OwnedBy(t', Server, name) <==>
        (OwnedBy(t, Server, name) || (s.BeginLocal? && s.definition.name == name && Stepped(t, s).1))
    ensures var t' := Stepped(t, s).0;
      name in t'.localHandlers <==>
        (name in t.localHandlers || (s.EndLocal? && s.token in t.locals && t.locals[s.token].0 == name))
  {
    match s
    case ClientTools(defs) => RegisterClientAgrees(t, defs);
    case BeginConnect(server, _, _, tools) => RegisterMcpAgrees(t, server, tools);
    case _ =>
  }

  /** Only the second halves touch the handlers and the connected servers. */
  lemma SecondTables(t: Tables, s: Step)
    requires Agree(t)
    ensures var t' := Stepped(t, s).0;
      t'.localHandlers == if s.EndLocal? && s.token in t.locals
        then t.localHandlers[t.locals[s.token].0 := t.locals[s.token].1] else t.localHandlers
    ensures var t' := Stepped(t, s).0;
      t'.mcpServers == if s.EndConnect? && s.token in t.connects
        then t.mcpServers + {t.connects[s.token]} else t.mcpServers
  {
    match s
    case ClientTools(defs) => RegisterClientAgrees(t, defs);
    case BeginConnect(server, _, _, tools) => RegisterMcpAgrees(t, server, tools);
    case _ =>
  }

  /** Server-owned are the names whose registration has begun; those with a
      handler are the ones of which a registration has finished. */
  lemma {:induction false} NamesBegunAndFinished(run: seq<Step>, name: string)
    ensures OwnedBy(After(run), Server, name) <==> Begun(run, name)
    ensures name in After(run).localHandlers <==> Finished(run, name)
  {
    if run != [] {
      var before := run[..|run| - 1];
      NamesBegunAndFinished(before, name);
      TablesAgree(before);
      LastOrBefore(run, name);
      StepOnServerNames(After(before), run[|run| - 1], name);
    }
  }

  // --------------------------------------------------------------- dispatch

  datatype Policy = Policy(localTools: set<string>, remoteTools: set<string>, mcpTools: set<string>)

  predicate Allows(p: Policy, owner: Owner, tool: string) {
    match owner
    case Server => tool in p.localTools
    case Client => tool in p.remoteTools
    case Mcp => tool in p.mcpTools
  }

  datatype Outcome =
    | NotRegistered | NotAllowed | OwnedByClient
    | NoLocalHandler | NoServerMapping | ServerNotConnected(server: string)
    | BadArguments
    | RanLocally(handler: Handler, result: Result<string, string>)
    | SentToClient
    | SentToMcp(server: string)

  /** `execute` for one call; `parsed` is what the arguments decode to.  Each
      lookup takes its own lock: the owner is read in `t`, the second table in
      `u` and the connected servers in `v`, and others may register in between. */
  function Execute(t: Tables, u: Tables, v: Tables, p: Policy, tool: string, parsed: Option<string>): Outcome {
    if tool !in t.registry then NotRegistered
    else if !Allows(p, t.registry[tool].owner, tool) then NotAllowed
    else
      match t.registry[tool].owner
      case Server =>
        if tool !in u.localHandlers then NoLocalHandler
        else if parsed.None? then BadArguments
        else RanLocally(u.localHandlers[tool], u.localHandlers[tool](parsed.value))
      case Client => SentToClient
      case Mcp =>
        if tool !in u.toolServer then NoServerMapping
        else if u.toolServer[tool] !in v.mcpServers then ServerNotConnected(u.toolServer[tool])
        else if parsed.None? then BadArguments
        else SentToMcp(u.toolServer[tool])
  }

  function ExecuteServerOwned(t: Tables, u: Tables, v: Tables, p: Policy, tool: string, parsed: Option<string>): Outcome {
    if OwnedBy(t, Client, tool) then OwnedByClient else Execute(t, u, v, p, tool, parsed)
  }

  /** The handler that was filled in last for `name`. */
  function LastHandler(run: seq<Step>, name: string): Option<Handler> {
    if run == [] then None
    else
      var before, s := run[..|run| - 1], run[|run| - 1];
      var t := After(before);
      if s.EndLocal? && s.token in t.locals && t.locals[s.token].0 == name then Some(t.locals[s.token].1)
      else LastHandler(before, name)
  }

  lemma {:induction false} HandlersAreTheLastOnes(run: seq<Step>, name: string)
    ensures var t := After(run);
      if name in t.localHandlers then LastHandler(run, name) == Some(t.localHandlers[name])
      else LastHandler(run, name) == None
  {
    if run != [] {
      var before, s := run[..|run| - 1], run[|run| - 1];
      HandlersAreTheLastOnes(before, name);
      TablesAgree(before);
      SecondTables(After(before), s);
    }
  }

  /** Whatever is registered before, during and after a call's lookups: a handler
      runs exactly for a server-owned, locally allowed tool with arguments that
      parse and a handler filled in by then, and it is the last one; "no local
      handler" is answered exactly between the two halves of the first
      registration of the name; "no server mapping" cannot happen; a call is
      sent on exactly for an mcp-owned, allowed tool with such arguments whose
      server has connected, and goes there; and the server's own endpoint never
      reaches the client. */
  lemma DispatchIsSound(run: seq<Step>, more: seq<Step>, later: seq<Step>, p: Policy, tool: string, parsed: Option<string>)
    ensures var t, u, v := After(run), After(run + more), After(run + more + later);
      var o := Execute(t, u, v, p, tool, parsed);
      && (o.RanLocally? <==> OwnedBy(t, Server, tool) && tool in p.localTools && parsed.Some? && Finished(run + more, tool))
      && (o.RanLocally? ==> LastHandler(run + more, tool) == Some(o.handler) && o.result == o.handler(parsed.value))
      && (o == NoLocalHandler <==> Begun(run, tool) && !Finished(run + more, tool) && tool in p.localTools)
      && (OwnedBy(t, Server, tool) ==> (o == BadArguments <==>
            tool in p.localTools && parsed.None? && Finished(run + more, tool)))
      && o != NoServerMapping
      && (o == SentToClient <==> OwnedBy(t, Client, tool) && tool in p.remoteTools)
      && (o == NotRegistered <==> tool !in t.registry)
      && (o == NotAllowed <==>
            || (OwnedBy(t, Server, tool) && tool !in p.localTools) || (OwnedBy(t, Client, tool) && tool !in p.remoteTools)
            || (OwnedBy(t, Mcp, tool) && tool !in p.mcpTools))
      && o != OwnedByClient
      && ExecuteServerOwned(t, u, v, p, tool, parsed) == (if OwnedBy(t, Client, tool) then OwnedByClient else o)
      && (o.SentToMcp? <==>
            && OwnedBy(t, Mcp, tool) && tool in p.mcpTools && parsed.Some?
            && tool in u.toolServer && Connected(run + more + later, u.toolServer[tool]))
      && (o.SentToMcp? ==> o.server == u.toolServer[tool])
      && ExecuteServerOwned(t, u, v, p, tool, parsed) != SentToClient
      && (OwnedBy(t, Mcp, tool) ==> (o == BadArguments <==>
            && tool in p.mcpTools && parsed.None? && tool in u.toolServer && Connected(run + more + later, u.toolServer[tool])))
  {
    LocalDispatch(run, more, later, p, tool, parsed);
    DispatchElsewhere(run, more, later, p, tool, parsed);
  }

  lemma LocalDispatch(run: seq<Step>, more: seq<Step>, later: seq<Step>, p: Policy, tool: string, parsed: Option<string>)
    ensures var t, u, v := After(run), After(run + more), After(run + more + later);
      var o := Execute(t, u, v, p, tool, parsed);
      && (o.RanLocally? <==> OwnedBy(t, Server, tool) && tool in p.localTools && parsed.Some? && Finished(run + more, tool))
      && (o.RanLocally? ==> LastHandler(run + more, tool) == Some(o.handler) && o.result == o.handler(parsed.value))
      && (o == NoLocalHandler <==> Begun(run, tool) && !Finished(run + more, tool) && tool in p.localTools)
      && (OwnedBy(t, Server, tool) ==> (o == BadArguments <==>
            tool in p.localTools && parsed.None? && Finished(run + more, tool)))
  {
    NamesBegunAndFinished(run, tool);
    NamesBegunAndFinished(run + more, tool);
    HandlersAreTheLastOnes(run + more, tool);
  }

  lemma DispatchElsewhere(run: seq<Step>, more: seq<Step>, later: seq<Step>, p: Policy, tool: string, parsed: Option<string>)
    ensures var t, u, v := After(run), After(run + more), After(run + more + later);
      var o := Execute(t, u, v, p, tool, parsed);
      && o != NoServerMapping
      && (o == SentToClient <==> OwnedBy(t, Client, tool) && tool in p.remoteTools)
      && (o == NotRegistered <==> tool !in t.registry)
      && (o == NotAllowed <==>
            || (OwnedBy(t, Server, tool) && tool !in p.localTools) || (OwnedBy(t, Client, tool) && tool !in p.remoteTools)
            || (OwnedBy(t, Mcp, tool) && tool !in p.mcpTools))
      && o != OwnedByClient
      && ExecuteServerOwned(t, u, v, p, tool, parsed) == (if OwnedBy(t, Client, tool) then OwnedByClient else o)
      && (o.SentToMcp? <==>
            && OwnedBy(t, Mcp, tool) && tool in p.mcpTools && parsed.Some?
            && tool in u.toolServer && Connected(run + more + later, u.toolServer[tool]))
      && (o.SentToMcp? ==> o.server == u.toolServer[tool])
      && ExecuteServerOwned(t, u, v, p, tool, parsed) != SentToClient
      && (OwnedBy(t, Mcp, tool) ==> (o == BadArguments <==>
            && tool in p.mcpTools && parsed.None? && tool in u.toolServer && Connected(run + more + later, u.toolServer[tool])))
  {
    MappingIsThere(run, more, tool);
    var u := After(run + more);
    if tool in u.toolServer { ServersAreTheConnectedOnes(run + more + later, u.toolServer[tool]); }
  }

  /** An mcp-owned name stays mapped to a server. */
  lemma MappingIsThere(run: seq<Step>, more: seq<Step>, tool: string)
    ensures OwnedBy(After(run), Mcp, tool) ==> tool in After(run + more).toolServer
  {
    TablesAgree(run + more);
    if tool in After(run).registry { OwnerNeverChanges(run, more, tool); }
  }

  /** Between whole registrations no call misses a handler. */
  lemma QuietMeansComplete(run: seq<Step>, p: Policy, tool: string, parsed: Option<string>)
    requires After(run).locals == map[]
    ensures var t := After(run); Execute(t, t, t, p, tool, parsed) != NoLocalHandler
  {
    TablesAgree(run);
    assert !InFlight(After(run), tool);
  }

  // -------------------------------------------------------- connected servers

  /** Some connect to `server` in `run` went through to its end. */
  ghost predicate Connected(run: seq<Step>, server: string) {
    exists i :: 0 <= i < |run| && ConnectedAt(run, server, i)
  }

  ghost predicate ConnectedAt(run: seq<Step>, server: string, i: nat)
    requires i < |run|
  {
    run[i].EndConnect? && run[i].token in After(run[..i]).connects && After(run[..i]).connects[run[i].token] == server
  }

  lemma ConnectedLastOrBefore(run: seq<Step>, server: string)
    requires run != []
    ensures var before := run[..|run| - 1];
      Connected(run, server) <==> Connected(before, server) || ConnectedAt(run, server, |before|)
  {
    var before := run[..|run| - 1];
    assert forall i :: 0 <= i < |before| ==> run[..i] == before[..i];
    assert forall i :: 0 <= i < |before| ==> (ConnectedAt(run, server, i) <==> ConnectedAt(before, server, i));
  }

  lemma {:induction false} ServersAreTheConnectedOnes(run: seq<Step>, server: string)
    ensures server in After(run).mcpServers <==> Connected(run, server)
  {
    if run != [] {
      var before, s := run[..|run| - 1], run[|run| - 1];
      ServersAreTheConnectedOnes(before, server);
      TablesAgree(before);
      ConnectedLastOrBefore(run, server);
      SecondTables(After(before), s);
    }
  }

  /** "Not connected" is answered exactly for an allowed mcp-owned tool whose
      server has not got through a connect: one that failed half-way, or one
      whose second half is still to come. */
  lemma NotConnectedIff(run: seq<Step>, more: seq<Step>, later: seq<Step>, p: Policy, tool: string, parsed: Option<string>, server: string)
    ensures var t, u, v := After(run), After(run + more), After(run + more + later);
      Execute(t, u, v, p, tool, parsed) == ServerNotConnected(server) <==>
        && OwnedBy(t, Mcp, tool) && tool in p.mcpTools
        && tool in u.toolServer && u.toolServer[tool] == server && !Connected(run + more + later, server)
  {
    MappingIsThere(run, more, tool);
    ServersAreTheConnectedOnes(run + more + later, server);
  }

  /** A run that never gets there: the second of a server's two tools collides
      with a client's. */
  lemma HalfConnectedServer(p: Policy, a: string, b: string, server: string, parsed: Option<string>)
    requires a != b && a in p.mcpTools
    ensures var run := [ClientTools([Definition(b, "")]), BeginConnect(server, false, true, [Definition(a, ""), Definition(b, "")])];
      var t := After(run); t.connects == map[] && Execute(t, t, t, p, a, parsed) == ServerNotConnected(server)
  {
    var da, db := Definition(a, ""), Definition(b, "");
    var r1, r2 := ClientTools([db]), BeginConnect(server, false, true, [da, db]);
    assert [r1][..0] == [] && [r1, r2][..1] == [r1];
    assert [db][1..] == [] && [da, db][1..] == [db];
    var t1 := EMPTY.(registry := map[b := Entry(Client, db)]);
    assert RegisterClient(t1, []) == (t1, true);
    assert RegisterClient(EMPTY, [db]) == (t1, true);
    assert After([]) == EMPTY && After([r1]) == Ticked(t1);
    var t := Ticked(t1);
    var t2 := t.(registry := t.registry[a := Entry(Mcp, da)], toolServer := map[a := server]);
    assert RegisterMcp(t2, server, [db]) == (t2, false);
    assert RegisterMcp(t, server, [da, db]) == (t2, false);
    assert After([r1, r2]) == Ticked(Stepped(t, r2).0) == Ticked(t2);
  }

  // -------------------------------------------------------------- the router

  class ToolRouter {
    var registry: map<string, Entry>
    var localHandlers: map<string, Handler>
    var toolServer: map<string, string>
    var mcpServers: set<string>
    const policy: Policy
    // Registrations in progress, which the source keeps on the stacks of threads.
    var locals: map<nat, (string, Handler)>
    var connects: map<nat, string>
    var clock: nat
    ghost var run: seq<Step>

    ghost function View(): Tables
      reads this
    {
      Tables(registry, localHandlers, toolServer, mcpServers, locals, connects, clock)
    }

    /** The tables are what the steps so far make of them. */
    ghost predicate Valid()
      reads this
    {
      View() == After(run) && clock == |run|
    }

    constructor (policy: Policy)
      ensures Valid() && run == [] && this.policy == policy
    {
      this.policy := policy;
      registry, localHandlers, toolServer, mcpServers := map[], map[], map[], {};
      locals, connects, clock, run := map[], map[], 0, [];
    }

    /** `UnionRegistry::register`. */
    method Register(owner: Owner, d: Definition) returns (ok: bool)
      modifies this`registry
      ensures ok <==> (d.name in old(registry) ==> old(registry)[d.name].owner == owner)
      ensures registry == if ok then old(registry)[d.name := Entry(owner, d)] else old(registry)
    {
      if d.name in registry && registry[d.name].owner != owner {
        return false;
      }
      registry := registry[d.name := Entry(owner, d)];
      ok := true;
    }

    ghost method Record(before: Tables, s: Step)
      requires before == After(run) && before.clock == |run| && clock == |run|
      requires View() == Stepped(before, s).0
      modifies this`run
      ensures run == old(run) + [s] && Ticked(View()) == After(run)
    {
      assert (run + [s])[..|run|] == run;
      run := run + [s];
    }

    /** First half of register_local_tool, under the registry lock. */
    method StartLocal(d: Definition, h: Handler) returns (ok: bool, token: nat)
      requires Valid()
      modifies this`registry, this`locals, this`clock, this`run
      ensures Valid() && run == old(run) + [BeginLocal(d, h)] && token == |old(run)|
      ensures ok <==> Stepped(old(View()), BeginLocal(d, h)).1
      ensures ok <==> (d.name in old(registry) ==> old(registry)[d.name].owner == Server)
      ensures registry == if ok then old(registry)[d.name := Entry(Server, d)] else old(registry)
      ensures locals == if ok then old(locals)[token := (d.name, h)] else old(locals)
    {
      ghost var before := View();
      token := clock;
      ok := Register(Server, d);
      if ok {
        locals := locals[clock := (d.name, h)];
      }
      Record(before, BeginLocal(d, h));
      clock := clock + 1;
    }

    /** Second half, under the handler lock. */
    method FinishLocal(token: nat)
      requires Valid() && token in locals
      modifies this`localHandlers, this`locals, this`clock, this`run
      ensures Valid() && run == old(run) + [EndLocal(token)]
      ensures localHandlers == old(localHandlers)[old(locals[token]).0 := old(locals[token]).1]
      ensures locals == old(locals) - {token}
    {
      ghost var before := View();
      var (name, h) := locals[token];
      localHandlers := localHandlers[name := h];
      locals := locals - {token};
      Record(before, EndLocal(token));
      clock := clock + 1;
    }

    method RegisterClientTools(defs: seq<Definition>) returns (ok: bool)
      requires Valid()
      modifies this`registry, this`clock, this`run
      ensures Valid() && run == old(run) + [ClientTools(defs)]
      ensures ok <==> Stepped(old(View()), ClientTools(defs)).1
      ensures FilledSoFar(old(registry), registry, Client, defs, ok)
    {
      ghost var before := View();
      ClientToolsFill(before, defs);
      ok := RegisterEach(defs);
      Record(before, ClientTools(defs));
      clock := clock + 1;
    }

    /** The loop, under one registry lock. */
    method RegisterEach(defs: seq<Definition>) returns (ok: bool)
      modifies this`registry
      ensures (View(), ok) == RegisterClient(old(View()), defs)
    {
      for i := 0 to |defs|
        invariant RegisterClient(old(View()), defs) == RegisterClient(View(), defs[i..])
      {
        assert defs[i..][0] == defs[i] && defs[i..][1..] == defs[i + 1..];
        ok := Register(Client, defs[i]);
        if !ok {
          return;
        }
      }
      ok := true;
    }

    /** First half of connect_mcp_server: the tools, under both locks. */
    method StartConnect(server: string, builtin: bool, reachable: bool, tools: seq<Definition>) returns (ok: bool, token: nat)
      requires Valid()
      modifies this`registry, this`toolServer, this`connects, this`clock, this`run
      ensures Valid() && run == old(run) + [BeginConnect(server, builtin, reachable, tools)] && token == |old(run)|
      ensures ok <==> Stepped(old(View()), BeginConnect(server, builtin, reachable, tools)).1
      ensures connects == if ok then old(connects)[token := server] else old(connects)
      ensures builtin || !reachable ==> !ok && registry == old(registry) && toolServer == old(toolServer)
      ensures !builtin && reachable ==> exists k ::
        && FilledUpTo(old(registry), registry, Mcp, tools, k) && (ok <==> k == |tools|)
        && Mapped(old(toolServer), toolServer, server, tools[..k])
    {
      ghost var before := View();
      ghost var k := McpToolsMeaning(before, server, tools);
      ok, token := false, clock;
      if !builtin && reachable {
        ok := ConnectEach(server, tools);
        MappingKeepsClock(before, server, tools);
      }
      if ok {
        connects := connects[clock := server];
      }
      Record(before, BeginConnect(server, builtin, reachable, tools));
      clock := clock + 1;
    }

    lemma {:induction false} MappingKeepsClock(t: Tables, server: string, tools: seq<Definition>)
      ensures RegisterMcp(t, server, tools).0.clock == t.clock
      decreases |tools|
    {
      if tools != [] && !Collides(t.registry, Mcp, tools[0].name) {
        MappingKeepsClock(
          t.(registry := t.registry[tools[0].name := Entry(Mcp, tools[0])],
             toolServer := t.toolServer[tools[0].name := server]), server, tools[1..]);
      }
    }

    method ConnectEach(server: string, tools: seq<Definition>) returns (ok: bool)
      modifies this`registry, this`toolServer
      ensures (View(), ok) == RegisterMcp(old(View()), server, tools)
    {
      for i := 0 to |tools|
        invariant RegisterMcp(old(View()), server, tools) == RegisterMcp(View(), server, tools[i..])
      {
        assert tools[i..][0] == tools[i] && tools[i..][1..] == tools[i + 1..];
        ok := Register(Mcp, tools[i]);
        if !ok {
          return;
        }
        toolServer := toolServer[tools[i].name := server];
      }
      ok := true;
    }

    /** Second half, under the lock of the connected servers. */
    method FinishConnect(token: nat)
      requires Valid() && token in connects
      modifies this`mcpServers, this`connects, this`clock, this`run
      ensures Valid() && run == old(run) + [EndConnect(token)]
      ensures mcpServers == old(mcpServers) + {old(connects[token])} && connects == old(connects) - {token}
    {
      ghost var before := View();
      mcpServers := mcpServers + {connects[token]};
      connects := connects - {token};
      Record(before, EndConnect(token));
      clock := clock + 1;
    }

    /** Any steps of other threads, with any handlers; they leave the registration
        `mine` alone. */
    method Others(mine: nat, supply: nat -> Handler)
      requires Valid() && mine < clock
      modifies this
      ensures Valid() && old(run) <= run && mine < clock
      ensures mine in old(locals) ==> mine in locals && locals[mine] == old(locals[mine])
      ensures mine in old(connects) ==> mine in connects && connects[mine] == old(connects[mine])
    {
      var steps: nat := *;
      while steps > 0
        invariant Valid() && old(run) <= run && mine < clock
        invariant mine in old(locals) ==> mine in locals && locals[mine] == old(locals[mine])
        invariant mine in old(connects) ==> mine in connects && connects[mine] == old(connects[mine])
      {
        OneOther(mine, supply);
        steps := steps - 1;
      }
    }

    method OneOther(mine: nat, supply: nat -> Handler)
      requires Valid() && mine < clock
      modifies this
      ensures Valid() && old(run) <= run && mine < clock
      ensures mine in old(locals) ==> mine in locals && locals[mine] == old(locals[mine])
      ensures mine in old(connects) ==> mine in connects && connects[mine] == old(connects[mine])
    {
      var token: nat := *;
      if {
        case true =>
          var name: string, description: string := *, *;
          var _, _ := StartLocal(Definition(name, description), supply(token));
        case token in locals && token != mine =>
          FinishLocal(token);
        case true =>
          var defs: seq<Definition> := *;
          var _ := RegisterClientTools(defs);
        case true =>
          var server: string, builtin: bool, reachable: bool := *, *, *;
          var tools: seq<Definition> := *;
          var _, _ := StartConnect(server, builtin, reachable, tools);
        case token in connects && token != mine =>
          FinishConnect(token);
      }
    }

    /** `register_local_tool`: two regions, others running in between; the handler
        it leaves is its own. */
    method RegisterLocalTool(d: Definition, h: Handler, supply: nat -> Handler) returns (ok: bool)
      requires Valid()
      modifies this
      ensures Valid() && old(run) + [BeginLocal(d, h)] <= run
      ensures ok <==> (d.name in old(registry) ==> old(registry)[d.name].owner == Server)
      ensures !ok ==> run == old(run) + [BeginLocal(d, h)]
      ensures ok ==> |run| > |old(run)| + 1 && run[|run| - 1] == EndLocal(|old(run)|)
      ensures ok ==> d.name in localHandlers && localHandlers[d.name] == h
    {
      var token;
      ok, token := StartLocal(d, h);
      if ok {
        Others(token, supply);
        FinishLocal(token);
      }
    }

    /** `connect_mcp_server`: likewise. */
    method ConnectMcpServer(server: string, builtin: bool, reachable: bool, tools: seq<Definition>, supply: nat -> Handler)
      returns (ok: bool)
      requires Valid()
      modifies this
      ensures Valid() && old(run) + [BeginConnect(server, builtin, reachable, tools)] <= run
      ensures ok <==> Stepped(old(View()), BeginConnect(server, builtin, reachable, tools)).1
      ensures !ok ==> run == old(run) + [BeginConnect(server, builtin, reachable, tools)]
      ensures ok ==> |run| > |old(run)| + 1 && run[|run| - 1] == EndConnect(|old(run)|)
      ensures ok ==> server in mcpServers
    {
      var token;
      ok, token := StartConnect(server, builtin, reachable, tools);
      if ok {
        Others(token, supply);
        FinishConnect(token);
      }
    }
  }
}
