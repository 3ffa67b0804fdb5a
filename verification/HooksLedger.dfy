// Ownership of the global runtime-hooks slot: an insertion-ordered ledger of
// owners, a cache of the last value published, and a slot that other code may
// write at any time.
module HooksLedger {
  import opened Common

  type Token = nat

  /** The identity of a provider object. */
  type Provider = int

  // ------------------------------------------------------------- reference

  /** What the ledger is for, without order and without cache: the live owners
      and the slot.  Tokens are handed out in increasing order. */
  datatype Owners = Owners(live: map<Token, Option<Provider>>, slot: Option<Provider>,
                           legacy: Option<Token>, next: Token)

  ghost predicate IsLatest(t: Token, live: map<Token, Option<Provider>>) {
    t in live && forall u :: u in live ==> u <= t
  }

  /** The provider of the most recently acquired live owner. */
  ghost function Latest(live: map<Token, Option<Provider>>): Option<Provider> {
    if live == map[] then None
    else
      LatestExists(live);
      var t :| IsLatest(t, live);
      live[t]
  }

  lemma {:induction false} LatestExists(live: map<Token, Option<Provider>>)
    requires live != map[]
    ensures exists t :: IsLatest(t, live)
    decreases |live|
  {
    var k :| k in live;
    var rest := live - {k};
    if rest == map[] {
      assert live.Keys == rest.Keys + {k};
      assert IsLatest(k, live);
    } else {
      assert |rest.Keys| < |live.Keys| by { assert rest.Keys == live.Keys - {k}; }
      LatestExists(rest);
      var t :| IsLatest(t, rest);
      var m := if k < t then t else k;
      forall u | u in live ensures u <= m { if u != k { assert u in rest; } }
      assert IsLatest(m, live);
    }
  }

  lemma LatestIs(t: Token, live: map<Token, Option<Provider>>)
    requires IsLatest(t, live)
    ensures Latest(live) == live[t]
  {
  }

  /** A foreign value in the slot invalidates every owner. */
  ghost function Reconciled(o: Owners): Owners {
    if o.slot == Latest(o.live) then o else o.(live := map[])
  }

  ghost function Acquired(o: Owners, p: Option<Provider>): Owners {
    var live := Reconciled(o).live[o.next := p];
    o.(live := live, slot := Latest(live), next := o.next + 1)
  }

  ghost function Released(o: Owners, t: Token): (Owners, bool) {
    var r := Reconciled(o);
    if t !in r.live then (r, false)
    else (r.(live := r.live - {t}, slot := Latest(r.live - {t})), true)
  }

  ghost function Installed(o: Owners, p: Option<Provider>): Owners {
    var r := Reconciled(o);
    var cleared := if r.legacy.Some? then Released(r.(legacy := None), r.legacy.value).0 else r;
    if p.None? then cleared else Acquired(cleared, p).(legacy := Some(cleared.next))
  }

  datatype Op = Acquire(p: Option<Provider>) | Release(t: Token) | Install(p: Option<Provider>) | Write(v: Option<Provider>)

  ghost function Step(o: Owners, op: Op): Owners {
    match op
    case Acquire(p) => Acquired(o, p)
    case Release(t) => Released(o, t).0
    case Install(p) => Installed(o, p)
    case Write(v) => o.(slot := v)
  }

  const NOBODY: Owners := Owners(map[], None, None, 0)

  ghost function After(run: seq<Op>): Owners {
    if run == [] then NOBODY else Step(After(run[..|run| - 1]), run[|run| - 1])
  }

  ghost predicate Issued(o: Owners) {
    && (forall t :: t in o.live ==> t < o.next)
    && (o.legacy.Some? ==> o.legacy.value < o.next)
  }

  lemma StepKeepsIssued(o: Owners, op: Op)
    requires Issued(o)
    ensures Issued(Step(o, op)) && o.next <= Step(o, op).next
  {
  }

  lemma {:induction false} AfterIssued(run: seq<Op>)
    ensures Issued(After(run))
  {
    if run != [] {
      AfterIssued(run[..|run| - 1]);
      StepKeepsIssued(After(run[..|run| - 1]), run[|run| - 1]);
    }
  }

  /** After any run, an acquire leaves its own provider in the slot; a release
      that succeeds leaves that of the newest owner still alive (absent if that
      owner gave no hook, or if none remains), and leaves the slot untouched
      unless it was the newest owner that went. */
  lemma SlotFollowsTheNewestOwner(run: seq<Op>, p: Option<Provider>, t: Token)
    ensures var o := After(run + [Acquire(p)]);
      o.slot == p && o.slot == Latest(o.live) && After(run).next in o.live
    ensures Released(After(run), t).1 ==>
      var o := After(run + [Release(t)]);
      && o.slot == Latest(o.live) && o.live == After(run).live - {t}
      && (!IsLatest(t, After(run).live) ==> o.slot == After(run).slot)
  {
    AfterIssued(run);
    var o := After(run);
    assert (run + [Acquire(p)])[..|run|] == run && (run + [Release(t)])[..|run|] == run;
    LatestIs(o.next, Reconciled(o).live[o.next := p]);
    if Released(o, t).1 && !IsLatest(t, o.live) {
      LatestExists(o.live);
      var newest :| IsLatest(newest, o.live);
      LatestIs(newest, o.live);
      LatestIs(newest, o.live - {t});
    }
  }

  /** The legacy entry point shares the ledger: installing publishes the new
      provider, and installing nothing releases the legacy owner alone. A foreign
      value in the slot has invalidated every owner before that, and stays unless
      something is published. */
  lemma LegacyInstallTouchesOnlyItsOwner(run: seq<Op>, p: Option<Provider>)
    ensures var o, after := After(run), After(run + [Install(p)]);
      var live := Reconciled(o).live;
      var others := if o.legacy.Some? then live - {o.legacy.value} else live;
      && after.live == (if p.Some? then others[o.next := p] else others)
      && (p.Some? ==> after.slot == p && after.legacy == Some(o.next))
      && (p.None? ==> after.slot == if others != live then Latest(others) else o.slot)
  {
    AfterIssued(run);
    var o := After(run);
    assert (run + [Install(p)])[..|run|] == run;
    var live := Reconciled(o).live;
    var others := if o.legacy.Some? then live - {o.legacy.value} else live;
    if o.legacy.Some? && o.legacy.value !in live { assert others == live; }
    LatestIs(o.next, others[o.next := p]);
  }

  /** The slot does not only go absent with the last owner: a successful release
      empties it exactly when, of the owners alive before, no other is left or the
      newest other one gave no hook. */
  lemma AbsentAfterReleaseIff(run: seq<Op>, t: Token)
    requires Released(After(run), t).1
    ensures var left := After(run).live - {t};
      After(run + [Release(t)]).slot == None <==> left == map[] || exists u :: IsLatest(u, left) && left[u] == None
  {
    assert (run + [Release(t)])[..|run|] == run;
    var left := After(run).live - {t};
    if left != map[] {
      LatestExists(left);
      var u :| IsLatest(u, left);
      LatestIs(u, left);
      assert forall v :: IsLatest(v, left) ==> v == u;
    }
  }

  /** An owner without hooks hides the providers of the owners before it. */
  lemma AbsentWhileOwnersRemain(p: Provider, q: Provider)
    ensures var run := [Acquire(Some(p)), Acquire(None), Acquire(Some(q)), Release(2)];
      After(run).slot == None && After(run).live == map[0 := Some(p), 1 := None]
  {
    var a, b, c, d := Acquire(Some(p)), Acquire(None), Acquire(Some(q)), Release(2);
    assert [a][..0] == [] && [a, b][..1] == [a] && [a, b, c][..2] == [a, b] && [a, b, c, d][..3] == [a, b, c];
    var l1, l2, l3 := map[0 := Some(p)], map[0 := Some(p), 1 := None], map[0 := Some(p), 1 := None, 2 := Some(q)];
    LatestIs(0, l1);
    LatestIs(1, l2);
    LatestIs(2, l3);
    assert After([a]) == Owners(l1, Some(p), None, 1);
    assert After([a, b]) == Owners(l2, None, None, 2);
    assert After([a, b, c]) == Owners(l3, Some(q), None, 3);
    assert l3 - {2} == l2;
  }

  /** Once other code has written the slot, the next acquire starts afresh: every
      owner before it is gone. */
  lemma ForeignWriteDropsOwners(run: seq<Op>, v: Option<Provider>, p: Option<Provider>)
    requires v != Latest(After(run).live)
    ensures var o := After(run + [Write(v), Acquire(p)]);
      o.live == map[After(run).next := p] && o.slot == p
  {
    var all := run + [Write(v), Acquire(p)];
    assert all[..|all| - 1] == run + [Write(v)] && (run + [Write(v)])[..|run|] == run;
    var next := After(run).next;
    LatestIs(next, map[next := p]);
  }

  lemma StepKeepsDead(o: Owners, op: Op, t: Token)
    requires Issued(o) && t < o.next && t !in o.live
    ensures t !in Step(o, op).live && t < Step(o, op).next && !Released(o, t).1
  {
    StepKeepsIssued(o, op);
  }

  /** A token that is no longer live never becomes live again, whatever follows:
      no stale provider is resurrected. */
  lemma {:induction false} NeverResurrected(run: seq<Op>, more: seq<Op>, t: Token)
    requires t < After(run).next && t !in After(run).live
    ensures t < After(run + more).next && t !in After(run + more).live
    ensures !Released(After(run + more), t).1
    decreases |more|
  {
    if more == [] {
      assert run + more == run;
    } else {
      var before, op := more[..|more| - 1], more[|more| - 1];
      NeverResurrected(run, before, t);
      assert run + more == run + before + [op];
      assert (run + before + [op])[..|run + before|] == run + before;
      AfterIssued(run + before);
      StepKeepsDead(After(run + before), op, t);
    }
  }

  // ---------------------------------------------------------------- the code

  datatype Owner = Owner(token: Token, provider: Option<Provider>)

  function Active(owners: seq<Owner>): Option<Provider> {
    if owners == [] then None else owners[|owners| - 1].provider
  }

  ghost predicate Ordered(owners: seq<Owner>, next: Token) {
    && (forall i, j :: 0 <= i < j < |owners| ==> owners[i].token < owners[j].token)
    && (forall i :: 0 <= i < |owners| ==> owners[i].token < next)
  }

  ghost function AsMap(owners: seq<Owner>): map<Token, Option<Provider>> {
    if owners == [] then map[]
    else AsMap(owners[..|owners| - 1])[owners[|owners| - 1].token := owners[|owners| - 1].provider]
  }

  lemma {:induction false} AsMapKeys(owners: seq<Owner>, next: Token)
    requires Ordered(owners, next)
    ensures forall t :: t in AsMap(owners) <==> exists i :: 0 <= i < |owners| && owners[i].token == t
    ensures forall i :: 0 <= i < |owners| ==> AsMap(owners)[owners[i].token] == owners[i].provider
  {
    if owners != [] {
      AsMapKeys(owners[..|owners| - 1], next);
    }
  }

  /** The last owner of the ledger is the newest live one. */
  lemma ActiveIsLatest(owners: seq<Owner>, next: Token)
    requires Ordered(owners, next)
    ensures Active(owners) == Latest(AsMap(owners))
  {
    AsMapKeys(owners, next);
    if owners != [] {
      LatestIs(owners[|owners| - 1].token, AsMap(owners));
    }
  }

  function Without(owners: seq<Owner>, t: Token): seq<Owner> {
    if owners == [] then []
    else
      var rest := Without(owners[..|owners| - 1], t);
      if owners[|owners| - 1].token == t then rest else rest + [owners[|owners| - 1]]
  }

  lemma {:induction false} WithoutKeepsOrder(owners: seq<Owner>, t: Token, next: Token)
    requires Ordered(owners, next)
    ensures Ordered(Without(owners, t), next)
    decreases |owners|
  {
    if owners != [] {
      var before, last := owners[..|owners| - 1], owners[|owners| - 1];
      WithoutKeepsOrder(before, t, last.token);
      OrderedSnoc(Without(before, t), last, next);
    }
  }

  /** The owners before the last one are older than it. */
  lemma OrderedSnoc(before: seq<Owner>, last: Owner, next: Token)
    requires Ordered(before, last.token) && last.token < next
    ensures Ordered(before, next) && Ordered(before + [last], next)
  {
  }

  lemma {:induction false} AsMapBelow(owners: seq<Owner>, next: Token)
    requires Ordered(owners, next)
    ensures forall t :: t in AsMap(owners) ==> t < next
  {
    if owners != [] { AsMapBelow(owners[..|owners| - 1], next); }
  }

  lemma {:induction false} WithoutIsRemoval(owners: seq<Owner>, t: Token, next: Token)
    requires Ordered(owners, next)
    ensures AsMap(Without(owners, t)) == AsMap(owners) - {t}
    ensures |Without(owners, t)| == |owners| <==> t !in AsMap(owners)
    ensures |Without(owners, t)| <= |owners|
    decreases |owners|
  {
    if owners != [] {
      var before, last := owners[..|owners| - 1], owners[|owners| - 1];
      WithoutIsRemoval(before, t, last.token);
      AsMapBelow(before, last.token);
      SetThenRemove(AsMap(before), last.token, last.provider, t);
      if last.token != t {
        assert (Without(before, t) + [last])[..|Without(before, t)|] == Without(before, t);
      }
    }
  }

  lemma SetThenRemove(m: map<Token, Option<Provider>>, k: Token, p: Option<Provider>, t: Token)
    ensures k != t ==> m[k := p] - {t} == (m - {t})[k := p]
    ensures k == t && t !in m ==> m[k := p] - {t} == m == m - {t}
  {
  }

  lemma AppendOwner(owners: seq<Owner>, o: Owner, next: Token)
    requires Ordered(owners, o.token) && o.token < next
    ensures Ordered(owners + [o], next) && AsMap(owners + [o]) == AsMap(owners)[o.token := o.provider]
  {
    OrderedSnoc(owners, o, next);
    assert (owners + [o])[..|owners|] == owners;
  }

  /** The owners that still count: none once other code has written the slot. */
  ghost function Trusted(o: Owners): (live: map<Token, Option<Provider>>)
    ensures live == o.live || live == map[]
    ensures o.slot != Latest(o.live) ==> live == map[]
    ensures o.slot == Latest(o.live) ==> live == o.live
  {
    Reconciled(o).live
  }

  lemma ReleaseMeaning(o: Owners, t: Token)
    ensures var (o', released) := Released(o, t);
      && (released <==> t in Trusted(o)) && o'.live == Trusted(o) - {t}
      && o'.slot == (if released then Latest(o'.live) else o.slot)
  {
    assert t !in Trusted(o) ==> Trusted(o) - {t} == Trusted(o);
  }

  ghost function WithoutLegacy(o: Owners): map<Token, Option<Provider>> {
    if o.legacy.Some? then Trusted(o) - {o.legacy.value} else Trusted(o)
  }

  class HooksModule {
    var owners: seq<Owner>           // the Map, in insertion order
    var published: Option<Provider>  // last value this module wrote
    var slot: Option<Provider>       // globalThis[...]
    var legacy: Option<Token>
    var next: Token

    ghost predicate Valid()
      reads this
    {
      Ordered(owners, next) && published == Active(owners)
    }

    ghost function View(): Owners
      reads this
    {
      Owners(AsMap(owners), slot, legacy, next)
    }

    constructor ()
      ensures Valid() && View() == NOBODY
    {
      owners, published, slot, legacy, next := [], None, None, None, 0;
    }

    method Reconcile()
      requires Valid()
      modifies this`owners, this`published
      ensures Valid() && View() == Reconciled(old(View()))
      ensures owners != [] ==> slot == published
    {
      ActiveIsLatest(owners, next);
      if slot == published {
        return;
      }
      owners, published := [], None;
    }

    method Publish()
      requires Ordered(owners, next)
      modifies this`slot, this`published
      ensures Valid() && slot == Latest(AsMap(owners))
    {
      ActiveIsLatest(owners, next);
      var active := None;
      for i := 0 to |owners|
        invariant active == Active(owners[..i])
      {
        active := owners[i].provider;
      }
      assert owners[..|owners|] == owners;
      slot, published := active, active;
    }

    method AcquireProvider(hooks: Option<Provider>) returns (token: Token)
      requires Valid()
      modifies this`owners, this`published, this`slot, this`next
      ensures Valid() && View() == Acquired(old(View()), hooks) && token == old(next)
      ensures slot == hooks && legacy == old(legacy) && next == token + 1
      ensures View().live == Trusted(old(View()))[token := hooks]
    {
      AsMapBelow(owners, next);
      Reconcile();
      token := SetOwner(hooks);
      Publish();
      LatestIs(token, AsMap(owners));
    }

    /** A fresh token at the end of the ledger. */
    method SetOwner(hooks: Option<Provider>) returns (token: Token)
      requires Ordered(owners, next)
      modifies this`owners, this`next
      ensures Ordered(owners, next) && token == old(next) && next == token + 1
      ensures AsMap(owners) == old(AsMap(owners))[token := hooks]
    {
      token, next := next, next + 1;
      AppendOwner(owners, Owner(token, hooks), next);
      owners := owners + [Owner(token, hooks)];
    }

    method ReleaseProvider(token: Token) returns (released: bool)
      requires Valid()
      modifies this`owners, this`published, this`slot
      ensures Valid() && (View(), released) == Released(old(View()), token)
      ensures released <==> token in Trusted(old(View()))
      ensures View().live == Trusted(old(View())) - {token}
      ensures slot == if released then Latest(View().live) else old(slot)
    {
      ReleaseMeaning(View(), token);
      released := Drop(token);
    }

    method Drop(token: Token) returns (released: bool)
      requires Valid()
      modifies this`owners, this`published, this`slot
      ensures Valid() && (View(), released) == Released(old(View()), token)
    {
      Reconcile();
      WithoutKeepsOrder(owners, token, next);
      WithoutIsRemoval(owners, token, next);
      var kept := Without(owners, token);
      if |kept| == |owners| {
        return false;
      }
      owners := kept;
      Publish();
      released := true;
    }

    method InstallProvider(hooks: Option<Provider>)
      requires Valid()
      modifies this
      ensures Valid() && View() == Installed(old(View()), hooks)
      ensures legacy == if hooks.Some? then Some(old(next)) else None
      ensures var kept := WithoutLegacy(old(View()));
        View().live == if hooks.Some? then kept[old(next) := hooks] else kept
      ensures hooks.Some? ==> slot == hooks
      ensures hooks.None? ==>
        slot == if WithoutLegacy(old(View())) != Trusted(old(View())) then Latest(View().live) else old(slot)
    {
      Reconcile();
      if legacy.Some? {
        var stale := legacy.value;
        legacy := None;
        var _ := ReleaseProvider(stale);
      }
      if hooks.None? {
        return;
      }
      var token := AcquireProvider(hooks);
      legacy := Some(token);
    }

    /** Any other code of the process. */
    method ExternalWrite(v: Option<Provider>)
      requires Valid()
      modifies this`slot
      ensures Valid() && View() == Step(old(View()), Write(v))
    {
      slot := v;
    }
  }
}
