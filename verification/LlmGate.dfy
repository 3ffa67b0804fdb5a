// The per-session LLM quota, whose counter table is emptied when it grows
// past 1024 sessions.
module LlmGate {
  import opened Common

  const CAPACITY := 1024

  /** `check_llm_gate` for one call of `session`. */
  function Gate(quota: Option<nat>, calls: map<string, nat>, session: string): (map<string, nat>, bool) {
    if quota.None? then (calls, true)
    else
      var table := if |calls| > CAPACITY then map[] else calls;
      var used := if session in table then table[session] else 0;
      if used >= quota.value then (table[session := used], false)
      else (table[session := used + 1], true)
  }

  function After(quota: Option<nat>, run: seq<string>): map<string, nat> {
    if run == [] then map[] else Gate(quota, After(quota, run[..|run| - 1]), run[|run| - 1]).0
  }

  /** How many calls of `session` a run of calls has let through. */
  function Granted(quota: Option<nat>, run: seq<string>, session: string): nat {
    if run == [] then 0
    else
      var before := run[..|run| - 1];
      Granted(quota, before, session)
      + if run[|run| - 1] == session && Gate(quota, After(quota, before), session).1 then 1 else 0
  }

  function Sessions(run: seq<string>): set<string> {
    set s | s in run
  }

  lemma {:induction false} TableIsExact(q: nat, run: seq<string>, session: string)
    requires |Sessions(run)| <= CAPACITY
    ensures After(Some(q), run).Keys == Sessions(run)
    ensures Granted(Some(q), run, session) <= q
    ensures session in After(Some(q), run) ==> After(Some(q), run)[session] == Granted(Some(q), run, session)
    ensures session !in After(Some(q), run) ==> Granted(Some(q), run, session) == 0
  {
    if run != [] {
      var before, last := run[..|run| - 1], run[|run| - 1];
      SessionsGrow(before, last);
      assert run == before + [last];
      TableIsExact(q, before, session);
      var calls := After(Some(q), before);
      assert |calls| == |calls.Keys|;
      assert Gate(Some(q), calls, last).0.Keys == calls.Keys + {last};
    }
  }

  lemma {:induction false} SessionsGrow(before: seq<string>, last: string)
    ensures Sessions(before + [last]) == Sessions(before) + {last}
    ensures |Sessions(before)| <= |Sessions(before + [last])|
  {
    assert Sessions(before + [last]) == Sessions(before) + {last};
    Smaller(Sessions(before), Sessions(before + [last]));
  }

  lemma Smaller<T>(a: set<T>, b: set<T>)
    requires a <= b
    ensures |a| <= |b|
  {
    assert b == a + (b - a);
  }

  // -------------------------------------------- why the proviso is needed

  /** `n` different session names, none of them the empty one. */
  function Crowd(n: nat): seq<string> {
    if n == 0 then [] else Crowd(n - 1) + [seq(n, _ => 'x')]
  }

  function Again(n: nat, s: string): seq<string> {
    seq(n, _ => s)
  }

  lemma {:induction false} CrowdIsDistinct(n: nat)
    ensures |Crowd(n)| == n && (forall i :: 0 <= i < n ==> |Crowd(n)[i]| == i + 1)
    ensures |Sessions(Crowd(n))| == n && (forall s :: s in Sessions(Crowd(n)) ==> 1 <= |s| <= n)
  {
    if n > 0 {
      CrowdIsDistinct(n - 1);
      var last := seq(n, _ => 'x');
      assert Sessions(Crowd(n)) == Sessions(Crowd(n - 1)) + {last};
      assert last !in Sessions(Crowd(n - 1));
    }
  }

  lemma {:induction false} GrantedAgain(q: nat, n: nat)
    requires n <= q
    ensures Granted(Some(q), Again(n, ""), "") == n
    ensures After(Some(q), Again(n, "")) == if n == 0 then map[] else map["" := n]
  {
    if n > 0 {
      assert Again(n, "")[..n - 1] == Again(n - 1, "");
      GrantedAgain(q, n - 1);
      assert After(Some(q), Again(n, "")) == map["" := n];
    }
  }

  /** A call of a session the table does not know yet, with room to spare. */
  lemma NewcomerIsAdded(q: nat, before: seq<string>, newcomer: string, session: string)
    requires |After(Some(q), before)| <= CAPACITY && newcomer !in After(Some(q), before) && newcomer != session
    ensures var run := before + [newcomer];
      && Granted(Some(q), run, session) == Granted(Some(q), before, session)
      && After(Some(q), run).Keys == After(Some(q), before).Keys + {newcomer}
      && |After(Some(q), run)| == |After(Some(q), before)| + 1
  {
    var run := before + [newcomer];
    assert run[..|before|] == before;
    var m, m' := After(Some(q), before), After(Some(q), run);
    assert m'.Keys == m.Keys + {newcomer};
    assert |m'| == |m'.Keys| && |m| == |m.Keys|;
  }

  lemma LastIsNew(n: nat)
    requires n >= 1
    ensures var last := seq(n, _ => 'x');
      && Crowd(n) == Crowd(n - 1) + [last] && Sessions(Crowd(n)) == Sessions(Crowd(n - 1)) + {last}
      && last !in Sessions(Crowd(n - 1)) && last != ""
  {
    CrowdIsDistinct(n - 1);
    var last := seq(n, _ => 'x');
    assert |last| == n;
  }

  /** The quota of "" is used up and `n` other sessions are in the table. */
  ghost predicate Filled(q: nat, run: seq<string>, n: nat) {
    && Granted(Some(q), run, "") == q
    && After(Some(q), run).Keys == {""} + Sessions(Crowd(n))
    && |After(Some(q), run)| == n + 1
  }

  lemma FillOneMore(q: nat, run: seq<string>, n: nat)
    requires 1 <= n <= CAPACITY && Filled(q, run, n - 1)
    ensures Filled(q, run + [seq(n, _ => 'x')], n)
  {
    LastIsNew(n);
    NewcomerIsAdded(q, run, seq(n, _ => 'x'), "");
  }

  lemma UsedUp(q: nat)
    requires q >= 1
    ensures Filled(q, Again(q, ""), 0)
  {
    GrantedAgain(q, q);
    var m: map<string, nat> := map["" := q];
    assert m.Keys == {""} && |m| == |m.Keys| == 1;
    assert Sessions(Crowd(0)) == {};
    assert {""} + Sessions(Crowd(0)) == {""};
  }

  lemma {:induction false} CrowdFills(q: nat, n: nat)
    requires q >= 1 && n <= CAPACITY
    ensures Filled(q, Again(q, "") + Crowd(n), n)
  {
    var run := Again(q, "");
    if n == 0 {
      UsedUp(q);
      assert run + Crowd(0) == run;
    } else {
      var last := seq(n, _ => 'x');
      CrowdFills(q, n - 1);
      FillOneMore(q, run + Crowd(n - 1), n);
      assert run + (Crowd(n - 1) + [last]) == run + Crowd(n - 1) + [last];
    }
  }

  lemma ComesBack(q: nat, before: seq<string>)
    requires q >= 1 && Filled(q, before, CAPACITY)
    ensures Granted(Some(q), before + [""], "") == q + 1
  {
    assert (before + [""])[..|before|] == before;
  }

  lemma {:induction false} CrowdSessions(q: nat, n: nat)
    requires q >= 1
    ensures |Sessions(Again(q, "") + Crowd(n) + [""])| == n + 1
  {
    CrowdIsDistinct(n);
    assert Sessions(Again(q, "") + Crowd(n) + [""]) == {""} + Sessions(Crowd(n));
  }

  /** The quota of a session that used it up and comes back after 1024 others. */
  lemma {:induction false} QuotaForgotten(q: nat)
    requires q >= 1
    ensures var run := Again(q, "") + Crowd(CAPACITY) + [""];
      |Sessions(run)| == CAPACITY + 1 && Granted(Some(q), run, "") == q + 1
  {
    CrowdFills(q, CAPACITY);
    ComesBack(q, Again(q, "") + Crowd(CAPACITY));
    CrowdSessions(q, CAPACITY);
  }

  /** How many distinct sessions a run may have for the quota to hold of every
      such run: exactly up to 1024. */
  lemma QuotaHoldsIff(sessions: nat)
    ensures sessions <= CAPACITY <==>
      forall q: nat, run, s :: |Sessions(run)| <= sessions ==> Granted(Some(q), run, s) <= q
  {
    if sessions <= CAPACITY {
      forall q: nat, run, s | |Sessions(run)| <= sessions
        ensures Granted(Some(q), run, s) <= q
      {
        TableIsExact(q, run, s);
      }
    } else {
      QuotaForgotten(1);
      var run := Again(1, "") + Crowd(CAPACITY) + [""];
      assert |Sessions(run)| <= sessions && Granted(Some(1), run, "") > 1;
    }
  }

  function Occurrences(run: seq<string>, s: string): nat {
    if run == [] then 0 else Occurrences(run[..|run| - 1], s) + if run[|run| - 1] == s then 1 else 0
  }

  /** Without a quota every call is let through, and nothing is counted. */
  lemma {:induction false} NoQuotaNoLimit(run: seq<string>, s: string)
    ensures Granted(None, run, s) == Occurrences(run, s) && After(None, run) == map[]
  {
    if run != [] { NoQuotaNoLimit(run[..|run| - 1], s); }
  }

  class SharedState {
    const quota: Option<nat>
    var calls: map<string, nat>

    constructor (quota: Option<nat>)
      ensures this.quota == quota && calls == map[]
    {
      this.quota, calls := quota, map[];
    }

    method CheckLlmGate(session: string) returns (ok: bool)
      modifies this
      ensures (calls, ok) == Gate(quota, old(calls), session)
      ensures quota.None? ==> ok && calls == old(calls)
      ensures quota.Some? ==>
        var table := if |old(calls)| > 1024 then map[] else old(calls);
        var used := if session in table then table[session] else 0;
        (ok <==> used < quota.value) && calls == table[session := if ok then used + 1 else used]
    {
      if quota.None? {
        return true;
      }
      if |calls| > CAPACITY {
        calls := map[];
      }
      if session !in calls {
        calls := calls[session := 0];
      }
      ghost var table := if |old(calls)| > CAPACITY then map[] else old(calls);
      assert calls[session := calls[session] + 1] == table[session := calls[session] + 1];
      var used := calls[session];
      assert calls == table[session := used];
      if used >= quota.value {
        return false;
      }
      calls := calls[session := used + 1];
      ok := true;
    }
  }
}
