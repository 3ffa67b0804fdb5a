// Pruning a chat history to a token budget: system messages are always kept,
// the others are taken greedily from the newest, with a forced minimum.
module ContextWindow {
  import opened Common

  type Bytes = seq<bv8>

  datatype Role = System | User | Assistant | Tool

  datatype Part = Text(text: Bytes) | Image(data: Bytes) | File(data: Bytes)

  datatype Message = Message(role: Role, parts: seq<Part>)

  datatype Policy = Policy(maxTokens: nat, reserveForResponse: nat, minHistory: nat)

  // ------------------------------------------------------------- estimating

  function EstimateText(text: Bytes): nat {
    Max(|text| / 4, 1)
  }

  function EstimatePart(p: Part): nat {
    match p
    case Text(t) => EstimateText(t)
    case Image(d) => 85 + |d| / 1000
    case File(d) => EstimateText(d)
  }

  function EstimateParts(ps: seq<Part>): nat {
    if ps == [] then 0 else EstimatePart(ps[0]) + EstimateParts(ps[1..])
  }

  function Cost(m: Message): nat {
    4 + EstimateParts(m.parts)
  }

  function Total(ms: seq<Message>): nat {
    if ms == [] then 0 else Cost(ms[0]) + Total(ms[1..])
  }

  function Budget(p: Policy): nat {
    Max(p.maxTokens - p.reserveForResponse, 0)
  }

  /** Four bytes to a token, rounded down, but at least one. */
  lemma TextCost(t: Bytes)
    ensures |t| < 8 ==> EstimateText(t) == 1
    ensures |t| >= 4 ==> 4 * EstimateText(t) <= |t| < 4 * EstimateText(t) + 4
  {
  }

  /** A message costs 4, and each of its parts by itself: a text or a file by its
      length, an image 85 and one more for every thousand bytes. */
  lemma {:induction false} CostMeaning(role: Role, ps: seq<Part>, part: Part)
    ensures Cost(Message(role, [])) == 4
    ensures var more := Cost(Message(role, ps + [part])) - Cost(Message(role, ps));
      match part
      case Text(t) => more == EstimateText(t)
      case File(d) => more == EstimateText(d)
      case Image(d) => 1000 * (more - 85) <= |d| < 1000 * (more - 85) + 1000
  {
    PartsSnoc(ps, part);
  }

  lemma {:induction false} PartsSnoc(ps: seq<Part>, part: Part)
    ensures EstimateParts(ps + [part]) == EstimateParts(ps) + EstimatePart(part)
  {
    if ps == [] {
      assert ps + [part] == [part] && [part][1..] == [];
    } else {
      assert (ps + [part])[1..] == ps[1..] + [part];
      PartsSnoc(ps[1..], part);
    }
  }

  // ---------------------------------------------------------------- pruning

  function Only(ms: seq<Message>, system: bool): seq<Message> {
    if ms == [] then []
    else (if ms[0].role.System? == system then [ms[0]] else []) + Only(ms[1..], system)
  }

  /** The greedy choice among `ms`, newest (last) first: what is kept, in the
      original order. */
  function Greedy(ms: seq<Message>, budget: nat, min: nat): seq<Message> {
    if ms == [] then []
    else
      var newer := Greedy(ms[1..], budget, min);
      if Takes(ms[0], newer, budget, min) then [ms[0]] + newer else newer
  }

  /** The loop's test for `m`, once `kept` has been selected. */
  predicate Takes(m: Message, kept: seq<Message>, budget: nat, min: nat) {
    Total(kept) + Cost(m) <= budget || |kept| < min
  }

  function Remaining(ms: seq<Message>, p: Policy): nat {
    Max(Budget(p) - Total(Only(ms, true)), 0)
  }

  function Pruned(ms: seq<Message>, p: Policy): seq<Message> {
    if Total(ms) <= Budget(p) then ms
    else Only(ms, true) + Greedy(Only(ms, false), Remaining(ms, p), p.minHistory)
  }

  // ---------------------------------------------------------- what is kept

  /** The elements of `ms` the mask keeps, in order. */
  function Pick(ms: seq<Message>, mask: seq<bool>): seq<Message>
    requires |mask| == |ms|
  {
    if ms == [] then [] else (if mask[0] then [ms[0]] else []) + Pick(ms[1..], mask[1..])
  }

  lemma {:induction false} TotalConcat(a: seq<Message>, b: seq<Message>)
    ensures Total(a + b) == Total(a) + Total(b)
  {
    if a == [] {
      assert a + b == b;
    } else {
      assert (a + b)[1..] == a[1..] + b;
      TotalConcat(a[1..], b);
    }
  }

  lemma TotalOne(m: Message)
    ensures Total([m]) == Cost(m)
  {
    assert [m][1..] == [];
  }

  lemma {:induction false} OnlyConcat(a: seq<Message>, b: seq<Message>, system: bool)
    ensures Only(a + b, system) == Only(a, system) + Only(b, system)
  {
    if a == [] {
      assert a + b == b;
    } else {
      assert (a + b)[1..] == a[1..] + b;
      OnlyConcat(a[1..], b, system);
    }
  }

  lemma {:induction false} OnlyIsPure(ms: seq<Message>, system: bool)
    ensures forall i :: 0 <= i < |Only(ms, system)| ==> Only(ms, system)[i].role.System? == system
  {
    if ms != [] { OnlyIsPure(ms[1..], system); }
  }

  lemma {:induction false} OnlyOfPure(ms: seq<Message>, system: bool)
    requires forall i :: 0 <= i < |ms| ==> ms[i].role.System? == system
    ensures Only(ms, system) == ms && Only(ms, !system) == []
  {
    if ms != [] { OnlyOfPure(ms[1..], system); }
  }

  /** The greedy choice is a selection; short of the minimum it takes all,
      beyond it it stays within the budget, and nothing it drops would fit. */
  lemma {:induction false} GreedyMeaning(ms: seq<Message>, budget: nat, min: nat) returns (mask: seq<bool>)
    ensures |mask| == |ms| && Greedy(ms, budget, min) == Pick(ms, mask)
    ensures var kept := Greedy(ms, budget, min);
      && Min(min, |ms|) <= |kept|
      && (|kept| > min ==> Total(kept) <= budget)
      && (forall i :: 0 <= i < |ms| && !mask[i] ==> Total(kept) + Cost(ms[i]) > budget)
      && (forall i :: 0 <= i < |kept| ==> kept[i] in ms)
  {
    mask := [];
    if ms != [] {
      var newer := GreedyMeaning(ms[1..], budget, min);
      mask := [Takes(ms[0], Greedy(ms[1..], budget, min), budget, min)] + newer;
      assert mask[1..] == newer;
      forall i | 0 < i < |ms| && !mask[i]
        ensures Total(Greedy(ms, budget, min)) + Cost(ms[i]) > budget
      {
        assert ms[i] == ms[1..][i - 1] && mask[i] == newer[i - 1];
      }
    }
  }

  /** Past the early return: all system messages, in order and first; then an
      order-preserving selection of the others, at least min_history of them if
      there are that many; beyond the minimum the whole fits the budget; and no
      dropped message could still be added. */
  lemma PruningKeepsAndFits(ms: seq<Message>, p: Policy) returns (mask: seq<bool>)
    requires Total(ms) > Budget(p)
    ensures var system, others := Only(ms, true), Only(ms, false);
      && |mask| == |others|
      && var kept := Pick(others, mask);
         && Pruned(ms, p) == system + kept
         && Only(Pruned(ms, p), true) == system && Only(Pruned(ms, p), false) == kept
         && |kept| >= Min(p.minHistory, |others|)
         && (|kept| > p.minHistory ==> Total(Pruned(ms, p)) <= Budget(p))
         && (forall i :: 0 <= i < |others| && !mask[i] ==> Total(kept) + Cost(others[i]) > Remaining(ms, p))
  {
    mask := GreedyMeaning(Only(ms, false), Remaining(ms, p), p.minHistory);
    TotalConcat(Only(ms, true), Pick(Only(ms, false), mask));
    SplitPruned(ms, p);
  }

  lemma SplitPruned(ms: seq<Message>, p: Policy)
    requires Total(ms) > Budget(p)
    ensures var kept := Greedy(Only(ms, false), Remaining(ms, p), p.minHistory);
      Only(Pruned(ms, p), true) == Only(ms, true) && Only(Pruned(ms, p), false) == kept
  {
    var system, others := Only(ms, true), Only(ms, false);
    var kept := Greedy(others, Remaining(ms, p), p.minHistory);
    OnlyIsPure(ms, true);
    OnlyIsPure(ms, false);
    var _ := GreedyMeaning(others, Remaining(ms, p), p.minHistory);
    OnlyOfPure(system, true);
    OnlyOfPure(kept, false);
    OnlyConcat(system, kept, true);
    OnlyConcat(system, kept, false);
    assert system + [] == system && [] + kept == kept;
  }

  /** `result` is the system messages of `ms`, then the others the mask keeps: at
      least the minimum; beyond it, with the reserve, within the token limit; and
      with any message that was dropped they would exceed it. */
  predicate FitsTheLimit(ms: seq<Message>, p: Policy, result: seq<Message>, mask: seq<bool>) {
    var others := Only(ms, false);
    && |mask| == |others|
    && var kept := Pick(others, mask);
       && result == Only(ms, true) + kept
       && |kept| >= Min(p.minHistory, |others|)
       && (|kept| > p.minHistory ==> Total(result) + p.reserveForResponse <= p.maxTokens)
       && (p.reserveForResponse >= p.maxTokens ==> |kept| <= p.minHistory)
       && forall i :: 0 <= i < |others| && !mask[i] ==>
            Total(result) + Cost(others[i]) + p.reserveForResponse > p.maxTokens
  }

  /** What pruning means for the token limit and the reserve: a history that fits
      comes back unchanged, any other in a form that does, as far as the system
      messages and the minimum allow. */
  lemma PrunedFitsTheLimit(ms: seq<Message>, p: Policy) returns (mask: seq<bool>)
    ensures Total(ms) + p.reserveForResponse <= p.maxTokens ==> Pruned(ms, p) == ms
    ensures Total(ms) + p.reserveForResponse > p.maxTokens ==> FitsTheLimit(ms, p, Pruned(ms, p), mask)
  {
    var others := Only(ms, false);
    if Total(ms) > Budget(p) {
      mask := PruningKeepsAndFits(ms, p);
      var kept := Pick(others, mask);
      TotalConcat(Only(ms, true), kept);
      assert |kept| > p.minHistory ==> Total(kept) > 0;
    } else {
      mask := [];
    }
  }

  lemma {:induction false} GreedyIsIdempotent(ms: seq<Message>, budget: nat, min: nat)
    ensures Greedy(Greedy(ms, budget, min), budget, min) == Greedy(ms, budget, min)
  {
    if ms != [] { GreedyIsIdempotent(ms[1..], budget, min); }
  }

  /** Pruning twice is pruning once, for every history and policy. */
  lemma PruningIsIdempotent(ms: seq<Message>, p: Policy)
    ensures Pruned(Pruned(ms, p), p) == Pruned(ms, p)
  {
    if Total(ms) > Budget(p) {
      SplitPruned(ms, p);
      GreedyIsIdempotent(Only(ms, false), Remaining(ms, p), p.minHistory);
    }
  }

  // -------------------------------------------------- not always the newest

  /** How many of the newest messages are taken before the first is skipped. */
  function NewestRun(ms: seq<Message>, budget: nat, min: nat): (n: nat)
    ensures n <= |ms|
  {
    if ms == [] then 0
    else
      var n := NewestRun(ms[1..], budget, min);
      if n == |ms| - 1 && Takes(ms[0], ms[1..], budget, min) then n + 1 else n
  }

  predicate IsSuffix(kept: seq<Message>, ms: seq<Message>) {
    |kept| <= |ms| && kept == ms[|ms| - |kept|..]
  }

  lemma {:induction false} NewestRunMeaning(ms: seq<Message>, budget: nat, min: nat)
    ensures var n := NewestRun(ms, budget, min);
      var newest := ms[|ms| - n..];
      && Greedy(newest, budget, min) == newest
      && (n < |ms| ==> !Takes(ms[|ms| - n - 1], newest, budget, min))
  {
    if ms != [] {
      var n := NewestRun(ms[1..], budget, min);
      NewestRunMeaning(ms[1..], budget, min);
      assert ms[1..][|ms| - 1 - n..] == ms[|ms| - n..];
      if n == |ms| - 1 {
        assert ms[|ms| - n..] == ms[1..];
        assert [ms[0]] + ms[1..] == ms == ms[0..];
      }
    }
  }

  predicate Fits(m: Message, newest: seq<Message>, budget: nat) {
    Total(newest) + Cost(m) <= budget
  }

  /** Once a message has been skipped, what is kept from before it are messages
      cheap enough for the gap that is left, and there is one if any fits. */
  lemma {:induction false} OlderKept(ms: seq<Message>, newest: seq<Message>, budget: nat, min: nat) returns (older: seq<Message>)
    requires |newest| >= min && Greedy(newest, budget, min) == newest
    ensures Greedy(ms + newest, budget, min) == older + newest
    ensures forall x :: x in older ==> x in ms && Fits(x, newest, budget)
    ensures older == [] ==> forall x :: x in ms ==> !Fits(x, newest, budget)
    decreases |ms|
  {
    if ms == [] {
      older := [];
      assert ms + newest == newest && older + newest == newest;
    } else {
      assert (ms + newest)[1..] == ms[1..] + newest;
      var o := OlderKept(ms[1..], newest, budget, min);
      TotalConcat(o, newest);
      older := if Takes(ms[0], o + newest, budget, min) then [ms[0]] + o else o;
      assert [ms[0]] + (o + newest) == [ms[0]] + o + newest;
      assert ms == [ms[0]] + ms[1..];
    }
  }

  /** "The oldest are dropped" holds exactly when no message older than the
      newest run is cheap enough for the gap that run leaves. */
  lemma KeepsOnlyTheNewestIff(ms: seq<Message>, budget: nat, min: nat)
    ensures var first := |ms| - NewestRun(ms, budget, min);
      IsSuffix(Greedy(ms, budget, min), ms) <==> forall x :: x in ms[..first] ==> !Fits(x, ms[first..], budget)
  {
    var first := |ms| - NewestRun(ms, budget, min);
    var newest := ms[first..];
    NewestRunMeaning(ms, budget, min);
    if first == 0 {
      assert newest == ms;
    } else {
      assert ms[..first] + newest == ms;
      var older := OlderKept(ms[..first], newest, budget, min);
      var kept := Greedy(ms, budget, min);
      if older == [] {
        assert kept == newest;
      } else {
        var x := older[|older| - 1];
        assert x in older && Fits(x, newest, budget);
        assert kept[|older| - 1] == x;
        assert !Fits(ms[first - 1], newest, budget);
        assert |kept| <= |ms| ==> ms[|ms| - |kept|..][|older| - 1] == ms[first - 1];
      }
    }
  }

  /** A history whose pruning is not a suffix: the middle message is skipped,
      the oldest is kept. */
  lemma OldestMayOutliveNewer()
    ensures var small, big := Message(User, [Text([])]), Message(User, [Image(seq(20000, _ => 0))]);
      Pruned([small, big, small], Policy(20, 0, 1)) == [small, small]
  {
    var small, big := Message(User, [Text([])]), Message(User, [Image(seq(20000, _ => 0))]);
    var ms, p := [small, big, small], Policy(20, 0, 1);
    assert small.parts[1..] == [] && big.parts[1..] == [];
    assert Cost(small) == 5 && Cost(big) == 109;
    assert ms[1..] == [big, small] && [big, small][1..] == [small] && [small][1..] == [];
    TotalOne(small);
    assert [big, small] == [big] + [small] && ms == [small] + [big, small];
    TotalOne(big);
    TotalConcat([big], [small]);
    TotalConcat([small], [big, small]);
    assert Total([]) == 0 && Total([small]) == 5 && Total(ms) == 119;
    assert Only([small], false) == [small] && Only([small], true) == [];
    assert Only([big, small], false) == [big, small] && Only([big, small], true) == [];
    assert Only(ms, false) == ms && Only(ms, true) == [];
    assert Greedy([], 20, 1) == [];
    assert Greedy([small], 20, 1) == [small];
    assert Greedy([big, small], 20, 1) == [small];
    assert Greedy(ms, 20, 1) == [small, small];
  }

  // --------------------------------------------------------------- the loop

  /** `prune_messages`, with the loop from the newest message backwards. */
  method PruneMessages(ms: seq<Message>, p: Policy) returns (result: seq<Message>)
    ensures result == Pruned(ms, p)
    ensures Total(ms) + p.reserveForResponse <= p.maxTokens ==> result == ms
    ensures Total(ms) + p.reserveForResponse > p.maxTokens ==> exists mask :: FitsTheLimit(ms, p, result, mask)
  {
    ghost var mask := PrunedFitsTheLimit(ms, p);
    if Total(ms) <= Budget(p) {
      return ms;
    }
    var system, others := Only(ms, true), Only(ms, false);
    var remaining := Max(Budget(p) - Total(system), 0);
    var selected: seq<Message> := [];   // newest first, reversed at the end
    var used := 0;
    var i := |others|;
    while i > 0
      invariant 0 <= i <= |others|
      invariant Reverse(selected) == Greedy(others[i..], remaining, p.minHistory)
      invariant |selected| == |Reverse(selected)| && used == Total(Reverse(selected))
    {
      i := i - 1;
      assert others[i..][1..] == others[i + 1..];
      var cost := Cost(others[i]);
      if used + cost <= remaining || |selected| < p.minHistory {
        ReverseAppend(selected, others[i]);
        selected := selected + [others[i]];
        used := used + cost;
      }
    }
    assert others[0..] == others;
    result := system + Reverse(selected);
  }

  function Reverse(s: seq<Message>): seq<Message> {
    if s == [] then [] else [s[|s| - 1]] + Reverse(s[..|s| - 1])
  }

  lemma ReverseAppend(s: seq<Message>, m: Message)
    ensures Reverse(s + [m]) == [m] + Reverse(s)
  {
    assert (s + [m])[..|s|] == s;
  }
}
