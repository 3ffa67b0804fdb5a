// The log ring buffer: numbering, trimming to capacity, and paged reads.
module LogRing {
  import opened Common

  datatype Level = Debug | Info | Warn | Error

  function Rank(l: Level): nat {
    match l case Debug => 0 case Info => 1 case Warn => 2 case Error => 3
  }

  datatype Entry = Entry(level: Level, session: Option<string>, source: Option<string>, message: string, sequence: nat)

  datatype Filter = Filter(
    minLevel: Option<Level>, session: Option<string>, source: Option<string>,
    limit: Option<nat>, offset: Option<nat>)

  predicate Matches(f: Filter, e: Entry) {
    && (f.minLevel.Some? ==> Rank(e.level) >= Rank(f.minLevel.value))
    && (f.session.Some? ==> e.session == f.session)
    && (f.source.Some? ==> e.source == f.source)
  }

  /** What a reader asks for: no entry below the minimum level, and only those of
      the session and the source, if given. */
  predicate Wanted(f: Filter, e: Entry) {
    && (match f.minLevel
        case Some(Error) => e.level == Error
        case Some(Warn) => e.level == Warn || e.level == Error
        case Some(Info) => e.level != Debug
        case _ => true)
    && (f.session == None || f.session == e.session) && (f.source == None || f.source == e.source)
  }

  lemma MatchesIffWanted(f: Filter, e: Entry)
    ensures Matches(f, e) <==> Wanted(f, e)
  {
  }

  // ---------------------------------------------------------------- reference

  datatype Op = Push(entry: Entry) | Clear

  /** Everything pushed since the last clear, oldest first. */
  function Since(ops: seq<Op>): seq<Entry> {
    if ops == [] then []
    else match ops[|ops| - 1]
      case Push(e) => Since(ops[..|ops| - 1]) + [e]
      case Clear => []
  }

  /** How many entries were ever pushed. */
  function Pushes(ops: seq<Op>): (n: nat)
    ensures n >= |Since(ops)|
  {
    if ops == [] then 0
    else Pushes(ops[..|ops| - 1]) + (if ops[|ops| - 1].Push? then 1 else 0)
  }

  /** `es` numbered consecutively, the first with `first`. */
  function Numbered(es: seq<Entry>, first: nat): (r: seq<Entry>)
    ensures |r| == |es|
    ensures forall i :: 0 <= i < |es| ==> r[i] == es[i].(sequence := first + i)
  {
    if es == [] then []
    else
      var n := |es| - 1;
      Numbered(es[..n], first) + [es[n].(sequence := first + n)]
  }

  function Latest<T>(es: seq<T>, n: nat): seq<T> {
    es[|es| - Min(n, |es|)..]
  }

  // -------------------------------------------------------------- the machine

  datatype State = State(entries: seq<Entry>, sequence: nat)

  function Trimmed<T>(es: seq<T>, capacity: nat): seq<T> {
    if |es| > capacity then es[|es| - capacity..] else es
  }

  function Step(s: State, op: Op, capacity: nat): State {
    match op
    case Clear => s.(entries := [])
    case Push(e) =>
      State(Trimmed(s.entries + [e.(sequence := s.sequence + 1)], capacity), s.sequence + 1)
  }

  function After(ops: seq<Op>, capacity: nat): State {
    if ops == [] then State([], 0)
    else Step(After(ops[..|ops| - 1], capacity), ops[|ops| - 1], capacity)
  }

  /** The newest entries of `since` that fit, numbered up to `pushed`. */
  function Held(since: seq<Entry>, pushed: nat, capacity: nat): seq<Entry>
    requires pushed >= |since|
  {
    Latest(Numbered(since, pushed - |since| + 1), capacity)
  }

  /** The buffer always holds the newest entries pushed since the last clear, as
      many as fit, numbered consecutively up to the count of all pushes. */
  lemma {:induction false} HoldsTheLatest(ops: seq<Op>, capacity: nat)
    ensures After(ops, capacity) == State(Held(Since(ops), Pushes(ops), capacity), Pushes(ops))
  {
    if ops != [] {
      var before, op := ops[..|ops| - 1], ops[|ops| - 1];
      HoldsTheLatest(before, capacity);
      match op
      case Push(e) => PushKeepsHeld(Since(before), Pushes(before), e, capacity);
      case Clear => assert Held([], Pushes(before), capacity) == [];
    }
  }

  lemma PushKeepsHeld(since: seq<Entry>, pushed: nat, e: Entry, capacity: nat)
    requires pushed >= |since|
    ensures Step(State(Held(since, pushed, capacity), pushed), Push(e), capacity)
      == State(Held(since + [e], pushed + 1, capacity), pushed + 1)
  {
    var first, last := pushed - |since| + 1, e.(sequence := pushed + 1);
    NumberedAppend(since, e, first);
    assert first + |since| == pushed + 1 && pushed + 1 - |since + [e]| + 1 == first;
    assert Held(since + [e], pushed + 1, capacity) == Latest(Numbered(since, first) + [last], capacity);
    LatestAppend(Numbered(since, first), last, capacity);
  }

  lemma NumberedAppend(es: seq<Entry>, e: Entry, first: nat)
    ensures Numbered(es + [e], first) == Numbered(es, first) + [e.(sequence := first + |es|)]
  {
    assert (es + [e])[..|es|] == es;
  }

  lemma LatestAppend<T>(es: seq<T>, x: T, n: nat)
    ensures Latest(es + [x], n) == Trimmed(Latest(es, n) + [x], n)
  {
    var k := |es| - Min(n, |es|);
    assert es[k..] + [x] == (es + [x])[k..];
    if n == 0 {
      assert (es + [x])[|es| + 1..] == [];
    } else if n <= |es| {
      assert (es + [x])[k..][1..] == (es + [x])[k + 1..];
    }
  }

  /** What the numbering means to a reader. */
  lemma NumberingIsConsecutive(ops: seq<Op>, capacity: nat, i: nat)
    requires i < |After(ops, capacity).entries|
    ensures var s := After(ops, capacity);
      && |s.entries| == Min(capacity, |Since(ops)|)
      && s.entries[i].sequence == s.sequence - (|s.entries| - 1 - i)
  {
    HoldsTheLatest(ops, capacity);
    var first: nat := Pushes(ops) - |Since(ops)| + 1;
    LatestAt(Numbered(Since(ops), first), capacity, i);
  }

  lemma LatestAt(es: seq<Entry>, n: nat, i: nat)
    requires i < |Latest(es, n)|
    ensures |Latest(es, n)| == Min(n, |es|) && Latest(es, n)[i] == es[|es| - Min(n, |es|) + i]
  {
  }

  // ------------------------------------------------------------------- paging

  function Matching(es: seq<Entry>, f: Filter): seq<Entry> {
    if es == [] then []
    else Matching(es[..|es| - 1], f) + (if Matches(f, es[|es| - 1]) then [es[|es| - 1]] else [])
  }

  lemma {:induction false} MatchingIsWanted(es: seq<Entry>, f: Filter)
    ensures forall e :: e in Matching(es, f) ==> e in es && Wanted(f, e)
  {
    if es != [] {
      MatchingIsWanted(es[..|es| - 1], f);
      MatchesIffWanted(f, es[|es| - 1]);
    }
  }

  function Page<T>(all: seq<T>, offset: nat, limit: nat): seq<T> {
    all[Min(offset, |all|)..Min(Min(offset, |all|) + limit, |all|)]
  }

  predicate HasMore<T>(all: seq<T>, offset: nat, limit: nat) {
    Min(offset, |all|) + limit < |all|
  }

  /** The first `k` pages of size `limit`, the i-th read from `lists[i]`. */
  function Collected<T>(lists: seq<seq<T>>, limit: nat, k: nat): seq<T>
    requires k <= |lists|
  {
    if k == 0 then [] else Collected(lists, limit, k - 1) + Page(lists[k - 1], (k - 1) * limit, limit)
  }

  predicate Growing<T(==)>(lists: seq<seq<T>>) {
    forall i, j :: 0 <= i <= j < |lists| ==> lists[i] <= lists[j]
  }

  /** Pages read at offsets 0, L, 2L, … until `has_more` is false concatenate to
      the whole list; entries appended between two reads are not missed. */
  lemma PagesConcatenate<T>(lists: seq<seq<T>>, limit: nat)
    requires |lists| > 0 && Growing(lists)
    requires forall i :: 0 <= i < |lists| ==> (HasMore(lists[i], i * limit, limit) <==> i < |lists| - 1)
    ensures Collected(lists, limit, |lists|) == lists[|lists| - 1]
  {
    var last := |lists| - 1;
    FullPages(lists, limit, last);
    PageStart(lists, limit);
    assert lists[last] == lists[last][..last * limit] + lists[last][last * limit..];
  }

  lemma {:induction false} FullPages<T>(lists: seq<seq<T>>, limit: nat, k: nat)
    requires k < |lists| && Growing(lists)
    requires forall i :: 0 <= i < k ==> HasMore(lists[i], i * limit, limit)
    ensures k * limit <= |lists[k]| && Collected(lists, limit, k) == lists[k][..k * limit]
  {
    if k > 0 {
      FullPages(lists, limit, k - 1);
      assert k * limit == (k - 1) * limit + limit;
      assert lists[k - 1] <= lists[k];
      FullPage(lists[k - 1], lists[k], (k - 1) * limit, limit);
    }
  }

  lemma FullPage<T>(before: seq<T>, now: seq<T>, offset: nat, limit: nat)
    requires before <= now && offset <= |before| && HasMore(before, offset, limit)
    ensures offset + limit <= |now| && before[..offset] + Page(before, offset, limit) == now[..offset + limit]
  {
  }

  lemma PageStart<T>(lists: seq<seq<T>>, limit: nat)
    requires |lists| > 0
    requires var last := |lists| - 1; last * limit <= |lists[last]| && !HasMore(lists[last], last * limit, limit)
    ensures var last := |lists| - 1; Page(lists[last], last * limit, limit) == lists[last][last * limit..]
  {
  }

  /** The reader stops on every finite list if and only if the limit is
      positive or there is nothing to page through. */
  lemma PagingEndsIff<T>(all: seq<T>, limit: nat)
    ensures (exists k: nat :: !HasMore(all, k * limit, limit)) <==> limit > 0 || all == []
  {
    if limit > 0 || all == [] {
      MultipleReaches(|all|, limit);
      assert !HasMore(all, |all| * limit, limit);
    } else {
      forall k: nat ensures HasMore(all, k * limit, limit) { assert k * limit == 0; }
    }
  }

  lemma MultipleReaches(n: nat, limit: nat)
    requires limit > 0 || n == 0
    ensures n * limit >= n
  {
  }

  /** Pushes that trim nothing only append to what a filter sees. */
  lemma {:induction false} UntrimmedPushesAppend(ops: seq<Op>, more: seq<Op>, capacity: nat, f: Filter)
    requires forall i :: 0 <= i < |more| ==> more[i].Push?
    requires |Since(ops)| + |more| <= capacity
    ensures Matching(After(ops, capacity).entries, f) <= Matching(After(ops + more, capacity).entries, f)
    ensures |Since(ops + more)| == |Since(ops)| + |more|
  {
    if more == [] {
      assert ops + more == ops;
    } else {
      var before, op := ops + more[..|more| - 1], more[|more| - 1];
      UntrimmedPushesAppend(ops, more[..|more| - 1], capacity, f);
      assert ops + more == before + [op];
      PushAppends(before, op, capacity, f);
    }
  }

  lemma PushAppends(before: seq<Op>, op: Op, capacity: nat, f: Filter)
    requires op.Push? && |Since(before)| < capacity
    ensures |Since(before + [op])| == |Since(before)| + 1
    ensures Matching(After(before, capacity).entries, f) <= Matching(After(before + [op], capacity).entries, f)
  {
    var run := before + [op];
    assert run[..|run| - 1] == before && run[|run| - 1] == op;
    HoldsTheLatest(before, capacity);
    var earlier := After(before, capacity);
    var e := op.entry.(sequence := earlier.sequence + 1);
    assert |earlier.entries| < capacity;
    assert After(run, capacity).entries == earlier.entries + [e];
    MatchingAppend(earlier.entries, e, f);
  }

  lemma MatchingAppend(es: seq<Entry>, e: Entry, f: Filter)
    ensures Matching(es, f) <= Matching(es + [e], f)
  {
    assert (es + [e])[..|es|] == es;
  }

  // ----------------------------------------------------------------- the code

  datatype Batch = Batch(entries: seq<Entry>, totalCount: nat, hasMore: bool)

  class LogBuffer {
    var entries: seq<Entry>
    var sequence: nat
    const maxCapacity: nat

    function Now(): State
      reads this
    {
      State(entries, sequence)
    }

    constructor (maxCapacity: nat)
      ensures this.maxCapacity == maxCapacity && Now() == After([], maxCapacity)
    {
      this.maxCapacity, entries, sequence := maxCapacity, [], 0;
    }

    method Push(entry: Entry)
      modifies this
      ensures Now() == Step(old(Now()), Op.Push(entry), maxCapacity)
    {
      sequence := sequence + 1;
      entries := entries + [entry.(sequence := sequence)];
      if |entries| > maxCapacity {
        var drainCount := |entries| - maxCapacity;
        entries := entries[drainCount..];
      }
    }

    method Clear()
      modifies `entries
      ensures Now() == Step(old(Now()), Op.Clear, maxCapacity)
    {
      entries := [];
    }

    method GetLogs(filter: Filter) returns (batch: Batch)
      ensures var all := Matching(entries, filter);
        var offset := if filter.offset.Some? then filter.offset.value else 0;
        && batch.totalCount == |all|
        && (filter.limit.None? ==> batch.entries == Latest(all, |all| - Min(offset, |all|)) && !batch.hasMore)
        && (filter.limit.Some? ==>
          && batch.entries == Page(all, offset, filter.limit.value)
          && (batch.hasMore <==> HasMore(all, offset, filter.limit.value)))
      ensures forall e :: e in batch.entries ==> e in entries && Wanted(filter, e)
    {
      MatchingIsWanted(entries, filter);
      var filtered: seq<Entry> := [];
      for i := 0 to |entries|
        invariant filtered == Matching(entries[..i], filter)
      {
        assert entries[..i + 1][..i] == entries[..i];
        if Matches(filter, entries[i]) {
          filtered := filtered + [entries[i]];
        }
      }
      assert entries[..|entries|] == entries;
      var totalCount := |filtered|;
      var offset := if filter.offset.Some? then filter.offset.value else 0;
      var limit := if filter.limit.Some? then filter.limit.value else totalCount;
      var start := Min(offset, totalCount);
      var end := Min(start + limit, totalCount);
      batch := Batch(filtered[start..end], totalCount, end < totalCount);
    }

    method GetLatest(count: nat) returns (latest: seq<Entry>)
      ensures |latest| == Min(count, |entries|)
      ensures forall j :: |entries| - |latest| <= j < |entries| ==> entries[j] == latest[j - (|entries| - |latest|)]
    {
      var len := |entries|;
      latest := if len <= count then entries else entries[len - count..];
    }
  }

  /** A reader's view of `Matching`: exactly the entries that match, in order. */
  lemma {:induction false} MatchingIsTheOrderedSelection(es: seq<Entry>, f: Filter) returns (at: seq<nat>)
    ensures |at| == |Matching(es, f)|
    ensures forall k :: 0 <= k < |at| ==> at[k] < |es| && Matching(es, f)[k] == es[at[k]]
    ensures forall k, l :: 0 <= k < l < |at| ==> at[k] < at[l]
    ensures forall i :: 0 <= i < |es| ==> (i in at <==> Wanted(f, es[i]))
  {
    if es == [] {
      at := [];
    } else {
      var n := |es| - 1;
      var shorter := MatchingIsTheOrderedSelection(es[..n], f);
      at := shorter + if Matches(f, es[n]) then [n] else [];
      assert n !in shorter;
      forall i | 0 <= i < |es| ensures i in at <==> Wanted(f, es[i]) {
        MatchesIffWanted(f, es[i]);
        if i < n { assert es[..n][i] == es[i]; }
      }
    }
  }
}
