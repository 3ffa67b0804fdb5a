// The brace matcher of the interface extractor: it cuts the first balanced block
// off a text, braces inside string literals not counting. It accepts exactly
// the texts that start with a printed block.
module BraceMatcher {
  import opened Common

  datatype Scan = Scan(depth: nat, inString: bool, escaped: bool)

  /** What the scanner does with one character of an open block. */
  function Feed(st: Scan, c: char): Scan {
    if st.escaped then st.(escaped := false)
    else if st.inString then
      if c == '\\' then st.(escaped := true) else if c == '\"' then st.(inString := false) else st
    else if c == '\"' then st.(inString := true)
    else if c == '{' then st.(depth := st.depth + 1)
    else if c == '}' && st.depth > 0 then st.(depth := st.depth - 1)
    else st
  }

  function Shift(n: nat, r: Option<nat>): Option<nat> {
    match r case None => None case Some(m) => Some(n + m)
  }

  /** How many characters it takes to come back to depth zero. */
  function MatchAt(st: Scan, s: string): (r: Option<nat>)
    ensures r.Some? ==> 0 < r.value <= |s|
    decreases |s|
  {
    if s == "" then None
    else
      var next := Feed(st, s[0]);
      if s[0] == '}' && !st.escaped && !st.inString && next.depth == 0 then Some(1)
      else Shift(1, MatchAt(next, s[1..]))
  }

  const START := Scan(0, false, false)

  method FindMatchingBrace(content: string) returns (r: Option<(nat, string)>)
    ensures r.Some? ==> r.value.0 <= |content| && r.value.1 == content[..r.value.0]
    ensures r.Some? ==> content != "" && content[0] == '{' && MatchAt(START, content) == Some(r.value.0)
    ensures r.None? ==> content == "" || content[0] != '{' || MatchAt(START, content).None?
  {
    if content == "" || content[0] != '{' {
      return None;
    }
    var depth, inString, escaped := 0, false, false;
    for i := 0 to |content|
      invariant depth >= 0 && (i > 0 ==> depth > 0)
      invariant i == 0 ==> !inString && !escaped
      invariant escaped ==> inString
      invariant MatchAt(START, content) == Shift(i, MatchAt(Scan(depth, inString, escaped), content[i..]))
    {
      ghost var st := Scan(depth, inString, escaped);
      NextCharacter(st, content, i);
      Shifts(i, 1, MatchAt(Feed(st, content[i]), content[i + 1..]));
      var closed;
      depth, inString, escaped, closed := Take(content[i], depth, inString, escaped);
      if closed {
        return Some((i + 1, content[..i + 1]));
      }
    }
    r := None;
  }

  /** The loop body: one character, and whether it closed the outermost block. */
  method Take(c: char, depth: nat, inString: bool, escaped: bool)
    returns (depth': nat, inString': bool, escaped': bool, closed: bool)
    requires (depth > 0 || c == '{') && (escaped ==> inString) && (depth == 0 ==> !inString)
    ensures Scan(depth', inString', escaped') == Feed(Scan(depth, inString, escaped), c)
    ensures closed <==> c == '}' && !escaped && !inString && depth == 1
    ensures (escaped' ==> inString') && (closed || depth' > 0)
  {
    depth', inString', escaped', closed := depth, inString, escaped, false;
    if escaped {
      escaped' := false;
    } else if c == '\\' && inString {
      escaped' := true;
    } else if c == '\"' {
      inString' := !inString;
    } else if c == '{' && !inString {
      depth' := depth + 1;
    } else if c == '}' && !inString {
      depth' := depth - 1;
      closed := depth' == 0;
    }
  }

  lemma NextCharacter(st: Scan, content: string, i: nat)
    requires i < |content| && (st.depth > 0 || content[i] == '{')
    ensures MatchAt(st, content[i..]) ==
      if content[i] == '}' && !st.escaped && !st.inString && st.depth == 1 then Some(1)
      else Shift(1, MatchAt(Feed(st, content[i]), content[i + 1..]))
  {
    assert content[i..][1..] == content[i + 1..];
  }

  // ------------------------------------------------------------ the grammar

  /** A character of a string literal, bare or behind a backslash. */
  datatype Quoted = Bare(c: char) | Escape(c: char)

  datatype Piece =
    | Raw(c: char)
    | Text(chars: seq<Quoted>)
    | Block(items: seq<Piece>)

  predicate GoodText(q: seq<Quoted>) {
    forall i :: 0 <= i < |q| && q[i].Bare? ==> q[i].c != '\"' && q[i].c != '\\'
  }

  predicate Good(p: Piece) {
    match p
    case Raw(c) => c != '{' && c != '}' && c != '\"'
    case Text(q) => GoodText(q)
    case Block(items) => AllGood(items)
  }

  predicate AllGood(items: seq<Piece>) {
    forall i :: 0 <= i < |items| ==> Good(items[i])
  }

  function PrintText(q: seq<Quoted>): string {
    if q == [] then ""
    else (if q[0].Bare? then [q[0].c] else ['\\', q[0].c]) + PrintText(q[1..])
  }

  function Print(p: Piece): string {
    match p
    case Raw(c) => [c]
    case Text(q) => "\"" + (PrintText(q) + "\"")
    case Block(items) => "{" + (PrintAll(items) + "}")
  }

  function PrintAll(items: seq<Piece>): string {
    if items == [] then "" else Print(items[0]) + PrintAll(items[1..])
  }

  // --------------------------------------------- printed blocks are accepted

  lemma {:induction false} TextPasses(q: seq<Quoted>, d: nat, rest: string)
    requires GoodText(q)
    ensures MatchAt(Scan(d, true, false), PrintText(q) + ("\"" + rest))
      == Shift(|PrintText(q)| + 1, MatchAt(Scan(d, false, false), rest))
  {
    var inside := Scan(d, true, false);
    var tail := "\"" + rest;
    if q == [] {
      assert PrintText(q) + tail == tail && tail[1..] == rest;
    } else {
      TextPasses(q[1..], d, rest);
      var more := PrintText(q[1..]) + tail;
      if q[0].Bare? {
        assert PrintText(q) + tail == [q[0].c] + more;
        assert ([q[0].c] + more)[1..] == more;
      } else {
        var s := ['\\', q[0].c] + more;
        assert PrintText(q) + tail == s;
        assert s[1..][1..] == more;
        assert MatchAt(inside, s) == Shift(1, MatchAt(inside.(escaped := true), s[1..]));
      }
    }
  }

  lemma {:induction false} PiecePasses(p: Piece, d: nat, rest: string)
    requires Good(p) && d > 0
    ensures MatchAt(Scan(d, false, false), Print(p) + rest)
      == Shift(|Print(p)|, MatchAt(Scan(d, false, false), rest))
    decreases p, 1
  {
    match p
    case Raw(c) =>
      assert ([c] + rest)[1..] == rest;
    case Text(q) =>
      TextPasses(q, d, rest);
      QuotePasses(q, d, rest);
    case Block(items) =>
      AllPass(items, d + 1, "}" + rest);
      BlockPasses(items, d, rest);
  }

  lemma QuotePasses(q: seq<Quoted>, d: nat, rest: string)
    requires d > 0
    requires MatchAt(Scan(d, true, false), PrintText(q) + ("\"" + rest))
      == Shift(|PrintText(q)| + 1, MatchAt(Scan(d, false, false), rest))
    ensures MatchAt(Scan(d, false, false), Print(Text(q)) + rest)
      == Shift(|Print(Text(q))|, MatchAt(Scan(d, false, false), rest))
  {
    var more := PrintText(q) + ("\"" + rest);
    Enclosed('\"', PrintText(q), '\"', rest);
    Opening(Scan(d, false, false), '\"', more);
    Shifts(1, |PrintText(q)| + 1, MatchAt(Scan(d, false, false), rest));
  }

  lemma BlockPasses(items: seq<Piece>, d: nat, rest: string)
    requires d > 0
    requires MatchAt(Scan(d + 1, false, false), PrintAll(items) + ("}" + rest))
      == Shift(|PrintAll(items)|, MatchAt(Scan(d + 1, false, false), "}" + rest))
    ensures MatchAt(Scan(d, false, false), Print(Block(items)) + rest)
      == Shift(|Print(Block(items))|, MatchAt(Scan(d, false, false), rest))
  {
    var last := MatchAt(Scan(d, false, false), rest);
    Opening(Scan(d + 1, false, false), '}', rest);
    Shifts(|PrintAll(items)|, 1, last);
    OpensBlock(items, d, rest);
    Shifts(1, |PrintAll(items)| + 1, last);
  }

  lemma OpensBlock(items: seq<Piece>, d: nat, rest: string)
    ensures MatchAt(Scan(d, false, false), Print(Block(items)) + rest)
      == Shift(1, MatchAt(Scan(d + 1, false, false), PrintAll(items) + ("}" + rest)))
  {
    Enclosed('{', PrintAll(items), '}', rest);
    Opening(Scan(d, false, false), '{', PrintAll(items) + ("}" + rest));
  }

  lemma Shifts(m: nat, n: nat, r: Option<nat>)
    ensures Shift(m, Shift(n, r)) == Shift(m + n, r)
  {
  }

  lemma Enclosed(open: char, inside: string, close: char, rest: string)
    ensures [open] + (inside + [close]) + rest == [open] + (inside + ([close] + rest))
  {
  }

  /** One character that does not end the match. */
  lemma Opening(st: Scan, c: char, more: string)
    requires c != '}' || st.depth > 1
    ensures MatchAt(st, [c] + more) == Shift(1, MatchAt(Feed(st, c), more))
  {
    assert ([c] + more)[1..] == more;
  }

  lemma {:induction false} AllPass(items: seq<Piece>, d: nat, rest: string)
    requires AllGood(items) && d > 0
    ensures MatchAt(Scan(d, false, false), PrintAll(items) + rest)
      == Shift(|PrintAll(items)|, MatchAt(Scan(d, false, false), rest))
    decreases items, 0
  {
    if items == [] {
      assert PrintAll(items) + rest == rest;
    } else {
      var more := PrintAll(items[1..]) + rest;
      PiecePasses(items[0], d, more);
      AllPass(items[1..], d, rest);
      assert PrintAll(items) + rest == Print(items[0]) + more;
    }
  }

  lemma BlockIsMatched(items: seq<Piece>, rest: string)
    requires AllGood(items)
    ensures MatchAt(START, Print(Block(items)) + rest) == Some(|Print(Block(items))|)
  {
    AllPass(items, 1, "}" + rest);
    LastBrace(rest);
    OpensBlock(items, 0, rest);
    Shifts(1, |PrintAll(items)|, Some(1));
  }

  lemma LastBrace(rest: string)
    ensures MatchAt(Scan(1, false, false), "}" + rest) == Some(1)
  {
  }

  // --------------------------------------------- what is accepted is a block

  /** The rest of nested open blocks, the innermost first. */
  function Closing(levels: seq<seq<Piece>>): string {
    if levels == [] then "" else PrintAll(levels[0]) + ("}" + Closing(levels[1..]))
  }

  predicate GoodLevels(levels: seq<seq<Piece>>) {
    forall i :: 0 <= i < |levels| ==> AllGood(levels[i])
  }

  lemma PrependPiece(p: Piece, levels: seq<seq<Piece>>)
    requires Good(p) && levels != [] && GoodLevels(levels)
    ensures var more := levels[0 := [p] + levels[0]];
      GoodLevels(more) && Closing(more) == Print(p) + Closing(levels)
  {
    var more := levels[0 := [p] + levels[0]];
    assert more[1..] == levels[1..];
    assert ([p] + levels[0])[1..] == levels[0];
  }

  lemma CloseLevel(levels: seq<seq<Piece>>)
    requires |levels| > 1 && GoodLevels(levels)
    ensures Good(Block(levels[0])) && "{" + Closing(levels) == Print(Block(levels[0])) + Closing(levels[1..])
  {
    Enclosed('{', PrintAll(levels[0]), '}', Closing(levels[1..]));
  }

  lemma EmptyLevel(levels: seq<seq<Piece>>)
    requires GoodLevels(levels)
    ensures GoodLevels([[]] + levels) && Closing([[]] + levels) == "}" + Closing(levels)
  {
    assert ([[]] + levels)[1..] == levels;
  }

  /** From depth `d`, the matched text closes exactly `d` blocks. */
  lemma {:induction false} MatchCloses(d: nat, s: string) returns (levels: seq<seq<Piece>>)
    requires d > 0 && MatchAt(Scan(d, false, false), s).Some?
    ensures |levels| == d && GoodLevels(levels)
    ensures s[..MatchAt(Scan(d, false, false), s).value] == Closing(levels)
    decreases |s|, 0
  {
    var n := MatchAt(Scan(d, false, false), s).value;
    var c := s[0];
    assert s[..n] == [c] + s[1..][..n - 1];
    if c == '\"' {
      var q;
      q, levels := MatchClosesText(d, s[1..]);
      PrependPiece(Text(q), levels);
      levels := levels[0 := [Text(q)] + levels[0]];
    } else if c == '{' {
      levels := MatchCloses(d + 1, s[1..]);
      levels := MergeLevel(levels);
    } else if c == '}' {
      levels := [];
      if d > 1 { levels := MatchCloses(d - 1, s[1..]); }
      EmptyLevel(levels);
      levels := [[]] + levels;
    } else {
      levels := MatchCloses(d, s[1..]);
      PrependPiece(Raw(c), levels);
      levels := levels[0 := [Raw(c)] + levels[0]];
    }
  }

  lemma MergeLevel(levels: seq<seq<Piece>>) returns (merged: seq<seq<Piece>>)
    requires |levels| > 1 && GoodLevels(levels)
    ensures |merged| == |levels| - 1 && GoodLevels(merged) && Closing(merged) == "{" + Closing(levels)
  {
    CloseLevel(levels);
    PrependPiece(Block(levels[0]), levels[1..]);
    merged := levels[1..][0 := [Block(levels[0])] + levels[1]];
  }

  lemma {:induction false} MatchClosesText(d: nat, s: string) returns (q: seq<Quoted>, levels: seq<seq<Piece>>)
    requires d > 0 && MatchAt(Scan(d, true, false), s).Some?
    ensures GoodText(q) && |levels| == d && GoodLevels(levels)
    ensures s[..MatchAt(Scan(d, true, false), s).value] == PrintText(q) + "\"" + Closing(levels)
    decreases |s|, 1
  {
    var inside := Scan(d, true, false);
    var n := MatchAt(inside, s).value;
    var c := s[0];
    assert s[..n] == [c] + s[1..][..n - 1];
    if c == '\"' {
      levels := MatchCloses(d, s[1..]);
      q := [];
      assert PrintText(q) + "\"" + Closing(levels) == "\"" + Closing(levels);
    } else if c == '\\' {
      assert MatchAt(inside.(escaped := true), s[1..]) == Some(n - 1);
      assert s[1..][..n - 1] == [s[1]] + s[1..][1..][..n - 2];
      q, levels := MatchClosesText(d, s[1..][1..]);
      q := TextCons(Escape(s[1]), q);
    } else {
      q, levels := MatchClosesText(d, s[1..]);
      q := TextCons(Bare(c), q);
    }
  }

  lemma TextCons(c: Quoted, q: seq<Quoted>) returns (more: seq<Quoted>)
    requires GoodText(q) && (c.Bare? ==> c.c != '\"' && c.c != '\\')
    ensures more == [c] + q && GoodText(more)
    ensures PrintText(more) == (if c.Bare? then [c.c] else ['\\', c.c]) + PrintText(q)
  {
    more := [c] + q;
    assert more[1..] == q;
  }

  /** The matcher cuts off `block` exactly when it is a printed block at the
      front of the text. */
  lemma MatchesExactlyBlocks(content: string, n: nat)
    requires content != "" && content[0] == '{' && n <= |content|
    ensures MatchAt(START, content) == Some(n) <==>
      exists items :: AllGood(items) && Print(Block(items)) == content[..n]
  {
    if MatchAt(START, content) == Some(n) {
      var items := MatchedIsBlock(content, n);
      assert Print(Block(items)) == content[..n];
    }
    if items :| AllGood(items) && Print(Block(items)) == content[..n] {
      assert content == content[..n] + content[n..];
      BlockIsMatched(items, content[n..]);
    }
  }

  lemma MatchedIsBlock(content: string, n: nat) returns (items: seq<Piece>)
    requires content != "" && content[0] == '{' && n <= |content| && MatchAt(START, content) == Some(n)
    ensures AllGood(items) && Print(Block(items)) == content[..n]
  {
    assert content == ['{'] + content[1..];
    Opening(START, '{', content[1..]);
    var levels := MatchCloses(1, content[1..]);
    items := levels[0];
    assert Closing(levels[1..]) == "";
    assert Closing(levels) == PrintAll(items) + "}";
    assert content[..n] == "{" + content[1..][..n - 1];
  }
}
