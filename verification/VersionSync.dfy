// The release-version synchroniser: a hand-written version scanner, the
// replacement of the version token on the first marker line of a file, and the
// write and check modes built on it.
module VersionSync {
  import opened Common

  predicate IsDigit(c: char) { '0' <= c <= '9' }

  predicate IsAlnum(c: char) { IsDigit(c) || 'a' <= c <= 'z' || 'A' <= c <= 'Z' }

  predicate IsToken(c: char) { IsAlnum(c) || c == '.' || c == '-' || c == '+' }

  predicate IsTail(c: char) { IsAlnum(c) || c == '.' || c == '-' }

  predicate AllDigits(s: string) { forall i :: 0 <= i < |s| ==> IsDigit(s[i]) }

  predicate AllTokens(s: string) { forall i :: 0 <= i < |s| ==> IsToken(s[i]) }

  predicate AllTail(s: string) { forall i :: 0 <= i < |s| ==> IsTail(s[i]) }

  /** The alphabets, by their code points: digits, letters, `.` and `-`, and for a
      token `+` as well. */
  lemma Alphabets(c: char)
    ensures var n := c as int;
      var letter := 0x41 <= n <= 0x5A || 0x61 <= n <= 0x7A;
      && (IsDigit(c) <==> 0x30 <= n <= 0x39)
      && (IsTail(c) <==> IsDigit(c) || letter || n == 0x2D || n == 0x2E)
      && (IsToken(c) <==> IsTail(c) || n == 0x2B)
  {
  }

  // ------------------------------------------------------------ the scanner

  function SkipDigits(s: string): (r: string)
    ensures |r| <= |s|
  {
    if s != "" && IsDigit(s[0]) then SkipDigits(s[1..]) else s
  }

  /** `.digits` groups at the front, and what follows them. */
  function Groups(s: string): (nat, string)
    decreases |s|
  {
    if |s| >= 2 && s[0] == '.' && IsDigit(s[1]) then
      var (dots, rest) := Groups(SkipDigits(s[1..]));
      (dots + 1, rest)
    else (0, s)
  }

  predicate ValidSuffix(r: string) {
    r == "" || ((r[0] == '-' || r[0] == '+') && |r| >= 2 && AllTail(r[1..]))
  }

  predicate IsValid(s: string) {
    && s != "" && IsDigit(s[0])
    && var (dots, rest) := Groups(SkipDigits(s));
       dots >= 2 && ValidSuffix(rest)
  }

  // ------------------------------------------------------------ the grammar

  /** d+(.d+){2,}([-+][0-9A-Za-z.-]+)? */
  datatype Version = Version(numbers: seq<string>, suffix: string)

  predicate Number(n: string) { n != "" && AllDigits(n) }

  predicate WellFormed(v: Version) {
    && |v.numbers| >= 3
    && (forall i :: 0 <= i < |v.numbers| ==> Number(v.numbers[i]))
    && (v.suffix == "" || (|v.suffix| >= 2 && (v.suffix[0] == '-' || v.suffix[0] == '+') && AllTail(v.suffix[1..])))
  }

  function Dotted(numbers: seq<string>): string {
    if numbers == [] then "" else "." + numbers[0] + Dotted(numbers[1..])
  }

  function Print(v: Version): string
    requires |v.numbers| >= 1
  {
    v.numbers[0] + Dotted(v.numbers[1..]) + v.suffix
  }

  lemma {:induction false} SkipNumber(n: string, rest: string)
    requires AllDigits(n) && (rest == "" || !IsDigit(rest[0]))
    ensures SkipDigits(n + rest) == rest
  {
    if n == "" {
      assert n + rest == rest;
    } else {
      assert (n + rest)[1..] == n[1..] + rest;
      SkipNumber(n[1..], rest);
    }
  }

  lemma {:induction false} LeadingNumber(s: string) returns (n: string)
    ensures s == n + SkipDigits(s) && AllDigits(n)
    ensures SkipDigits(s) == "" || !IsDigit(SkipDigits(s)[0])
    ensures s != "" && IsDigit(s[0]) ==> n != ""
  {
    if s != "" && IsDigit(s[0]) {
      n := LeadingNumber(s[1..]);
      n := [s[0]] + n;
      assert s == [s[0]] + s[1..];
    } else {
      n := "";
      assert s == "" + s;
    }
  }

  lemma {:induction false} GroupsOfDotted(numbers: seq<string>, suffix: string)
    requires forall i :: 0 <= i < |numbers| ==> Number(numbers[i])
    requires suffix == "" || suffix[0] == '-' || suffix[0] == '+'
    ensures Groups(Dotted(numbers) + suffix) == (|numbers|, suffix)
    decreases |numbers|
  {
    var s := Dotted(numbers) + suffix;
    if numbers == [] {
      assert s == suffix;
    } else {
      var rest := Dotted(numbers[1..]) + suffix;
      GroupsOfDotted(numbers[1..], suffix);
      assert s == "." + (numbers[0] + rest);
      OneGroup(numbers[0], rest);
    }
  }

  lemma OneGroup(n: string, rest: string)
    requires Number(n) && (rest == "" || !IsDigit(rest[0]))
    ensures var (dots, left) := Groups(rest); Groups("." + (n + rest)) == (dots + 1, left)
  {
    var s := "." + (n + rest);
    assert s[1..] == n + rest;
    assert s[0] == '.' && s[1] == n[0];
    SkipNumber(n, rest);
  }

  lemma {:induction false} GroupsAreDotted(s: string) returns (numbers: seq<string>)
    ensures s == Dotted(numbers) + Groups(s).1 && |numbers| == Groups(s).0
    ensures forall i :: 0 <= i < |numbers| ==> Number(numbers[i])
    decreases |s|
  {
    if |s| >= 2 && s[0] == '.' && IsDigit(s[1]) {
      var n := LeadingNumber(s[1..]);
      var rest := SkipDigits(s[1..]);
      var more := GroupsAreDotted(rest);
      numbers := OneMoreGroup(s, n, rest, more);
    } else {
      numbers := [];
      assert s == "" + s;
    }
  }

  lemma OneMoreGroup(s: string, n: string, rest: string, more: seq<string>) returns (numbers: seq<string>)
    requires |s| >= 2 && s[0] == '.' && IsDigit(s[1]) && rest == SkipDigits(s[1..])
    requires s[1..] == n + rest && Number(n)
    requires rest == Dotted(more) + Groups(rest).1 && |more| == Groups(rest).0
    requires forall i :: 0 <= i < |more| ==> Number(more[i])
    ensures s == Dotted(numbers) + Groups(s).1 && |numbers| == Groups(s).0
    ensures forall i :: 0 <= i < |numbers| ==> Number(numbers[i])
  {
    numbers := [n] + more;
    DottedStep(n, more, Groups(rest).1);
    assert s == "." + s[1..];
  }

  lemma DottedStep(n: string, more: seq<string>, tail: string)
    ensures "." + (n + (Dotted(more) + tail)) == Dotted([n] + more) + tail
  {
    assert ([n] + more)[1..] == more;
  }

  /** The scanner accepts exactly the printed versions. */
  lemma ScannerAcceptsExactlyVersions(s: string)
    ensures IsValid(s) <==> exists v :: WellFormed(v) && Print(v) == s
  {
    if IsValid(s) {
      var n := LeadingNumber(s);
      var more := GroupsAreDotted(SkipDigits(s));
      var v := Version([n] + more, Groups(SkipDigits(s)).1);
      assert v.numbers[1..] == more;
      assert Print(v) == n + (Dotted(more) + v.suffix);
      assert WellFormed(v);
    }
    if v :| WellFormed(v) && Print(v) == s {
      PrintedIsValid(v);
    }
  }

  lemma PrintedIsValid(v: Version)
    requires WellFormed(v)
    ensures IsValid(Print(v))
  {
    var rest := Dotted(v.numbers[1..]) + v.suffix;
    assert Print(v) == v.numbers[0] + rest;
    GroupsOfDotted(v.numbers[1..], v.suffix);
    assert v.numbers[1] != "" && v.numbers[1..] != [];
    assert rest[0] == '.';
    SkipNumber(v.numbers[0], rest);
  }

  /** A run of digits from `start`. */
  method DigitRun(s: string, start: nat) returns (end: nat)
    requires start <= |s|
    ensures start <= end <= |s| && SkipDigits(s[start..]) == s[end..]
    ensures end > start <==> start < |s| && IsDigit(s[start])
  {
    end := start;
    while end < |s| && IsDigit(s[end])
      invariant start <= end <= |s|
      invariant SkipDigits(s[start..]) == SkipDigits(s[end..])
      invariant end > start ==> IsDigit(s[start])
    {
      assert s[end..][1..] == s[end + 1..];
      end := end + 1;
    }
  }

  method CheckVersion(version: string) returns (ok: bool)
    ensures ok <==> IsValid(version)
  {
    var i := DigitRun(version, 0);
    assert version[0..] == version;
    if i == 0 {
      return false;
    }
    var dots;
    i, dots := GroupRun(version, i);
    if dots < 2 {
      return false;
    }
    ok := CheckSuffix(version[i..]);
  }

  /** The groups of digits from `start`, each behind a dot. */
  method GroupRun(version: string, start: nat) returns (i: nat, dots: nat)
    requires start <= |version|
    ensures i <= |version| && Groups(version[start..]) == (dots, version[i..])
  {
    i, dots := start, 0;
    while i < |version| && version[i] == '.' && i + 1 < |version| && IsDigit(version[i + 1])
      invariant i <= |version|
      invariant Groups(version[start..]) == (Groups(version[i..]).0 + dots, Groups(version[i..]).1)
      decreases |version| - i
    {
      assert version[i..][1..] == version[i + 1..];
      dots := dots + 1;
      i := DigitRun(version, i + 1);
    }
  }

  /** The optional pre-release or build suffix. */
  method CheckSuffix(rest: string) returns (ok: bool)
    ensures ok <==> ValidSuffix(rest)
  {
    if rest == "" {
      return true;
    }
    if rest[0] != '-' && rest[0] != '+' {
      return false;
    }
    var i := 1;
    if i >= |rest| {
      return false;
    }
    while i < |rest|
      invariant 1 <= i <= |rest|
      invariant forall k :: 1 <= k < i ==> IsTail(rest[k])
    {
      if !IsTail(rest[i]) {
        assert rest[1..][i - 1] == rest[i];
        return false;
      }
      i := i + 1;
    }
    assert forall k :: 0 <= k < |rest[1..]| ==> rest[1..][k] == rest[k + 1];
    ok := true;
  }

  // ------------------------------------------------- replacing the token

  /** Length of the prefix before the first digit. */
  function DigitAt(s: string): (n: nat)
    ensures n <= |s|
  {
    if s == "" || IsDigit(s[0]) then 0 else 1 + DigitAt(s[1..])
  }

  /** Length of the run of token characters at the front. */
  function TokenLength(s: string): (n: nat)
    ensures n <= |s|
  {
    if s == "" || !IsToken(s[0]) then 0 else 1 + TokenLength(s[1..])
  }

  predicate HasDot(s: string) { exists i :: 0 <= i < |s| && s[i] == '.' }

  function Replaced(line: string, version: string): Option<string> {
    var rest := line[DigitAt(line)..];
    if rest == "" || !HasDot(rest[..TokenLength(rest)]) then None
    else Some(line[..DigitAt(line)] + version + rest[TokenLength(rest)..])
  }

  /** What every version is: a token that starts at a digit and has a dot. */
  predicate TokenShaped(v: string) {
    v != "" && IsDigit(v[0]) && AllTokens(v) && HasDot(v)
  }

  lemma VersionsAreTokens(v: string)
    requires IsValid(v)
    ensures TokenShaped(v)
  {
    ScannerAcceptsExactlyVersions(v);
    var w :| WellFormed(w) && Print(w) == v;
    DottedIsToken(w.numbers[1..]);
    var rest := Dotted(w.numbers[1..]);
    assert w.numbers[1..] != [] && rest[0] == '.';
    assert v == w.numbers[0] + rest + w.suffix;
    assert v[|w.numbers[0]|] == '.';
    forall i | 0 <= i < |v| ensures IsToken(v[i]) {
      var a, b := |w.numbers[0]|, |w.numbers[0]| + |rest|;
      if i < a {
        assert v[i] == w.numbers[0][i];
      } else if i < b {
        assert v[i] == rest[i - a];
      } else {
        assert v[i] == w.suffix[i - b];
        assert i > b ==> w.suffix[i - b] == w.suffix[1..][i - b - 1];
      }
    }
  }

  lemma {:induction false} DottedIsToken(numbers: seq<string>)
    requires forall i :: 0 <= i < |numbers| ==> Number(numbers[i])
    ensures AllTokens(Dotted(numbers))
  {
    if numbers != [] { DottedIsToken(numbers[1..]); }
  }

  lemma {:induction false} DigitAtOf(before: string, rest: string)
    requires forall i :: 0 <= i < |before| ==> !IsDigit(before[i])
    requires rest != "" && IsDigit(rest[0])
    ensures DigitAt(before + rest) == |before|
  {
    if before == "" {
      assert before + rest == rest;
    } else {
      assert (before + rest)[1..] == before[1..] + rest;
      DigitAtOf(before[1..], rest);
    }
  }

  lemma {:induction false} BeforeHasNoDigit(s: string)
    ensures forall i :: 0 <= i < DigitAt(s) ==> !IsDigit(s[i])
    ensures DigitAt(s) < |s| ==> IsDigit(s[DigitAt(s)])
  {
    if s != "" && !IsDigit(s[0]) {
      BeforeHasNoDigit(s[1..]);
      assert forall i :: 0 < i < |s| ==> s[i] == s[1..][i - 1];
    }
  }

  lemma {:induction false} TokenLengthOf(token: string, rest: string)
    requires AllTokens(token) && (rest == "" || !IsToken(rest[0]))
    ensures TokenLength(token + rest) == |token|
  {
    if token == "" {
      assert token + rest == rest;
    } else {
      assert (token + rest)[1..] == token[1..] + rest;
      TokenLengthOf(token[1..], rest);
    }
  }

  lemma {:induction false} TokenIsMaximal(s: string)
    ensures AllTokens(s[..TokenLength(s)])
    ensures TokenLength(s) < |s| ==> !IsToken(s[TokenLength(s)])
  {
    if s != "" && IsToken(s[0]) {
      TokenIsMaximal(s[1..]);
      assert forall i :: 0 < i < |s| ==> s[i] == s[1..][i - 1];
    }
  }

  /** The last version written wins, whatever was written before; a line either
      accepts every version or none; and writing one twice changes nothing. */
  lemma LastWriteWins(line: string, v: string, w: string)
    requires IsValid(v) && Replaced(line, v).Some?
    ensures Replaced(line, w).Some? && Replaced(Replaced(line, v).value, w) == Replaced(line, w)
    ensures Replaced(Replaced(line, v).value, v) == Replaced(line, v)
  {
    VersionsAreTokens(v);
    var before, rest := line[..DigitAt(line)], line[DigitAt(line)..];
    var after := rest[TokenLength(rest)..];
    BeforeHasNoDigit(line);
    TokenIsMaximal(rest);
    var out := Replaced(line, v).value;
    assert out == before + (v + after);
    DigitAtOf(before, v + after);
    assert out[|before|..] == v + after;
    TokenLengthOf(v, after);
    assert (v + after)[..|v|] == v && (v + after)[|v|..] == after;
    assert out[..|before|] == before;
  }

  // -------------------------------------------------------- the whole file

  predicate IsLine(l: string) {
    l != "" && forall i :: 0 <= i < |l| - 1 ==> l[i] != '\n'
  }

  predicate Ends(l: string) { l != "" && l[|l| - 1] == '\n' }

  /** The parts `split_inclusive('\n')` can produce. */
  predicate LinesShaped(ls: seq<string>) {
    && (forall i :: 0 <= i < |ls| ==> IsLine(ls[i]))
    && (forall i :: 0 <= i < |ls| - 1 ==> Ends(ls[i]))
  }

  function LineLength(s: string): (n: nat)
    ensures n <= |s| && (s != "" ==> n > 0)
  {
    if s == "" then 0 else if s[0] == '\n' then 1 else 1 + LineLength(s[1..])
  }

  function Lines(s: string): seq<string> {
    if s == "" then [] else [s[..LineLength(s)]] + Lines(s[LineLength(s)..])
  }

  function Concat(ls: seq<string>): string {
    if ls == [] then "" else ls[0] + Concat(ls[1..])
  }

  lemma {:induction false} FirstLine(s: string)
    requires s != ""
    ensures IsLine(s[..LineLength(s)])
    ensures LineLength(s) < |s| ==> Ends(s[..LineLength(s)])
  {
    if s[0] != '\n' && s[1..] != "" {
      FirstLine(s[1..]);
      assert s[..LineLength(s)] == [s[0]] + s[1..][..LineLength(s[1..])];
    }
  }

  lemma {:induction false} LineLengthOf(l: string, rest: string)
    requires IsLine(l) && (Ends(l) || rest == "")
    ensures LineLength(l + rest) == |l|
  {
    if |l| > 1 {
      assert (l + rest)[1..] == l[1..] + rest;
      LineLengthOf(l[1..], rest);
    } else if rest == "" {
      assert (l + rest)[1..] == "";
    }
  }

  lemma {:induction false} LinesOfConcat(ls: seq<string>)
    requires LinesShaped(ls)
    ensures Lines(Concat(ls)) == ls
  {
    if ls != [] {
      var rest := Concat(ls[1..]);
      assert ls[1..] == [] ==> rest == "";
      LinesOfConcat(ls[1..]);
      LineLengthOf(ls[0], rest);
      assert (ls[0] + rest)[..|ls[0]|] == ls[0] && (ls[0] + rest)[|ls[0]|..] == rest;
    }
  }

  lemma {:induction false} ConcatOfLines(s: string)
    ensures Concat(Lines(s)) == s && LinesShaped(Lines(s))
    decreases |s|
  {
    if s != "" {
      FirstLine(s);
      var rest := s[LineLength(s)..];
      ConcatOfLines(rest);
      assert Lines(s)[1..] == Lines(rest);
      assert rest == "" ==> Lines(rest) == [];
    }
  }

  predicate MatchesAt(line: string, marker: string, i: int) {
    0 <= i && i + |marker| <= |line| && line[i..i + |marker|] == marker
  }

  predicate Contains(line: string, marker: string) {
    exists i :: 0 <= i <= |line| && MatchesAt(line, marker, i)
  }

  function FirstMarked(ls: seq<string>, marker: string): (k: nat)
    ensures k <= |ls|
    ensures forall i :: 0 <= i < k ==> !Contains(ls[i], marker)
    ensures k < |ls| ==> Contains(ls[k], marker)
  {
    if ls == [] || Contains(ls[0], marker) then 0 else 1 + FirstMarked(ls[1..], marker)
  }

  /** Only the first marker line is touched. */
  function RewrittenLines(ls: seq<string>, marker: string, version: string): Option<seq<string>> {
    var k := FirstMarked(ls, marker);
    if k == |ls| then None
    else match Replaced(ls[k], version)
      case None => None
      case Some(l) => Some(ls[k := l])
  }

  function Rewritten(text: string, marker: string, version: string): Option<string> {
    match RewrittenLines(Lines(text), marker, version)
    case None => None
    case Some(ls) => Some(Concat(ls))
  }

  lemma ReplacedIsLine(l: string, version: string)
    requires IsLine(l) && TokenShaped(version) && Replaced(l, version).Some?
    ensures IsLine(Replaced(l, version).value)
    ensures Ends(Replaced(l, version).value) <==> Ends(l)
  {
    var before, rest := l[..DigitAt(l)], l[DigitAt(l)..];
    var n := TokenLength(rest);
    var out := Replaced(l, version).value;
    TokenIsMaximal(rest);
    assert n > 0;
    assert forall i :: 0 <= i < |version| ==> version[i] != '\n';
    var after := rest[n..];
    assert forall i :: 0 <= i < |after| ==> after[i] == l[DigitAt(l) + n + i];
    if after == "" {
      assert l[|l| - 1] == rest[..n][n - 1];
    }
  }

  /** The rewritten file has the lines of the old one, but for the first marker
      line; everything else is preserved to the byte. */
  lemma RewriteTouchesOneLine(text: string, marker: string, version: string)
    requires IsValid(version) && Rewritten(text, marker, version).Some?
    ensures var ls, out := Lines(text), Rewritten(text, marker, version).value;
      var k := FirstMarked(ls, marker);
      && k < |ls| && Replaced(ls[k], version).Some?
      && Lines(out) == ls[k := Replaced(ls[k], version).value]
  {
    VersionsAreTokens(version);
    ConcatOfLines(text);
    var ls := Lines(text);
    var k := FirstMarked(ls, marker);
    ReplacedIsLine(ls[k], version);
    LinesOfConcat(ls[k := Replaced(ls[k], version).value]);
  }

  /** A second rewrite with any version acts on the same line, exactly as the
      first would have, as long as that line still contains the marker. */
  lemma {:induction false} LaterRewriteWins(text: string, marker: string, v: string, w: string)
    requires IsValid(v) && IsValid(w) && Rewritten(text, marker, v).Some?
    requires var ls := Lines(text);
      Contains(Replaced(ls[FirstMarked(ls, marker)], v).value, marker)
    ensures Rewritten(Rewritten(text, marker, v).value, marker, w) == Rewritten(text, marker, w)
  {
    RewriteTouchesOneLine(text, marker, v);
    var ls := Lines(text);
    var k := FirstMarked(ls, marker);
    var changed := ls[k := Replaced(ls[k], v).value];
    SameFirstMarked(ls, changed, marker, k);
    LastWriteWins(ls[k], v, w);
    assert changed[k := Replaced(ls[k], w).value] == ls[k := Replaced(ls[k], w).value];
  }

  lemma {:induction false} FirstMarkedIs(ls: seq<string>, marker: string, k: nat)
    requires k <= |ls| && (forall i :: 0 <= i < k ==> !Contains(ls[i], marker))
    requires k < |ls| ==> Contains(ls[k], marker)
    ensures FirstMarked(ls, marker) == k
  {
  }

  lemma SameFirstMarked(ls: seq<string>, changed: seq<string>, marker: string, k: nat)
    requires k < |ls| && k == FirstMarked(ls, marker)
    requires |changed| == |ls| && changed == ls[k := changed[k]] && Contains(changed[k], marker)
    ensures FirstMarked(changed, marker) == k
  {
    assert forall i :: 0 <= i < k ==> changed[i] == ls[i];
    FirstMarkedIs(changed, marker, k);
  }

  /** The first line after position `k` that contains the marker. */
  function NextMarked(ls: seq<string>, marker: string, k: nat): nat
    requires k < |ls|
  {
    k + 1 + FirstMarked(ls[k + 1..], marker)
  }

  /** Rewriting twice is a fixed point exactly when the rewritten line still
      contains the marker, or the next line that does already carries the
      version. */
  lemma FixedPointIff(text: string, marker: string, version: string)
    requires IsValid(version) && Rewritten(text, marker, version).Some?
    ensures var ls, out := Lines(text), Rewritten(text, marker, version).value;
      var k := FirstMarked(ls, marker);
      var next := NextMarked(ls, marker, k);
      Rewritten(out, marker, version) == Some(out) <==>
        || Contains(Replaced(ls[k], version).value, marker)
        || (next < |ls| && Replaced(ls[next], version) == Some(ls[next]))
  {
    RewriteTouchesOneLine(text, marker, version);
    var ls, out := Lines(text), Rewritten(text, marker, version).value;
    var k := FirstMarked(ls, marker);
    var changed := ls[k := Replaced(ls[k], version).value];
    if Contains(changed[k], marker) {
      LaterRewriteWins(text, marker, version, version);
      LastWriteWins(ls[k], version, version);
    } else {
      ConcatOfLines(text);
      MovesOn(ls, changed, marker, k);
      SecondRewrite(out, changed, marker, version);
    }
  }

  /** A rewrite of a file with lines `ls` is idle exactly when its first marker
      line already carries the version. */
  lemma SecondRewrite(text: string, ls: seq<string>, marker: string, version: string)
    requires IsValid(version) && Lines(text) == ls
    ensures var k := FirstMarked(ls, marker);
      Rewritten(text, marker, version) == Some(text) <==> k < |ls| && Replaced(ls[k], version) == Some(ls[k])
  {
    var k := FirstMarked(ls, marker);
    ConcatOfLines(text);
    if k < |ls| && Replaced(ls[k], version).Some? {
      RewriteTouchesOneLine(text, marker, version);
      assert ls[k := ls[k]] == ls;
    }
  }

  lemma MovesOn(ls: seq<string>, changed: seq<string>, marker: string, k: nat)
    requires k < |ls| && k == FirstMarked(ls, marker)
    requires |changed| == |ls| && changed == ls[k := changed[k]] && !Contains(changed[k], marker)
    ensures FirstMarked(changed, marker) == NextMarked(ls, marker, k)
    ensures NextMarked(ls, marker, k) < |ls| ==> changed[NextMarked(ls, marker, k)] == ls[NextMarked(ls, marker, k)]
  {
    var next := NextMarked(ls, marker, k);
    forall i | 0 <= i < next ensures !Contains(changed[i], marker) {
      if i > k { assert changed[i] == ls[k + 1..][i - k - 1]; }
      else if i < k { assert changed[i] == ls[i]; }
    }
    if next < |ls| { assert changed[next] == ls[k + 1..][next - k - 1]; }
    FirstMarkedIs(changed, marker, next);
  }

  const MARKER := "return \"1."

  /** The token is the first maximal one that starts at a digit. */
  lemma ReplacedToken(lead: string, token: string, after: string, version: string)
    requires forall i :: 0 <= i < |lead| ==> !IsDigit(lead[i])
    requires TokenShaped(token) && (after == "" || !IsToken(after[0]))
    ensures Replaced(lead + token + after, version) == Some(lead + version + after)
  {
    var line := lead + token + after;
    assert line == lead + (token + after);
    DigitAtOf(lead, token + after);
    TokenLengthOf(token, after);
    assert line[..|lead|] == lead && line[|lead|..] == token + after;
    assert (token + after)[..|token|] == token && (token + after)[|token|..] == after;
  }

  /** The line has a token after its first digit, from there on, and with a dot. */
  ghost predicate HasToken(line: string, lead: string, token: string, after: string) {
    && line == lead + token + after && (forall i :: 0 <= i < |lead| ==> !IsDigit(lead[i]))
    && token != "" && IsDigit(token[0]) && AllTokens(token) && (after == "" || !IsToken(after[0]))
    && '.' in token
  }

  /** A version can be written on a line exactly if it has such a token. */
  lemma ReplacedIff(line: string, version: string)
    ensures Replaced(line, version).Some? <==> exists lead, token, after :: HasToken(line, lead, token, after)
  {
    if Replaced(line, version).Some? {
      var rest := line[DigitAt(line)..];
      var lead, token, after := line[..DigitAt(line)], rest[..TokenLength(rest)], rest[TokenLength(rest)..];
      BeforeHasNoDigit(line);
      TokenIsMaximal(rest);
      assert line == lead + token + after;
      assert HasToken(line, lead, token, after);
    }
    if lead, token, after :| HasToken(line, lead, token, after) {
      ReplacedToken(lead, token, after, version);
    }
  }

  /** A file can be rewritten exactly if it has a marker line and the first has a
      token. */
  lemma RewrittenIff(text: string, marker: string, version: string)
    ensures Rewritten(text, marker, version).Some? <==>
      exists k :: 0 <= k < |Lines(text)| && IsFirstMarked(Lines(text), marker, k)
        && exists lead, token, after :: HasToken(Lines(text)[k], lead, token, after)
  {
    var ls := Lines(text);
    var k := FirstMarked(ls, marker);
    if k < |ls| {
      ReplacedIff(ls[k], version);
      assert IsFirstMarked(ls, marker, k);
    }
  }

  ghost predicate IsFirstMarked(ls: seq<string>, marker: string, k: int) {
    0 <= k < |ls| && Contains(ls[k], marker) && forall i :: 0 <= i < k ==> !Contains(ls[i], marker)
  }

  const MAJOR := "1."

  const QUOTED := "\"1."

  /** What follows the version token of a line. */
  function AfterToken(line: string): string {
    var rest := line[DigitAt(line)..];
    rest[TokenLength(rest)..]
  }

  /** The version of the line stands right behind the quote of the marker, and no
      other quoted major version follows. */
  predicate PinnedLine(line: string) {
    && DigitAt(line) >= 8 && line[DigitAt(line) - 8..DigitAt(line)] == MARKER[..8]
    && Replaced(line, "").Some? && !Contains(AfterToken(line), QUOTED)
  }

  /** The marker survives a rewrite exactly if the major version stays. */
  lemma MarkerSurvivesIff(lead: string, v: string, after: string)
    requires |lead| >= 8 && lead[|lead| - 8..] == MARKER[..8]
    requires forall i :: 0 <= i < |lead| ==> !IsDigit(lead[i])
    requires TokenShaped(v) && !Contains(after, QUOTED)
    ensures Contains(lead + v + after, MARKER) <==> MAJOR <= v
  {
    var line := lead + v + after;
    if MAJOR <= v {
      var i := |lead| - 8;
      assert line[i..i + 10] == lead[i..] + v[..2];
      assert MARKER == MARKER[..8] + MAJOR;
      assert MatchesAt(line, MARKER, i);
    }
    if i :| 0 <= i <= |line| && MatchesAt(line, MARKER, i) {
      QuoteInMatch(line, i);
      QuotePlace(lead, v, after, i + 7);
    }
  }

  lemma QuoteInMatch(line: string, i: nat)
    requires MatchesAt(line, MARKER, i)
    ensures i + 9 < |line| && line[i + 7] == '\"' && line[i + 8] == '1' && line[i + 9] == '.'
  {
    var part := line[i..i + |MARKER|];
    assert part[7] == line[i + 7] && part[8] == line[i + 8] && part[9] == line[i + 9];
  }

  lemma TokenIsUnquoted(lead: string, v: string, after: string, j: nat)
    requires TokenShaped(v) && |lead| <= j < |lead| + |v|
    ensures (lead + v + after)[j] != '\"'
  {
    assert (lead + v + after)[j] == v[j - |lead|] && IsToken(v[j - |lead|]);
  }

  /** Where a quoted major version can stand. */
  lemma QuotePlace(lead: string, v: string, after: string, j: nat)
    requires forall i :: 0 <= i < |lead| ==> !IsDigit(lead[i])
    requires TokenShaped(v)
    requires var line := lead + v + after;
      j + 2 < |line| && line[j] == '\"' && line[j + 1] == '1' && line[j + 2] == '.'
    ensures (j + 1 == |lead| && MAJOR <= v) || Contains(after, QUOTED)
  {
    var line := lead + v + after;
    var a := j - |lead| - |v|;
    if a >= 0 {
      assert after[a] == line[j] && after[a + 1] == line[j + 1] && after[a + 2] == line[j + 2];
      assert MatchesAt(after, QUOTED, a);
    } else if j < |lead| {
      assert j + 1 >= |lead|;
      var i :| 0 <= i < |v| && v[i] == '.';
      assert i > 0;
      assert line[j + 1] == v[0] && line[j + 2] == v[1];
    } else {
      TokenIsUnquoted(lead, v, after, j);
    }
  }

  /** The marker of the JavaScript target pins the major version. On a file whose
      one marker line carries the version behind the marker's quote, the run after
      a rewrite fails, whatever version it is for, exactly when that rewrite left
      the major version. */
  lemma MajorBumpLosesTheMarker(text: string, v: string, w: string)
    requires IsValid(v) && IsValid(w)
    requires var ls := Lines(text);
      var k := FirstMarked(ls, MARKER);
      k < |ls| && NextMarked(ls, MARKER, k) == |ls| && PinnedLine(ls[k])
    ensures Rewritten(text, MARKER, v).Some?
    ensures Rewritten(Rewritten(text, MARKER, v).value, MARKER, w).None? <==> !(MAJOR <= v)
  {
    var ls := Lines(text);
    var k := FirstMarked(ls, MARKER);
    VersionsAreTokens(v);
    RewriteTouchesOneLine(text, MARKER, v);
    var line, bumped := ls[k], Replaced(ls[k], v).value;
    var lead := line[..DigitAt(line)];
    BeforeHasNoDigit(line);
    assert bumped == lead + v + AfterToken(line);
    assert lead[|lead| - 8..] == line[DigitAt(line) - 8..DigitAt(line)];
    MarkerSurvivesIff(lead, v, AfterToken(line));
    if MAJOR <= v {
      LaterRewriteWins(text, MARKER, v, w);
      LastWriteWins(line, v, w);
    } else {
      MovesOn(ls, ls[k := bumped], MARKER, k);
    }
  }

  // ---------------------------------------------------- the rewriting loops

  method ReplaceVersionToken(line: string, version: string) returns (r: Option<string>)
    ensures r == Replaced(line, version)
  {
    var start := 0;
    while start < |line| && !IsDigit(line[start])
      invariant 0 <= start <= |line|
      invariant DigitAt(line) == start + DigitAt(line[start..])
    {
      assert line[start..][1..] == line[start + 1..];
      start := start + 1;
    }
    if start == |line| {
      return None;
    }
    var end, dotted := TokenRun(line, start);
    if !dotted {
      return None;
    }
    assert line[start..][end - start..] == line[end..];
    r := Some(line[..start] + version + line[end..]);
  }

  /** The run of token characters from `start`, and whether it has a dot. */
  method TokenRun(line: string, start: nat) returns (end: nat, dotted: bool)
    requires start <= |line|
    ensures end == start + TokenLength(line[start..]) && end <= |line|
    ensures dotted <==> HasDot(line[start..][..end - start])
  {
    end, dotted := start, false;
    ghost var rest := line[start..];
    while end < |line| && IsToken(line[end])
      invariant start <= end <= |line|
      invariant TokenLength(rest) == end - start + TokenLength(line[end..])
      invariant dotted <==> HasDot(rest[..end - start])
    {
      assert line[end..][1..] == line[end + 1..];
      HasDotSnoc(rest, end - start);
      dotted := dotted || line[end] == '.';
      end := end + 1;
    }
  }

  lemma HasDotSnoc(s: string, n: nat)
    requires n < |s|
    ensures HasDot(s[..n + 1]) <==> HasDot(s[..n]) || s[n] == '.'
  {
    if HasDot(s[..n]) {
      var i :| 0 <= i < n && s[..n][i] == '.';
      assert s[..n + 1][i] == '.';
    }
    if s[n] == '.' { assert s[..n + 1][n] == '.'; }
  }

  method RewriteVersionLine(text: string, marker: string, version: string) returns (r: Option<string>)
    ensures r == Rewritten(text, marker, version)
  {
    var lines := Lines(text);
    var found := false;
    var out := "";
    ghost var k := FirstMarked(lines, marker);
    for n := 0 to |lines|
      invariant found <==> n > k
      invariant found ==> Replaced(lines[k], version).Some?
      invariant out == Concat((if found then lines[k := Replaced(lines[k], version).value] else lines)[..n])
    {
      var line := lines[n];
      if !found && Contains(line, marker) {
        var replaced := ReplaceVersionToken(line, version);
        if replaced.None? {
          return None;
        }
        out := out + replaced.value;
        found := true;
        assert lines[k := replaced.value][..n] == lines[..n];
      } else {
        out := out + line;
      }
      ghost var ls := if found then lines[k := Replaced(lines[k], version).value] else lines;
      ConcatStep(ls, n);
    }
    ghost var ls := if found then lines[k := Replaced(lines[k], version).value] else lines;
    assert ls[..|ls|] == ls;
    r := if found then Some(out) else None;
  }

  lemma ConcatStep(ls: seq<string>, n: nat)
    requires n < |ls|
    ensures Concat(ls[..n + 1]) == Concat(ls[..n]) + ls[n]
  {
    assert ls[..n + 1] == ls[..n] + [ls[n]];
    ConcatSnoc(ls[..n], ls[n]);
  }

  lemma {:induction false} ConcatSnoc(ls: seq<string>, l: string)
    ensures Concat(ls + [l]) == Concat(ls) + l
  {
    if ls == [] {
      assert [] + [l] == [l];
    } else {
      assert (ls + [l])[1..] == ls[1..] + [l];
      ConcatSnoc(ls[1..], l);
    }
  }

  // ------------------------------------------------------- all the targets

  datatype Target = Target(path: string, marker: string)

  datatype Mode = Write | Check

  datatype Outcome =
    | Current                  // every target already carries the version
    | Drifted                  // check mode found a stale target
    | Updated                  // write mode rewrote the targets
    | Unreadable(path: string)
    | NoVersionLine(path: string)
    | Unwritable(path: string)

  type Files = map<string, string>

  /** The new text of a target, if it has a version-bearing line. */
  function NewText(files: Files, t: Target, version: string): Option<string>
    requires t.path in files
  {
    Rewritten(files[t.path], t.marker, version)
  }

  /** The error a target ends the program with; a target whose marker is
      missing is merely pending when `tolerant`. */
  function Refusal(files: Files, t: Target, version: string, tolerant: bool): Option<Outcome> {
    if t.path !in files then Some(Unreadable(t.path))
    else if NewText(files, t, version).None? && !tolerant then Some(NoVersionLine(t.path))
    else None
  }

  predicate Accepted(files: Files, ts: seq<Target>, version: string, tolerant: bool) {
    forall i :: 0 <= i < |ts| ==> Refusal(files, ts[i], version, tolerant).None?
  }

  predicate Stale(files: Files, t: Target, version: string) {
    && t.path in files
    && NewText(files, t, version).Some?
    && NewText(files, t, version).value != files[t.path]
  }

  predicate SomeStale(files: Files, ts: seq<Target>, version: string) {
    exists i :: 0 <= i < |ts| && Stale(files, ts[i], version)
  }

  predicate DistinctPaths(ts: seq<Target>) {
    forall i, j :: 0 <= i < j < |ts| ==> ts[i].path != ts[j].path
  }

  predicate IsTarget(ts: seq<Target>, path: string) {
    exists i :: 0 <= i < |ts| && ts[i].path == path
  }

  /** `after` holds the rewritten text of every target, and nothing else changed. */
  predicate AllRewritten(files: Files, after: Files, ts: seq<Target>, version: string) {
    && after.Keys == files.Keys
    && (forall i :: 0 <= i < |ts| ==>
      ts[i].path in files && NewText(files, ts[i], version) == Some(after[ts[i].path]))
    && (forall p :: p in files && !IsTarget(ts, p) ==> after[p] == files[p])
  }

  /** `refusal` is the one of the first target that has one. */
  predicate FirstRefusal(files: Files, ts: seq<Target>, version: string, tolerant: bool, refusal: Outcome) {
    exists k :: 0 <= k < |ts| && Accepted(files, ts[..k], version, tolerant)
      && Refusal(files, ts[k], version, tolerant) == Some(refusal)
  }

  /** The rewrites planned for `ts`, one a target. */
  predicate Planned(files: Files, ts: seq<Target>, version: string, rewrites: seq<(string, string)>) {
    |rewrites| == |ts| && forall i :: 0 <= i < |ts| ==> PlannedFor(files, ts[i], version, rewrites[i])
  }

  predicate PlannedFor(files: Files, t: Target, version: string, rewrite: (string, string)) {
    t.path in files && rewrite.0 == t.path && NewText(files, t, version) == Some(rewrite.1)
  }

  predicate DistinctFirsts(rewrites: seq<(string, string)>) {
    forall i, j :: 0 <= i < j < |rewrites| ==> rewrites[i].0 != rewrites[j].0
  }

  predicate NoneLocked(rewrites: seq<(string, string)>, locked: set<string>) {
    forall i :: 0 <= i < |rewrites| ==> rewrites[i].0 !in locked
  }

  predicate IsRewritten(rewrites: seq<(string, string)>, path: string) {
    exists i :: 0 <= i < |rewrites| && rewrites[i].0 == path
  }

  /** `after` differs from `before` by exactly these writes. */
  predicate Written(before: Files, after: Files, rewrites: seq<(string, string)>) {
    && after.Keys == before.Keys
    && (forall i :: 0 <= i < |rewrites| ==> rewrites[i].0 in after && after[rewrites[i].0] == rewrites[i].1)
    && (forall p :: p in before && !IsRewritten(rewrites, p) ==> after[p] == before[p])
  }

  /** The writes before the `k`-th went through, and that one failed. */
  predicate StoppedAt(before: Files, after: Files, rewrites: seq<(string, string)>, locked: set<string>, k: int, path: string) {
    && 0 <= k < |rewrites| && rewrites[k].0 == path && path in locked
    && Written(before, after, rewrites[..k])
  }

  lemma WrittenOne(before: Files, now: Files, rewrites: seq<(string, string)>, n: nat)
    requires n < |rewrites| && DistinctFirsts(rewrites) && rewrites[n].0 in now && Written(before, now, rewrites[..n])
    ensures Written(before, now[rewrites[n].0 := rewrites[n].1], rewrites[..n + 1])
  {
    var r := rewrites[n];
    var after, done := now[r.0 := r.1], rewrites[..n + 1];
    forall i | 0 <= i < |done| ensures done[i].0 in after && after[done[i].0] == done[i].1 {
      if i < n { assert done[i] == rewrites[..n][i]; }
    }
    forall p | p in before && !IsRewritten(done, p) ensures after[p] == before[p] {
      assert done[n].0 == r.0;
      StaysRewritten(rewrites, n, p);
    }
  }

  lemma StaysRewritten(rewrites: seq<(string, string)>, n: nat, p: string)
    requires n < |rewrites|
    ensures IsRewritten(rewrites[..n], p) ==> IsRewritten(rewrites[..n + 1], p)
  {
    if IsRewritten(rewrites[..n], p) {
      var i :| 0 <= i < n && rewrites[..n][i].0 == p;
      assert rewrites[..n + 1][i].0 == p;
    }
  }

  lemma RewrittenIsTarget(before: Files, ts: seq<Target>, version: string, rewrites: seq<(string, string)>, p: string)
    requires |rewrites| == |ts| && forall i :: 0 <= i < |ts| ==> PlannedFor(before, ts[i], version, rewrites[i])
    ensures IsRewritten(rewrites, p) ==> IsTarget(ts, p)
  {
    if IsRewritten(rewrites, p) {
      var i :| 0 <= i < |rewrites| && rewrites[i].0 == p;
      assert PlannedFor(before, ts[i], version, rewrites[i]);
    }
  }

  lemma PlannedAreDistinct(files: Files, ts: seq<Target>, version: string, rewrites: seq<(string, string)>)
    requires Planned(files, ts, version, rewrites) && DistinctPaths(ts)
    ensures DistinctFirsts(rewrites) && forall i :: 0 <= i < |rewrites| ==> rewrites[i].0 in files
  {
    assert forall i :: 0 <= i < |ts| ==> PlannedFor(files, ts[i], version, rewrites[i]);
  }

  lemma WrittenIsRewritten(before: Files, after: Files, ts: seq<Target>, version: string, rewrites: seq<(string, string)>)
    requires |rewrites| == |ts| && Written(before, after, rewrites)
    requires forall i :: 0 <= i < |ts| ==> PlannedFor(before, ts[i], version, rewrites[i])
    ensures AllRewritten(before, after, ts, version)
  {
    forall p | p in before && !IsTarget(ts, p) ensures after[p] == before[p] {
      RewrittenIsTarget(before, ts, version, rewrites, p);
    }
  }

  lemma PlanStep(files: Files, ts: seq<Target>, n: nat, version: string, tolerant: bool)
    requires n < |ts|
    ensures Accepted(files, ts[..n + 1], version, tolerant) <==>
      Accepted(files, ts[..n], version, tolerant) && Refusal(files, ts[n], version, tolerant).None?
    ensures SomeStale(files, ts[..n + 1], version) <==>
      SomeStale(files, ts[..n], version) || Stale(files, ts[n], version)
  {
    var longer := ts[..n + 1];
    assert longer[n] == ts[n];
    assert forall i :: 0 <= i < n ==> longer[i] == ts[..n][i];
  }

  /** Why a run may end as it does, said of the files before it. */
  ghost predicate Explained(files: Files, ts: seq<Target>, version: string, mode: Mode, allowPending: bool, outcome: Outcome) {
    match outcome
    case Unreadable(path) =>
      exists k :: 0 <= k < |ts| && ts[k].path == path && path !in files && AllWritable(files, ts[..k], version, mode, allowPending)
    case NoVersionLine(path) =>
      exists k :: 0 <= k < |ts| && ts[k].path == path && path in files
        && Rewritten(files[path], ts[k].marker, version) == None && !(mode == Check && allowPending)
        && AllWritable(files, ts[..k], version, mode, allowPending)
    case Current =>
      AllWritable(files, ts, version, mode, allowPending) && !SomeChange(files, ts, version)
    case Drifted =>
      mode == Check && AllWritable(files, ts, version, mode, allowPending) && SomeChange(files, ts, version)
    case _ =>
      mode == Write && AllWritable(files, ts, version, mode, allowPending) && SomeChange(files, ts, version)
  }

  /** Every target can be read and rewritten, or its missing marker is let pass,
      as it is in check mode if pending targets are allowed. */
  ghost predicate AllWritable(files: Files, ts: seq<Target>, version: string, mode: Mode, allowPending: bool) {
    forall i :: 0 <= i < |ts| ==>
      ts[i].path in files && (Rewritten(files[ts[i].path], ts[i].marker, version) != None || (mode == Check && allowPending))
  }

  /** Writing the version would change some target. */
  ghost predicate SomeChange(files: Files, ts: seq<Target>, version: string) {
    exists i :: 0 <= i < |ts| && ts[i].path in files
      && Rewritten(files[ts[i].path], ts[i].marker, version) != None
      && Rewritten(files[ts[i].path], ts[i].marker, version) != Some(files[ts[i].path])
  }

  lemma AcceptedIsWritable(files: Files, ts: seq<Target>, version: string, mode: Mode, allowPending: bool)
    ensures Accepted(files, ts, version, mode == Check && allowPending) <==> AllWritable(files, ts, version, mode, allowPending)
  {
    var tolerant := mode == Check && allowPending;
    if AllWritable(files, ts, version, mode, allowPending) {
      forall i | 0 <= i < |ts| ensures Refusal(files, ts[i], version, tolerant).None? {
      }
    }
    if Accepted(files, ts, version, tolerant) {
      forall i | 0 <= i < |ts|
        ensures ts[i].path in files && (Rewritten(files[ts[i].path], ts[i].marker, version) != None || tolerant)
      {
        assert Refusal(files, ts[i], version, tolerant).None?;
      }
    }
  }

  lemma StaleIsChange(files: Files, ts: seq<Target>, version: string)
    ensures SomeStale(files, ts, version) <==> SomeChange(files, ts, version)
  {
    if SomeStale(files, ts, version) {
      var i :| 0 <= i < |ts| && Stale(files, ts[i], version);
      assert Rewritten(files[ts[i].path], ts[i].marker, version) != None;
    }
    if SomeChange(files, ts, version) {
      var i :| 0 <= i < |ts| && ts[i].path in files
        && Rewritten(files[ts[i].path], ts[i].marker, version) != None
        && Rewritten(files[ts[i].path], ts[i].marker, version) != Some(files[ts[i].path]);
      assert Stale(files, ts[i], version);
    }
  }

  lemma RefusalIsExplained(files: Files, ts: seq<Target>, version: string, mode: Mode, allowPending: bool, refusal: Outcome)
    requires FirstRefusal(files, ts, version, mode == Check && allowPending, refusal)
    ensures Explained(files, ts, version, mode, allowPending, refusal)
  {
    var tolerant := mode == Check && allowPending;
    var k :| 0 <= k < |ts| && Accepted(files, ts[..k], version, tolerant)
      && Refusal(files, ts[k], version, tolerant) == Some(refusal);
    AcceptedIsWritable(files, ts[..k], version, mode, allowPending);
    assert ts[k].path == refusal.path;
  }

  class Workspace {
    var files: Files
    /** The paths a write fails for. */
    var locked: set<string>

    /** Reads and rewrites one target in memory. */
    method PlanOne(t: Target, version: string, tolerant: bool)
      returns (refusal: Option<Outcome>, text: Option<string>, stale: bool)
      ensures refusal == Refusal(files, t, version, tolerant)
      ensures refusal.None? ==> t.path in files && text == NewText(files, t, version)
      ensures refusal.None? ==> (stale <==> Stale(files, t, version))
    {
      if t.path !in files {
        return Some(Unreadable(t.path)), None, false;
      }
      text := RewriteVersionLine(files[t.path], t.marker, version);
      refusal := if text.None? && !tolerant then Some(NoVersionLine(t.path)) else None;
      stale := text.Some? && text.value != files[t.path];
    }

    /** Reads and rewrites every target in memory. */
    method Plan(ts: seq<Target>, version: string, tolerant: bool)
      returns (refusal: Option<Outcome>, rewrites: seq<(string, string)>, drift: bool)
      ensures refusal.Some? ==> FirstRefusal(files, ts, version, tolerant, refusal.value)
      ensures refusal.None? ==> Accepted(files, ts, version, tolerant)
      ensures refusal.None? ==> (drift <==> SomeStale(files, ts, version))
      ensures refusal.None? && !tolerant ==> Planned(files, ts, version, rewrites)
    {
      rewrites, drift := [], false;
      for n := 0 to |ts|
        invariant Accepted(files, ts[..n], version, tolerant)
        invariant drift <==> SomeStale(files, ts[..n], version)
        invariant !tolerant ==> Planned(files, ts[..n], version, rewrites)
      {
        var t := ts[n];
        var text, stale;
        refusal, text, stale := PlanOne(t, version, tolerant);
        if refusal.Some? {
          return;
        }
        PlanStep(files, ts, n, version, tolerant);
        drift := drift || stale;
        if text.Some? {
          rewrites := rewrites + [(t.path, text.value)];
        }
      }
      refusal := None;
      assert ts[..|ts|] == ts;
    }

    /** Writes the planned texts in order, up to the first write that fails. */
    method WriteAll(rewrites: seq<(string, string)>) returns (failed: Option<string>)
      requires DistinctFirsts(rewrites) && forall i :: 0 <= i < |rewrites| ==> rewrites[i].0 in files
      modifies `files
      ensures failed.None? ==> Written(old(files), files, rewrites) && NoneLocked(rewrites, locked)
      ensures failed.Some? ==> exists k :: StoppedAt(old(files), files, rewrites, locked, k, failed.value)
    {
      for n := 0 to |rewrites|
        invariant Written(old(files), files, rewrites[..n]) && NoneLocked(rewrites[..n], locked)
      {
        if rewrites[n].0 in locked {
          assert StoppedAt(old(files), files, rewrites, locked, n, rewrites[n].0);
          return Some(rewrites[n].0);
        }
        WrittenOne(old(files), files, rewrites, n);
        files := files[rewrites[n].0 := rewrites[n].1];
        assert rewrites[..n + 1] == rewrites[..n] + [rewrites[n]];
      }
      assert rewrites[..|rewrites|] == rewrites;
      failed := None;
    }

    /** Check mode writes nothing; write mode writes nothing unless every target
        was accepted and one was stale, and then it rewrites them all. */
    method Sync(mode: Mode, ts: seq<Target>, version: string, allowPending: bool) returns (outcome: Outcome)
      requires DistinctPaths(ts)
      modifies `files
      ensures mode == Check ==> files == old(files)
      ensures var tolerant := mode == Check && allowPending;
        if !Accepted(old(files), ts, version, tolerant) then
          files == old(files) && FirstRefusal(old(files), ts, version, tolerant, outcome)
        else if !SomeStale(old(files), ts, version) then
          files == old(files) && outcome == Current
        else if mode == Check then outcome == Drifted
        else if forall i :: 0 <= i < |ts| ==> ts[i].path !in locked then
          outcome == Updated && AllRewritten(old(files), files, ts, version)
        else exists k :: (0 <= k < |ts| && ts[k].path in locked && outcome == Unwritable(ts[k].path)
          && AllRewritten(old(files), files, ts[..k], version))
      ensures Explained(old(files), ts, version, mode, allowPending, outcome)
    {
      AcceptedIsWritable(files, ts, version, mode, allowPending);
      StaleIsChange(files, ts, version);
      var tolerant := mode == Check && allowPending;
      var refusal, rewrites, drift := Plan(ts, version, tolerant);
      if refusal.Some? {
        RefusalIsExplained(files, ts, version, mode, allowPending, refusal.value);
        return refusal.value;
      }
      if mode == Check {
        return if drift then Drifted else Current;
      }
      if !drift {
        return Current;
      }
      PlannedAreDistinct(files, ts, version, rewrites);
      ghost var before := files;
      var failed := WriteAll(rewrites);
      if failed.None? {
        WrittenIsRewritten(before, files, ts, version, rewrites);
        return Updated;
      }
      ghost var k :| StoppedAt(before, files, rewrites, locked, k, failed.value);
      assert PlannedFor(before, ts[k], version, rewrites[k]);
      WrittenIsRewritten(before, files, ts[..k], version, rewrites[..k]);
      outcome := Unwritable(failed.value);
    }
  }

  /** A clean write is followed by a clean strict check exactly when every
      rewritten target is a fixed point; `FixedPointIff` says when that is. */
  lemma CheckAfterWrite(files: Files, after: Files, ts: seq<Target>, version: string)
    requires AllRewritten(files, after, ts, version)
    ensures (Accepted(after, ts, version, false) && !SomeStale(after, ts, version)) <==>
      forall i :: 0 <= i < |ts| ==>
        Rewritten(NewText(files, ts[i], version).value, ts[i].marker, version) == NewText(files, ts[i], version)
  {
    if forall i :: 0 <= i < |ts| ==>
      Rewritten(NewText(files, ts[i], version).value, ts[i].marker, version) == NewText(files, ts[i], version) {
      forall i | 0 <= i < |ts| ensures Refusal(after, ts[i], version, false).None? && !Stale(after, ts[i], version) {
        assert NewText(files, ts[i], version) == Some(after[ts[i].path]);
      }
    }
    if Accepted(after, ts, version, false) && !SomeStale(after, ts, version) {
      forall i | 0 <= i < |ts|
        ensures Rewritten(NewText(files, ts[i], version).value, ts[i].marker, version) == NewText(files, ts[i], version) {
        assert Refusal(after, ts[i], version, false).None? && !Stale(after, ts[i], version);
      }
    }
  }
}
