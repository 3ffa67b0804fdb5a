// Escaping for TOML basic strings: the display escaper and the sanitizer, both
// against a scanner for the basic strings of TOML v1.0.0, section "String".
module Toml {
  import opened Common

  // ------------------------------------------------------------- the scanner

  /** Control characters a basic string must not hold: U+0000 to U+0008, U+000A
      to U+001F and U+007F. The tab is allowed. */
  predicate Forbidden(c: char) {
    (c < ' ' && c != '\t') || c == '\U{7F}'
  }

  predicate Clean(s: string) { forall i :: 0 <= i < |s| ==> !Forbidden(s[i]) }

  predicate IsHex(c: char) { '0' <= c <= '9' || 'a' <= c <= 'f' || 'A' <= c <= 'F' }

  function HexDigit(c: char): (n: nat)
    requires IsHex(c)
    ensures n < 16
  {
    if c <= '9' then (c - '0') as int
    else if c <= 'F' then (c - 'A') as int + 10
    else (c - 'a') as int + 10
  }

  function HexValue(s: string): nat
    requires forall i :: 0 <= i < |s| ==> IsHex(s[i])
  {
    if s == "" then 0 else 16 * HexValue(s[..|s| - 1]) + HexDigit(s[|s| - 1])
  }

  /** A Unicode escape of `digits` hex digits; it must name a scalar value. */
  function CodePoint(s: string, digits: nat): Option<char> {
    if |s| < digits || !(forall i :: 0 <= i < digits ==> IsHex(s[i])) then None
    else
      var n := HexValue(s[..digits]);
      if n < 0xD800 || 0xE000 <= n < 0x11_0000 then Some(n as char) else None
  }

  /** The character an escape stands for, and how many characters follow the
      backslash. */
  function Escaped(s: string): Option<(char, nat)> {
    if s == "" then None
    else match s[0]
      case 'b' => Some(('\U{8}', 1))
      case 't' => Some(('\t', 1))
      case 'n' => Some(('\n', 1))
      case 'f' => Some(('\U{C}', 1))
      case 'r' => Some(('\r', 1))
      case '\"' => Some(('\"', 1))
      case '\\' => Some(('\\', 1))
      case 'u' => (match CodePoint(s[1..], 4) case Some(c) => Some((c, 5)) case None => None)
      case 'U' => (match CodePoint(s[1..], 8) case Some(c) => Some((c, 9)) case None => None)
      case _ => None
  }

  datatype Scanned = Scanned(value: string, rest: string)

  function Prepend(c: char, r: Option<Scanned>): Option<Scanned> {
    match r
    case None => None
    case Some(v) => Some(Scanned([c] + v.value, v.rest))
  }

  /** Reads a basic string whose opening quote has been consumed. */
  function Scan(s: string): Option<Scanned>
    decreases |s|
  {
    if s == "" then None
    else if s[0] == '\"' then Some(Scanned("", s[1..]))
    else if s[0] == '\\' then
      match Escaped(s[1..])
      case None => None
      case Some((c, n)) => if n + 1 <= |s| then Prepend(c, Scan(s[n + 1..])) else None
    else if Forbidden(s[0]) then None
    else Prepend(s[0], Scan(s[1..]))
  }

  // ------------------------------------------------------------- the escaper

  /** `str::replace` of one character by a string. */
  function ReplaceAll(s: string, c: char, into: string): string {
    if s == "" then "" else (if s[0] == c then into else [s[0]]) + ReplaceAll(s[1..], c, into)
  }

  function EscapeToml(value: string): string {
    ReplaceAll(ReplaceAll(value, '\\', "\\\\"), '\"', "\\\"")
  }

  function EscapeChar(c: char): string {
    if c == '\\' then "\\\\" else if c == '\"' then "\\\"" else [c]
  }

  lemma {:induction false} ReplaceConcat(s: string, t: string, c: char, into: string)
    ensures ReplaceAll(s + t, c, into) == ReplaceAll(s, c, into) + ReplaceAll(t, c, into)
  {
    if s == "" {
      assert s + t == t;
    } else {
      assert (s + t)[1..] == s[1..] + t;
      ReplaceConcat(s[1..], t, c, into);
    }
  }

  lemma EscapeConcat(s: string, t: string)
    ensures EscapeToml(s + t) == EscapeToml(s) + EscapeToml(t)
  {
    ReplaceConcat(s, t, '\\', "\\\\");
    ReplaceConcat(ReplaceAll(s, '\\', "\\\\"), ReplaceAll(t, '\\', "\\\\"), '\"', "\\\"");
  }

  lemma EscapeOne(c: char)
    ensures EscapeToml([c]) == EscapeChar(c)
  {
    ReplaceOne(c, '\\', "\\\\");
    if c == '\\' {
      ReplaceOne(c, '\"', "\\\"");
      ReplaceConcat([c], [c], '\"', "\\\"");
      assert [c] + [c] == "\\\\";
    } else {
      ReplaceOne(c, '\"', "\\\"");
    }
  }

  lemma ReplaceOne(d: char, c: char, into: string)
    ensures ReplaceAll([d], c, into) == if d == c then into else [d]
  {
    assert [d][1..] == "";
    assert into + "" == into && [d] + "" == [d];
  }

  lemma EscapeCons(s: string)
    requires s != ""
    ensures EscapeToml(s) == EscapeChar(s[0]) + EscapeToml(s[1..])
  {
    assert s == [s[0]] + s[1..];
    EscapeConcat([s[0]], s[1..]);
    EscapeOne(s[0]);
  }

  /** The scanner reads an escaped value back, and stops right behind it, exactly
      when the value holds no forbidden control character; otherwise it rejects. */
  lemma {:induction false} EscapedIsReadBack(value: string, rest: string)
    ensures Scan(EscapeToml(value) + ("\"" + rest)) == if Clean(value) then Some(Scanned(value, rest)) else None
  {
    var tail := "\"" + rest;
    if value == "" {
      assert EscapeToml(value) == "" && "" + tail == tail && tail[1..] == rest;
    } else {
      var c, more := value[0], EscapeToml(value[1..]) + tail;
      EscapedIsReadBack(value[1..], rest);
      EscapeCons(value);
      assert EscapeToml(value) + tail == EscapeChar(c) + more;
      ScanChar(c, more);
      assert value == [c] + value[1..];
      assert Clean(value) <==> !Forbidden(c) && Clean(value[1..]);
    }
  }

  lemma ScanChar(c: char, more: string)
    ensures Scan(EscapeChar(c) + more) == if Forbidden(c) then None else Prepend(c, Scan(more))
  {
    var s := EscapeChar(c) + more;
    if c == '\\' || c == '\"' {
      assert s[0] == '\\' && s[1..] == [c] + more && s[2..] == more;
      assert Escaped([c] + more) == Some((c, 1));
    } else {
      assert s[0] == c && s[1..] == more;
    }
  }

  const SYSTEM_PROMPT := "system_prompt = \""

  const QUOTE := "\""

  const GAP := "\n\n"

  const TEMPLATE := "prompt_template = \"\"\"\n"

  const CLOSE := "\"\"\"\n"

  /** Everything after the system prompt. */
  function Body(promptTemplate: string): string {
    TEMPLATE + promptTemplate + (if Ends(promptTemplate, '\n') then "" else "\n") + CLOSE
  }

  /** The display form of the configuration: the template verbatim, after the
      system prompt, if any, in a form the scanner reads back. */
  method RenderDisplayToml(systemPrompt: Option<string>, promptTemplate: string) returns (raw: string)
    ensures var end := if promptTemplate != "" && promptTemplate[|promptTemplate| - 1] == '\n' then "" else "\n";
      var template := "prompt_template = \"\"\"\n" + promptTemplate + end + "\"\"\"\n";
      && (systemPrompt.None? ==> raw == template)
      && (systemPrompt.Some? ==> Shows(raw, "system_prompt = \"", systemPrompt.value, "\n\n" + template))
  {
    raw := "";
    if systemPrompt.Some? {
      raw := PushPrompt(raw, systemPrompt.value);
      assert raw == SYSTEM_PROMPT + EscapeToml(systemPrompt.value) + (QUOTE + GAP);
      Displayed(SYSTEM_PROMPT, systemPrompt.value, GAP, Body(promptTemplate));
    }
    raw := PushTemplate(raw, promptTemplate);
    assert systemPrompt.None? ==> raw == Body(promptTemplate);
  }

  method PushPrompt(raw: string, systemPrompt: string) returns (r: string)
    ensures r == raw + (SYSTEM_PROMPT + EscapeToml(systemPrompt) + (QUOTE + GAP))
  {
    r := raw + (SYSTEM_PROMPT + EscapeToml(systemPrompt) + (QUOTE + GAP));
  }

  method PushTemplate(raw: string, promptTemplate: string) returns (r: string)
    ensures r == raw + Body(promptTemplate)
  {
    r := raw + TEMPLATE;
    r := r + promptTemplate;
    if !Ends(promptTemplate, '\n') {
      r := r + "\n";
    }
    r := r + CLOSE;
  }

  /** `raw` starts with `head`, and what follows reads back as `value` and
      `rest`, unless `value` holds a forbidden control character. */
  predicate Shows(raw: string, head: string, value: string, rest: string) {
    && head <= raw
    && Scan(raw[|head|..]) == if Clean(value) then Some(Scanned(value, rest)) else None
  }

  lemma Displayed(head: string, value: string, gap: string, body: string)
    ensures Shows(head + EscapeToml(value) + (QUOTE + gap) + body, head, value, gap + body)
  {
    var raw := head + EscapeToml(value) + (QUOTE + gap) + body;
    assert raw[|head|..] == EscapeToml(value) + ("\"" + (gap + body));
    EscapedIsReadBack(value, gap + body);
  }

  predicate Ends(s: string, c: char) { s != "" && s[|s| - 1] == c }

  // ----------------------------------------------------------- the sanitizer

  /** What the sanitizer needs of `char::is_alphabetic` and `char::is_whitespace`:
      no letter is white space or a control character, and the space is the only
      white printable ASCII character. */
  predicate UnicodeTables(letter: char -> bool, white: char -> bool) {
    && (forall c: char :: letter(c) ==> !white(c) && !IsControl(c))
    && (forall c: char :: ' ' <= c <= '~' ==> (white(c) <==> c == ' '))
  }

  /** `char::is_control`: the general category Cc. */
  predicate IsControl(c: char) { c as int < 0x20 || 0x7F <= c as int <= 0x9F }

  predicate Kept(c: char, letter: char -> bool) { ' ' <= c <= '~' || letter(c) }

  /** Every character that is not kept becomes a space. */
  function Mapped(s: string, letter: char -> bool): (r: string)
    ensures |r| == |s|
    ensures forall i :: 0 <= i < |s| ==> r[i] == if ' ' <= s[i] <= '~' || letter(s[i]) then s[i] else ' '
  {
    seq(|s|, i requires 0 <= i < |s| => if Kept(s[i], letter) then s[i] else ' ')
  }

  /** The maximal runs of other characters than the space. */
  function Words(s: string): (ws: seq<string>)
    ensures s != "" && s[|s| - 1] != ' ' ==> ws != []
  {
    if s == "" then []
    else
      var n := |s| - 1;
      var before := Words(s[..n]);
      if s[n] == ' ' then before
      else if n == 0 || s[n - 1] == ' ' then before + [[s[n]]]
      else before[|before| - 1 := before[|before| - 1] + [s[n]]]
  }

  /** Words separated by one space. */
  function Joined(ws: seq<string>): string {
    if ws == [] then ""
    else if |ws| == 1 then ws[0]
    else Joined(ws[..|ws| - 1]) + " " + ws[|ws| - 1]
  }

  /** Runs of spaces collapsed, as the loop leaves them before trimming. */
  function Collapsed(s: string): (r: string)
    ensures Ends(r, ' ') <==> Ends(s, ' ')
  {
    if s == "" then ""
    else
      var before := Collapsed(s[..|s| - 1]);
      if s[|s| - 1] == ' ' && Ends(before, ' ') then before else before + [s[|s| - 1]]
  }

  function Lead(s: string): string { if s != "" && s[0] == ' ' then " " else "" }

  function Trail(s: string): string { if Words(s) != [] && Ends(s, ' ') then " " else "" }

  lemma JoinedGrows(ws: seq<string>, w: string)
    requires ws != []
    ensures Joined(ws + [w]) == Joined(ws) + " " + w
    ensures Joined(ws[|ws| - 1 := ws[|ws| - 1] + w]) == Joined(ws) + w
  {
    assert (ws + [w])[..|ws|] == ws;
    var longer := ws[|ws| - 1 := ws[|ws| - 1] + w];
    assert longer[..|ws| - 1] == ws[..|ws| - 1];
    if |ws| > 1 {
      assert Joined(longer) == Joined(ws[..|ws| - 1]) + " " + (ws[|ws| - 1] + w);
    }
  }

  /** Collapsing runs of spaces is joining the words, but for one space at
      either end. */
  lemma {:induction false} CollapsedIsJoined(s: string)
    ensures Collapsed(s) == Lead(s) + Joined(Words(s)) + Trail(s)
  {
    if s != "" {
      var n := |s| - 1;
      CollapsedIsJoined(s[..n]);
      CollapsedStep(s[..n], s[n]);
      assert s == s[..n] + [s[n]];
    }
  }

  lemma CollapsedStep(p: string, c: char)
    requires Collapsed(p) == Lead(p) + Joined(Words(p)) + Trail(p)
    ensures Collapsed(p + [c]) == Lead(p + [c]) + Joined(Words(p + [c])) + Trail(p + [c])
  {
    var s := p + [c];
    assert s[..|s| - 1] == p && s[|s| - 1] == c;
    if p == "" {
      assert s == [c] && Words(p) == [];
      assert Words(s) == if c == ' ' then [] else [[c]];
    } else {
      assert s[0] == p[0] && s[|s| - 2] == p[|p| - 1];
      if c == ' ' { CollapsedSpace(p, s); } else { CollapsedLetter(p, s, c); }
    }
  }

  lemma CollapsedSpace(p: string, s: string)
    requires p != "" && s == p + " " && s[..|s| - 1] == p
    requires Collapsed(p) == Lead(p) + Joined(Words(p)) + Trail(p)
    ensures Collapsed(s) == Lead(s) + Joined(Words(s)) + Trail(s)
  {
    assert Words(s) == Words(p) && Lead(s) == Lead(p);
    if Words(p) == [] { NoWordsAllSpaces(p); }
  }

  lemma CollapsedLetter(p: string, s: string, c: char)
    requires p != "" && c != ' ' && s == p + [c] && s[..|s| - 1] == p
    requires Collapsed(p) == Lead(p) + Joined(Words(p)) + Trail(p)
    ensures Collapsed(s) == Lead(s) + Joined(Words(s)) + Trail(s)
  {
    assert Lead(s) == Lead(p) && Trail(s) == "" && Collapsed(s) == Collapsed(p) + [c];
    WordsLetter(p, s, c);
    Joins(Lead(p), Joined(Words(p)), Trail(p), [c]);
  }

  lemma Joins(lead: string, mid: string, trail: string, c: string)
    ensures lead + mid + trail + c == lead + (mid + trail + c)
  {
  }

  lemma WordsLetter(p: string, s: string, c: char)
    requires p != "" && c != ' ' && s == p + [c] && s[..|s| - 1] == p
    ensures Joined(Words(s)) == Joined(Words(p)) + Trail(p) + [c]
  {
    var ws := Words(p);
    assert s[|s| - 2] == p[|p| - 1];
    if ws == [] {
      NoWordsAllSpaces(p);
      assert Words(s) == [[c]];
    } else {
      JoinedGrows(ws, [c]);
      assert Words(s) == if Ends(p, ' ') then ws + [[c]] else ws[|ws| - 1 := ws[|ws| - 1] + [c]];
    }
  }

  lemma {:induction false} NoWordsAllSpaces(p: string)
    requires Words(p) == []
    ensures forall i :: 0 <= i < |p| ==> p[i] == ' '
  {
    if p != "" {
      NoWordsAllSpaces(p[..|p| - 1]);
      assert forall i :: 0 <= i < |p| - 1 ==> p[i] == p[..|p| - 1][i];
    }
  }

  predicate Word(w: string) { w != "" && forall i :: 0 <= i < |w| ==> w[i] != ' ' }

  lemma {:induction false} WordsAreWords(s: string)
    ensures forall k :: 0 <= k < |Words(s)| ==> Word(Words(s)[k])
  {
    if s != "" { WordsAreWords(s[..|s| - 1]); }
  }

  function Glued(ws: seq<string>): string {
    if ws == [] then "" else Glued(ws[..|ws| - 1]) + ws[|ws| - 1]
  }

  function Visible(s: string): string {
    if s == "" then ""
    else Visible(s[..|s| - 1]) + (if s[|s| - 1] == ' ' then "" else [s[|s| - 1]])
  }

  /** The words are all there is but spaces, in order. */
  lemma {:induction false} WordsLoseOnlySpaces(s: string)
    ensures Glued(Words(s)) == Visible(s)
  {
    if s != "" {
      var n := |s| - 1;
      WordsLoseOnlySpaces(s[..n]);
      var before := Words(s[..n]);
      if s[n] != ' ' {
        if n == 0 || s[n - 1] == ' ' {
          assert (before + [[s[n]]])[..|before|] == before;
        } else {
          assert s[..n][n - 1] == s[n - 1];
          var w := before[|before| - 1];
          assert before[|before| - 1 := w + [s[n]]][..|before| - 1] == before[..|before| - 1];
        }
      }
    }
  }

  /** Neither doubled nor at either end. */
  predicate Tidy(s: string) {
    && (forall i :: 0 <= i < |s| - 1 ==> s[i] != ' ' || s[i + 1] != ' ')
    && (s != "" ==> s[0] != ' ' && s[|s| - 1] != ' ')
  }

  lemma {:induction false} JoinedIsTidy(ws: seq<string>)
    requires forall k :: 0 <= k < |ws| ==> Word(ws[k])
    ensures Tidy(Joined(ws)) && (ws != [] ==> Joined(ws) != "")
  {
    if |ws| > 1 {
      var n := |ws| - 1;
      JoinedIsTidy(ws[..n]);
      TidyJoin(Joined(ws[..n]), ws[n]);
    }
  }

  lemma TidyJoin(s: string, w: string)
    requires Tidy(s) && s != "" && Word(w)
    ensures Tidy(s + " " + w)
  {
  }

  lemma {:induction false} JoinedHolds(ws: seq<string>, p: char -> bool)
    requires p(' ') && forall k, i :: 0 <= k < |ws| && 0 <= i < |ws[k]| ==> p(ws[k][i])
    ensures forall i :: 0 <= i < |Joined(ws)| ==> p(Joined(ws)[i])
  {
    if |ws| > 1 { JoinedHolds(ws[..|ws| - 1], p); }
  }

  lemma {:induction false} WordsHold(s: string, p: char -> bool)
    requires forall i :: 0 <= i < |s| ==> p(s[i])
    ensures forall k, i :: 0 <= k < |Words(s)| && 0 <= i < |Words(s)[k]| ==> p(Words(s)[k][i])
  {
    if s != "" { WordsHold(s[..|s| - 1], p); }
  }

  function TrimStart(s: string, white: char -> bool): string {
    if s != "" && white(s[0]) then TrimStart(s[1..], white) else s
  }

  function TrimEnd(s: string, white: char -> bool): string {
    if s != "" && white(s[|s| - 1]) then TrimEnd(s[..|s| - 1], white) else s
  }

  function Trim(s: string, white: char -> bool): string {
    TrimEnd(TrimStart(s, white), white)
  }

  /** What the sanitizer promises to return, as a value. */
  function Sanitized(s: string, letter: char -> bool): string {
    Joined(Words(Mapped(s, letter)))
  }

  lemma {:induction false} TrimOfCollapsed(s: string, letter: char -> bool, white: char -> bool)
    requires UnicodeTables(letter, white)
    requires forall i :: 0 <= i < |s| ==> Kept(s[i], letter)
    ensures Trim(EscapeToml(Collapsed(s)), white) == EscapeToml(Joined(Words(s)))
  {
    EscapedParts(s);
    JoinedIsKept(s, letter);
    if Joined(Words(s)) != "" { EscapedEndsAreVisible(Joined(Words(s)), letter, white); }
    TrimEnds(Lead(s), EscapeToml(Joined(Words(s))), Trail(s), white);
  }

  lemma JoinedIsKept(s: string, letter: char -> bool)
    requires forall i :: 0 <= i < |s| ==> Kept(s[i], letter)
    ensures var mid := Joined(Words(s));
      && Tidy(mid) && (mid == "" ==> Trail(s) == "" && EscapeToml(mid) == "")
      && forall i :: 0 <= i < |mid| ==> Kept(mid[i], letter)
  {
    var kept := (c: char) => Kept(c, letter);
    WordsHold(s, kept);
    JoinedHolds(Words(s), kept);
    assert forall i :: 0 <= i < |Joined(Words(s))| ==> kept(Joined(Words(s))[i]);
    WordsAreWords(s);
    JoinedIsTidy(Words(s));
  }

  lemma EscapedParts(s: string)
    ensures EscapeToml(Collapsed(s)) == Lead(s) + EscapeToml(Joined(Words(s))) + Trail(s)
  {
    var mid := Joined(Words(s));
    CollapsedIsJoined(s);
    EscapeConcat(Lead(s) + mid, Trail(s));
    EscapeConcat(Lead(s), mid);
    EscapeOne(' ');
  }

  lemma EscapedEndsAreVisible(mid: string, letter: char -> bool, white: char -> bool)
    requires UnicodeTables(letter, white) && mid != "" && Tidy(mid)
    requires forall i :: 0 <= i < |mid| ==> Kept(mid[i], letter)
    ensures var out := EscapeToml(mid); out != "" && !white(out[0]) && !white(out[|out| - 1])
  {
    EscapeEnds(mid);
    assert Kept(mid[0], letter) && Kept(mid[|mid| - 1], letter);
  }

  lemma EscapeSnoc(s: string)
    requires s != ""
    ensures EscapeToml(s) == EscapeToml(s[..|s| - 1]) + EscapeChar(s[|s| - 1])
  {
    var n := |s| - 1;
    assert s == s[..n] + [s[n]];
    EscapeConcat(s[..n], [s[n]]);
    EscapeOne(s[n]);
  }

  lemma EscapeEnds(s: string)
    requires s != ""
    ensures var out := EscapeToml(s);
      && out != ""
      && out[0] == EscapeChar(s[0])[0]
      && out[|out| - 1] == s[|s| - 1]
  {
    EscapeCons(s);
    EscapeSnoc(s);
  }

  lemma TrimEnds(lead: string, mid: string, tail: string, white: char -> bool)
    requires (lead == "" || lead == " ") && (tail == "" || tail == " ") && white(' ')
    requires if mid == "" then tail == "" else !white(mid[0]) && !white(mid[|mid| - 1])
    ensures Trim(lead + mid + tail, white) == mid
  {
    var s := lead + mid + tail;
    if lead == " " { assert s[1..] == mid + tail; } else { assert s == mid + tail; }
    assert TrimStart(mid + tail, white) == mid + tail;
    if tail == " " {
      assert (mid + tail)[..|mid|] == mid && (mid + tail)[|mid|] == ' ';
      assert TrimEnd(mid + tail, white) == TrimEnd(mid, white);
    } else {
      assert mid + tail == mid;
    }
  }

  /** The sanitizer's loop. */
  method SanitizeForToml(input: string, letter: char -> bool, white: char -> bool) returns (r: string)
    requires UnicodeTables(letter, white)
    ensures r == EscapeToml(Sanitized(input, letter))
  {
    var result := "";
    var prevWasSpace := false;
    ghost var mapped := Mapped(input, letter);
    for i := 0 to |input|
      invariant result == EscapeToml(Collapsed(mapped[..i]))
      invariant prevWasSpace <==> Ends(Collapsed(mapped[..i]), ' ')
    {
      ghost var before := mapped[..i];
      assert mapped[..i + 1] == before + [mapped[i]];
      LoopStep(before, mapped[i]);
      var c := input[i];
      if c == '\n' || c == '\r' || c == '\t' {
        assert !letter(c) && mapped[i] == ' ';
        if !prevWasSpace {
          result := result + " ";
          prevWasSpace := true;
        }
      } else if c == '\\' {
        result := result + "\\\\";
        prevWasSpace := false;
      } else if c == '\"' {
        result := result + "\\\"";
        prevWasSpace := false;
      } else if ' ' <= c <= '~' {
        if c == ' ' {
          if !prevWasSpace {
            result := result + " ";
            prevWasSpace := true;
          }
        } else {
          result := result + [c];
          prevWasSpace := false;
        }
      } else if letter(c) {
        result := result + [c];
        prevWasSpace := false;
      } else {
        if !prevWasSpace {
          result := result + " ";
          prevWasSpace := true;
        }
      }
    }
    assert mapped[..|input|] == mapped;
    TrimOfCollapsed(mapped, letter, white);
    r := Trim(result, white);
  }

  lemma LoopStep(p: string, c: char)
    ensures EscapeToml(Collapsed(p + [c]))
      == EscapeToml(Collapsed(p)) + (if c == ' ' && Ends(p, ' ') then "" else EscapeChar(c))
    ensures Ends(p + [c], ' ') <==> c == ' '
  {
    assert (p + [c])[..|p|] == p;
    EscapeConcat(Collapsed(p), [c]);
    EscapeOne(c);
  }

  /** A TOML reader gets back exactly the words of the input, characters that are
      not kept counting as spaces, separated by single spaces, with no control
      character; nothing can break out of the string. */
  lemma SanitizedIsReadBack(input: string, rest: string, letter: char -> bool, white: char -> bool)
    requires UnicodeTables(letter, white)
    ensures Scan(EscapeToml(Sanitized(input, letter)) + ("\"" + rest))
      == Some(Scanned(Sanitized(input, letter), rest))
    ensures Tidy(Sanitized(input, letter))
    ensures forall i :: 0 <= i < |Sanitized(input, letter)| ==> !IsControl(Sanitized(input, letter)[i])
    ensures Visible(Mapped(input, letter)) == Glued(Words(Mapped(input, letter)))
  {
    var mapped := Mapped(input, letter);
    var plain := (c: char) => !IsControl(c);
    WordsAreWords(mapped);
    JoinedIsTidy(Words(mapped));
    WordsHold(mapped, plain);
    JoinedHolds(Words(mapped), plain);
    var value := Sanitized(input, letter);
    assert forall i :: 0 <= i < |value| ==> plain(value[i]);
    EscapedIsReadBack(value, rest);
    WordsLoseOnlySpaces(mapped);
  }

  // ---------------------------------------------------- when it is not needed

  predicate IsEmoji(c: char) {
    var n := c as int;
    0x1F300 <= n <= 0x1F9FF || 0x2600 <= n <= 0x26FF || 0x2700 <= n <= 0x27BF || 0xFE00 <= n <= 0xFE0F || n == 0x200D
  }

  predicate NeedsOne(c: char) {
    c == '\n' || c == '\r' || c == '\t' || c == '\\' || c == '\"' || IsControl(c) || IsEmoji(c)
  }

  /** Neither quote nor backslash nor control character nor emoji, by code point. */
  predicate Harmless(c: char) {
    var n := c as int;
    && n >= 0x20 && n != 0x22 && n != 0x5C && !(0x7F <= n < 0xA0) && n != 0x200D
    && !(0x2600 <= n < 0x27C0) && !(0xFE00 <= n < 0xFE10) && !(0x1F300 <= n < 0x1FA00)
  }

  predicate Breaks(c: char) { c == '\\' || c == '\"' || Forbidden(c) }

  method NeedsSanitization(input: string) returns (needed: bool)
    ensures needed <==> exists i :: 0 <= i < |input| && NeedsOne(input[i])
    ensures !needed ==> forall i :: 0 <= i < |input| ==> Harmless(input[i])
    ensures needed ==> exists i :: 0 <= i < |input| && !Harmless(input[i])
    ensures !needed ==> Scan(input + QUOTE) == Some(Scanned(input, ""))
  {
    needed := false;
    for i := 0 to |input|
      invariant forall k :: 0 <= k < i ==> !NeedsOne(input[k])
    {
      if NeedsOne(input[i]) {
        return true;
      }
    }
    assert forall i :: 0 <= i < |input| ==> !NeedsOne(input[i]) && !Breaks(input[i]);
    RawIsReadBackIff(input, "");
    assert input + (QUOTE + "") == input + QUOTE;
  }

  lemma {:induction false} ScanShrinks(s: string)
    requires Scan(s).Some?
    ensures |Scan(s).value.value| + |Scan(s).value.rest| < |s|
    decreases |s|
  {
    if s[0] == '\\' {
      ScanShrinks(s[Escaped(s[1..]).value.1 + 1..]);
    } else if s[0] != '\"' {
      ScanShrinks(s[1..]);
    }
  }

  /** Unescaped text reads back as itself exactly when no character of it breaks
      a basic string. */
  lemma {:induction false} RawIsReadBackIff(s: string, rest: string)
    ensures Scan(s + (QUOTE + rest)) == Some(Scanned(s, rest)) <==>
      forall i :: 0 <= i < |s| ==> !Breaks(s[i])
  {
    var t := s + (QUOTE + rest);
    if s == "" {
      assert t == QUOTE + rest && t[1..] == rest;
    } else {
      var more := s[1..] + (QUOTE + rest);
      assert t == [s[0]] + more && s == [s[0]] + s[1..];
      RawIsReadBackIff(s[1..], rest);
      RawStep(s[0], s[1..], more, rest);
      assert (forall i :: 0 <= i < |s| ==> !Breaks(s[i])) <==>
        !Breaks(s[0]) && forall i :: 0 <= i < |s[1..]| ==> !Breaks(s[1..][i]);
    }
  }

  lemma RawStep(c: char, s: string, more: string, rest: string)
    requires |more| == |s| + 1 + |rest|
    ensures Scan([c] + more) == Some(Scanned([c] + s, rest)) <==>
      !Breaks(c) && Scan(more) == Some(Scanned(s, rest))
  {
    var t := [c] + more;
    assert t[0] == c && t[1..] == more;
    assert ([c] + s)[1..] == s;
    if Scan(t).Some? && c == '\\' {
      ScanShrinks(t[Escaped(more).value.1 + 1..]);
    } else if Scan(t).Some? && c != '\"' {
      assert Scan(t) == Prepend(c, Scan(more));
      assert ([c] + Scan(more).value.value)[1..] == Scan(more).value.value;
    }
  }
}
