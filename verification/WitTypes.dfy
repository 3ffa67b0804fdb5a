// The translation of WIT type texts to Rust type texts: a recursive scanner that
// peels off one wrapper a step and splits the arms of a result at the first
// comma. The theorem says exactly when that split is the right one.
module WitTypes {
  import opened Common

  // ------------------------------------------------------------- characters

  /** `char::is_whitespace`: the Unicode property White_Space. */
  predicate IsWhite(c: char) {
    var n := c as int;
    || 9 <= n <= 13 || n == 0x20 || n == 0x85 || n == 0xA0 || n == 0x1680 || 0x2000 <= n <= 0x200A
    || n == 0x2028 || n == 0x2029 || n == 0x202F || n == 0x205F || n == 0x3000
  }

  function TrimStart(s: string): (r: string)
    ensures |r| <= |s|
  {
    if s != "" && IsWhite(s[0]) then TrimStart(s[1..]) else s
  }

  function TrimEnd(s: string): (r: string)
    ensures |r| <= |s|
  {
    if s != "" && IsWhite(s[|s| - 1]) then TrimEnd(s[..|s| - 1]) else s
  }

  function Trim(s: string): (r: string)
    ensures |r| <= |s|
  {
    TrimEnd(TrimStart(s))
  }

  /** Trimming takes off white space at both ends, all of it and nothing else. */
  lemma TrimMeaning(s: string) returns (lead: string, tail: string)
    ensures s == lead + Trim(s) + tail && AllWhite(lead) && AllWhite(tail)
    ensures Trim(s) != "" ==> !IsWhite(Trim(s)[0]) && !IsWhite(Trim(s)[|Trim(s)| - 1])
  {
    lead := TrimStartMeaning(s);
    tail := TrimEndMeaning(TrimStart(s));
  }

  predicate AllWhite(s: string) { forall i :: 0 <= i < |s| ==> IsWhite(s[i]) }

  lemma {:induction false} TrimStartMeaning(s: string) returns (lead: string)
    ensures s == lead + TrimStart(s) && AllWhite(lead)
    ensures TrimStart(s) != "" ==> !IsWhite(TrimStart(s)[0])
  {
    lead := "";
    if s != "" && IsWhite(s[0]) {
      lead := TrimStartMeaning(s[1..]);
      lead := [s[0]] + lead;
      assert s == [s[0]] + s[1..];
    } else {
      assert s == "" + s;
    }
  }

  lemma {:induction false} TrimEndMeaning(s: string) returns (tail: string)
    ensures s == TrimEnd(s) + tail && AllWhite(tail) && TrimEnd(s) <= s
    ensures TrimEnd(s) != "" ==> !IsWhite(TrimEnd(s)[|TrimEnd(s)| - 1])
  {
    tail := "";
    if s != "" && IsWhite(s[|s| - 1]) {
      tail := TrimEndMeaning(s[..|s| - 1]);
      tail := tail + [s[|s| - 1]];
      assert s == s[..|s| - 1] + [s[|s| - 1]];
    } else {
      assert s == s + "";
    }
  }

  function Count(s: string, c: char): nat {
    if s == "" then 0 else (if s[0] == c then 1 else 0) + Count(s[1..], c)
  }

  lemma {:induction false} CountConcat(s: string, t: string, c: char)
    ensures Count(s + t, c) == Count(s, c) + Count(t, c)
  {
    if s == "" {
      assert s + t == t;
    } else {
      assert (s + t)[1..] == s[1..] + t;
      CountConcat(s[1..], t, c);
    }
  }

  lemma {:induction false} CountTrimStart(s: string, c: char)
    requires !IsWhite(c)
    ensures Count(TrimStart(s), c) == Count(s, c)
  {
    if s != "" && IsWhite(s[0]) { CountTrimStart(s[1..], c); }
  }

  lemma {:induction false} CountTrimEnd(s: string, c: char)
    requires !IsWhite(c)
    ensures Count(TrimEnd(s), c) == Count(s, c)
  {
    if s != "" && IsWhite(s[|s| - 1]) {
      CountTrimEnd(s[..|s| - 1], c);
      CountSnoc(s, c);
    }
  }

  lemma CountSnoc(s: string, c: char)
    requires s != ""
    ensures Count(s, c) == Count(s[..|s| - 1], c) + (if s[|s| - 1] == c then 1 else 0)
  {
    var last := [s[|s| - 1]];
    assert s == s[..|s| - 1] + last && last[1..] == "";
    CountConcat(s[..|s| - 1], last, c);
  }

  function Closes(s: string): nat { Count(s, '>') }

  function Opens(s: string): nat { Count(s, '<') }

  function FirstComma(s: string): (n: nat)
    ensures n <= |s| && (n < |s| ==> s[n] == ',')
    ensures forall i :: 0 <= i < n ==> s[i] != ','
  {
    if s == "" || s[0] == ',' then 0 else 1 + FirstComma(s[1..])
  }

  predicate NoComma(s: string) { FirstComma(s) == |s| }

  // -------------------------------------------------------------- the code

  datatype Head = OptionOf | ListOf | ResultOf

  function WitName(h: Head): string {
    match h case OptionOf => "option" case ListOf => "list" case ResultOf => "result"
  }

  function RustName(h: Head): string {
    match h case OptionOf => "Option" case ListOf => "Vec" case ResultOf => "Result"
  }

  function Opening(h: Head): (s: string)
    ensures s != ""
  {
    WitName(h) + "<"
  }

  function RustOpening(h: Head): string {
    RustName(h) + "<"
  }

  function HeadOf(s: string): Option<Head> {
    if Opening(OptionOf) <= s then Some(OptionOf)
    else if Opening(ListOf) <= s then Some(ListOf)
    else if Opening(ResultOf) <= s then Some(ResultOf)
    else None
  }

  function Upper(c: char): char {
    if 'a' <= c <= 'z' then c - 'a' + 'A' else c
  }

  /** Drops `-` and `_`, and capitalises what follows one. */
  function Camel(s: string, up: bool): string {
    if s == "" then ""
    else if s[0] == '-' || s[0] == '_' then Camel(s[1..], true)
    else [if up then Upper(s[0]) else s[0]] + Camel(s[1..], false)
  }

  lemma {:induction false} CamelStep(s: string, i: nat, up: bool)
    requires i < |s|
    ensures var c := s[i];
      Camel(s[i..], up) == if c == '-' || c == '_' then Camel(s[i + 1..], true)
        else [if up then Upper(c) else c] + Camel(s[i + 1..], false)
  {
    assert s[i..][1..] == s[i + 1..];
  }

  method KebabToCamel(input: string) returns (result: string)
    ensures result == Camel(input, true)
  {
    result := "";
    var capitalizeNext := true;
    for i := 0 to |input|
      invariant Camel(input, true) == result + Camel(input[i..], capitalizeNext)
    {
      var c := input[i];
      CamelStep(input, i, capitalizeNext);
      if c == '-' || c == '_' {
        capitalizeNext := true;
      } else if capitalizeNext {
        result := result + [Upper(c)];
        capitalizeNext := false;
      } else {
        result := result + [c];
      }
    }
  }

  /** Only the small letters of ASCII change, to those 32 before them. */
  lemma UpperIsAscii(c: char)
    ensures Upper(c) as int == if 0x61 <= c as int <= 0x7A then c as int - 32 else c as int
  {
  }

  /** It does not matter which of the two separates the words. */
  lemma {:induction false} EitherSeparator(s: string, t: string, up: bool)
    requires |s| == |t| && forall i :: 0 <= i < |s| ==> s[i] == t[i] || (s[i] == '-' && t[i] == '_')
    ensures Camel(s, up) == Camel(t, up)
  {
    if s != "" {
      assert forall i :: 0 <= i < |s[1..]| ==> s[1..][i] == s[i + 1] && t[1..][i] == t[i + 1];
      var next := if s[0] == '-' || s[0] == '_' then true else false;
      EitherSeparator(s[1..], t[1..], next);
    }
  }

  /** The arms of a result: split at the first comma, trimmed. */
  function Arms(inner: string): (r: (string, string))
    ensures |r.0| <= |inner| && |r.1| <= |inner|
  {
    var i := FirstComma(inner);
    if i == |inner| then (Trim(inner), "") else (Trim(inner[..i]), Trim(inner[i + 1..]))
  }

  function Enclosed(h: Head, r: Option<string>): Option<string> {
    match r case None => None case Some(t) => Some(RustOpening(h) + t + ">")
  }

  function Paired(ok: Option<string>, err: Option<string>): Option<string> {
    if ok.None? || err.None? then None else Some(ok.value + (", " + err.value))
  }

  type Table = map<string, string>

  /** The translation, with the primitive names in `prims`; `None` is the panic
      of a slice whose end lies before its start. */
  function WitToRust(s: string, prims: Table): Option<string>
    decreases |s|
  {
    if s in prims then Some(prims[s])
    else match HeadOf(s)
      case None => Some(Camel(s, true))
      case Some(h) =>
        if |s| == |Opening(h)| then None
        else
          var inner := s[|Opening(h)|..|s| - 1];
          if h != ResultOf then Enclosed(h, WitToRust(inner, prims))
          else
            var (ok, err) := Arms(inner);
            Enclosed(h, Paired(if ok == "_" then Some("_") else WitToRust(ok, prims), WitToRust(err, prims)))
  }

  // ---------------------------------------------------------------- the types

  /** WIT types; `Named` also covers the bare `result`. */
  datatype Type =
    | Prim(name: string)
    | Named(words: seq<string>)
    | Opt(item: Type)
    | Lst(item: Type)
    | Both(ok: Type, err: Type)
    | ErrOnly(err: Type)
    | OkOnly(ok: Type)

  /** Neither a delimiter of the type syntax nor white space. */
  predicate Plain(c: char) { c != '<' && c != '>' && c != '(' && c != ',' && c != '_' && !IsWhite(c) }

  predicate PlainText(s: string) { s != "" && forall i :: 0 <= i < |s| ==> Plain(s[i]) }

  predicate NoParens(s: string) { forall i :: 0 <= i < |s| ==> s[i] != '(' }

  predicate PlainTable(prims: Table) {
    forall k :: k in prims ==> PlainText(k) && Closes(prims[k]) == 0 && NoParens(prims[k])
  }

  predicate Word(w: string) { PlainText(w) && forall i :: 0 <= i < |w| ==> w[i] != '-' }

  predicate WellFormed(t: Type, prims: Table) {
    match t
    case Prim(n) => n in prims
    case Named(ws) => ws != [] && (forall i :: 0 <= i < |ws| ==> Word(ws[i])) && Dashed(ws) !in prims
    case Opt(u) => WellFormed(u, prims)
    case Lst(u) => WellFormed(u, prims)
    case Both(ok, err) => WellFormed(ok, prims) && WellFormed(err, prims)
    case ErrOnly(err) => WellFormed(err, prims)
    case OkOnly(ok) => WellFormed(ok, prims)
  }

  function Dashed(ws: seq<string>): string {
    if ws == [] then "" else if |ws| == 1 then ws[0] else ws[0] + ("-" + Dashed(ws[1..]))
  }

  function Capitalized(w: string): string {
    if w == "" then "" else [Upper(w[0])] + w[1..]
  }

  function CamelWords(ws: seq<string>): string {
    if ws == [] then "" else Capitalized(ws[0]) + CamelWords(ws[1..])
  }

  /** The wrapper around a type text, and what it wraps. */
  function Wrapper(t: Type): Head
    requires !t.Prim? && !t.Named?
  {
    if t.Opt? then OptionOf else if t.Lst? then ListOf else ResultOf
  }

  function Body(t: Type): string
    requires !t.Prim? && !t.Named?
    decreases t, 0
  {
    match t
    case Opt(u) => Print(u)
    case Lst(u) => Print(u)
    case Both(ok, err) => Print(ok) + (", " + Print(err))
    case ErrOnly(err) => "_" + (", " + Print(err))
    case OkOnly(ok) => Print(ok)
  }

  function Print(t: Type): string
    decreases t, 1
  {
    if t.Prim? then t.name
    else if t.Named? then Dashed(t.words)
    else Opening(Wrapper(t)) + Body(t) + ">"
  }

  /** What the translation writes for a type when it splits every result in the
      right place: a missing success arm stays `_`, a missing error arm empty. */
  function Emitted(t: Type, prims: Table): string
    requires WellFormed(t, prims)
  {
    match t
    case Prim(n) => prims[n]
    case Named(ws) => CamelWords(ws)
    case Opt(u) => RustOpening(OptionOf) + Emitted(u, prims) + ">"
    case Lst(u) => RustOpening(ListOf) + Emitted(u, prims) + ">"
    case Both(ok, err) => RustOpening(ResultOf) + (Emitted(ok, prims) + (", " + Emitted(err, prims))) + ">"
    case ErrOnly(err) => RustOpening(ResultOf) + ("_" + (", " + Emitted(err, prims))) + ">"
    case OkOnly(ok) => RustOpening(ResultOf) + (Emitted(ok, prims) + (", " + "")) + ">"
  }

  /** No success arm of a result has a comma in its text. */
  predicate CommaFreeArms(t: Type) {
    match t
    case Prim(_) => true
    case Named(_) => true
    case Opt(u) => CommaFreeArms(u)
    case Lst(u) => CommaFreeArms(u)
    case Both(ok, err) => NoComma(Print(ok)) && CommaFreeArms(ok) && CommaFreeArms(err)
    case ErrOnly(err) => CommaFreeArms(err)
    case OkOnly(ok) => NoComma(Print(ok)) && CommaFreeArms(ok)
  }

  // ------------------------------------------------------------ small lemmas

  lemma OpeningShape(h: Head)
    ensures Opens(Opening(h)) == 1 && Closes(Opening(h)) == 0 && Closes(RustOpening(h)) == 0
    ensures NoComma(Opening(h)) && !IsWhite(Opening(h)[0]) && Opening(h)[0] != '_' && |Opening(h)| > 1
    ensures Opening(h)[|Opening(h)| - 1] == '<'
  {
    OpenedName(WitName(h));
    OpenedName(RustName(h));
  }

  lemma OpenedName(name: string)
    requires forall i :: 0 <= i < |name| ==> Plain(name[i])
    ensures Opens(name + "<") == 1 && Closes(name + "<") == 0 && NoComma(name + "<")
  {
    var s := name + "<";
    PlainCounts(name);
    CountSnoc(s, '<');
    CountSnoc(s, '>');
    assert s[..|s| - 1] == name;
    assert forall i :: 0 <= i < |s| ==> s[i] != ',';
  }

  lemma {:induction false} PlainCounts(s: string)
    requires forall i :: 0 <= i < |s| ==> Plain(s[i])
    ensures Opens(s) == 0 && Closes(s) == 0
  {
    if s != "" { PlainCounts(s[1..]); }
  }

  lemma HeadOfOpening(h: Head, rest: string)
    ensures HeadOf(Opening(h) + rest) == Some(h)
  {
    var s := Opening(h) + rest;
    assert s[0] == Opening(h)[0];
    assert Opening(h) <= s;
  }

  lemma NoHead(s: string)
    requires Opens(s) == 0
    ensures HeadOf(s) == None
  {
    if h :| Opening(h) <= s {
      OpeningShape(h);
      assert s == Opening(h) + s[|Opening(h)|..];
      CountConcat(Opening(h), s[|Opening(h)|..], '<');
    }
  }

  lemma NotPrimitive(h: Head, rest: string, prims: Table)
    requires PlainTable(prims)
    ensures Opening(h) + rest !in prims
  {
    var s := Opening(h) + rest;
    OpeningShape(h);
    assert !Plain(s[|Opening(h)| - 1]);
  }

  /** The translated arms, as the code pairs them. */
  function ArmsToRust(inner: string, prims: Table): Option<string> {
    var (ok, err) := Arms(inner);
    Paired(if ok == "_" then Some("_") else WitToRust(ok, prims), WitToRust(err, prims))
  }

  /** One step of the translation. */
  lemma Peel(h: Head, inner: string, z: char, prims: Table)
    requires PlainTable(prims)
    ensures var s := Opening(h) + inner + [z];
      WitToRust(s, prims) == Enclosed(h, if h == ResultOf then ArmsToRust(inner, prims) else WitToRust(inner, prims))
  {
    var s := Opening(h) + inner + [z];
    assert s == Opening(h) + (inner + [z]);
    HeadOfOpening(h, inner + [z]);
    NotPrimitive(h, inner + [z], prims);
    assert s[|Opening(h)|..|s| - 1] == inner;
  }

  lemma EmptyText(prims: Table)
    requires PlainTable(prims)
    ensures WitToRust("", prims) == Some("")
  {
    NoHead("");
  }

  // --------------------------------------------- closing brackets never vanish

  lemma {:induction false} CamelKeepsBrackets(s: string, up: bool)
    ensures Closes(Camel(s, up)) == Closes(s)
  {
    if s != "" {
      CamelKeepsBrackets(s[1..], true);
      CamelKeepsBrackets(s[1..], false);
      if s[0] != '-' && s[0] != '_' {
        var c := if up then Upper(s[0]) else s[0];
        assert Camel(s, up)[0] == c && Camel(s, up)[1..] == Camel(s[1..], false);
      }
    }
  }

  lemma ArmsCount(inner: string)
    ensures Closes(Arms(inner).0) + Closes(Arms(inner).1) == Closes(inner)
  {
    var i := FirstComma(inner);
    if i == |inner| {
      CountTrim(inner, '>');
    } else {
      CountTrim(inner[..i], '>');
      CountTrim(inner[i + 1..], '>');
      assert inner == inner[..i] + inner[i..] && inner[i..][1..] == inner[i + 1..];
      CountConcat(inner[..i], inner[i..], '>');
    }
  }

  lemma CountTrim(s: string, c: char)
    requires !IsWhite(c)
    ensures Count(Trim(s), c) == Count(s, c)
  {
    CountTrimStart(s, c);
    CountTrimEnd(TrimStart(s), c);
  }

  lemma EnclosedCount(h: Head, body: string)
    ensures Closes(RustOpening(h) + body + ">") == Closes(body) + 1
    ensures Closes(Opening(h) + body + ">") == Closes(body) + 1
    ensures Opens(Opening(h) + body + ">") == Opens(body) + 1
  {
    OpeningShape(h);
    CountConcat(RustOpening(h), body, '>');
    CountConcat(RustOpening(h) + body, ">", '>');
    CountConcat(Opening(h), body, '>');
    CountConcat(Opening(h) + body, ">", '>');
    CountConcat(Opening(h), body, '<');
    CountConcat(Opening(h) + body, ">", '<');
    assert Closes(">") == 1 && Opens(">") == 0 by { assert ">"[1..] == ""; }
  }

  lemma PairedCount(ok: string, err: string, c: char)
    requires c == '<' || c == '>'
    ensures Count(ok + (", " + err), c) == Count(ok, c) + Count(err, c)
  {
    CountConcat(", ", err, c);
    CountConcat(ok, ", " + err, c);
    assert Count(", ", c) == 0 by { assert ", "[1..] == " " && " "[1..] == ""; }
  }

  /** Only an `Opening` followed by something is translated piecewise. */
  lemma Decompose(s: string, prims: Table) returns (h: Head, inner: string, z: char)
    requires s !in prims && HeadOf(s).Some? && |s| > |Opening(HeadOf(s).value)|
    ensures HeadOf(s) == Some(h) && s == Opening(h) + inner + [z] && |inner| < |s|
  {
    h := HeadOf(s).value;
    HeadIsPrefix(s);
    var n := |Opening(h)|;
    inner, z := s[n..|s| - 1], s[|s| - 1];
    Pieces(s, n);
  }

  lemma HeadIsPrefix(s: string)
    requires HeadOf(s).Some?
    ensures Opening(HeadOf(s).value) <= s
  {
  }

  lemma Pieces(s: string, n: nat)
    requires n < |s|
    ensures s == s[..n] + s[n..|s| - 1] + [s[|s| - 1]]
  {
  }

  lemma SourceCount(h: Head, inner: string, z: char)
    ensures var s := Opening(h) + inner + [z];
      Closes(s) == Closes(inner) + (if z == '>' then 1 else 0)
      && Opens(s) == Opens(inner) + 1 + (if z == '<' then 1 else 0)
  {
    var s := Opening(h) + inner + [z];
    OpeningShape(h);
    CountSnoc(s, '<');
    CountSnoc(s, '>');
    assert s[..|s| - 1] == Opening(h) + inner;
    CountConcat(Opening(h), inner, '<');
    CountConcat(Opening(h), inner, '>');
  }

  /** No text loses a closing bracket in translation. */
  lemma {:induction false} NeverFewer(s: string, prims: Table)
    requires PlainTable(prims) && WitToRust(s, prims).Some?
    ensures Closes(WitToRust(s, prims).value) >= Closes(s)
    decreases |s|
  {
    if s in prims {
      PlainCounts(s);
    } else if HeadOf(s).None? {
      CamelKeepsBrackets(s, true);
    } else {
      var h, inner, z := Decompose(s, prims);
      Peel(h, inner, z, prims);
      SourceCount(h, inner, z);
      if h != ResultOf {
        NeverFewer(inner, prims);
        EnclosedCount(h, WitToRust(inner, prims).value);
      } else {
        ArmsNeverFewer(inner, prims, |s|);
      }
    }
  }

  lemma {:induction false} ArmsNeverFewer(inner: string, prims: Table, size: nat)
    requires PlainTable(prims) && ArmsToRust(inner, prims).Some? && |inner| < size
    ensures Closes(ArmsToRust(inner, prims).value) >= Closes(inner)
    ensures Closes(RustOpening(ResultOf) + ArmsToRust(inner, prims).value + ">") >= Closes(inner) + 1
    decreases size, 0
  {
    var (ok, err) := Arms(inner);
    ArmsCount(inner);
    if ok == "_" {
      assert Closes("_") == 0 by { assert "_"[1..] == ""; }
    } else {
      NeverFewer(ok, prims);
    }
    NeverFewer(err, prims);
    var okRust := if ok == "_" then "_" else WitToRust(ok, prims).value;
    PairedCount(okRust, WitToRust(err, prims).value, '>');
    EnclosedCount(ResultOf, ArmsToRust(inner, prims).value);
  }

  // ----------------------------------------------------- the printed texts

  lemma {:induction false} DashedIsPlain(ws: seq<string>)
    requires ws != [] && forall i :: 0 <= i < |ws| ==> Word(ws[i])
    ensures PlainText(Dashed(ws))
  {
    if |ws| > 1 { DashedIsPlain(ws[1..]); }
  }

  lemma {:induction false} CamelInside(w: string, rest: string)
    requires forall i :: 0 <= i < |w| ==> Plain(w[i]) && w[i] != '-'
    ensures Camel(w + rest, false) == w + Camel(rest, false)
  {
    if w == "" {
      assert w + rest == rest;
    } else {
      assert (w + rest)[1..] == w[1..] + rest;
      CamelInside(w[1..], rest);
    }
  }

  /** Each word capitalised, the dashes gone. */
  lemma {:induction false} CamelOfDashed(ws: seq<string>)
    requires ws != [] && forall i :: 0 <= i < |ws| ==> Word(ws[i])
    ensures Camel(Dashed(ws), true) == CamelWords(ws)
  {
    var w := ws[0];
    var rest := if |ws| == 1 then "" else "-" + Dashed(ws[1..]);
    assert Dashed(ws) == w + rest;
    assert (w + rest)[1..] == w[1..] + rest;
    CamelInside(w[1..], rest);
    assert Camel(w + rest, true) == [Upper(w[0])] + (w[1..] + Camel(rest, false));
    if |ws| > 1 {
      CamelOfDashed(ws[1..]);
      assert rest[1..] == Dashed(ws[1..]);
    } else {
      assert CamelWords(ws[1..]) == "";
    }
  }

  predicate Leaf(t: Type) { t.Prim? || t.Named? }

  lemma LeafIsPlain(t: Type, prims: Table)
    requires Leaf(t) && WellFormed(t, prims) && PlainTable(prims)
    ensures PlainText(Print(t)) && Opens(Print(t)) == 0 && Closes(Print(t)) == 0
  {
    if t.Named? { DashedIsPlain(t.words); }
    PlainCounts(Print(t));
  }

  predicate Bounded(s: string) { s != "" && !IsWhite(s[0]) && !IsWhite(s[|s| - 1]) }

  lemma WrappedShape(h: Head, body: string)
    ensures Bounded(Opening(h) + body + ">") && Opening(h) + body + ">" != "_"
  {
    OpeningShape(h);
    assert (Opening(h) + body + ">")[0] == Opening(h)[0];
  }

  /** Printed types are bounded by visible characters, and balanced. */
  lemma {:induction false} PrintShape(t: Type, prims: Table)
    requires WellFormed(t, prims) && PlainTable(prims)
    ensures Bounded(Print(t)) && Print(t) != "_"
    ensures Opens(Print(t)) == Closes(Print(t))
    decreases t, 1
  {
    if Leaf(t) {
      LeafIsPlain(t, prims);
    } else {
      BodyBalanced(t, prims);
      WrappedShape(Wrapper(t), Body(t));
      EnclosedCount(Wrapper(t), Body(t));
    }
  }

  lemma {:induction false} BodyBalanced(t: Type, prims: Table)
    requires WellFormed(t, prims) && PlainTable(prims) && !Leaf(t)
    ensures Opens(Body(t)) == Closes(Body(t))
    decreases t, 0
  {
    match t
    case Opt(u) => PrintShape(u, prims);
    case Lst(u) => PrintShape(u, prims);
    case OkOnly(ok) => PrintShape(ok, prims);
    case Both(ok, err) =>
      PrintShape(ok, prims);
      PrintShape(err, prims);
      PairedCount(Print(ok), Print(err), '<');
      PairedCount(Print(ok), Print(err), '>');
    case ErrOnly(err) =>
      PrintShape(err, prims);
      PairedCount("_", Print(err), '<');
      PairedCount("_", Print(err), '>');
      assert Opens("_") == 0 && Closes("_") == 0 by { assert "_"[1..] == ""; }
  }

  /** The written form has as many closing brackets as the printed type. */
  lemma {:induction false} SameBrackets(t: Type, prims: Table)
    requires WellFormed(t, prims) && PlainTable(prims)
    ensures Closes(Emitted(t, prims)) == Closes(Print(t))
    decreases t, 1
  {
    if t.Prim? {
      PlainCounts(t.name);
    } else if t.Named? {
      CamelOfDashed(t.words);
      CamelKeepsBrackets(Dashed(t.words), true);
    } else {
      SameBracketsInside(t, prims);
      EnclosedCount(Wrapper(t), Body(t));
      EnclosedCount(Wrapper(t), EmittedBody(t, prims));
    }
  }

  function EmittedBody(t: Type, prims: Table): string
    requires WellFormed(t, prims) && !Leaf(t)
  {
    match t
    case Opt(u) => Emitted(u, prims)
    case Lst(u) => Emitted(u, prims)
    case Both(ok, err) => Emitted(ok, prims) + (", " + Emitted(err, prims))
    case ErrOnly(err) => "_" + (", " + Emitted(err, prims))
    case OkOnly(ok) => Emitted(ok, prims) + (", " + "")
  }

  lemma {:induction false} SameBracketsInside(t: Type, prims: Table)
    requires WellFormed(t, prims) && PlainTable(prims) && !Leaf(t)
    ensures Closes(EmittedBody(t, prims)) == Closes(Body(t))
    decreases t, 0
  {
    match t
    case Opt(u) => SameBrackets(u, prims);
    case Lst(u) => SameBrackets(u, prims);
    case OkOnly(ok) =>
      SameBrackets(ok, prims);
      PairedCount(Emitted(ok, prims), "", '>');
    case Both(ok, err) =>
      SameBrackets(ok, prims);
      SameBrackets(err, prims);
      PairedCount(Print(ok), Print(err), '>');
      PairedCount(Emitted(ok, prims), Emitted(err, prims), '>');
    case ErrOnly(err) =>
      SameBrackets(err, prims);
      PairedCount("_", Print(err), '>');
      PairedCount("_", Emitted(err, prims), '>');
  }

  // -------------------------------------------------------------- the arms

  lemma {:induction false} FirstCommaConcat(a: string, b: string)
    ensures FirstComma(a + b) == if NoComma(a) then |a| + FirstComma(b) else FirstComma(a)
  {
    if a == "" {
      assert a + b == b;
    } else {
      assert (a + b)[1..] == a[1..] + b;
      FirstCommaConcat(a[1..], b);
    }
  }

  lemma TrimBounded(s: string)
    requires s == "" || Bounded(s)
    ensures Trim(s) == s && Trim(" " + s) == s
  {
    assert (" " + s)[1..] == s;
  }

  /** The arms of a printed result, when the success arm has no comma. */
  lemma ArmsOfPair(ok: string, err: string)
    requires Bounded(ok) && Bounded(err) && NoComma(ok)
    ensures Arms(ok + (", " + err)) == (ok, err)
  {
    var inner := ok + (", " + err);
    FirstCommaConcat(ok, ", " + err);
    assert inner[..|ok|] == ok && inner[|ok| + 1..] == " " + err;
    TrimBounded(ok);
    TrimBounded(err);
  }

  lemma ArmsOfOne(ok: string)
    requires Bounded(ok) && NoComma(ok)
    ensures Arms(ok) == (ok, "")
  {
    TrimBounded(ok);
  }

  /** The text of a type is its wrapper around its body. */
  lemma PeelPrinted(t: Type, prims: Table)
    requires PlainTable(prims) && !Leaf(t)
    ensures var h := Wrapper(t);
      WitToRust(Print(t), prims) == Enclosed(h, if h == ResultOf then ArmsToRust(Body(t), prims) else WitToRust(Body(t), prims))
  {
    Peel(Wrapper(t), Body(t), '>', prims);
  }

  /** Types whose success arms have no comma are split in the right places. */
  lemma {:induction false} FaithfulIfCommaFree(t: Type, prims: Table)
    requires WellFormed(t, prims) && PlainTable(prims) && CommaFreeArms(t)
    ensures WitToRust(Print(t), prims) == Some(Emitted(t, prims))
    decreases t, 1
  {
    if t.Prim? {
    } else if t.Named? {
      LeafIsPlain(t, prims);
      NoHead(Print(t));
      CamelOfDashed(t.words);
    } else {
      PeelPrinted(t, prims);
      FaithfulBody(t, prims);
    }
  }

  lemma {:induction false} FaithfulBody(t: Type, prims: Table)
    requires WellFormed(t, prims) && PlainTable(prims) && CommaFreeArms(t) && !Leaf(t)
    ensures var r := if Wrapper(t) == ResultOf then ArmsToRust(Body(t), prims) else WitToRust(Body(t), prims);
      r == Some(EmittedBody(t, prims))
    decreases t, 0
  {
    match t
    case Opt(u) => FaithfulIfCommaFree(u, prims);
    case Lst(u) => FaithfulIfCommaFree(u, prims);
    case OkOnly(ok) =>
      FaithfulIfCommaFree(ok, prims);
      PrintShape(ok, prims);
      ArmsOfOne(Print(ok));
      EmptyText(prims);
    case Both(ok, err) =>
      FaithfulIfCommaFree(ok, prims);
      FaithfulIfCommaFree(err, prims);
      PrintShape(ok, prims);
      PrintShape(err, prims);
      ArmsOfPair(Print(ok), Print(err));
    case ErrOnly(err) =>
      FaithfulIfCommaFree(err, prims);
      PrintShape(err, prims);
      ArmsOfPair("_", Print(err));
  }

  // ------------------------------------------------ a comma in a success arm

  /** Translation panics or adds a closing bracket. */
  predicate Inflated(s: string, prims: Table) {
    var r := WitToRust(s, prims);
    r.Some? ==> Closes(r.value) > Closes(s)
  }

  lemma PeelInflates(h: Head, inner: string, z: char, prims: Table)
    requires PlainTable(prims)
    requires h == ResultOf ==> NoComma(inner) && (inner == "" || Bounded(inner))
    requires z != '>' || (Inflated(inner, prims) && inner != "_")
    ensures Inflated(Opening(h) + inner + [z], prims)
  {
    Peel(h, inner, z, prims);
    SourceCount(h, inner, z);
    if h == ResultOf {
      TrimBounded(inner);
      EmptyText(prims);
      ResultInflates(inner, z != '>', prims);
    } else if WitToRust(inner, prims).Some? {
      NeverFewer(inner, prims);
      EnclosedCount(h, WitToRust(inner, prims).value);
    }
  }

  lemma ResultInflates(inner: string, lossy: bool, prims: Table)
    requires PlainTable(prims) && Arms(inner) == (inner, "") && WitToRust("", prims) == Some("")
    requires lossy || (Inflated(inner, prims) && inner != "_")
    ensures var r := ArmsToRust(inner, prims);
      r.Some? ==> Closes(RustOpening(ResultOf) + r.value + ">") >= Closes(inner) + (if lossy then 1 else 2)
  {
    if ArmsToRust(inner, prims).Some? {
      ArmsNeverFewer(inner, prims, |inner| + 1);
      if !lossy {
        PairedCount(WitToRust(inner, prims).value, "", '>');
        EnclosedCount(ResultOf, ArmsToRust(inner, prims).value);
      }
    }
  }

  lemma PanicsOnOpening(h: Head, prims: Table)
    requires PlainTable(prims)
    ensures WitToRust(Opening(h), prims) == None
  {
    assert Opening(h) + "" == Opening(h);
    HeadOfOpening(h, "");
    NotPrimitive(h, "", prims);
  }

  predicate VisibleToComma(s: string) { forall i :: 0 <= i < FirstComma(s) ==> !IsWhite(s[i]) }

  lemma VisibleConcat(a: string, b: string)
    requires VisibleToComma(a) && (NoComma(a) ==> VisibleToComma(b))
    ensures VisibleToComma(a + b)
  {
    FirstCommaConcat(a, b);
  }

  lemma {:induction false} PrintVisible(t: Type, prims: Table)
    requires WellFormed(t, prims) && PlainTable(prims)
    ensures VisibleToComma(Print(t))
    decreases t, 1
  {
    if Leaf(t) {
      LeafIsPlain(t, prims);
    } else {
      BodyVisible(t, prims);
      OpeningShape(Wrapper(t));
      VisibleConcat(Opening(Wrapper(t)), Body(t));
      VisibleConcat(Opening(Wrapper(t)) + Body(t), ">");
    }
  }

  lemma {:induction false} BodyVisible(t: Type, prims: Table)
    requires WellFormed(t, prims) && PlainTable(prims) && !Leaf(t)
    ensures VisibleToComma(Body(t))
    decreases t, 0
  {
    match t
    case Opt(u) => PrintVisible(u, prims);
    case Lst(u) => PrintVisible(u, prims);
    case OkOnly(ok) => PrintVisible(ok, prims);
    case Both(ok, err) =>
      PrintVisible(ok, prims);
      VisibleConcat(Print(ok), ", " + Print(err));
    case ErrOnly(err) =>
      VisibleConcat("_", ", " + Print(err));
  }

  /** A prefix that stops before the first comma is bounded by visible characters. */
  lemma PrefixBounded(s: string, p: string)
    requires p <= s && NoComma(p) && VisibleToComma(s)
    ensures p == "" || Bounded(p)
  {
    PrefixToComma(s, p);
  }

  lemma PrefixToComma(s: string, p: string)
    requires p <= s && NoComma(p)
    ensures |p| <= FirstComma(s)
  {
    assert s == p + s[|p|..];
    FirstCommaConcat(p, s[|p|..]);
  }

  /** The type whose text the body starts with. */
  function First(t: Type): Type
    requires t.Opt? || t.Lst? || t.Both? || t.OkOnly?
  {
    match t case Opt(u) => u case Lst(u) => u case Both(ok, _) => ok case OkOnly(ok) => ok
  }

  lemma PrefixOfFirst(t: Type, p: string)
    requires !Leaf(t) && !t.ErrOnly? && p <= Body(t) && NoComma(p)
    ensures p <= Print(First(t))
  {
    if t.Both? {
      PrefixToComma(Body(t), p);
      FirstCommaConcat(Print(t.ok), ", " + Print(t.err));
    }
  }

  /** A type text cut off before its first comma, with a bracket open, cannot be
      translated without adding a closing bracket. */
  lemma {:induction false} CutInflates(t: Type, s: string, prims: Table)
    requires WellFormed(t, prims) && PlainTable(prims)
    requires s <= Print(t) && NoComma(s) && Opens(s) > Closes(s)
    ensures Inflated(s, prims)
    decreases t
  {
    if Leaf(t) {
      LeafIsPlain(t, prims);
      PlainCounts(s);
    } else {
      var h := Wrapper(t);
      ReachesBody(h, Body(t), s);
      if |s| == |Opening(h)| {
        assert s == Opening(h);
        PanicsOnOpening(h, prims);
      } else {
        var inner, z := s[|Opening(h)|..|s| - 1], s[|s| - 1];
        CutBody(h, Body(t), s, inner, z);
        BodyVisible(t, prims);
        PrefixBounded(Body(t), inner);
        SourceCount(h, inner, z);
        if z == '>' {
          CutInside(t, inner);
          CutInflates(First(t), inner, prims);
          UnderscoreCount(inner);
        }
        PeelInflates(h, inner, z, prims);
      }
    }
  }

  lemma UnderscoreCount(s: string)
    requires Opens(s) > Closes(s)
    ensures s != "_" && s != ""
  {
    assert "_"[1..] == "";
  }

  lemma ReachesBody(h: Head, body: string, s: string)
    requires s <= Opening(h) + body + ">" && Opens(s) > Closes(s)
    ensures Opening(h) <= s
  {
    if |s| < |Opening(h)| {
      assert forall i :: 0 <= i < |s| ==> s[i] == WitName(h)[i];
      PlainCounts(s);
    }
  }

  lemma CutBody(h: Head, body: string, s: string, inner: string, z: char)
    requires s <= Opening(h) + body + ">" && |s| > |Opening(h)| && NoComma(s)
    requires inner == s[|Opening(h)|..|s| - 1] && z == s[|s| - 1]
    ensures s == Opening(h) + inner + [z] && inner <= body && NoComma(inner)
  {
    var whole := Opening(h) + body + ">";
    assert forall i :: 0 <= i < |inner| ==> inner[i] == whole[|Opening(h)| + i] == body[i];
    assert s[..|Opening(h)|] == Opening(h);
    assert forall i :: 0 <= i < |inner| ==> inner[i] == s[|Opening(h)| + i];
  }

  /** Dropping the wrapper and a closing bracket leaves a cut text of the first
      type inside. */
  lemma CutInside(t: Type, inner: string)
    requires !Leaf(t) && inner <= Body(t) && NoComma(inner) && Opens(inner) > Closes(inner)
    ensures !t.ErrOnly? && inner <= Print(First(t)) && First(t) < t
  {
    if t.ErrOnly? {
      ErrOnlyIsNotCut(t, inner);
    } else {
      PrefixOfFirst(t, inner);
    }
  }

  lemma ErrOnlyIsNotCut(t: Type, inner: string)
    requires t.ErrOnly? && inner <= Body(t) && NoComma(inner)
    ensures Opens(inner) == Closes(inner)
  {
    PrefixToComma(Body(t), inner);
    FirstCommaConcat("_", ", " + Print(t.err));
    assert inner == "_"[..|inner|];
    PlainOrUnderscore(inner);
  }

  lemma {:induction false} PlainOrUnderscore(s: string)
    requires forall i :: 0 <= i < |s| ==> s[i] == '_'
    ensures Opens(s) == 0 && Closes(s) == 0
  {
    if s != "" { PlainOrUnderscore(s[1..]); }
  }

  /** Whatever precedes the first comma of a body is not over-closed. */
  lemma {:induction false} BodyCut(t: Type, prims: Table)
    requires WellFormed(t, prims) && PlainTable(prims) && !Leaf(t) && !NoComma(Body(t))
    ensures var cut := Body(t)[..FirstComma(Body(t))]; Opens(cut) >= Closes(cut)
    decreases t, 0
  {
    if t.ErrOnly? {
      FirstCommaConcat("_", ", " + Print(t.err));
      ErrOnlyIsNotCut(t, Body(t)[..FirstComma(Body(t))]);
    } else {
      var first := Print(First(t));
      if t.Both? { FirstCommaConcat(first, ", " + Print(t.err)); }
      if NoComma(first) {
        PrintShape(First(t), prims);
        assert Body(t)[..FirstComma(Body(t))] == first;
      } else {
        PrintCut(First(t), prims);
        assert Body(t)[..FirstComma(Body(t))] == first[..FirstComma(first)];
      }
    }
  }

  /** A comma in a type text stands inside an open bracket. */
  lemma {:induction false} PrintCut(t: Type, prims: Table)
    requires WellFormed(t, prims) && PlainTable(prims) && !NoComma(Print(t))
    ensures var cut := Print(t)[..FirstComma(Print(t))];
      Opens(cut) > Closes(cut) && NoComma(cut) && Bounded(cut) && cut != "_"
    decreases t, 1
  {
    var cut := Print(t)[..FirstComma(Print(t))];
    if Leaf(t) {
      LeafIsPlain(t, prims);
    } else {
      CommaInBody(t);
      BodyCut(t, prims);
      OpeningShape(Wrapper(t));
      var inside := Body(t)[..FirstComma(Body(t))];
      CountConcat(Opening(Wrapper(t)), inside, '<');
      CountConcat(Opening(Wrapper(t)), inside, '>');
    }
    PrintVisible(t, prims);
    UnderscoreCount(cut);
    PrefixBounded(Print(t), cut);
  }

  /** The first comma of a wrapped text is that of its body. */
  lemma {:induction false} CommaInBody(t: Type)
    requires !Leaf(t) && !NoComma(Print(t))
    ensures !NoComma(Body(t))
    ensures Print(t)[..FirstComma(Print(t))] == Opening(Wrapper(t)) + Body(t)[..FirstComma(Body(t))]
  {
    var h := Wrapper(t);
    OpeningShape(h);
    FirstCommaConcat(Opening(h), Body(t));
    FirstCommaConcat(Opening(h) + Body(t), ">");
  }

  /** A result split inside its success arm is translated with too many closing
      brackets, or not at all. */
  lemma SplitInflates(t: Type, prims: Table)
    requires WellFormed(t, prims) && PlainTable(prims)
    requires (t.Both? || t.OkOnly?) && !NoComma(Print(t.ok))
    ensures Inflated(Print(t), prims)
  {
    var ok, inner := Print(t.ok), Body(t);
    var cut := ok[..FirstComma(ok)];
    PrintCut(t.ok, prims);
    CutInflates(t.ok, cut, prims);
    if t.Both? { FirstCommaConcat(ok, ", " + Print(t.err)); }
    assert inner[..FirstComma(inner)] == cut;
    TrimBounded(cut);
    PeelPrinted(t, prims);
    EnclosedCount(ResultOf, inner);
    CutArms(inner, cut, prims);
  }

  lemma CutArms(inner: string, cut: string, prims: Table)
    requires PlainTable(prims) && Arms(inner).0 == cut && cut != "_" && Inflated(cut, prims)
    ensures var r := Enclosed(ResultOf, ArmsToRust(inner, prims)); r.Some? ==> Closes(r.value) > Closes(inner) + 1
  {
    if ArmsToRust(inner, prims).Some? {
      var err := Arms(inner).1;
      ArmsCount(inner);
      NeverFewer(err, prims);
      PairedCount(WitToRust(cut, prims).value, WitToRust(err, prims).value, '>');
      EnclosedCount(ResultOf, ArmsToRust(inner, prims).value);
    }
  }

  lemma ErrInflates(t: Type, prims: Table)
    requires WellFormed(t, prims) && PlainTable(prims) && (t.Both? || t.ErrOnly?)
    requires t.Both? ==> NoComma(Print(t.ok))
    requires Inflated(Print(t.err), prims)
    ensures Inflated(Print(t), prims)
  {
    var ok, err := if t.Both? then Print(t.ok) else "_", Print(t.err);
    if t.Both? { PrintShape(t.ok, prims); }
    PrintShape(t.err, prims);
    ArmsOfPair(ok, err);
    PeelPrinted(t, prims);
    EnclosedCount(ResultOf, Body(t));
    PairedCount(ok, err, '>');
    if ArmsToRust(Body(t), prims).Some? {
      var okRust := if ok == "_" then "_" else WitToRust(ok, prims).value;
      if ok != "_" { NeverFewer(ok, prims); }
      PairedCount(okRust, WitToRust(err, prims).value, '>');
      EnclosedCount(ResultOf, ArmsToRust(Body(t), prims).value);
    }
  }

  lemma {:induction false} NoCommaIsFree(t: Type, prims: Table)
    requires WellFormed(t, prims) && PlainTable(prims) && NoComma(Print(t))
    ensures CommaFreeArms(t)
  {
    if !Leaf(t) {
      var h := Wrapper(t);
      OpeningShape(h);
      FirstCommaConcat(Opening(h), Body(t));
      FirstCommaConcat(Opening(h) + Body(t), ">");
      match t
      case Opt(u) => NoCommaIsFree(u, prims);
      case Lst(u) => NoCommaIsFree(u, prims);
      case OkOnly(ok) => NoCommaIsFree(ok, prims);
      case Both(ok, err) => FirstCommaConcat(Print(ok), ", " + Print(err));
      case ErrOnly(err) => FirstCommaConcat("_", ", " + Print(err));
    }
  }

  lemma {:induction false} InflatedUnlessCommaFree(t: Type, prims: Table)
    requires WellFormed(t, prims) && PlainTable(prims) && !CommaFreeArms(t)
    ensures Inflated(Print(t), prims)
  {
    match t
    case Opt(u) =>
      InflatedUnlessCommaFree(u, prims);
      PrintShape(u, prims);
      PeelInflates(OptionOf, Print(u), '>', prims);
    case Lst(u) =>
      InflatedUnlessCommaFree(u, prims);
      PrintShape(u, prims);
      PeelInflates(ListOf, Print(u), '>', prims);
    case OkOnly(ok) =>
      if NoComma(Print(ok)) { NoCommaIsFree(ok, prims); } else { SplitInflates(t, prims); }
    case Both(ok, err) =>
      if NoComma(Print(ok)) {
        NoCommaIsFree(ok, prims);
        InflatedUnlessCommaFree(err, prims);
        ErrInflates(t, prims);
      } else {
        SplitInflates(t, prims);
      }
    case ErrOnly(err) =>
      InflatedUnlessCommaFree(err, prims);
      ErrInflates(t, prims);
  }

  /** Every result is split in the right place exactly when no success arm of a
      result has a comma in its text. */
  lemma SplitsCorrectlyIff(t: Type, prims: Table)
    requires WellFormed(t, prims) && PlainTable(prims)
    ensures WitToRust(Print(t), prims) == Some(Emitted(t, prims)) <==> CommaFreeArms(t)
  {
    if CommaFreeArms(t) {
      FaithfulIfCommaFree(t, prims);
    } else {
      InflatedUnlessCommaFree(t, prims);
      SameBrackets(t, prims);
    }
  }

  // ------------------------------------------------------- the real Rust form

  predicate IsBareResult(t: Type) { t.Named? && Dashed(t.words) == WitName(ResultOf) }

  /** The Rust type a WIT type stands for: a missing arm is the unit type. */
  function Rust(t: Type, prims: Table): string
    requires WellFormed(t, prims)
  {
    match t
    case Prim(n) => prims[n]
    case Named(ws) => if IsBareResult(t) then ResultText("()", "()") else CamelWords(ws)
    case Opt(u) => RustOpening(OptionOf) + Rust(u, prims) + ">"
    case Lst(u) => RustOpening(ListOf) + Rust(u, prims) + ">"
    case Both(ok, err) => ResultText(Rust(ok, prims), Rust(err, prims))
    case ErrOnly(err) => ResultText("()", Rust(err, prims))
    case OkOnly(ok) => ResultText(Rust(ok, prims), "()")
  }

  function ResultText(ok: string, err: string): string {
    RustOpening(ResultOf) + (ok + (", " + err)) + ">"
  }

  /** Every result in the type has both its arms. */
  predicate BothArms(t: Type) {
    match t
    case Prim(_) => true
    case Named(_) => !IsBareResult(t)
    case Opt(u) => BothArms(u)
    case Lst(u) => BothArms(u)
    case Both(ok, err) => BothArms(ok) && BothArms(err)
    case ErrOnly(_) => false
    case OkOnly(_) => false
  }

  lemma {:induction false} EmittedIsRust(t: Type, prims: Table)
    requires WellFormed(t, prims) && BothArms(t)
    ensures Emitted(t, prims) == Rust(t, prims)
  {
    match t
    case Prim(_) =>
    case Named(_) =>
    case Opt(u) => EmittedIsRust(u, prims);
    case Lst(u) => EmittedIsRust(u, prims);
    case Both(ok, err) =>
      EmittedIsRust(ok, prims);
      EmittedIsRust(err, prims);
  }

  /** A missing arm shows as a unit type. */
  lemma {:induction false} RustHasParens(t: Type, prims: Table)
    requires WellFormed(t, prims) && !BothArms(t)
    ensures !NoParens(Rust(t, prims))
  {
    match t
    case Named(ws) =>
      assert "()"[0] == '(';
      ArmsShow("()", "()");
    case Opt(u) =>
      RustHasParens(u, prims);
      ParensInside(RustOpening(OptionOf), Rust(u, prims), ">");
    case Lst(u) =>
      RustHasParens(u, prims);
      ParensInside(RustOpening(ListOf), Rust(u, prims), ">");
    case Both(ok, err) =>
      if BothArms(ok) { RustHasParens(err, prims); } else { RustHasParens(ok, prims); }
      ArmsShow(Rust(ok, prims), Rust(err, prims));
    case ErrOnly(err) =>
      assert "()"[0] == '(';
      ArmsShow("()", Rust(err, prims));
    case OkOnly(ok) =>
      assert "()"[0] == '(';
      ArmsShow(Rust(ok, prims), "()");
  }

  lemma ParensInside(a: string, s: string, b: string)
    requires !NoParens(s)
    ensures !NoParens(a + s + b)
  {
    var i :| 0 <= i < |s| && s[i] == '(';
    assert (a + s + b)[|a| + i] == '(';
  }

  lemma ArmsShow(ok: string, err: string)
    requires !NoParens(ok) || !NoParens(err)
    ensures !NoParens(ResultText(ok, err))
  {
    var body := ok + (", " + err);
    if !NoParens(ok) {
      ParensInside("", ok, ", " + err);
      assert "" + ok + (", " + err) == body;
    } else {
      ParensInside(ok + ", ", err, "");
      assert ok + ", " + err + "" == body;
    }
    ParensInside(RustOpening(ResultOf), body, ">");
  }

  lemma {:induction false} CamelHasNoParens(s: string, up: bool)
    requires NoParens(s)
    ensures NoParens(Camel(s, up))
  {
    if s != "" {
      CamelHasNoParens(s[1..], true);
      CamelHasNoParens(s[1..], false);
    }
  }

  lemma NoParensJoin(a: string, b: string)
    requires NoParens(a) && NoParens(b)
    ensures NoParens(a + b)
  {
  }

  lemma {:induction false} TrimHasNoParens(s: string)
    requires NoParens(s)
    ensures NoParens(TrimStart(s)) && NoParens(TrimEnd(s))
  {
    if s != "" {
      TrimHasNoParens(s[1..]);
      TrimHasNoParens(s[..|s| - 1]);
    }
  }

  lemma ArmsHaveNoParens(inner: string)
    requires NoParens(inner)
    ensures NoParens(Arms(inner).0) && NoParens(Arms(inner).1)
  {
    var i := FirstComma(inner);
    if i == |inner| {
      TrimmedHasNoParens(inner);
    } else {
      TrimmedHasNoParens(inner[..i]);
      TrimmedHasNoParens(inner[i + 1..]);
    }
  }

  lemma TrimmedHasNoParens(s: string)
    requires NoParens(s)
    ensures NoParens(Trim(s))
  {
    TrimHasNoParens(s);
    TrimHasNoParens(TrimStart(s));
  }

  lemma OpeningHasNoParens(h: Head)
    ensures NoParens(RustOpening(h)) && NoParens(Opening(h))
  {
  }

  /** The translation never writes a unit type. */
  lemma {:induction false} NeverWritesParens(s: string, prims: Table)
    requires PlainTable(prims) && NoParens(s) && WitToRust(s, prims).Some?
    ensures NoParens(WitToRust(s, prims).value)
    decreases |s|
  {
    if s in prims {
    } else if HeadOf(s).None? {
      CamelHasNoParens(s, true);
    } else {
      var h, inner, z := Decompose(s, prims);
      Peel(h, inner, z, prims);
      assert inner == s[|Opening(h)|..|s| - 1];
      OpeningHasNoParens(h);
      if h != ResultOf {
        NeverWritesParens(inner, prims);
        NoParensJoin(RustOpening(h), WitToRust(inner, prims).value);
      } else {
        ArmsNeverWriteParens(inner, prims, |s|);
        NoParensJoin(RustOpening(h), ArmsToRust(inner, prims).value);
      }
    }
  }

  lemma {:induction false} ArmsNeverWriteParens(inner: string, prims: Table, size: nat)
    requires PlainTable(prims) && NoParens(inner) && ArmsToRust(inner, prims).Some? && |inner| < size
    ensures NoParens(ArmsToRust(inner, prims).value)
    decreases size, 0
  {
    var (ok, err) := Arms(inner);
    ArmsHaveNoParens(inner);
    if ok != "_" { NeverWritesParens(ok, prims); }
    NeverWritesParens(err, prims);
  }

  lemma {:induction false} PrintHasNoParens(t: Type, prims: Table)
    requires WellFormed(t, prims) && PlainTable(prims)
    ensures NoParens(Print(t))
    decreases t, 1
  {
    if Leaf(t) {
      LeafIsPlain(t, prims);
    } else {
      BodyHasNoParens(t, prims);
      OpeningHasNoParens(Wrapper(t));
      NoParensJoin(Opening(Wrapper(t)), Body(t));
    }
  }

  lemma {:induction false} BodyHasNoParens(t: Type, prims: Table)
    requires WellFormed(t, prims) && PlainTable(prims) && !Leaf(t)
    ensures NoParens(Body(t))
    decreases t, 0
  {
    match t
    case Opt(u) => PrintHasNoParens(u, prims);
    case Lst(u) => PrintHasNoParens(u, prims);
    case OkOnly(ok) => PrintHasNoParens(ok, prims);
    case Both(ok, err) =>
      PrintHasNoParens(ok, prims);
      PrintHasNoParens(err, prims);
    case ErrOnly(err) => PrintHasNoParens(err, prims);
  }

  /** How the types are spelled, on either side. */
  lemma {:induction false} SpelledWrapped(u: Type, prims: Table)
    requires WellFormed(u, prims)
    ensures Print(Opt(u)) == "option<" + Print(u) + ">" && Rust(Opt(u), prims) == "Option<" + Rust(u, prims) + ">"
    ensures Print(Lst(u)) == "list<" + Print(u) + ">" && Rust(Lst(u), prims) == "Vec<" + Rust(u, prims) + ">"
  {
    assert "option" + "<" == "option<" && "list" + "<" == "list<";
    assert "Option" + "<" == "Option<" && "Vec" + "<" == "Vec<";
  }

  lemma {:induction false} SpelledBoth(ok: Type, err: Type, prims: Table)
    requires WellFormed(ok, prims) && WellFormed(err, prims)
    ensures Print(Both(ok, err)) == "result<" + (Print(ok) + (", " + Print(err))) + ">"
    ensures Rust(Both(ok, err), prims) == "Result<" + (Rust(ok, prims) + (", " + Rust(err, prims))) + ">"
  {
    assert "result" + "<" == "result<" && "Result" + "<" == "Result<";
  }

  lemma {:induction false} SpelledHalf(u: Type, prims: Table)
    requires WellFormed(u, prims)
    ensures Print(OkOnly(u)) == "result<" + Print(u) + ">"
    ensures Rust(OkOnly(u), prims) == "Result<" + (Rust(u, prims) + (", " + "()")) + ">"
    ensures Print(ErrOnly(u)) == "result<" + ("_" + (", " + Print(u))) + ">"
    ensures Rust(ErrOnly(u), prims) == "Result<" + ("()" + (", " + Rust(u, prims))) + ">"
  {
    assert "result" + "<" == "result<" && "Result" + "<" == "Result<";
  }

  // -------------------------------------------------------- type equivalence

  /** Lower case of one character; it neither makes nor changes a bracket. */
  predicate Lowercase(lower: char -> string) {
    && lower('>') == ">" && lower('(') == "("
    && (forall c: char :: c != '>' ==> Count(lower(c), '>') == 0)
    && (forall c: char :: c != '(' ==> Count(lower(c), '(') == 0)
  }

  /** Without white space, in lower case. */
  function Normalize(s: string, lower: char -> string): string {
    if s == "" then "" else (if IsWhite(s[0]) then "" else lower(s[0])) + Normalize(s[1..], lower)
  }

  /** Character by character: white space goes, the rest goes to lower case. */
  lemma {:induction false} NormalizeMeaning(s: string, t: string, c: char, lower: char -> string)
    ensures Normalize(s + t, lower) == Normalize(s, lower) + Normalize(t, lower)
    ensures Normalize([c], lower) == if IsWhite(c) then "" else lower(c)
  {
    assert [c][1..] == "";
    if s == "" {
      assert s + t == t;
    } else {
      assert (s + t)[1..] == s[1..] + t;
      NormalizeMeaning(s[1..], t, c, lower);
    }
  }

  predicate TypeEquivalent(a: string, b: string, lower: char -> string) {
    Normalize(a, lower) == Normalize(b, lower)
  }

  lemma {:induction false} NormalizeKeeps(s: string, lower: char -> string, c: char)
    requires Lowercase(lower) && (c == '>' || c == '(')
    ensures Count(Normalize(s, lower), c) == Count(s, c)
  {
    if s != "" {
      NormalizeKeeps(s[1..], lower, c);
      var first := if IsWhite(s[0]) then "" else lower(s[0]);
      CountConcat(first, Normalize(s[1..], lower), c);
      assert Count([c], c) == 1 by { assert [c][1..] == ""; }
      assert s[0] == c ==> first == [c];
    }
  }

  lemma {:induction false} ParensCount(s: string)
    ensures NoParens(s) <==> Count(s, '(') == 0
  {
    if s != "" {
      ParensCount(s[1..]);
      assert NoParens(s) <==> s[0] != '(' && NoParens(s[1..]) by {
        assert forall i :: 0 <= i < |s| - 1 ==> s[1..][i] == s[i + 1];
        assert NoParens(s[1..]) && s[0] != '(' ==> forall i :: 0 < i < |s| ==> s[i] == s[1..][i - 1];
      }
    }
  }

  /** Types the comparison of the conformance check cannot equate. */
  lemma DifferentBrackets(a: string, b: string, lower: char -> string)
    requires Lowercase(lower) && (Closes(a) != Closes(b) || NoParens(a) != NoParens(b))
    ensures !TypeEquivalent(a, b, lower)
  {
    NormalizeKeeps(a, lower, '>');
    NormalizeKeeps(b, lower, '>');
    NormalizeKeeps(a, lower, '(');
    NormalizeKeeps(b, lower, '(');
    ParensCount(a);
    ParensCount(b);
  }

  /** A printed type is translated to its Rust form, and even to anything the
      conformance check takes for it, exactly when every result in it has both
      arms and no success arm has a comma in its text. */
  lemma TranslationIsFaithfulIff(t: Type, prims: Table, lower: char -> string)
    requires WellFormed(t, prims) && PlainTable(prims) && Lowercase(lower)
    ensures WitToRust(Print(t), prims) == Some(Rust(t, prims)) <==> BothArms(t) && CommaFreeArms(t)
    ensures (WitToRust(Print(t), prims).Some? && TypeEquivalent(WitToRust(Print(t), prims).value, Rust(t, prims), lower))
      <==> BothArms(t) && CommaFreeArms(t)
  {
    var r := WitToRust(Print(t), prims);
    if BothArms(t) { EmittedIsRust(t, prims); }
    if BothArms(t) && CommaFreeArms(t) {
      FaithfulIfCommaFree(t, prims);
    } else if r.Some? {
      if BothArms(t) {
        InflatedUnlessCommaFree(t, prims);
        SameBrackets(t, prims);
      } else {
        PrintHasNoParens(t, prims);
        NeverWritesParens(Print(t), prims);
        RustHasParens(t, prims);
      }
      DifferentBrackets(r.value, Rust(t, prims), lower);
    }
  }

  // ------------------------------------------------ the condition on the tree

  /** A result with an error arm, anywhere in the type. */
  predicate HasErrorArm(t: Type) {
    match t
    case Prim(_) => false
    case Named(_) => false
    case Opt(u) => HasErrorArm(u)
    case Lst(u) => HasErrorArm(u)
    case Both(_, _) => true
    case ErrOnly(_) => true
    case OkOnly(ok) => HasErrorArm(ok)
  }

  /** A type text has a comma exactly when an error arm occurs in the type, so
      the translation fails on the success arms that hold one. */
  lemma {:induction false} CommaMeansErrorArm(t: Type, prims: Table)
    requires WellFormed(t, prims) && PlainTable(prims)
    ensures NoComma(Print(t)) <==> !HasErrorArm(t)
  {
    if Leaf(t) {
      LeafIsPlain(t, prims);
    } else {
      var h := Wrapper(t);
      OpeningShape(h);
      FirstCommaConcat(Opening(h), Body(t));
      FirstCommaConcat(Opening(h) + Body(t), ">");
      match t
      case Opt(u) => CommaMeansErrorArm(u, prims);
      case Lst(u) => CommaMeansErrorArm(u, prims);
      case OkOnly(ok) => CommaMeansErrorArm(ok, prims);
      case Both(ok, err) => FirstCommaConcat(Print(ok), ", " + Print(err));
      case ErrOnly(err) => FirstCommaConcat("_", ", " + Print(err));
    }
  }

  /** The primitive types of the program. */
  function Primitives(): Table {
    map[
      "string" := "String", "bool" := "bool",
      "u8" := "u8", "u16" := "u16", "u32" := "u32", "u64" := "u64",
      "s8" := "i8", "s16" := "i16", "s32" := "i32", "s64" := "i64",
      "float32" := "f32", "float64" := "f64"]
  }

  /** Unsigned names stay, `s` becomes `i`, `float` becomes `f`, and `string` gets a
      capital. */
  lemma PrimitiveRule(k: string)
    requires k in Primitives()
    ensures var r := Primitives()[k];
      if k == "bool" then r == k
      else if k == "string" then r == "String"
      else if k[0] == 'u' then r == k
      else if k[0] == 's' then r == "i" + k[1..]
      else "float" <= k && r == "f" + k[5..]
  {
    assert k[0] == 's' && k != "string" ==> k == "s8" || k == "s16" || k == "s32" || k == "s64";
    assert "s8"[1..] == "8" && "s16"[1..] == "16" && "s32"[1..] == "32" && "s64"[1..] == "64";
    assert "float32"[..5] == "float" && "float64"[..5] == "float";
    assert "float32"[5..] == "32" && "float64"[5..] == "64";
  }

  lemma PrimitivesArePlain()
    ensures PlainTable(Primitives())
  {
    var prims := Primitives();
    forall k | k in prims ensures PlainText(k) && Closes(prims[k]) == 0 && NoParens(prims[k]) {
      PrimitiveKeyIsPlain(k);
      PrimitiveValueIsPlain(k);
      PlainCounts(prims[k]);
    }
  }

  lemma PrimitiveKeyIsPlain(k: string)
    requires k in Primitives()
    ensures PlainText(k)
  {
  }

  lemma PrimitiveValueIsPlain(k: string)
    requires k in Primitives()
    ensures forall i :: 0 <= i < |Primitives()[k]| ==> Plain(Primitives()[k][i])
  {
  }

  /** Every success arm is free of results with an error arm. */
  predicate SimpleArms(t: Type) {
    match t
    case Prim(_) => true
    case Named(_) => true
    case Opt(u) => SimpleArms(u)
    case Lst(u) => SimpleArms(u)
    case Both(ok, err) => !HasErrorArm(ok) && SimpleArms(ok) && SimpleArms(err)
    case ErrOnly(err) => SimpleArms(err)
    case OkOnly(ok) => !HasErrorArm(ok) && SimpleArms(ok)
  }

  lemma {:induction false} SimpleMeansCommaFree(t: Type, prims: Table)
    requires WellFormed(t, prims) && PlainTable(prims)
    ensures SimpleArms(t) <==> CommaFreeArms(t)
  {
    match t
    case Prim(_) =>
    case Named(_) =>
    case Opt(u) => SimpleMeansCommaFree(u, prims);
    case Lst(u) => SimpleMeansCommaFree(u, prims);
    case ErrOnly(err) => SimpleMeansCommaFree(err, prims);
    case OkOnly(ok) =>
      SimpleMeansCommaFree(ok, prims);
      CommaMeansErrorArm(ok, prims);
    case Both(ok, err) =>
      SimpleMeansCommaFree(ok, prims);
      SimpleMeansCommaFree(err, prims);
      CommaMeansErrorArm(ok, prims);
  }

  /** With the program's own table: a type is translated faithfully exactly when
      every result in it has both arms and no success arm holds a result with an
      error arm. */
  lemma FaithfulIffSimple(t: Type, lower: char -> string)
    requires WellFormed(t, Primitives()) && Lowercase(lower)
    ensures WitToRust(Print(t), Primitives()) == Some(Rust(t, Primitives())) <==> BothArms(t) && SimpleArms(t)
  {
    PrimitivesArePlain();
    FaithfulIffSimpleFor(t, Primitives(), lower);
  }

  lemma FaithfulIffSimpleFor(t: Type, prims: Table, lower: char -> string)
    requires WellFormed(t, prims) && PlainTable(prims) && Lowercase(lower)
    ensures WitToRust(Print(t), prims) == Some(Rust(t, prims)) <==> BothArms(t) && SimpleArms(t)
  {
    TranslationIsFaithfulIff(t, prims, lower);
    SimpleMeansCommaFree(t, prims);
  }
}
