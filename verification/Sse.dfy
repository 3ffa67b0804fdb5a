// Server-sent events: the server's encoder and the client's incremental
// decoder.  The decoder sees the text in chunks cut anywhere; only LF LF ends
// a frame.
module Sse {
  import opened Common

  // ------------------------------------------------------ JavaScript's split

  /** s.split("\n\n"): leftmost, non-overlapping; never empty. */
  function SplitFrames(s: string): seq<string> {
    if |s| < 2 then [s]
    else if s[0] == '\n' && s[1] == '\n' then [""] + SplitFrames(s[2..])
    else
      var rest := SplitFrames(s[1..]);
      if |rest| == 0 then [s] else [[s[0]] + rest[0]] + rest[1..]
  }

  /** s.split("\n"). */
  function SplitLines(s: string): seq<string> {
    if s == "" then [""]
    else
      var rest := SplitLines(s[1..]);
      if s[0] == '\n' then [""] + rest
      else if |rest| == 0 then [s] else [[s[0]] + rest[0]] + rest[1..]
  }

  /** The complete frames of `s`, and the text after the last separator. */
  function Frames(s: string): (seq<string>, string) {
    var parts := SplitFrames(s);
    if |parts| == 0 then ([], "") else (parts[..|parts| - 1], parts[|parts| - 1])
  }

  lemma {:induction false} SplitNonEmpty(s: string)
    ensures |SplitFrames(s)| >= 1
  {
    if |s| >= 2 {
      if s[0] == '\n' && s[1] == '\n' { SplitNonEmpty(s[2..]); } else { SplitNonEmpty(s[1..]); }
    }
  }

  predicate Newlines(s: string) {
    |s| >= 2 && s[0] == '\n' && s[1] == '\n'
  }

  lemma {:induction false} FramesStep(s: string)
    ensures |s| < 2 ==> Frames(s) == ([], s)
    ensures Newlines(s) ==> Frames(s) == ([""] + Frames(s[2..]).0, Frames(s[2..]).1)
    ensures |s| >= 2 && !Newlines(s) ==>
      var (fs, tail) := Frames(s[1..]);
      Frames(s) == if fs == [] then ([], [s[0]] + tail) else ([[s[0]] + fs[0]] + fs[1..], tail)
  {
    if |s| >= 2 {
      var rest := if Newlines(s) then s[2..] else s[1..];
      SplitNonEmpty(rest);
      var parts := SplitFrames(rest);
      if Newlines(s) {
        assert ([""] + parts)[..|parts|] == [""] + parts[..|parts| - 1];
      } else if |parts| > 1 {
        assert ([[s[0]] + parts[0]] + parts[1..])[..|parts| - 1]
            == [[s[0]] + parts[..|parts| - 1][0]] + parts[..|parts| - 1][1..];
      }
    }
  }

  predicate NoBreak(s: string) {
    forall i :: 0 <= i < |s| - 1 ==> !(s[i] == '\n' && s[i + 1] == '\n')
  }

  function Join(frames: seq<string>, tail: string): string {
    if frames == [] then tail else frames[0] + "\n\n" + Join(frames[1..], tail)
  }

  /** What splitting means: the parts rebuild the text, and every separator was
      taken at its leftmost place. */
  lemma {:induction false} SplitMeaning(s: string)
    ensures var (fs, tail) := Frames(s);
      && Join(fs, tail) == s && NoBreak(tail)
      && (forall k :: 0 <= k < |fs| ==> NoBreak(fs[k] + "\n"))
    decreases |s|
  {
    FramesStep(s);
    if |s| >= 2 {
      var rest := if Newlines(s) then s[2..] else s[1..];
      SplitMeaning(rest);
      var (fs, tail) := Frames(rest);
      if Newlines(s) {
        assert ([""] + fs)[1..] == fs;
        assert s == "" + "\n\n" + rest;
      } else if fs == [] {
        assert s == [s[0]] + rest;
      } else {
        ExtendFirstFrame(s[0], fs, tail);
        assert s == [s[0]] + rest;
      }
    }
  }

  lemma ExtendFirstFrame(c: char, fs: seq<string>, tail: string)
    requires fs != [] && NoBreak(fs[0] + "\n")
    requires !Newlines([c] + Join(fs, tail))
    ensures var gs := [[c] + fs[0]] + fs[1..];
      Join(gs, tail) == [c] + Join(fs, tail) && NoBreak(gs[0] + "\n")
  {
    var gs := [[c] + fs[0]] + fs[1..];
    assert gs[1..] == fs[1..];
    var f, g := fs[0] + "\n", gs[0] + "\n";
    assert g == [c] + f;
    assert f[0] == Join(fs, tail)[0] == ([c] + Join(fs, tail))[1];
    forall i | 0 <= i < |g| - 1
      ensures !(g[i] == '\n' && g[i + 1] == '\n')
    {
      assert g[i + 1] == f[i];
      assert i > 0 ==> g[i] == f[i - 1];
    }
  }

  /** Without a complete frame the whole text is left over. */
  lemma {:induction false} LeftoverOfOpen(s: string)
    requires Frames(s).0 == []
    ensures Frames(s).1 == s
    decreases |s|
  {
    FramesStep(s);
    if |s| >= 2 {
      LeftoverOfOpen(s[1..]);
    }
  }

  /** The heart of chunk independence: the frames of `x + y` are those of `x`
      followed by those of what `x` left over, continued with `y`; also when
      the cut falls inside a separator or inside a longer run of newlines. */
  lemma {:induction false} FramesOfConcat(x: string, y: string)
    ensures var (fs, tail) := Frames(x);
      Frames(x + y) == (fs + Frames(tail + y).0, Frames(tail + y).1)
    decreases |x|
  {
    FramesStep(x);
    FramesStep(x + y);
    var (fs, tail) := Frames(x);
    if |x| < 2 {
      assert [] + Frames(x + y).0 == Frames(x + y).0;
    } else if Newlines(x) {
      assert (x + y)[2..] == x[2..] + y;
      FramesOfConcat(x[2..], y);
      assert [""] + (Frames(x[2..]).0 + Frames(tail + y).0) == fs + Frames(tail + y).0;
    } else {
      assert (x + y)[1..] == x[1..] + y;
      FramesOfConcat(x[1..], y);
      if Frames(x[1..]).0 == [] {
        LeftoverOfOpen(x[1..]);
        assert tail == x;
        assert [] + Frames(x + y).0 == Frames(x + y).0;
      } else {
        PrependToFirst(x[0], Frames(x[1..]).0, Frames(tail + y).0);
      }
    }
  }

  lemma PrependToFirst(c: char, gs: seq<string>, more: seq<string>)
    requires gs != []
    ensures var hs := gs + more;
      [[c] + hs[0]] + hs[1..] == ([[c] + gs[0]] + gs[1..]) + more
  {
    assert (gs + more)[1..] == gs[1..] + more;
  }

  function Concat(chunks: seq<string>): string {
    if chunks == [] then "" else Concat(chunks[..|chunks| - 1]) + chunks[|chunks| - 1]
  }

  /** The decoder over a sequence of chunks, as `pump` runs it. */
  function Pumped(chunks: seq<string>): (seq<string>, string) {
    if chunks == [] then ([], "")
    else
      var (fs, buffer) := Pumped(chunks[..|chunks| - 1]);
      var (gs, rest) := Frames(buffer + chunks[|chunks| - 1]);
      (fs + gs, rest)
  }

  /** The emitted frames and the buffer kept depend on the text alone, not on
      how it was cut into chunks. */
  lemma {:induction false} ChunkIndependence(chunks: seq<string>)
    ensures Pumped(chunks) == Frames(Concat(chunks))
    decreases |chunks|
  {
    if chunks == [] {
      FramesStep("");
    } else {
      var before := chunks[..|chunks| - 1];
      ChunkIndependence(before);
      FramesOfConcat(Concat(before), chunks[|chunks| - 1]);
    }
  }

  // ------------------------------------------------------------- parseFrame

  datatype Parsed = Parsed(event: Option<string>, data: Option<string>, id: Option<string>, retry: Option<string>)

  const BLANK: Parsed := Parsed(None, None, None, None)

  function ColonAt(line: string): nat
    ensures ColonAt(line) <= |line|
    ensures ColonAt(line) < |line| ==> line[ColonAt(line)] == ':'
  {
    if line == "" then 0 else if line[0] == ':' then 0 else 1 + ColonAt(line[1..])
  }

  function FieldOf(line: string): string {
    line[..ColonAt(line)]
  }

  function ValueOf(line: string): string {
    if ColonAt(line) == |line| then ""
    else
      var v := line[ColonAt(line) + 1..];
      if v != "" && v[0] == ' ' then v[1..] else v
  }

  /** One line of a frame; a leading colon makes it a comment. */
  function ReadLine(out: Parsed, line: string): Parsed {
    if line != "" && line[0] == ':' then out
    else
      var field, value := FieldOf(line), ValueOf(line);
      if field == "event" then out.(event := Some(value))
      else if field == "data" then
        out.(data := Some((if out.data.Some? && out.data.value != "" then out.data.value + "\n" else "") + value))
      else if field == "id" then out.(id := Some(value))
      else if field == "retry" then out.(retry := Some(value))
      else out
  }

  function ReadLines(lines: seq<string>): Parsed {
    if lines == [] then BLANK else ReadLine(ReadLines(lines[..|lines| - 1]), lines[|lines| - 1])
  }

  function ParseFrame(frame: string): Option<Parsed> {
    var out := ReadLines(SplitLines(frame));
    if out.event.None? && out.data.None? && out.id.None? then None else Some(out)
  }

  /** What the handler is given for a frame: its data text, when there is one. */
  function DataOf(frame: string): seq<string> {
    match ParseFrame(frame)
    case Some(p) => if p.data.Some? && p.data.value != "" then [p.data.value] else []
    case None => []
  }

  function DataOfAll(frames: seq<string>): seq<string> {
    if frames == [] then [] else DataOfAll(frames[..|frames| - 1]) + DataOf(frames[|frames| - 1])
  }

  /** The id the client would resume from: the last non-empty id seen. */
  function LastId(frames: seq<string>, start: Option<string>): Option<string> {
    if frames == [] then start
    else
      var before := LastId(frames[..|frames| - 1], start);
      match ParseFrame(frames[|frames| - 1])
      case Some(p) => if p.id.Some? && p.id.value != "" then p.id else before
      case None => before
  }

  // ------------------------------------------------------------- the encoder

  datatype Item = Event(text: string) | Keepalive

  function Encode(item: Item): string {
    match item
    case Event(text) => "data: " + text + "\n\n"
    case Keepalive => ": keepalive\n\n"
  }

  function EncodeAll(items: seq<Item>): string {
    if items == [] then "" else EncodeAll(items[..|items| - 1]) + Encode(items[|items| - 1])
  }

  function Texts(items: seq<Item>): seq<string> {
    if items == [] then []
    else Texts(items[..|items| - 1]) + match items[|items| - 1] case Event(t) => [t] case Keepalive => []
  }

  predicate OneLine(s: string) {
    forall i :: 0 <= i < |s| ==> s[i] != '\n'
  }

  lemma {:induction false} FramesOfLine(line: string)
    requires OneLine(line)
    ensures Frames(line + "\n\n") == ([line], "")
    decreases |line|
  {
    var s := line + "\n\n";
    FramesStep(s);
    if line == "" {
      assert s[2..] == "";
      FramesStep("");
    } else {
      assert s[1..] == line[1..] + "\n\n";
      FramesOfLine(line[1..]);
      assert [s[0]] + line[1..] == line;
    }
  }

  lemma {:induction false} LinesOfLine(line: string)
    requires OneLine(line)
    ensures SplitLines(line) == [line]
  {
    if line != "" {
      LinesOfLine(line[1..]);
      assert [line[0]] + line[1..] == line;
    }
  }

  /** A frame holding an encoded item, read back. */
  lemma ItemIsReadBack(item: Item)
    requires item.Event? ==> OneLine(item.text) && item.text != ""
    ensures Encode(item) == (match item case Event(t) => "data: " + t case Keepalive => ": keepalive") + "\n\n"
    ensures Frames(Encode(item)) == ([Encode(item)[..|Encode(item)| - 2]], "")
    ensures DataOf(Encode(item)[..|Encode(item)| - 2]) == (match item case Event(t) => [t] case Keepalive => [])
  {
    var line := match item case Event(t) => "data: " + t case Keepalive => ": keepalive";
    assert Encode(item) == line + "\n\n";
    assert Encode(item)[..|Encode(item)| - 2] == line;
    FramesOfLine(line);
    ParseOneLine(line);
    if item.Event? {
      ReadDataLine(item.text);
    } else {
      assert line[0] == ':';
    }
  }

  lemma ReadDataLine(text: string)
    ensures ReadLine(BLANK, "data: " + text) == BLANK.(data := Some(text))
  {
    var line := "data: " + text;
    assert line[..4] == "data" && line[4] == ':';
    ColonAfter("data", line);
    assert line[5..] == " " + text;
    assert (" " + text)[1..] == text;
    assert FieldOf(line) == "data" && ValueOf(line) == text;
    assert "data" != "event" by { assert "data"[0] != "event"[0]; }
    assert "" + text == text;
  }

  lemma ParseOneLine(line: string)
    requires OneLine(line)
    ensures ReadLines(SplitLines(line)) == ReadLine(BLANK, line)
  {
    LinesOfLine(line);
    assert [line][..0] == [];
    assert ReadLines([]) == BLANK;
  }

  lemma {:induction false} ColonAfter(word: string, line: string)
    requires |word| < |line| && line[..|word|] == word && line[|word|] == ':'
    requires forall i :: 0 <= i < |word| ==> word[i] != ':'
    ensures ColonAt(line) == |word|
  {
    if word != "" {
      assert line[0] == word[0];
      assert line[1..][..|word| - 1] == word[1..];
      ColonAfter(word[1..], line[1..]);
    }
  }

  lemma DataOfMore(fs: seq<string>, gs: seq<string>)
    requires |gs| == 1
    ensures DataOfAll(fs + gs) == DataOfAll(fs) + DataOf(gs[0])
  {
    assert (fs + gs)[..|fs|] == fs;
  }

  lemma {:induction false} EncodedIsReadBack(items: seq<Item>)
    requires forall i :: 0 <= i < |items| && items[i].Event? ==> OneLine(items[i].text) && items[i].text != ""
    ensures Frames(EncodeAll(items)).1 == ""
    ensures DataOfAll(Frames(EncodeAll(items)).0) == Texts(items)
    decreases |items|
  {
    if items == [] {
      FramesStep("");
    } else {
      var before, item := items[..|items| - 1], items[|items| - 1];
      EncodedIsReadBack(before);
      ItemIsReadBack(item);
      FramesOfConcat(EncodeAll(before), Encode(item));
      assert "" + Encode(item) == Encode(item);
      DataOfMore(Frames(EncodeAll(before)).0, Frames(Encode(item)).0);
    }
  }

  /** Round trip: whatever the server encoded, mixed with keepalives and cut
      anywhere, the handler receives exactly the event texts in order, and
      nothing is left in the buffer. */
  lemma RoundTrip(items: seq<Item>, chunks: seq<string>)
    requires forall i :: 0 <= i < |items| && items[i].Event? ==> OneLine(items[i].text) && items[i].text != ""
    requires Concat(chunks) == EncodeAll(items)
    ensures DataOfAll(Pumped(chunks).0) == Texts(items)
    ensures Pumped(chunks).1 == ""
  {
    ChunkIndependence(chunks);
    EncodedIsReadBack(items);
  }

  // ---------------------------------------------- what a frame says, by its lines

  /** The line gives the field `f` the value `v`: one space after the colon does
      not count, and a line without a colon gives an empty value. */
  predicate Says(line: string, f: string, v: string) {
    || line == f + ": " + v
    || (line == f + ":" + v && (v == "" || v[0] != ' '))
    || (line == f && v == "")
  }

  predicate FieldName(f: string) {
    f != "" && forall i :: 0 <= i < |f| ==> f[i] != ':'
  }

  lemma {:induction false} NoColon(s: string)
    requires forall i :: 0 <= i < |s| ==> s[i] != ':'
    ensures ColonAt(s) == |s|
  {
    if s != "" { NoColon(s[1..]); }
  }

  lemma {:induction false} SaidIsRead(line: string, f: string, v: string)
    requires FieldName(f) && Says(line, f, v)
    ensures FieldOf(line) == f && ValueOf(line) == v
  {
    if line == f {
      NoColon(line);
    } else {
      assert line[..|f|] == f && line[|f|] == ':';
      ColonAfter(f, line);
      if line == f + ": " + v {
        assert line[|f| + 1..] == " " + v && (" " + v)[1..] == v;
      } else {
        assert line[|f| + 1..] == v;
      }
    }
  }

  lemma {:induction false} ReadIsSaid(line: string)
    ensures Says(line, FieldOf(line), ValueOf(line))
  {
    var k, f, v := ColonAt(line), FieldOf(line), ValueOf(line);
    if k < |line| {
      var rest := line[k + 1..];
      assert line == f + ":" + rest;
      if rest != "" && rest[0] == ' ' {
        assert rest == " " + v;
        assert f + ":" + (" " + v) == f + ": " + v;
      }
    } else {
      assert line == f;
    }
  }

  /** Looking for the first colon reads a line just so. */
  lemma {:induction false} SaysIff(line: string, f: string, v: string)
    requires FieldName(f)
    ensures Says(line, f, v) <==> FieldOf(line) == f && ValueOf(line) == v
  {
    if Says(line, f, v) { SaidIsRead(line, f, v); }
    if FieldOf(line) == f && ValueOf(line) == v { ReadIsSaid(line); }
  }

  /** `r` is the value the last line about `f` gives, if there is one. */
  ghost predicate LastSaid(lines: seq<string>, f: string, r: Option<string>) {
    if r.None? then forall k, v :: 0 <= k < |lines| ==> !Says(lines[k], f, v)
    else exists k :: 0 <= k < |lines| && SaidAt(lines, f, r.value, k)
  }

  ghost predicate SaidAt(lines: seq<string>, f: string, v: string, k: nat)
    requires k < |lines|
  {
    Says(lines[k], f, v) && forall j, w :: k < j < |lines| ==> !Says(lines[j], f, w)
  }

  /** One more line. */
  lemma {:induction false} LastSaidMore(lines: seq<string>, line: string, f: string, r: Option<string>)
    requires FieldName(f) && LastSaid(lines, f, r)
    ensures LastSaid(lines + [line], f, if FieldOf(line) == f then Some(ValueOf(line)) else r)
  {
    var more := lines + [line];
    SaysIff(line, f, ValueOf(line));
    if FieldOf(line) == f {
      assert more[|lines|] == line && SaidAt(more, f, ValueOf(line), |lines|);
    } else {
      forall w ensures !Says(line, f, w) { SaysIff(line, f, w); }
      if r.Some? {
        var k :| 0 <= k < |lines| && SaidAt(lines, f, r.value, k);
        assert more[k] == lines[k] && SaidAt(more, f, r.value, k);
      }
    }
  }

  /** A line adds to one field at most, and a comment to none. */
  lemma {:induction false} OneLineMore(out: Parsed, line: string)
    ensures var more, f, v := ReadLine(out, line), FieldOf(line), ValueOf(line);
      && more.event == (if f == "event" then Some(v) else out.event)
      && more.id == (if f == "id" then Some(v) else out.id)
      && more.retry == (if f == "retry" then Some(v) else out.retry)
      && (more.data.Some? <==> out.data.Some? || f == "data")
      && (f != "data" ==> more.data == out.data)
      && (f == "data" ==> more.data == Some(if out.data.Some? && out.data.value != "" then out.data.value + "\n" + v else v))
  {
    DifferentNames();
    assert line != "" && line[0] == ':' ==> FieldOf(line) == "";
    assert "" + ValueOf(line) == ValueOf(line);
  }

  lemma {:induction false} DifferentNames()
    ensures FieldName("event") && FieldName("data") && FieldName("id") && FieldName("retry")
    ensures "event" != "data" && "event" != "id" && "event" != "retry" && "data" != "id" && "data" != "retry" && "id" != "retry"
  {
    assert "event"[0] == 'e' && "data"[0] == 'd' && "id"[0] == 'i' && "retry"[0] == 'r';
  }

  /** Event, id and retry are what the last lines about them give. */
  lemma {:induction false} FieldsAreLastSaid(lines: seq<string>)
    ensures var out := ReadLines(lines);
      LastSaid(lines, "event", out.event) && LastSaid(lines, "id", out.id) && LastSaid(lines, "retry", out.retry)
  {
    if lines != [] {
      var before, last := lines[..|lines| - 1], lines[|lines| - 1];
      FieldsAreLastSaid(before);
      var out := ReadLines(before);
      OneLineMore(out, last);
      DifferentNames();
      LastSaidMore(before, last, "event", out.event);
      LastSaidMore(before, last, "id", out.id);
      LastSaidMore(before, last, "retry", out.retry);
      assert before + [last] == lines;
    }
  }

  /** Texts with a newline between each two, those at the front that are empty
      left out. */
  function Lined(vs: seq<string>): string {
    if vs == [] then ""
    else
      var before, last := Lined(vs[..|vs| - 1]), vs[|vs| - 1];
      if before == "" then last else before + "\n" + last
  }

  /** `vs` is what the lines say about `f`, in order. */
  ghost predicate AllSaid(lines: seq<string>, f: string, vs: seq<string>)
  {
    if lines == [] then vs == []
    else
      var before, last := lines[..|lines| - 1], lines[|lines| - 1];
      if vs != [] && Says(last, f, vs[|vs| - 1]) then AllSaid(before, f, vs[..|vs| - 1])
      else (forall w :: !Says(last, f, w)) && AllSaid(before, f, vs)
  }

  /** The data is all that the lines say about it, one below the other. */
  lemma {:induction false} DataIsAllSaid(lines: seq<string>, vs: seq<string>)
    requires AllSaid(lines, "data", vs)
    ensures ReadLines(lines).data == if vs == [] then None else Some(Lined(vs))
  {
    if lines != [] {
      var before, last := lines[..|lines| - 1], lines[|lines| - 1];
      DifferentNames();
      OneLineMore(ReadLines(before), last);
      SaysIff(last, "data", ValueOf(last));
      if vs != [] { SaysIff(last, "data", vs[|vs| - 1]); }
      DataIsAllSaid(before, if FieldOf(last) == "data" then vs[..|vs| - 1] else vs);
    }
  }

  /** Splitting at newlines: the lines rebuild the text and hold none. */
  lemma {:induction false} LinesMeaning(s: string)
    ensures SplitLines(s) != [] && Rejoined(SplitLines(s)) == s
    ensures forall k :: 0 <= k < |SplitLines(s)| ==> OneLine(SplitLines(s)[k])
  {
    if s != "" {
      LinesMeaning(s[1..]);
      var rest := SplitLines(s[1..]);
      assert s == [s[0]] + s[1..];
      if s[0] == '\n' {
        assert ([""] + rest)[1..] == rest;
        assert "" + "\n" + s[1..] == s;
      } else {
        assert ([[s[0]] + rest[0]] + rest[1..])[1..] == rest[1..];
      }
    }
  }

  function Rejoined(lines: seq<string>): string {
    if lines == [] then "" else if |lines| == 1 then lines[0] else lines[0] + "\n" + Rejoined(lines[1..])
  }

  /** What a parsed frame is, said of its lines alone. */
  ghost predicate Reads(frame: string, out: Option<Parsed>) {
    var lines := SplitLines(frame);
    match out
    case None => LastSaid(lines, "event", None) && LastSaid(lines, "data", None) && LastSaid(lines, "id", None)
    case Some(p) =>
      && LastSaid(lines, "event", p.event) && LastSaid(lines, "id", p.id) && LastSaid(lines, "retry", p.retry)
      && (p.event.Some? || p.data.Some? || p.id.Some?)
      && exists vs :: AllSaid(lines, "data", vs) && p.data == if vs == [] then None else Some(Lined(vs))
  }

  lemma {:induction false} ValuesSaid(lines: seq<string>, f: string) returns (vs: seq<string>)
    requires FieldName(f)
    ensures AllSaid(lines, f, vs)
    ensures vs == [] ==> LastSaid(lines, f, None)
  {
    if lines == [] {
      vs := [];
    } else {
      var before, last := lines[..|lines| - 1], lines[|lines| - 1];
      vs := ValuesSaid(before, f);
      SaysIff(last, f, ValueOf(last));
      if FieldOf(last) == f {
        assert (vs + [ValueOf(last)])[..|vs|] == vs;
        vs := vs + [ValueOf(last)];
      } else {
        forall w ensures !Says(last, f, w) { SaysIff(last, f, w); }
        assert vs == [] ==> forall k, v :: 0 <= k < |lines| ==> !Says(lines[k], f, v) by {
          assert forall k :: 0 <= k < |before| ==> lines[k] == before[k];
        }
      }
    }
  }

  lemma {:induction false} ParsedReads(frame: string)
    ensures Reads(frame, ParseFrame(frame))
  {
    var lines := SplitLines(frame);
    DifferentNames();
    FieldsAreLastSaid(lines);
    var vs := ValuesSaid(lines, "data");
    DataIsAllSaid(lines, vs);
  }

  /** The frame the runtime's server writes for an event with an id. */
  lemma {:induction false} IdLineIsRead(id: string, text: string)
    requires OneLine(id) && OneLine(text)
    ensures ParseFrame("id: " + id + "\ndata: " + text) == Some(Parsed(None, Some(text), Some(id), None))
  {
    var a, b := "id: " + id, "data: " + text;
    assert "id: " + id + "\ndata: " + text == a + "\n" + b;
    TwoLines(a, b);
    DifferentNames();
    SaysIff(a, "id", id);
    SaysIff(b, "data", text);
    OneLineMore(BLANK, a);
    OneLineMore(ReadLine(BLANK, a), b);
    assert [a, b][..1] == [a] && [a][..0] == [];
    assert ReadLines([a]) == ReadLine(BLANK, a);
  }

  lemma {:induction false} TwoLines(a: string, b: string)
    requires OneLine(a) && OneLine(b)
    ensures SplitLines(a + "\n" + b) == [a, b]
  {
    var s := a + "\n" + b;
    if a == "" {
      assert s[1..] == b;
      LinesOfLine(b);
    } else {
      assert s[1..] == a[1..] + "\n" + b;
      TwoLines(a[1..], b);
      assert [s[0]] + a[1..] == a;
    }
  }

  // --------------------------------------------- what the handler and a resume get

  predicate HasId(frame: string, id: string) {
    ParseFrame(frame).Some? && ParseFrame(frame).value.id == Some(id) && id != ""
  }

  predicate HasData(frame: string, data: string) {
    ParseFrame(frame).Some? && ParseFrame(frame).value.data == Some(data) && data != ""
  }

  /** `r` is the id of the last frame with one, or `start` if none has. */
  ghost predicate Resumes(frames: seq<string>, start: Option<string>, r: Option<string>) {
    || (r == start && forall j, v :: 0 <= j < |frames| ==> !HasId(frames[j], v))
    || (r.Some? && exists k :: 0 <= k < |frames| && LastWithId(frames, k, r.value))
  }

  ghost predicate LastWithId(frames: seq<string>, k: nat, id: string)
    requires k < |frames|
  {
    HasId(frames[k], id) && forall j, v :: k < j < |frames| ==> !HasId(frames[j], v)
  }

  lemma {:induction false} LastWithIdMore(frames: seq<string>, last: string, k: nat, id: string)
    requires k < |frames| && LastWithId(frames, k, id) && forall v :: !HasId(last, v)
    ensures LastWithId(frames + [last], k, id)
  {
    var more := frames + [last];
    assert more[k] == frames[k];
    forall j, v | k < j < |more| ensures !HasId(more[j], v) {
      if j < |frames| { assert more[j] == frames[j]; } else { assert more[j] == last; }
    }
  }

  lemma {:induction false} ResumesMore(frames: seq<string>, last: string, start: Option<string>, r: Option<string>)
    requires Resumes(frames, start, r) && forall v :: !HasId(last, v)
    ensures Resumes(frames + [last], start, r)
  {
    var more := frames + [last];
    if r.Some? && exists k :: 0 <= k < |frames| && LastWithId(frames, k, r.value) {
      var k :| 0 <= k < |frames| && LastWithId(frames, k, r.value);
      LastWithIdMore(frames, last, k, r.value);
    } else {
      forall j, v | 0 <= j < |more| ensures !HasId(more[j], v) {
        if j < |frames| { assert more[j] == frames[j]; } else { assert more[j] == last; }
      }
    }
  }

  lemma {:induction false} ResumesAt(frames: seq<string>, last: string, start: Option<string>, id: string)
    requires HasId(last, id)
    ensures Resumes(frames + [last], start, Some(id))
  {
    assert (frames + [last])[|frames|] == last;
    assert LastWithId(frames + [last], |frames|, id);
  }

  lemma {:induction false} LastIdStep(frames: seq<string>, start: Option<string>)
    requires frames != []
    ensures var before, last, r := frames[..|frames| - 1], frames[|frames| - 1], LastId(frames, start);
      || (r.Some? && HasId(last, r.value))
      || (r == LastId(before, start) && forall v :: !HasId(last, v))
  {
    var p := ParseFrame(frames[|frames| - 1]);
    if p.Some? && p.value.id.Some? && p.value.id.value != "" {
      assert LastId(frames, start) == p.value.id;
    }
  }

  lemma {:induction false} LastIdMeaning(frames: seq<string>, start: Option<string>)
    ensures Resumes(frames, start, LastId(frames, start))
  {
    if frames != [] {
      var before, last := frames[..|frames| - 1], frames[|frames| - 1];
      LastIdMeaning(before, start);
      assert before + [last] == frames;
      LastIdStep(frames, start);
      var r := LastId(frames, start);
      if r.Some? && HasId(last, r.value) {
        ResumesAt(before, last, start, r.value);
      } else {
        ResumesMore(before, last, start, r);
      }
    }
  }

  /** `data` are the data texts of the frames at `at`, which are all that have one. */
  ghost predicate DeliversAt(frames: seq<string>, data: seq<string>, at: seq<int>) {
    Increasing(at) && TakenFrom(frames, data, at) && NoneMissing(frames, at)
  }

  predicate Increasing(at: seq<int>) {
    forall k, l :: 0 <= k < l < |at| ==> at[k] < at[l]
  }

  predicate TakenFrom(frames: seq<string>, data: seq<string>, at: seq<int>) {
    |at| == |data| && forall k :: 0 <= k < |at| ==> 0 <= at[k] < |frames| && HasData(frames[at[k]], data[k])
  }

  ghost predicate NoneMissing(frames: seq<string>, at: seq<int>) {
    forall j, d :: 0 <= j < |frames| && HasData(frames[j], d) ==> j in at
  }

  ghost predicate Delivers(frames: seq<string>, data: seq<string>) {
    exists at :: DeliversAt(frames, data, at)
  }

  lemma {:induction false} OneMoreTaken(frames: seq<string>, last: string, data: seq<string>, d: string, at: seq<int>)
    requires TakenFrom(frames, data, at) && HasData(last, d)
    ensures TakenFrom(frames + [last], data + [d], at + [|frames|])
  {
    var fs, ds, more := frames + [last], data + [d], at + [|frames|];
    forall k | 0 <= k < |more| ensures 0 <= more[k] < |fs| && HasData(fs[more[k]], ds[k]) {
      if k < |at| {
        assert HasData(frames[at[k]], data[k]) && fs[at[k]] == frames[at[k]] && ds[k] == data[k];
      } else {
        assert fs[|frames|] == last && ds[k] == d;
      }
    }
  }

  lemma {:induction false} StillNoneMissing(frames: seq<string>, last: string, at: seq<int>)
    requires NoneMissing(frames, at)
    ensures NoneMissing(frames + [last], at + [|frames|])
  {
    var fs, more := frames + [last], at + [|frames|];
    forall j, d | 0 <= j < |fs| && HasData(fs[j], d) ensures j in more {
      if j < |frames| { assert fs[j] == frames[j]; } else { assert more[|at|] == j; }
    }
  }

  lemma StillIncreasing(at: seq<int>, n: int)
    requires Increasing(at) && forall k :: 0 <= k < |at| ==> at[k] < n
    ensures Increasing(at + [n])
  {
  }

  lemma {:induction false} DeliversOneMore(frames: seq<string>, last: string, data: seq<string>, d: string)
    requires Delivers(frames, data) && HasData(last, d)
    ensures Delivers(frames + [last], data + [d])
  {
    var at :| DeliversAt(frames, data, at);
    OneMoreTaken(frames, last, data, d, at);
    StillNoneMissing(frames, last, at);
    StillIncreasing(at, |frames|);
    assert DeliversAt(frames + [last], data + [d], at + [|frames|]);
  }

  lemma {:induction false} DeliversNoMore(frames: seq<string>, last: string, data: seq<string>)
    requires Delivers(frames, data) && forall d :: !HasData(last, d)
    ensures Delivers(frames + [last], data)
  {
    var at :| DeliversAt(frames, data, at);
    var fs := frames + [last];
    forall k | 0 <= k < |at| ensures 0 <= at[k] < |fs| && HasData(fs[at[k]], data[k]) {
      assert HasData(frames[at[k]], data[k]);
    }
    forall j, e | 0 <= j < |fs| && HasData(fs[j], e) ensures j in at {
      if j < |frames| { assert HasData(frames[j], e); }
    }
    assert DeliversAt(fs, data, at);
  }

  lemma {:induction false} DataOfHas(frame: string)
    ensures if DataOf(frame) == [] then forall d :: !HasData(frame, d)
      else |DataOf(frame)| == 1 && HasData(frame, DataOf(frame)[0])
  {
  }

  lemma {:induction false} DeliveredMeaning(frames: seq<string>)
    ensures Delivers(frames, DataOfAll(frames))
  {
    if frames == [] {
      assert DeliversAt([], DataOfAll([]), []);
    } else {
      var before, last := frames[..|frames| - 1], frames[|frames| - 1];
      DeliveredMeaning(before);
      DataOfHas(last);
      assert before + [last] == frames;
      if DataOf(last) == [] {
        DeliversNoMore(before, last, DataOfAll(before));
        assert DataOfAll(before) + [] == DataOfAll(before);
      } else {
        DeliversOneMore(before, last, DataOfAll(before), DataOf(last)[0]);
        assert DataOf(last) == [DataOf(last)[0]];
      }
    }
  }

  lemma FedMeaning(frames: seq<string>, start: Option<string>)
    ensures Delivers(frames, DataOfAll(frames)) && Resumes(frames, start, LastId(frames, start))
  {
    DeliveredMeaning(frames);
    LastIdMeaning(frames, start);
  }

  // ------------------------------------------------------------- the decoder

  lemma SeenGrows(seen: seq<string>, frames: seq<string>, i: nat)
    requires i < |frames|
    ensures seen + frames[..i + 1] == seen + frames[..i] + [frames[i]]
  {
  }

  lemma OneFrameMore(seen: seq<string>, frame: string, start: Option<string>)
    ensures DataOfAll(seen + [frame]) == DataOfAll(seen) + DataOf(frame)
    ensures LastId(seen + [frame], start) == LastId([frame], LastId(seen, start))
  {
    assert (seen + [frame])[..|seen|] == seen;
    assert [frame][..0] == [];
  }

  /** The state `pump` keeps across reads of one connection. */
  class Decoder {
    var buffer: string
    var lastEventId: Option<string>
    var delivered: seq<string>   // the data texts handed on so far
    ghost var chunks: seq<string>
    ghost var resumedFrom: Option<string>

    ghost predicate Valid()
      reads this
    {
      && buffer == Pumped(chunks).1
      && delivered == DataOfAll(Pumped(chunks).0)
      && lastEventId == LastId(Pumped(chunks).0, resumedFrom)
    }

    constructor (lastEventId: Option<string>)
      ensures Valid() && chunks == [] && this.lastEventId == lastEventId
    {
      buffer, delivered, this.lastEventId := "", [], lastEventId;
      chunks, resumedFrom := [], lastEventId;
    }

    /** One read: the frames completed by `chunk` are handled in order, whatever
        the text so far was cut into. */
    method Feed(chunk: string)
      requires Valid()
      modifies this
      ensures Valid() && chunks == old(chunks) + [chunk] && resumedFrom == old(resumedFrom)
      ensures buffer == Frames(Concat(chunks)).1
      ensures Delivers(Frames(Concat(chunks)).0, delivered)
      ensures Resumes(Frames(Concat(chunks)).0, resumedFrom, lastEventId)
    {
      Take(chunk);
      FedMeaning(Frames(Concat(chunks)).0, resumedFrom);
    }

    method Take(chunk: string)
      requires Valid()
      modifies this
      ensures Valid() && chunks == old(chunks) + [chunk] && resumedFrom == old(resumedFrom)
      ensures buffer == Frames(Concat(chunks)).1
      ensures delivered == DataOfAll(Frames(Concat(chunks)).0)
      ensures lastEventId == LastId(Frames(Concat(chunks)).0, resumedFrom)
    {
      ghost var seen := Pumped(chunks).0;
      buffer := buffer + chunk;
      SplitNonEmpty(buffer);
      var parts := SplitFrames(buffer);
      buffer := parts[|parts| - 1];
      Handle(parts[..|parts| - 1], seen);
      chunks := chunks + [chunk];
      assert chunks[..|chunks| - 1] == old(chunks);
      ChunkIndependence(chunks);
    }

    method Handle(frames: seq<string>, ghost seen: seq<string>)
      requires delivered == DataOfAll(seen) && lastEventId == LastId(seen, resumedFrom)
      modifies this`delivered, this`lastEventId
      ensures delivered == DataOfAll(seen + frames) && lastEventId == LastId(seen + frames, resumedFrom)
    {
      assert seen + frames[..0] == seen;
      for i := 0 to |frames|
        invariant delivered == DataOfAll(seen + frames[..i])
        invariant lastEventId == LastId(seen + frames[..i], resumedFrom)
      {
        SeenGrows(seen, frames, i);
        HandleOne(frames[i], seen + frames[..i]);
      }
      assert frames[..|frames|] == frames;
    }

    /** One complete frame. */
    method HandleOne(frame: string, ghost seen: seq<string>)
      requires delivered == DataOfAll(seen) && lastEventId == LastId(seen, resumedFrom)
      modifies this`delivered, this`lastEventId
      ensures delivered == DataOfAll(seen + [frame]) && lastEventId == LastId(seen + [frame], resumedFrom)
    {
      OneFrameMore(seen, frame, resumedFrom);
      var parsed := Parse(frame);
      if parsed.Some? {
        if parsed.value.id.Some? && parsed.value.id.value != "" {
          lastEventId := parsed.value.id;
        }
        if parsed.value.data.Some? && parsed.value.data.value != "" {
          delivered := delivered + [parsed.value.data.value];
        }
      }
    }

    method Parse(frame: string) returns (out: Option<Parsed>)
      ensures out == ParseFrame(frame) && Reads(frame, out)
    {
      ParsedReads(frame);
      var lines := SplitLines(frame);
      var acc := BLANK;
      for i := 0 to |lines|
        invariant acc == ReadLines(lines[..i])
      {
        assert lines[..i + 1][..i] == lines[..i];
        acc := ReadLine(acc, lines[i]);
      }
      assert lines[..|lines|] == lines;
      out := if acc.event.None? && acc.data.None? && acc.id.None? then None else Some(acc);
    }
  }
}
