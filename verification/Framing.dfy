/**
  Lines and blocks of an event stream (WHATWG HTML, section 9.2.6), and what the
  enclave's two accumulators and the client each make of them.
*/
module Framing {
  import opened Prelude
  import opened TextOps
  import opened Json
  import opened Utf8
  import opened Sse
  import SseClient
  import Anthropic
  import OpenAi

  predicate AllWhitespace(s: string) {
    forall i :: 0 <= i < |s| ==> IsWhitespace(s[i])
  }

  /** A line that is not blank: data, the payload between white space, or anything else. */
  datatype Line = Data(lead: string, payload: string, trail: string) | Other(text: string) {
    function Text(): string {
      if Data? then "data:" + (lead + payload + trail) else text
    }

    /**
      A payload is not empty; any other line, such as `event: ping`, a comment or
      a lone carriage return, is not data after leading white space either.
    */
    predicate Valid() {
      match this
      case Data(lead, payload, trail) =>
        && payload != "" && Trimmed(payload) && LF !in lead + payload + trail
        && AllWhitespace(lead) && AllWhitespace(trail)
      case Other(text) => text != "" && LF !in text && !("data:" <= TrimStart(text))
    }

    /** The client takes one carriage return off the end and one space off the front. */
    function Fields(): seq<string> {
      if Other? then []
      else
        var field := StripSuffixChar(lead + payload + trail, CR);
        [if field != "" && field[0] == ' ' then field[1..] else field]
    }

    function Parsed(env: Env): seq<Json> {
      if Data? && env.parse(payload).Some? then [env.parse(payload).value] else []
    }
  }

  /** The lines up to a blank line. */
  type Block = seq<Line>

  predicate ValidLines(lines: Block) {
    forall i :: 0 <= i < |lines| ==> lines[i].Valid()
  }

  function Texts(lines: Block): seq<string> {
    seq(|lines|, i requires 0 <= i < |lines| => lines[i].Text())
  }

  function PayloadsIn(env: Env, lines: Block): seq<Json> {
    if lines == [] then [] else lines[0].Parsed(env) + PayloadsIn(env, lines[1..])
  }

  function FieldsIn(lines: Block): seq<string> {
    if lines == [] then [] else lines[0].Fields() + FieldsIn(lines[1..])
  }

  function DataCount(lines: Block): nat {
    if lines == [] then 0 else (if lines[0].Data? then 1 else 0) + DataCount(lines[1..])
  }

  lemma {:induction false} PayloadsAppend(env: Env, a: Block, b: Block)
    ensures PayloadsIn(env, a + b) == PayloadsIn(env, a) + PayloadsIn(env, b)
  {
    if a == [] {
      assert a + b == b;
    } else {
      assert (a + b)[1..] == a[1..] + b && (a + b)[0] == a[0];
      PayloadsAppend(env, a[1..], b);
      Associative(a[0].Parsed(env), PayloadsIn(env, a[1..]), PayloadsIn(env, b));
    }
  }

  lemma {:induction false} CountAppend(a: Block, b: Block)
    ensures DataCount(a + b) == DataCount(a) + DataCount(b)
  {
    if a == [] {
      assert a + b == b;
    } else {
      assert (a + b)[1..] == a[1..] + b && (a + b)[0] == a[0];
      CountAppend(a[1..], b);
    }
  }

  lemma {:induction false} FieldsCounted(lines: Block)
    ensures |FieldsIn(lines)| == DataCount(lines)
  {
    if lines != [] {
      FieldsCounted(lines[1..]);
    }
  }

  // --- Trimming ----------------------------------------------------------------------

  /** Trimming takes off the white space around a trimmed text, and no more. */
  lemma {:induction false} TrimPadded(lead: string, s: string, trail: string)
    requires AllWhitespace(lead) && AllWhitespace(trail) && s != "" && Trimmed(s)
    ensures Trim(lead + s + trail) == s
    decreases |lead|
  {
    var whole := lead + s + trail;
    if lead == "" {
      assert whole[0] == s[0];
      TrimEndPadded(s, trail);
      assert whole == s + trail;
    } else {
      assert whole[0] == lead[0];
      assert whole[1..] == lead[1..] + s + trail;
      TrimPadded(lead[1..], s, trail);
    }
  }

  lemma {:induction false} TrimEndPadded(s: string, trail: string)
    requires AllWhitespace(trail) && s != "" && Trimmed(s)
    ensures TrimEnd(s + trail) == s
    decreases |trail|
  {
    var whole := s + trail;
    if trail == "" {
      assert whole == s;
    } else {
      assert whole[|whole| - 1] == trail[|trail| - 1];
      assert whole[..|whole| - 1] == s + trail[..|trail| - 1];
      TrimEndPadded(s, trail[..|trail| - 1]);
    }
  }

  lemma {:induction false} TrimStartAppend(s: string, t: string)
    ensures TrimStart(s + t) == if TrimStart(s) == "" then TrimStart(t) else TrimStart(s) + t
  {
    if s == "" {
      assert s + t == t;
    } else if IsWhitespace(s[0]) {
      assert (s + t)[1..] == s[1..] + t;
      TrimStartAppend(s[1..], t);
    }
  }

  lemma {:induction false} TrimEndIsPrefix(s: string)
    ensures TrimEnd(s) <= s
  {
    if s != "" && IsWhitespace(s[|s| - 1]) {
      TrimEndIsPrefix(s[..|s| - 1]);
    }
  }

  // --- What each reader makes of one line ------------------------------------------------

  /** The readers, which have taken a carriage return off or not, find the payload. */
  lemma PayloadFound(l: Line, trail: string)
    requires l.Valid() && l.Data? && AllWhitespace(trail)
    ensures DataOf("data:" + (l.lead + l.payload + trail)) == Some(l.payload)
  {
    var line := "data:" + (l.lead + l.payload + trail);
    assert line[..5] == "data:" && line[5..] == l.lead + l.payload + trail;
    TrimPadded(l.lead, l.payload, trail);
  }

  /** A data line without its carriage return is a data line with less white space at the end. */
  lemma StrippedLine(l: Line)
    requires l.Valid() && l.Data?
    ensures var trail := StripSuffixChar(l.trail, CR);
            && AllWhitespace(trail)
            && StripSuffixChar(l.lead + l.payload + l.trail, CR) == l.lead + l.payload + trail
            && StripSuffixChar(l.Text(), CR) == "data:" + (l.lead + l.payload + trail)
  {
    var front, field := l.lead + l.payload, l.lead + l.payload + l.trail;
    assert field[|front| - 1] == l.payload[|l.payload| - 1] && IsWhitespace(CR);
    if l.trail == "" {
      assert field == front;
    } else {
      assert field[|field| - 1] == l.trail[|l.trail| - 1];
      assert field[..|field| - 1] == front + l.trail[..|l.trail| - 1];
    }
    assert l.Text()[|l.Text()| - 1] == field[|field| - 1];
    assert l.Text()[..|l.Text()| - 1] == "data:" + field[..|field| - 1];
  }

  /** None of the readers, which trim a line or not, takes another line for data. */
  lemma OtherIsNoData(l: Line)
    requires l.Valid() && l.Other?
    ensures !("data:" <= l.text) && !("data:" <= StripSuffixChar(l.text, CR)) && !("data:" <= Trim(l.text + "\n"))
  {
    TrimStartAppend(l.text, "\n");
    TrimEndIsPrefix(TrimStart(l.text + "\n"));
    assert TrimStart("\n") == "" by {
      assert "\n"[1..] == "";
    }
    assert "data:"[0] == 'd' && "data:"[4] == ':';
  }

  lemma AnthropicReadsLine(env: Env, l: Line)
    requires l.Valid()
    ensures Anthropic.LineEvent(env, StripSuffixChar(l.Text(), CR)) == l.Parsed(env)
  {
    if l.Data? {
      StrippedLine(l);
      PayloadFound(l, StripSuffixChar(l.trail, CR));
    } else {
      OtherIsNoData(l);
    }
  }

  /** The whole data line, trimmed, still carries the payload. */
  lemma TrimmedLine(l: Line)
    requires l.Valid() && l.Data?
    ensures Trim(l.Text() + "\n") == "data:" + (l.lead + l.payload)
  {
    var line := "data:" + (l.lead + l.payload);
    assert line[0] == 'd' && line[|line| - 1] == l.payload[|l.payload| - 1];
    assert l.Text() + "\n" == "" + line + (l.trail + "\n");
    TrimPadded("", line, l.trail + "\n");
  }

  lemma OpenAiReadsLine(env: Env, l: Line)
    requires l.Valid() && env.parse("[DONE]").None?
    ensures OpenAi.Extraction(env)(l.Text()) == l.Parsed(env)
  {
    if l.Data? {
      TrimmedLine(l);
      PayloadFound(l, "");
      assert l.lead + l.payload + "" == l.lead + l.payload;
    } else {
      OtherIsNoData(l);
    }
  }

  lemma ClientReadsLine(l: Line)
    requires l.Valid()
    ensures var line := StripSuffixChar(l.Text(), CR);
            l.Fields() == match StripPrefix(line, "data:")
                          case None => []
                          case Some(field) => [if field != "" && field[0] == ' ' then field[1..] else field]
  {
    if l.Data? {
      StrippedLine(l);
      var field := StripSuffixChar(l.lead + l.payload + l.trail, CR);
      assert ("data:" + field)[..5] == "data:" && ("data:" + field)[5..] == field;
    } else {
      OtherIsNoData(l);
    }
  }

  // --- What each reader makes of a list of lines -------------------------------------------

  lemma TextsCons(lines: Block, more: seq<string>)
    requires lines != []
    ensures Texts(lines) + more == [lines[0].Text()] + (Texts(lines[1..]) + more)
    ensures (Texts(lines) + more)[1..] == Texts(lines[1..]) + more
  {}

  /** The enclave's line reader, given the lines of a block and the empty line that ends it. */
  lemma {:induction false} AnthropicReadsLines(env: Env, lines: Block)
    requires ValidLines(lines)
    ensures Anthropic.LineEvents(env, StripEach(Texts(lines) + [""])) == PayloadsIn(env, lines)
  {
    if lines == [] {
      AnthropicSkipsBlank(env);
      assert Texts(lines) + [""] == [""];
    } else {
      TextsCons(lines, [""]);
      var rest := StripEach(Texts(lines[1..]) + [""]);
      assert ([StripSuffixChar(lines[0].Text(), CR)] + rest)[1..] == rest;
      AnthropicReadsLine(env, lines[0]);
      AnthropicReadsLines(env, lines[1..]);
    }
  }

  lemma AnthropicSkipsBlank(env: Env)
    ensures Anthropic.LineEvents(env, StripEach([""])) == []
  {
    var none: seq<string> := [];
    assert [""][1..] == none;
    assert StripEach([""]) == [""] + none;
  }

  lemma {:induction false} OpenAiReadsLines(env: Env, lines: Block)
    requires ValidLines(lines) && env.parse("[DONE]").None?
    ensures EventsOf(OpenAi.Extraction(env), Texts(lines)) == PayloadsIn(env, lines)
  {
    if lines != [] {
      assert Texts(lines)[1..] == Texts(lines[1..]);
      OpenAiReadsLine(env, lines[0]);
      OpenAiReadsLines(env, lines[1..]);
    }
  }

  lemma {:induction false} ClientReadsLines(lines: Block)
    requires ValidLines(lines)
    ensures SseClient.DataFields(Texts(lines)) == FieldsIn(lines)
  {
    if lines != [] {
      assert Texts(lines)[1..] == Texts(lines[1..]);
      ClientReadsLine(lines[0]);
      ClientReadsLines(lines[1..]);
    }
  }

  // --- Draining by line ------------------------------------------------------------

  function Unlines(lines: seq<string>): string {
    if lines == [] then "" else lines[0] + "\n" + Unlines(lines[1..])
  }

  predicate GoodLines(lines: seq<string>) {
    forall i :: 0 <= i < |lines| ==> lines[i] != "" && LF !in lines[i]
  }

  lemma LineIsGood(l: Line)
    requires l.Valid()
    ensures l.Text() != "" && LF !in l.Text()
  {
    if l.Data? {
      var line := l.Text();
      forall i | 0 <= i < |line| ensures line[i] != LF {
        if i >= 5 {
          assert line[i] == (l.lead + l.payload + l.trail)[i - 5];
        }
      }
    }
  }

  lemma LinesAreGood(lines: Block)
    requires ValidLines(lines)
    ensures GoodLines(Texts(lines))
  {
    forall i | 0 <= i < |lines| ensures Texts(lines)[i] != "" && LF !in Texts(lines)[i] {
      LineIsGood(lines[i]);
    }
  }

  lemma {:induction false} UnlinesAppend(a: seq<string>, b: seq<string>)
    ensures Unlines(a + b) == Unlines(a) + Unlines(b)
  {
    if a == [] {
      assert a + b == b;
    } else {
      assert (a + b)[1..] == a[1..] + b && (a + b)[0] == a[0];
      UnlinesAppend(a[1..], b);
      Associative(a[0] + "\n", Unlines(a[1..]), Unlines(b));
    }
  }

  lemma NoLineFeed(l: string)
    requires LF !in l
    ensures forall j :: 0 <= j < |l| ==> !OccursAt(l + "\n", "\n", j)
  {
    forall j | 0 <= j < |l| ensures !OccursAt(l + "\n", "\n", j) {
      assert (l + "\n")[j] == l[j];
      assert (l + "\n")[j..j + 1] == [l[j]];
    }
  }

  lemma DrainLine(l: string, rest: string)
    requires LF !in l
    ensures Drain((l + "\n") + rest, "\n").0 == [l] + Drain(rest, "\n").0
    ensures Drain((l + "\n") + rest, "\n").1 == Drain(rest, "\n").1
  {
    NoLineFeed(l);
    DrainOne(l, "\n", rest);
  }

  lemma DrainLinesStep(first: string, others: seq<string>, text: string, rest: string)
    requires LF !in first
    requires Drain(text + rest, "\n").0 == others + Drain(rest, "\n").0
    requires Drain(text + rest, "\n").1 == Drain(rest, "\n").1
    ensures Drain((first + "\n" + text) + rest, "\n").0 == ([first] + others) + Drain(rest, "\n").0
    ensures Drain((first + "\n" + text) + rest, "\n").1 == Drain(rest, "\n").1
  {
    DrainLine(first, text + rest);
    Associative(first + "\n", text, rest);
    Associative([first], others, Drain(rest, "\n").0);
  }

  lemma {:induction false} DrainLines(lines: seq<string>, rest: string)
    requires GoodLines(lines)
    ensures Drain(Unlines(lines) + rest, "\n").0 == lines + Drain(rest, "\n").0
    ensures Drain(Unlines(lines) + rest, "\n").1 == Drain(rest, "\n").1
    decreases |lines|
  {
    if lines == [] {
      EmptyAppended(rest);
      EmptyAppended(Drain(rest, "\n").0);
    } else {
      DrainLines(lines[1..], rest);
      DrainLinesStep(lines[0], lines[1..], Unlines(lines[1..]), rest);
      assert lines == [lines[0]] + lines[1..];
    }
  }

  lemma DrainNothing(sep: string)
    requires sep != ""
    ensures Drain("", sep) == ([], "")
  {
    assert !OccursAt("", sep, 0);
  }

  lemma DrainUnlines(lines: seq<string>)
    requires GoodLines(lines)
    ensures Drain(Unlines(lines), "\n") == (lines, "")
  {
    DrainLines(lines, "");
    DrainNothing("\n");
    EmptyAppended(Unlines(lines));
    EmptyAppended(lines);
  }

  /** Lines and the blank line after them. */
  lemma DrainBlockLines(lines: seq<string>, rest: string)
    requires GoodLines(lines)
    ensures Drain(Unlines(lines) + "\n" + rest, "\n").0 == (lines + [""]) + Drain(rest, "\n").0
    ensures Drain(Unlines(lines) + "\n" + rest, "\n").1 == Drain(rest, "\n").1
  {
    Associative(Unlines(lines), "\n", rest);
    DrainLines(lines, "\n" + rest);
    DrainLine("", rest);
    assert ("" + "\n") + rest == "\n" + rest;
    Associative(lines, [""], Drain(rest, "\n").0);
  }

  lemma NotFound(s: string)
    requires Find(s, "\n").None?
    ensures LF !in s
  {
    forall i: nat | i < |s| ensures s[i] != LF {
      assert !OccursAt(s, "\n", i);
      assert s[i..i + 1] == [s[i]];
    }
  }

  /** Splitting at line feeds is draining the text with a last line feed added. */
  lemma SplitIsDrain(s: string)
    ensures Drain(s + "\n", "\n").0 == SseClient.Split(s)
  {
    var rest := Drain(s, "\n").1;
    DrainAppend(s, "\n", "\n");
    NotFound(rest);
    DrainLine(rest, "");
    DrainNothing("\n");
    EmptyAppended(rest + "\n");
    EmptyAppended([rest]);
  }

  // --- Draining by blank line ---------------------------------------------------------

  /** No two line feeds in a row, none at the front, one at the end. */
  predicate SingleSpaced(u: string) {
    && u != "" && u[0] != LF && u[|u| - 1] == LF
    && forall i :: 0 <= i < |u| - 1 ==> u[i] != LF || u[i + 1] != LF
  }

  lemma {:induction false} UnlinesSingleSpaced(lines: seq<string>)
    requires GoodLines(lines) && lines != []
    ensures SingleSpaced(Unlines(lines))
  {
    var first := lines[0] + "\n";
    var u := Unlines(lines);
    if |lines| == 1 {
      assert Unlines(lines[1..]) == "";
      assert u == first;
    } else {
      var v := Unlines(lines[1..]);
      UnlinesSingleSpaced(lines[1..]);
      assert u == first + v;
      forall i | 0 <= i < |u| - 1 ensures u[i] != LF || u[i + 1] != LF {
        if i < |lines[0]| {
          assert u[i] == lines[0][i];
        } else if i == |lines[0]| {
          assert u[i + 1] == v[0];
        } else {
          assert u[i] == v[i - |first|] && u[i + 1] == v[i + 1 - |first|];
        }
      }
    }
  }

  /** A single-spaced run of lines and a blank line are one piece: the run without its last line feed. */
  lemma DrainBlank(u: string, rest: string)
    requires SingleSpaced(u)
    ensures Drain(u + "\n" + rest, "\n\n").0 == [u[..|u| - 1]] + Drain(rest, "\n\n").0
    ensures Drain(u + "\n" + rest, "\n\n").1 == Drain(rest, "\n\n").1
  {
    var s := u[..|u| - 1];
    assert u == s + "\n";
    assert s + "\n\n" == u + "\n";
    forall j | 0 <= j < |s| ensures !OccursAt(s + "\n\n", "\n\n", j) {
      assert (s + "\n\n")[j..j + 2] == [u[j], u[j + 1]];
    }
    DrainOne(s, "\n\n", rest);
    assert s + "\n\n" + rest == u + "\n" + rest;
  }

  // --- What each reader makes of one block -----------------------------------------------

  predicate ValidBlock(b: Block) {
    b != [] && ValidLines(b)
  }

  /** What a reader that looks for blank lines drains: the block's text up to the last line feed. */
  function Piece(b: Block): string
    requires ValidBlock(b)
  {
    var u := Unlines(Texts(b));
    u[..|u| - 1]
  }

  lemma PieceOf(b: Block)
    requires ValidBlock(b)
    ensures SingleSpaced(Unlines(Texts(b))) && Piece(b) + "\n" == Unlines(Texts(b))
  {
    LinesAreGood(b);
    UnlinesSingleSpaced(Texts(b));
  }

  /** The enclave hands the block's lines and one empty line to its line reader. */
  lemma AnthropicReadsBlock(env: Env, b: Block)
    requires ValidBlock(b)
    ensures Anthropic.Extraction(env)(Piece(b)) == PayloadsIn(env, b)
  {
    PieceOf(b);
    LinesAreGood(b);
    assert Piece(b) + "\n\n" == Unlines(Texts(b)) + "\n" + "";
    DrainBlockLines(Texts(b), "");
    DrainNothing("\n");
    EmptyAppended(Texts(b) + [""]);
    EmptyAppended(StripEach(Texts(b) + [""]));
    AnthropicReadsLines(env, b);
  }

  lemma ClientReadsBlock(b: Block)
    requires ValidBlock(b)
    ensures SseClient.DataFields(SseClient.Split(Piece(b))) == FieldsIn(b)
  {
    PieceOf(b);
    LinesAreGood(b);
    DrainUnlines(Texts(b));
    SplitIsDrain(Piece(b));
    ClientReadsLines(b);
  }

  lemma OpenAiSkipsBlank(env: Env)
    ensures EventsOf(OpenAi.Extraction(env), [""]) == []
  {
    OnePiece(OpenAi.Extraction(env), "");
    assert "" + "\n" == "\n" && "\n"[1..] == "";
    assert TrimStart("\n") == "";
  }

  lemma OpenAiReadsBlock(env: Env, b: Block)
    requires ValidBlock(b) && env.parse("[DONE]").None?
    ensures EventsOf(OpenAi.Extraction(env), Texts(b) + [""]) == PayloadsIn(env, b)
  {
    var extract := OpenAi.Extraction(env);
    OpenAiReadsLines(env, b);
    OpenAiSkipsBlank(env);
    EventsAppend(extract, Texts(b), [""]);
    EmptyAppended(PayloadsIn(env, b));
  }
}
