/** How single lines and events are read, on the text itself, by the client and by the two accumulators. */
module SseFacts {
  import opened Prelude
  import opened TextOps
  import opened Json
  import opened Sse
  import opened Framing
  import SseClient
  import Anthropic
  import OpenAi

  // --- The client ------------------------------------------------------------------

  /** A data line gives its field, without one leading space and without a carriage return at the end. */
  lemma {:induction false} DataLineIsTaken(field: string, more: seq<string>)
    requires field == "" || field[|field| - 1] != '\r'
    ensures SseClient.DataFields(["data: " + field] + more) == [field] + SseClient.DataFields(more)
    ensures SseClient.DataFields(["data: " + field + "\r"] + more) == [field] + SseClient.DataFields(more)
    ensures field == "" || field[0] != ' ' ==>
              && SseClient.DataFields(["data:" + field] + more) == [field] + SseClient.DataFields(more)
              && SseClient.DataFields(["data:" + field + "\r"] + more) == [field] + SseClient.DataFields(more)
  {
    FieldOfLine("data: " + field, " " + field, more);
    FieldOfLine("data:" + field, field, more);
  }

  lemma FieldOfLine(line: string, rest: string, more: seq<string>)
    requires line == "data:" + rest && line[|line| - 1] != '\r'
    ensures var field := if rest != "" && rest[0] == ' ' then rest[1..] else rest;
            && SseClient.DataFields([line] + more) == [field] + SseClient.DataFields(more)
            && SseClient.DataFields([line + "\r"] + more) == [field] + SseClient.DataFields(more)
  {
    assert line[..5] == "data:" && line[5..] == rest;
    assert (line + "\r")[..|line|] == line && (line + "\r")[|line|] == CR;
    assert ([line] + more)[1..] == more && ([line + "\r"] + more)[1..] == more;
  }

  /** Any other line gives nothing. */
  lemma {:induction false} OtherLineIsSkipped(line: string, more: seq<string>)
    requires |line| < 5 || line[..5] != "data:"
    ensures SseClient.DataFields([line] + more) == SseClient.DataFields(more)
    ensures SseClient.DataFields([]) == []
  {
    var stripped := StripSuffixChar(line, CR);
    assert stripped <= line;
    assert |stripped| >= 5 ==> stripped[..5] == line[..5];
    assert ([line] + more)[1..] == more;
  }

  /** The fields of an event are joined by line feeds. */
  lemma {:induction false} FieldsAreJoined(fields: seq<string>, last: string)
    ensures SseClient.JoinLines([last]) == last
    ensures fields != [] ==> SseClient.JoinLines(fields + [last]) == SseClient.JoinLines(fields) + "\n" + last
  {
    if fields != [] {
      assert (fields + [last])[1..] == fields[1..] + [last];
      FieldsAreJoined(fields[1..], last);
      if |fields| > 1 {
        Regroup(fields[0], "\n", SseClient.JoinLines(fields[1..]), "\n", last);
        assert fields[0] + ("\n" + SseClient.JoinLines(fields[1..]))
            == fields[0] + "\n" + SseClient.JoinLines(fields[1..]);
        assert SseClient.JoinLines(fields + [last])
            == fields[0] + "\n" + (SseClient.JoinLines(fields[1..]) + "\n" + last);
      } else {
        assert fields[1..] + [last] == [last];
      }
    }
  }

  /** Lines end at line feeds. */
  lemma {:induction false} LinesAreSplit(line: string, more: string)
    requires '\n' !in line
    ensures SseClient.Split(line) == [line]
    ensures SseClient.Split(line + "\n" + more) == [line] + SseClient.Split(more)
  {
    forall j: nat ensures !OccursAt(line, "\n", j) {
      assert j < |line| ==> line[j..j + 1] == [line[j]];
    }
    DrainLine(line, more);
    Associative([line], Drain(more, "\n").0, [Drain(more, "\n").1]);
  }

  /** An event goes up to the next blank line and is yielded, skipped or the last one by what its fields join to. */
  lemma {:induction false} EventIsRead(env: Env, event: string, more: string)
    requires forall j :: 0 <= j < |event| ==> !OccursAt(event + "\n\n", "\n\n", j)
    ensures var fields := SseClient.DataFields(SseClient.Split(event));
            var read := SseClient.ReadText(env, event + "\n\n" + more);
            var later := SseClient.ReadText(env, more);
            && (fields == [] ==> read == later)
            && (fields != [] ==>
                var data := SseClient.JoinLines(fields);
                && (data == "[DONE]" ==> read == ([], Some(SseClient.DoneMarker)))
                && (data != "[DONE]" && env.parse(data).None? ==> read == ([], Some(SseClient.BadJson)))
                && (data != "[DONE]" && env.parse(data).Some? ==>
                    read == ([env.parse(data).value] + later.0, later.1)))
  {
    DrainOne(event, "\n\n", more);
    assert ([event] + Drain(more, "\n\n").0)[1..] == Drain(more, "\n\n").0;
  }

  /** Text after the last blank line is not read. */
  lemma {:induction false} TailIsNotRead(env: Env, tail: string)
    requires forall j: nat :: !OccursAt(tail, "\n\n", j)
    ensures SseClient.ReadText(env, tail) == ([], None)
  {}

  /** A leading byte order mark is dropped, one of them. */
  lemma {:induction false} MarkIsDropped(text: string)
    ensures SseClient.StripBom("\U{FEFF}" + text) == text
    ensures text == "" || text[0] != '\U{FEFF}' ==> SseClient.StripBom(text) == text
  {
    assert ("\U{FEFF}" + text)[1..] == text;
  }

  /** An event of one data line is read by its field. */
  lemma OneFieldIsRead(env: Env, field: string, more: string)
    requires '\n' !in field && (field == "" || field[|field| - 1] != '\r')
    ensures var read := SseClient.ReadText(env, "data: " + field + "\n\n" + more);
            var later := SseClient.ReadText(env, more);
            && (field == "[DONE]" ==> read == ([], Some(SseClient.DoneMarker)))
            && (field != "[DONE]" && env.parse(field).Some? ==> read == ([env.parse(field).value] + later.0, later.1))
  {
    hide SseClient.ReadText, SseClient.DataFields, SseClient.Split, OccursAt;
    var line := "data: " + field;
    OneLineEvent(line);
    LinesAreSplit(line, "");
    DataLineIsTaken(field, []);
    assert [line] + [] == [line];
    OtherLineIsSkipped("", []);
    assert [field] + [] == [field];
    EventIsRead(env, line, more);
  }

  /** One event, printed as upstreams print it, is one value for the client; the end marker ends the reading. */
  lemma {:induction false} PrintedEventIsSeen(env: Env, payload: string, more: string)
    requires payload != "" && '\n' !in payload && payload[|payload| - 1] != '\r'
    requires payload != "[DONE]" && env.parse(payload).Some?
    ensures var later := SseClient.ReadText(env, more);
            SseClient.ReadText(env, "data: " + payload + "\n\n" + more)
            == ([env.parse(payload).value] + later.0, later.1)
    ensures SseClient.ReadText(env, "data: [DONE]\n\n" + more) == ([], Some(SseClient.DoneMarker))
  {
    hide SseClient.ReadText;
    OneFieldIsRead(env, payload, more);
    OneFieldIsRead(env, "[DONE]", more);
    assert "data: " + "[DONE]" + "\n\n" == "data: [DONE]\n\n";
  }

  lemma OneLineEvent(line: string)
    requires '\n' !in line
    ensures forall j :: 0 <= j < |line| ==> !OccursAt(line + "\n\n", "\n\n", j)
  {
    forall j | 0 <= j < |line| ensures !OccursAt(line + "\n\n", "\n\n", j) {
      assert (line + "\n\n")[j..j + 2][0] == line[j];
    }
  }

  // --- The accumulators ------------------------------------------------------------------

  /** A line after "data:", trimmed, is the payload, which the Anthropic reader applies when it parses. */
  lemma {:induction false} DataLineIsApplied(env: Env, payload: string)
    requires payload != "" && Trimmed(payload)
    ensures var events := if env.parse(payload).Some? then [env.parse(payload).value] else [];
            && Anthropic.LineEvent(env, "data: " + payload) == events
            && Anthropic.LineEvent(env, "data:" + payload) == events
  {
    hide DataOf;
    PayloadOf(" ", payload);
    PayloadOf("", payload);
    assert "data:" + " " + payload == "data: " + payload && "data:" + "" + payload == "data:" + payload;
  }

  /** The OpenAI reader trims the line as well, and applies any payload but the end marker. */
  lemma {:induction false} DataLineIsExtracted(env: Env, payload: string)
    requires payload != "" && Trimmed(payload)
    ensures var events := if payload != "[DONE]" && env.parse(payload).Some? then [env.parse(payload).value] else [];
            && OpenAi.Extraction(env)("data: " + payload) == events
            && OpenAi.Extraction(env)("data: " + payload + "\r") == events
  {
    hide DataOf, Trim;
    TrimsTo(payload, "\n");
    TrimsTo(payload, "\r\n");
    assert "data: " + payload + "\r" + "\n" == "data: " + payload + "\r\n";
  }

  lemma PayloadOf(lead: string, payload: string)
    requires AllWhitespace(lead) && payload != "" && Trimmed(payload)
    ensures DataOf("data:" + lead + payload) == Some(payload)
  {
    TrimPadded(lead, payload, "");
    var line := "data:" + lead + payload;
    assert line[..5] == "data:" && line[5..] == lead + payload + "";
  }

  lemma TrimsTo(payload: string, trail: string)
    requires AllWhitespace(trail) && payload != "" && Trimmed(payload)
    ensures Trim("data: " + payload + trail) == "data: " + payload
    ensures DataOf("data: " + payload) == Some(payload)
  {
    var line := "data: " + payload;
    assert line[|line| - 1] == payload[|payload| - 1] && !IsWhitespace('d');
    TrimPadded("", line, trail);
    assert "" + line + trail == line + trail;
    assert AllWhitespace(" ");
    PayloadOf(" ", payload);
    assert "data:" + " " + payload == line;
  }

  /** A line without "data:" in front, or with nothing after it, applies nothing. */
  lemma {:induction false} OtherLineAppliesNothing(env: Env, line: string, blank: string)
    requires |line| < 5 || line[..5] != "data:"
    requires AllWhitespace(blank)
    ensures Anthropic.LineEvent(env, line) == [] && Anthropic.LineEvent(env, "data:" + blank) == []
    ensures OpenAi.LineEvents(env, line) == [] && OpenAi.LineEvents(env, "data:" + blank) == []
  {
    AllTrimmedAway(blank);
    assert ("data:" + blank)[..5] == "data:" && ("data:" + blank)[5..] == blank;
  }

  lemma {:induction false} AllTrimmedAway(s: string)
    requires AllWhitespace(s)
    ensures Trim(s) == ""
  {
    if s != "" {
      AllTrimmedAway(s[1..]);
    }
  }

  /** A line is what is before its line feed, less one carriage return. */
  lemma {:induction false} LinesAre(line: string, more: string)
    requires '\n' !in line && (line == "" || line[|line| - 1] != '\r')
    ensures Lines(line + "\n" + more) == [line] + Lines(more)
    ensures Lines(line + "\r\n" + more) == [line] + Lines(more)
  {
    hide Lines;
    var returned := line + "\r";
    assert returned[|line|] == CR && returned[..|line|] == line;
    forall k | 0 <= k < |returned| ensures returned[k] != '\n' {
      assert k < |line| ==> returned[k] == line[k] && line[k] in line;
    }
    LineInFront(line, line, more);
    LineInFront(returned, line, more);
    assert returned + "\n" == line + "\r\n";
  }

  lemma LineInFront(whole: string, line: string, more: string)
    requires '\n' !in whole && StripSuffixChar(whole, CR) == line
    ensures Lines(whole + "\n" + more) == [line] + Lines(more)
  {
    DrainLine(whole, more);
    var (pieces, rest) := Drain(more, "\n");
    assert ([whole] + pieces)[1..] == pieces;
    Associative([line], StripEach(pieces), if rest == "" then [] else [rest]);
  }

  /** What no line feed ends is a last line, unless it is empty. */
  lemma {:induction false} LastLineIs(line: string)
    requires '\n' !in line
    ensures Lines(line) == if line == "" then [] else [line]
  {
    forall j: nat ensures !OccursAt(line, "\n", j) {
      assert j < |line| ==> line[j..j + 1] == [line[j]];
    }
    assert Drain(line, "\n") == ([], line);
    assert StripEach([]) + [line] == [line];
  }

  /** An Anthropic event is applied once a blank line ends it. */
  lemma {:induction false} AnthropicAppliesEvent(env: Env, payload: string, more: string)
    requires payload != "" && Trimmed(payload) && '\n' !in payload
    ensures Pending(Anthropic.SEPARATOR, Anthropic.Extraction(env), "data: " + payload + "\n\n" + more)
         == (if env.parse(payload).Some? then [env.parse(payload).value] else [])
            + Pending(Anthropic.SEPARATOR, Anthropic.Extraction(env), more)
    ensures Pending(Anthropic.SEPARATOR, Anthropic.Extraction(env), "data: " + payload + "\n") == []
  {
    hide OccursAt, Trimmed, Drain, Anthropic.Extraction;
    var line := "data: " + payload;
    OneLineEvent(line);
    DrainOne(line, "\n\n", more);
    PendingPieces("\n\n", Anthropic.Extraction(env), line + "\n\n" + more, [line], more);
    OnePiece(Anthropic.Extraction(env), line);
    AnthropicReadsOne(env, payload);
    NothingEnds(line);
  }

  lemma NothingEnds(line: string)
    requires '\n' !in line
    ensures Drain(line + "\n", "\n\n") == ([], line + "\n")
  {
    forall j: nat ensures !OccursAt(line + "\n", "\n\n", j) {
      assert j + 2 <= |line + "\n"| ==> (line + "\n")[j..j + 2][0] == line[j];
    }
  }

  lemma AnthropicReadsOne(env: Env, payload: string)
    requires payload != "" && Trimmed(payload) && '\n' !in payload
    ensures Anthropic.Extraction(env)("data: " + payload)
         == if env.parse(payload).Some? then [env.parse(payload).value] else []
  {
    hide Lines, DataOf, Anthropic.LineEvent;
    var line := "data: " + payload;
    assert IsWhitespace('\r') && line[|line| - 1] == payload[|payload| - 1];
    LinesAre(line, "\n");
    LinesAre("", "");
    LastLineIs("");
    assert line + "\n\n" == line + "\n" + "\n" && "" + "\n" + "" == "\n";
    DataLineIsApplied(env, payload);
    OtherLineAppliesNothing(env, "", "");
    assert Lines(line + "\n\n") == [line, ""];
    assert [line, ""][1..] == [""] && Anthropic.LineEvents(env, [""][1..]) == [];
    assert Anthropic.LineEvents(env, [""]) == [];
    assert Anthropic.LineEvent(env, line) + [] == Anthropic.LineEvent(env, line);
  }

  /** An OpenAI line is applied once a line feed ends it. */
  lemma {:induction false} OpenAiAppliesLine(env: Env, payload: string, more: string)
    requires payload != "" && Trimmed(payload) && '\n' !in payload
    ensures var pending := (text: string) => Pending(OpenAi.SEPARATOR, OpenAi.Extraction(env), text);
            && pending("data: " + payload + "\n" + more)
               == (if payload != "[DONE]" && env.parse(payload).Some? then [env.parse(payload).value] else [])
                  + pending(more)
            && pending("data: " + payload) == []
  {
    hide OpenAi.RawLineEvents;
    var line := "data: " + payload;
    DrainLine(line, more);
    PendingPieces("\n", OpenAi.Extraction(env), line + "\n" + more, [line], more);
    OnePiece(OpenAi.Extraction(env), line);
    DataLineIsExtracted(env, payload);
    forall j: nat ensures !OccursAt(line, "\n", j) {
      assert j < |line| ==> line[j..j + 1] == [line[j]];
    }
    assert Drain(line, "\n") == ([], line);
  }
}
