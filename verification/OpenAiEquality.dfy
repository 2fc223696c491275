/**
  The OpenAI accumulator ends where the non-streaming parser ends, for any
  fragmentation over chunks and any interleaving across tool-call indexes.
*/
module OpenAiEquality {
  import opened Prelude
  import opened Json
  import opened Canonical
  import opened OpenAi

  // --- Fields: the last report wins; text is appended ------------------------------

  function Field(key: string): Json -> Option<string> {
    v => GetStr(v, key)
  }

  function TotalText(chunks: seq<Json>): string {
    if chunks == [] then "" else TotalText(chunks[..|chunks| - 1]) + TextOf(chunks[|chunks| - 1])
  }

  lemma {:induction false} RunFields(chunks: seq<Json>)
    ensures Run(chunks).model == LastReport(chunks, Field("model"))
    ensures Run(chunks).id == LastReport(chunks, Field("id"))
    ensures Run(chunks).serviceTier == LastReport(chunks, Field("service_tier"))
    ensures Run(chunks).inferenceGeo == LastReport(chunks, Field("inference_geo"))
    ensures Run(chunks).finishReason == LastReport(chunks, FinishOf)
    ensures Run(chunks).usage == LastReport(chunks, UsageOf).GetOr(NO_USAGE)
    ensures Run(chunks).text == TotalText(chunks)
  {
    if chunks != [] {
      RunFields(chunks[..|chunks| - 1]);
    }
  }

  // --- Tool calls: only entries of the same index matter ------------------------------

  function AllEntries(chunks: seq<Json>): seq<Json> {
    if chunks == [] then [] else AllEntries(chunks[..|chunks| - 1]) + EntriesOf(chunks[|chunks| - 1])
  }

  function RunEntries(entries: seq<Json>): Calls {
    if entries == [] then [] else ApplyEntry(RunEntries(entries[..|entries| - 1]), entries[|entries| - 1])
  }

  lemma {:induction false} RunEntriesAppend(done: seq<Json>, more: seq<Json>)
    ensures RunEntries(done + more) == ApplyEntries(RunEntries(done), more)
    decreases |more|
  {
    if more == [] {
      assert done + more == done;
    } else {
      var next := done + [more[0]];
      assert next[..|done|] == done && next + more[1..] == done + more;
      RunEntriesAppend(next, more[1..]);
    }
  }

  lemma {:induction false} RunCalls(chunks: seq<Json>)
    ensures Run(chunks).calls == RunEntries(AllEntries(chunks))
  {
    if chunks != [] {
      RunCalls(chunks[..|chunks| - 1]);
      RunEntriesAppend(AllEntries(chunks[..|chunks| - 1]), EntriesOf(chunks[|chunks| - 1]));
    }
  }

  predicate Ordered(calls: Calls) {
    forall i, j :: 0 <= i < j < |calls| ==> calls[i].0 < calls[j].0
  }

  lemma {:induction false} PutAt(calls: Calls, index: nat, call: AccToolCall, other: nat)
    requires Ordered(calls)
    ensures CallAt(Put(calls, index, call), other) == if other == index then Some(call) else CallAt(calls, other)
    decreases |calls|
  {
    if calls != [] {
      PutAt(calls[1..], index, call, other);
      if index < calls[0].0 {
        assert ([(index, call)] + calls)[1..] == calls;
        AbsentBelow(calls, index);
      } else if calls[0].0 == index {
        assert ([(index, call)] + calls[1..])[1..] == calls[1..];
      } else {
        assert Put(calls, index, call)[1..] == Put(calls[1..], index, call);
      }
    }
  }

  lemma {:induction false} AbsentBelow(calls: Calls, index: nat)
    requires forall i :: 0 <= i < |calls| ==> index < calls[i].0
    ensures CallAt(calls, index).None?
  {
    if calls != [] {
      AbsentBelow(calls[1..], index);
    }
  }

  lemma {:induction false} PutOrdered(calls: Calls, index: nat, call: AccToolCall)
    requires Ordered(calls)
    ensures Ordered(Put(calls, index, call)) && Put(calls, index, call) != []
    ensures Put(calls, index, call)[0].0 == if calls == [] || index < calls[0].0 then index else calls[0].0
    decreases |calls|
  {
    if calls != [] && calls[0].0 < index {
      var rest := calls[1..];
      assert forall i :: 0 <= i < |rest| ==> calls[0].0 < rest[i].0;
      PutOrdered(rest, index, call);
      OrderedCons(calls[0], Put(rest, index, call));
    }
  }

  lemma OrderedCons(first: (nat, AccToolCall), rest: Calls)
    requires Ordered(rest) && rest != [] && first.0 < rest[0].0
    ensures Ordered([first] + rest)
  {}

  /** One call built from its own entries alone. */
  function RunCall(history: seq<Json>): Option<AccToolCall> {
    if history == [] then None
    else Some(ExtendCall(RunCall(history[..|history| - 1]).GetOr(NEW_CALL), history[|history| - 1]))
  }

  function At(index: nat): Json -> bool {
    entry => IndexOf(entry) == index
  }

  lemma RunCallSnoc(history: seq<Json>, entry: Json)
    ensures RunCall(history + [entry]) == Some(ExtendCall(RunCall(history).GetOr(NEW_CALL), entry))
  {
    assert (history + [entry])[..|history|] == history;
  }

  /** However the entries of different calls interleave, each call is built from its own, and calls stay in index order. */
  lemma {:induction false} CallsAreIndependent(entries: seq<Json>, index: nat)
    ensures CallAt(RunEntries(entries), index) == RunCall(Filter(entries, At(index)))
    ensures Ordered(RunEntries(entries))
  {
    if entries != [] {
      var before, last := entries[..|entries| - 1], entries[|entries| - 1];
      CallsAreIndependent(before, index);
      var calls := RunEntries(before);
      var call := ExtendCall(CallAt(calls, IndexOf(last)).GetOr(NEW_CALL), last);
      PutAt(calls, IndexOf(last), call, index);
      PutOrdered(calls, IndexOf(last), call);
      var kept := Filter(before, At(index));
      if At(index)(last) {
        RunCallSnoc(kept, last);
      } else {
        assert kept + [] == kept;
      }
    }
  }

  function Fragments(history: seq<Json>, key: string): string {
    if history == [] then "" else Fragments(history[..|history| - 1], key) + FragmentOf(history[|history| - 1], key)
  }

  /** A call's id is the last one given, its name and arguments are all their fragments in order. */
  lemma {:induction false} RunCallCollects(history: seq<Json>)
    requires history != []
    ensures RunCall(history) == Some(AccToolCall(
              LastReport(history, IdOf).GetOr(""), Fragments(history, "name"), Fragments(history, "arguments")))
  {
    var before := history[..|history| - 1];
    if before == [] {
      assert RunCall(before) == None && LastReport(before, IdOf) == None;
    } else {
      RunCallCollects(before);
    }
  }

  /** An ordered call list is determined by what it holds at each index. */
  lemma {:induction false} OrderedByLookup(calls: Calls, indexes: seq<nat>, want: seq<AccToolCall>)
    requires Ordered(calls) && |indexes| == |want|
    requires forall i, j :: 0 <= i < j < |indexes| ==> indexes[i] < indexes[j]
    requires forall k :: 0 <= k < |indexes| ==> CallAt(calls, indexes[k]) == Some(want[k])
    requires forall index: nat :: CallAt(calls, index).Some? ==> index in indexes
    ensures |calls| == |want|
    ensures forall k :: 0 <= k < |want| ==> calls[k].1 == want[k]
    decreases |calls|
  {
    if calls == [] {
      var k := 0;
      if k < |indexes| {
        assert false;
      }
    } else {
      var first := calls[0].0;
      assert CallAt(calls, first).Some?;
      var at :| 0 <= at < |indexes| && indexes[at] == first;
      if at > 0 {
        AbsentBelow(calls, indexes[0]);
        assert false;
      }
      var rest := calls[1..];
      AbsentBelow(rest, first);
      forall index: nat | index != first ensures CallAt(rest, index) == CallAt(calls, index) {}
      forall k | 0 <= k < |indexes[1..]| ensures CallAt(rest, indexes[1..][k]) == Some(want[1..][k]) {
        assert indexes[1..][k] == indexes[k + 1];
      }
      forall index: nat | CallAt(rest, index).Some? ensures index in indexes[1..] {
        assert index != first;
        assert CallAt(calls, index).Some?;
      }
      OrderedByLookup(rest, indexes[1..], want[1..]);
    }
  }

  // --- The whole message ----------------------------------------------------------------

  /** `history` streams the call `c`, whole or in fragments. */
  ghost predicate StreamsCall(history: seq<Json>, c: WireToolCall) {
    && history != []
    && LastReport(history, IdOf).GetOr("") == c.id
    && Fragments(history, "name") == c.name
    && Fragments(history, "arguments") == c.arguments
  }

  /** The entries stream the calls under the strictly increasing `indexes`, and no others. */
  ghost predicate StreamsCalls(entries: seq<Json>, indexes: seq<nat>, calls: seq<WireToolCall>) {
    && |indexes| == |calls|
    && (forall i, j :: 0 <= i < j < |indexes| ==> indexes[i] < indexes[j])
    && (forall k :: 0 <= k < |calls| ==> StreamsCall(Filter(entries, At(indexes[k])), calls[k]))
    && (forall index: nat :: index !in indexes ==> Filter(entries, At(index)) == [])
  }

  /** Streamed text equals the message's text; a message without content streams no text. */
  ghost predicate StreamsText(text: string, content: Option<Json>) {
    match content
    case None => text == ""
    case Some(c) => c == Str(text) && text != ""
  }

  /** The chunks stream everything of the response `raw` but its text. */
  ghost predicate DescribesButText(chunks: seq<Json>, indexes: seq<nat>, raw: Json) {
    && DecodeResponse(raw).Ok?
    && var w := DecodeResponse(raw).value;
    && var choice := FirstChoiceOf(w);
    && LastReport(chunks, Field("model")) == Some(w.model)
    && LastReport(chunks, Field("id")).GetOr("") == GetStr(raw, "id").GetOr("")
    && LastReport(chunks, Field("service_tier")) == GetStr(raw, "service_tier")
    && LastReport(chunks, Field("inference_geo")) == GetStr(raw, "inference_geo")
    && LastReport(chunks, FinishOf).GetOr("") == choice.finishReason.GetOr("")
    && LastReport(chunks, UsageOf).GetOr(NO_USAGE) == w.usage
    && StreamsCalls(AllEntries(chunks), indexes, choice.toolCalls)
  }

  /** The content of a response's first choice. */
  function ContentOf(raw: Json): Option<Json>
    requires DecodeResponse(raw).Ok?
  {
    FirstChoiceOf(DecodeResponse(raw).value).content
  }

  /** The chunks stream the response `raw`. */
  ghost predicate Describes(chunks: seq<Json>, indexes: seq<nat>, raw: Json) {
    DescribesButText(chunks, indexes, raw) && StreamsText(TotalText(chunks), ContentOf(raw))
  }

  function Accumulated(c: WireToolCall): AccToolCall {
    AccToolCall(c.id, c.name, c.arguments)
  }

  lemma CallsStream(env: Env, entries: seq<Json>, indexes: seq<nat>, calls: seq<WireToolCall>)
    requires StreamsCalls(entries, indexes, calls)
    ensures CallsToBlocks(env, RunEntries(entries)) == ToolCallsToBlocks(env, calls)
  {
    var got := RunEntries(entries);
    var want := seq(|calls|, k requires 0 <= k < |calls| => Accumulated(calls[k]));
    CallsAreIndependent(entries, 0);
    forall k | 0 <= k < |indexes| ensures CallAt(got, indexes[k]) == Some(want[k]) {
      CallsAreIndependent(entries, indexes[k]);
      RunCallCollects(Filter(entries, At(indexes[k])));
    }
    forall index: nat | CallAt(got, index).Some? ensures index in indexes {
      CallsAreIndependent(entries, index);
    }
    OrderedByLookup(got, indexes, want);
  }

  lemma SuffixCancels<T>(a: seq<T>, b: seq<T>, c: seq<T>)
    ensures a + c == b + c <==> a == b
  {
    if a + c == b + c {
      assert |a + c| == |b + c|;
      assert a == (a + c)[..|a|] && b == (b + c)[..|b|];
    }
  }

  /**
    Once everything but the text is streamed, the accumulated response is that of
    the whole message exactly when the text's blocks are those of its content.
  */
  lemma TextDecides(env: Env, chunks: seq<Json>, indexes: seq<nat>, raw: Json, fallback: string)
    requires DescribesButText(chunks, indexes, raw)
    ensures var text, content := TotalText(chunks), ContentOf(raw);
            ToCanonicalResponse(env, raw) == Ok(Finish(env, Run(chunks), fallback)) <==>
            (if text == "" then [] else [TextBlock(text)])
            == (if content.None? then [] else StringifyContent(env, content.value))
  {
    var choice := FirstChoiceOf(DecodeResponse(raw).value);
    RunFields(chunks);
    RunCalls(chunks);
    CallsStream(env, AllEntries(chunks), indexes, choice.toolCalls);
    SuffixCancels(
      if choice.content.None? then [] else StringifyContent(env, choice.content.value),
      if TotalText(chunks) == "" then [] else [TextBlock(TotalText(chunks))],
      ToolCallsToBlocks(env, choice.toolCalls));
  }

  /** The accumulated stream and the whole response give the same canonical response, metadata and request id. */
  lemma StreamEqualsWhole(env: Env, chunks: seq<Json>, indexes: seq<nat>, raw: Json, fallback: string)
    requires Describes(chunks, indexes, raw)
    ensures ToCanonicalResponse(env, raw) == Ok(Finish(env, Run(chunks), fallback))
  {
    TextDecides(env, chunks, indexes, raw, fallback);
  }

  /**
    For a response with string content or none, equality needs all that
    `StreamsText` asks of the text: it holds exactly when the text streamed is
    the content and is not empty, or there is neither text nor content.
  */
  lemma StreamsTextExactly(env: Env, chunks: seq<Json>, indexes: seq<nat>, raw: Json, fallback: string)
    requires DescribesButText(chunks, indexes, raw)
    requires ContentOf(raw).None? || ContentOf(raw).value.Str?
    ensures ToCanonicalResponse(env, raw) == Ok(Finish(env, Run(chunks), fallback))
       <==> StreamsText(TotalText(chunks), ContentOf(raw))
  {
    hide Finish, ToCanonicalResponse, Run, StreamsCalls, LastReport;
    TextDecides(env, chunks, indexes, raw, fallback);
    var text, content := TotalText(chunks), ContentOf(raw);
    if content.Some? {
      assert StringifyContent(env, content.value) == [TextBlock(content.value.s)];
      assert [TextBlock(content.value.s)][0] == TextBlock(content.value.s);
      assert text != "" ==> [TextBlock(text)][0] == TextBlock(text);
    }
  }

  /**
    String content that is streamed exactly gives the response of the whole
    message exactly when it is not empty.
  */
  lemma EmptyTextDiffers(env: Env, chunks: seq<Json>, indexes: seq<nat>, raw: Json, fallback: string)
    requires DescribesButText(chunks, indexes, raw) && ContentOf(raw) == Some(Str(TotalText(chunks)))
    ensures ToCanonicalResponse(env, raw) == Ok(Finish(env, Run(chunks), fallback)) <==> TotalText(chunks) != ""
  {
    StreamsTextExactly(env, chunks, indexes, raw, fallback);
  }

  /**
    The four canonical counters add up to the provider's own total exactly when
    the cached part does not exceed the prompt it is said to be part of.
  */
  lemma UsageAddsUp(u: WireUsage)
    ensures var c := ToCanonicalUsage(u);
            c.input + c.cacheCreation + c.cacheRead + c.output == u.prompt + u.completion
            <==> u.cached.GetOr(0) <= u.prompt
  {}
}
