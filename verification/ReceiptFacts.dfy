/**
  What a receipt says of its request, field by field: the values a reader of the
  receipt may take from it, in terms of the request's history alone.
*/
module ReceiptFacts {
  import opened Prelude
  import opened Json
  import opened Canonical
  import Receipts
  import opened Server
  import Anthropic
  import AnthropicFields
  import Handlers
  import OpenAi
  import OpenAiFields
  import Sse
  import TextOps

  /** The receipt that a request that went well has stored. */
  ghost predicate HasIssued(f: Foreign, cfg: Config, r: Request, p: Receipts.Payload) {
    RequestOk(f, cfg, r) && |r.issued| == 1 && r.issued[0].payload == p
  }

  /** Who was called, for whom, and by which enclave. */
  lemma {:induction false} IdentityIs(f: Foreign, cfg: Config, r: Request, p: Receipts.Payload)
    requires HasIssued(f, cfg, r, p)
    ensures r.call.Some?
    ensures p.receiptId == r.call.value.receiptId && p.requestBlob == r.call.value.requestBlob
    ensures p.configHash == cfg.configHash
    ensures r.call.value.surface.AnthropicSurface? ==> p.provider == 0 && p.endpointHost == f.utf8("api.anthropic.com")
    ensures r.call.value.surface.OpenAiSurface? ==> p.provider == 1 && p.endpointHost == f.utf8("api.openai.com")
  {
    hide Server.Assemble, ParseBody, FeedAcc, Accumulated, CommitsToAnswer, CommitsToError, Permitted, Progress, Feeds,
         Relays;
  }

  /** The connection, and the request sent over it; zeros and the request itself when there was no answer. */
  lemma {:induction false} ConnectionIs(f: Foreign, cfg: Config, r: Request, p: Receipts.Payload)
    requires HasIssued(f, cfg, r, p)
    ensures r.answer.None? ==>
              && p.tlsCertSha256 == seq(32, _ => 0) && p.upstreamHeadersHash == f.emptyHeadersHash
              && p.upstreamRequestBlob == p.requestBlob
    ensures r.answer.Some? ==>
              && p.tlsCertSha256 == r.answer.value.meta.tlsCertSha256
              && p.upstreamHeadersHash == r.answer.value.meta.headersHash
              && p.upstreamRequestBlob == r.answer.value.upstreamRequestBlob
    ensures r.call.Some? && (r.call.value.surface.AnthropicSurface? || !r.call.value.stream) ==>
              p.upstreamRequestBlob == p.requestBlob
  {
    hide Server.Assemble, ParseBody, FeedAcc, Accumulated, CommitsToAnswer, CommitsToError, Permitted, Progress, Feeds,
         Relays;
  }

  // --- Outcomes --------------------------------------------------------------------------

  /** A receipt without a 2xx answer: denied by the policy, or failed upstream; no usage, an error record. */
  lemma {:induction false} ErrorReceiptIs(f: Foreign, cfg: Config, r: Request, p: Receipts.Payload)
    requires HasIssued(f, cfg, r, p)
    requires r.answer.Some? ==> !(200 <= r.answer.value.status < 300)
    ensures r.call.Some? && r.verdict.Some?
    ensures p.outcome == if r.verdict.value.Allowed? then 2 else 3
    ensures p.outcome == 3 <==> r.dispatches == 0
    ensures p.responseBlob == f.errorBlob(
              if r.answer.Some? then Some(r.answer.value.status) else None,
              if !r.verdict.value.Allowed? then f.denialText(r.verdict.value)
              else if r.body.Some? then f.json.render(r.body.value)
              else r.failureText)
    ensures p.modelId == f.utf8(r.call.value.policyRequest.model)
    ensures p.providerRequestId == f.utf8(if r.answer.Some? then r.answer.value.meta.requestIdHeader else "")
    ensures p.providerMetaHash == f.metaHash(ProviderMeta("", None, None))
    ensures p.inputTokens == 0 && p.cacheCreationTokens == 0 && p.cacheReadTokens == 0 && p.outputTokens == 0
  {
    hide Server.Assemble, ParseBody, FeedAcc, Accumulated, CommitsToAnswer, Feeds, Relays, AnswerAgrees, ErrorAgrees;
  }

  /** The reason of a stop that is a refusal, by surface. */
  lemma {:induction false} RefusalIs(s: Surface, stop: string)
    ensures s.AnthropicSurface? ==> OutcomeOf(s, stop) == if stop == "refusal" then 1 else 0
    ensures s.OpenAiSurface? ==> OutcomeOf(s, stop) == if stop == "content_filter" then 1 else 0
  {}

  /** The receipt commits to this response: its model, id, metadata, usage and text. */
  ghost predicate Covers(f: Foreign, r: Request, p: Receipts.Payload, a: Assembled)
    requires r.answer.Some?
  {
    && p.responseBlob == f.responseBlob(a.0) && p.modelId == f.utf8(a.0.model) && p.providerMetaHash == f.metaHash(a.1)
    && p.providerRequestId == f.utf8(if a.2 == "" then r.answer.value.meta.requestIdHeader else a.2)
    && p.inputTokens == a.0.usage.input && p.outputTokens == a.0.usage.output
    && p.cacheCreationTokens == a.0.usage.cacheCreation && p.cacheReadTokens == a.0.usage.cacheRead
  }

  /** A 2xx answer on the Anthropic surface, whole. */
  lemma {:induction false} AnthropicBodyReceiptIs(f: Foreign, cfg: Config, r: Request, p: Receipts.Payload)
    requires HasIssued(f, cfg, r, p) && r.answer.Some? && 200 <= r.answer.value.status < 300
    requires r.call.Some? && r.call.value.surface.AnthropicSurface? && !r.call.value.stream
    ensures r.body.Some?
    ensures var whole := Anthropic.ToCanonicalResponse(f.json, r.body.value);
            if whole.Err? then
              && p.outcome == 2 && p.inputTokens == 0 && p.outputTokens == 0
              && p.responseBlob == f.errorBlob(None, f.decodeFailureText(AnthropicSurface, r.body.value))
            else
              && Covers(f, r, p, whole.value)
              && p.outcome == if GetStr(r.body.value, "stop_reason") == Some("refusal") then 1 else 0
  {
    hide Server.Assemble, FeedAcc, Accumulated, Feeds, Relays, AnswerAgrees, ErrorAgrees, Permitted, Progress, OutcomeOf;
    hide Anthropic.ToCanonicalResponse, OpenAi.ToCanonicalResponse;
    BodyCommitted(f, cfg, r, p);
    if Anthropic.ToCanonicalResponse(f.json, r.body.value).Ok? {
      AnthropicFields.WholeIsRead(f.json, r.body.value);
      RefusalIs(AnthropicSurface, Anthropic.ToCanonicalResponse(f.json, r.body.value).value.0.stopReason);
    }
  }

  lemma {:induction false} BodyCommitted(f: Foreign, cfg: Config, r: Request, p: Receipts.Payload)
    requires HasIssued(f, cfg, r, p) && r.answer.Some? && 200 <= r.answer.value.status < 300
    requires r.call.Some? && !r.call.value.stream
    ensures CommitsToAnswer(f, r, p) && r.body.Some? && r.verdict.Some? && r.verdict.value.Allowed?
  {
    hide Server.Assemble, FeedAcc, Accumulated, Feeds, Relays, AnswerAgrees, ErrorAgrees, ParseBody, CommitsToError;
  }

  /** A 2xx answer on the OpenAI surface, whole. */
  lemma {:induction false} OpenAiBodyReceiptIs(f: Foreign, cfg: Config, r: Request, p: Receipts.Payload)
    requires HasIssued(f, cfg, r, p) && r.answer.Some? && 200 <= r.answer.value.status < 300
    requires r.call.Some? && r.call.value.surface.OpenAiSurface? && !r.call.value.stream
    ensures r.body.Some?
    ensures var whole := OpenAi.ToCanonicalResponse(f.json, r.body.value);
            if whole.Err? then
              && p.outcome == 2 && p.inputTokens == 0 && p.outputTokens == 0
              && p.responseBlob == f.errorBlob(None, f.decodeFailureText(OpenAiSurface, r.body.value))
            else
              && Covers(f, r, p, whole.value)
              && p.outcome == if GetStr(OpenAiFields.FirstIn(r.body.value), "finish_reason") == Some("content_filter")
                              then 1 else 0
  {
    hide Server.Assemble, FeedAcc, Accumulated, Feeds, Relays, AnswerAgrees, ErrorAgrees, Permitted, Progress, OutcomeOf;
    hide Anthropic.ToCanonicalResponse, OpenAi.ToCanonicalResponse, OpenAiFields.FirstIn;
    BodyCommitted(f, cfg, r, p);
    if OpenAi.ToCanonicalResponse(f.json, r.body.value).Ok? {
      OpenAiFields.WholeIsRead(f.json, r.body.value);
      RefusalIs(OpenAiSurface, OpenAi.ToCanonicalResponse(f.json, r.body.value).value.0.stopReason);
    }
  }

  lemma {:induction false} StreamCommitted(f: Foreign, cfg: Config, r: Request, p: Receipts.Payload)
    requires HasIssued(f, cfg, r, p) && r.answer.Some? && 200 <= r.answer.value.status < 300
    requires r.call.Some? && r.call.value.stream
    ensures CommitsToAnswer(f, r, p) && r.fed == r.sent
  {
    hide Server.Assemble, FeedAcc, Accumulated, Feeds, Relays, AnswerAgrees, ErrorAgrees, ParseBody, CommitsToError;
  }

  /** What a stream's chunks amount to: the payloads of their text, framed as its surface frames them. */
  lemma {:induction false} EventsAre(f: Foreign, chunks: seq<seq<byte>>)
    ensures Accumulated(f, AnthropicSurface, chunks)
         == Sse.FeedText("\n\n", Anthropic.Extraction(f.json), Sse.Stream("", []), Sse.LossyEach(chunks))
    ensures Accumulated(f, OpenAiSurface, chunks)
         == Sse.FeedText("\n", OpenAi.Extraction(f.json), Sse.Stream("", []), Sse.LossyEach(chunks))
  {
    hide Anthropic.Extraction, OpenAi.Extraction;
    var start := Sse.Stream("", []);
    assert TextOps.Find("", "\n\n").None? && TextOps.Find("", "\n").None?;
    Sse.FeedAllIsText("\n\n", Anthropic.Extraction(f.json), start, chunks);
    Sse.FeedAllIsText("\n", OpenAi.Extraction(f.json), start, chunks);
    ChunkByChunk(f, chunks);
  }

  lemma {:induction false} ChunkByChunk(f: Foreign, chunks: seq<seq<byte>>)
    ensures Accumulated(f, AnthropicSurface, chunks)
         == Sse.FeedAll("\n\n", Anthropic.Extraction(f.json), Sse.Stream("", []), chunks)
    ensures Accumulated(f, OpenAiSurface, chunks)
         == Sse.FeedAll("\n", OpenAi.Extraction(f.json), Sse.Stream("", []), chunks)
  {
    hide Sse.Feed, Anthropic.Extraction, OpenAi.Extraction;
    if chunks != [] {
      var before, last := chunks[..|chunks| - 1], chunks[|chunks| - 1];
      ChunkByChunk(f, before);
      assert chunks == before + [last];
      Sse.FeedAllSnoc("\n\n", Anthropic.Extraction(f.json), Sse.Stream("", []), before, last);
      Sse.FeedAllSnoc("\n", OpenAi.Extraction(f.json), Sse.Stream("", []), before, last);
    }
  }

  /** A stream on the Anthropic surface: what the chunks sent to the client assemble to. */
  lemma {:induction false} AnthropicStreamReceiptIs(f: Foreign, cfg: Config, r: Request, p: Receipts.Payload)
    requires HasIssued(f, cfg, r, p) && r.answer.Some? && 200 <= r.answer.value.status < 300
    requires r.call.Some? && r.call.value.surface.AnthropicSurface? && r.call.value.stream
    ensures var events := Accumulated(f, AnthropicSurface, r.sent).events;
            var a := Anthropic.Finish(f.json, Anthropic.Run(events), r.call.value.policyRequest.model);
            && Covers(f, r, p, a)
            && p.outcome == if r.broken then 2 else if a.0.stopReason == "refusal" then 1 else 0
  {
    hide FeedAcc, Accumulated, Feeds, Relays, AnswerAgrees, ErrorAgrees, Permitted, Progress, OutcomeOf, RequestOk;
    hide Anthropic.Finish, Anthropic.Run, OpenAi.Finish, OpenAi.Run;
    StreamCommitted(f, cfg, r, p);
    var events := Accumulated(f, AnthropicSurface, r.sent).events;
    var a := Anthropic.Finish(f.json, Anthropic.Run(events), r.call.value.policyRequest.model);
    RefusalIs(AnthropicSurface, a.0.stopReason);
  }

  /** A stream on the OpenAI surface. */
  lemma {:induction false} OpenAiStreamReceiptIs(f: Foreign, cfg: Config, r: Request, p: Receipts.Payload)
    requires HasIssued(f, cfg, r, p) && r.answer.Some? && 200 <= r.answer.value.status < 300
    requires r.call.Some? && r.call.value.surface.OpenAiSurface? && r.call.value.stream
    ensures var events := Accumulated(f, OpenAiSurface, r.sent).events;
            var a := OpenAi.Finish(f.json, OpenAi.Run(events), r.call.value.policyRequest.model);
            && Covers(f, r, p, a)
            && p.outcome == if r.broken then 2 else if a.0.stopReason == "content_filter" then 1 else 0
  {
    hide FeedAcc, Accumulated, Feeds, Relays, AnswerAgrees, ErrorAgrees, Permitted, Progress, OutcomeOf, RequestOk;
    hide Anthropic.Finish, Anthropic.Run, OpenAi.Finish, OpenAi.Run;
    StreamCommitted(f, cfg, r, p);
    var events := Accumulated(f, OpenAiSurface, r.sent).events;
    var a := OpenAi.Finish(f.json, OpenAi.Run(events), r.call.value.policyRequest.model);
    RefusalIs(OpenAiSurface, a.0.stopReason);
  }

  // --- Replies -----------------------------------------------------------------------------

  /** The status of a dispatched request's reply. */
  lemma {:induction false} StatusIs(f: Foreign, call: Call, up: Handlers.Upstream, stored: bool)
    ensures up.Opened? && 200 <= up.status < 300 ==> Handlers.DispatchedStatus(f, call, up, stored) == 200
    ensures !(up.Opened? && 200 <= up.status < 300) && !stored ==> Handlers.DispatchedStatus(f, call, up, stored) == 500
    ensures up.Whole? && 200 <= up.status < 300 && stored ==>
              Handlers.DispatchedStatus(f, call, up, stored)
              == if (call.surface.AnthropicSurface? && Anthropic.ToCanonicalResponse(f.json, up.body).Ok?)
                    || (call.surface.OpenAiSurface? && OpenAi.ToCanonicalResponse(f.json, up.body).Ok?)
                 then 200 else 502
    ensures stored && (up.NoResponse? || ((up.Whole? || up.Opened?) && !(200 <= up.status < 300))) ==>
              Handlers.DispatchedStatus(f, call, up, stored) == 502
  {
    hide Anthropic.ToCanonicalResponse, OpenAi.ToCanonicalResponse;
  }

  // --- History --------------------------------------------------------------------------------

  /** Each step records what happened, and forgets nothing. */
  lemma {:induction false} StepRecords(f: Foreign, cfg: Config, r: Request, e: Event)
    requires Enabled(cfg, r, e)
    ensures var r' := Step(f, cfg, r, e);
            && r'.call == (if e.Screen? then Some(e.call) else r.call)
            && r'.verdict == (if e.Evaluate? then Some(e.verdict) else r.verdict)
            && r'.dispatches == r.dispatches + (if e.Dispatch? then 1 else 0)
            && r'.fed == r.fed + (if e.Chunk? then [e.bytes] else [])
            && r'.broken == (r.broken || e.StreamBreaks?)
            && r'.body == (if e.UpstreamAnswers? then Some(e.body) else r.body)
            && r'.failureText
               == (if e.UpstreamFails? then e.message else if e.StreamOpens? then e.bodyText else r.failureText)
            && (e.UpstreamAnswers? ==> r'.answer == Some(Answer(e.status, e.meta, r.phase.call.requestBlob)))
            && (e.StreamOpens? ==> r'.answer == Some(Answer(e.status, e.meta, e.upstreamRequestBlob)))
            && (!e.UpstreamAnswers? && !e.StreamOpens? ==> r'.answer == r.answer)
            && (!e.Issue? ==> r'.issued == r.issued)
            && (e.Issue? ==> |r'.issued| == |r.issued| + 1 && r'.issued[|r.issued|].timestampMs == e.timestampMs
                             && r'.issued[|r.issued|].sig == e.sig)
  {
    hide Server.Assemble, ParseBody, FeedAcc, PayloadOf;
  }
}
