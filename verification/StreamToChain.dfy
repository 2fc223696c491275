/** From the bytes a client was streamed to the receipt in the on-chain event, all parts together. */
module StreamToChain {
  import opened Prelude
  import opened Bcs
  import opened Canonical
  import opened Receipts
  import opened Server
  import Anthropic
  import AnthropicEquality
  import Checkpoints
  import EndToEnd
  import Framing
  import Json
  import OpenAi
  import OpenAiEquality
  import SameEvents
  import Sse
  import SseClient

  /** The gateway's accumulation of chunks is feeding them all. */
  lemma {:induction false} AccumulatedIsFed(f: Foreign, s: Surface, chunks: seq<seq<byte>>)
    ensures Accumulated(f, s, chunks) == Sse.FeedAll(Separator(s), Server.Extraction(f, s), Sse.START, chunks)
  {
    if chunks != [] {
      var before, last := chunks[..|chunks| - 1], chunks[|chunks| - 1];
      assert before + [last] == chunks;
      AccumulatedIsFed(f, s, before);
      AccumulatedSnoc(f, s, before, last);
      Sse.FeedAllSnoc(Separator(s), Server.Extraction(f, s), Sse.START, before, last);
    }
  }

  /** The payloads a client reads from a byte stream. */
  function Seen(f: Foreign, bytes: seq<byte>): seq<Json.Json> {
    SseClient.ClientSees(f.json, bytes).0
  }

  /**
    The client was streamed these frames, in chunks of any kind; what the gateway
    relayed is the same bytes, in chunks cut between characters.
  */
  ghost predicate Delivers(f: Foreign, frames: SameEvents.Frames, clientChunks: seq<seq<byte>>, r: Server.Request) {
    && SameEvents.Carries(f.json, frames, false, Concat(clientChunks))
    && Concat(r.sent) == Concat(clientChunks) && Sse.Aligned(r.sent)
  }

  /** One data line a block, and on the OpenAI surface none that no blank line follows. */
  predicate ReadAlike(s: Surface, frames: SameEvents.Frames) {
    SameEvents.OneEach(frames.blocks) && (s.OpenAiSurface? ==> Framing.DataCount(frames.open) == 0)
  }

  /** The receipt on chain commits to this response, its metadata and its usage. */
  predicate EventCommitsTo(f: Foreign, a: Assembled, receipt: Receipt) {
    && receipt.responseBlob == FromLittleEndian(f.responseBlob(a.0))
    && receipt.modelId == f.utf8(a.0.model)
    && receipt.providerMetaHash == f.metaHash(a.1)
    && receipt.inputTokens == a.0.usage.input && receipt.outputTokens == a.0.usage.output
    && receipt.cacheCreationTokens == a.0.usage.cacheCreation && receipt.cacheReadTokens == a.0.usage.cacheRead
  }

  /** The accumulator has applied the payloads the client sees exactly when the frames are read alike. */
  lemma AppliedIsSeen(
    f: Foreign, s: Surface, frames: SameEvents.Frames, clientChunks: seq<seq<byte>>, r: Server.Request)
    requires Delivers(f, frames, clientChunks, r)
    ensures Accumulated(f, s, r.sent).events == Seen(f, Concat(clientChunks)) <==> ReadAlike(s, frames)
  {
    SameEvents.ReadersAgreeExactly(f.json, frames, clientChunks, r.sent);
    AccumulatedIsFed(f, s, r.sent);
  }

  /**
    When a client was streamed an Anthropic message, the event on chain for that
    request commits to the canonical response of the whole message, as if it
    had not been streamed.
  */
  lemma AnthropicEventCommitsToMessage(
    f: Foreign, cfg: Config, event: Checkpoints.ReceiptVerified, r: Server.Request, p: Payload,
    frames: SameEvents.Frames, clientChunks: seq<seq<byte>>, raw: Json.Json)
    requires EndToEnd.ShowsRequest(f, cfg, event, r, p)
    requires r.call.value.surface.AnthropicSurface? && r.call.value.stream && Succeeded(r)
    requires Delivers(f, frames, clientChunks, r) && ReadAlike(AnthropicSurface, frames)
    requires AnthropicEquality.Describes(f.json, Seen(f, Concat(clientChunks)), raw)
    ensures var whole := Anthropic.ToCanonicalResponse(f.json, raw);
            whole.Ok? && EventCommitsTo(f, whole.value, event.receipt)
  {
    AppliedIsSeen(f, AnthropicSurface, frames, clientChunks, r);
    AnthropicEquality.StreamEqualsWhole(
      f.json, Seen(f, Concat(clientChunks)), raw, r.call.value.policyRequest.model);
  }

  /** The same for an OpenAI completion. */
  lemma OpenAiEventCommitsToMessage(
    f: Foreign, cfg: Config, event: Checkpoints.ReceiptVerified, r: Server.Request, p: Payload,
    frames: SameEvents.Frames, clientChunks: seq<seq<byte>>, indexes: seq<nat>, raw: Json.Json)
    requires EndToEnd.ShowsRequest(f, cfg, event, r, p)
    requires r.call.value.surface.OpenAiSurface? && r.call.value.stream && Succeeded(r)
    requires Delivers(f, frames, clientChunks, r) && ReadAlike(OpenAiSurface, frames)
    requires OpenAiEquality.Describes(Seen(f, Concat(clientChunks)), indexes, raw)
    ensures var whole := OpenAi.ToCanonicalResponse(f.json, raw);
            whole.Ok? && EventCommitsTo(f, whole.value, event.receipt)
  {
    AppliedIsSeen(f, OpenAiSurface, frames, clientChunks, r);
    OpenAiEquality.StreamEqualsWhole(
      f.json, Seen(f, Concat(clientChunks)), indexes, raw, r.call.value.policyRequest.model);
  }
}
