/**
  The gateway's request protocol.  A request is a sequence of steps, each one
  stretch of handler code between two points where other requests may run; the
  outside world (headers, upstream answers, chunks, clock, signer) enters as the
  step taken.  History fields record what happened, independently of the phase.
*/
module Server {
  import opened Prelude
  import opened Json
  import opened Canonical
  import opened Sse
  import opened Receipts
  import Policy
  import Anthropic
  import OpenAi

  datatype Surface = OpenAiSurface | AnthropicSurface

  const ANTHROPIC_PROVIDER: byte := 0
  const OPENAI_PROVIDER: byte := 1

  const OUTCOME_OK: byte := 0
  const OUTCOME_REFUSAL: byte := 1
  const OUTCOME_UPSTREAM_ERROR: byte := 2
  const OUTCOME_POLICY_DENIED: byte := 3

  function Zeros(n: nat): (r: seq<byte>)
    ensures |r| == n
  {
    seq(n, _ => 0)
  }

  /** Foreign code: JSON, hashes and blob ids of canonical values, UTF-8, and rendered messages. */
  datatype Foreign = Foreign(
    json: Env,
    utf8: string -> seq<byte>,
    responseBlob: Response -> Bytes32,
    metaHash: ProviderMeta -> Bytes32,
    errorBlob: (Option<nat>, string) -> Bytes32,
    emptyHeadersHash: Bytes32,
    denialText: Policy.Verdict -> string,
    decodeFailureText: (Surface, Json) -> string)

  /** The boot configuration the receipts commit to. */
  datatype Config = Config(rules: seq<Policy.Rule>, configHash: Bytes32)

  /** An authenticated, parsed request with its resolved receipt id. */
  datatype Call = Call(
    surface: Surface,
    policyRequest: Policy.Request,
    stream: bool,
    receiptId: Bytes16,
    requestBlob: Bytes32)

  /** What an upstream response says about itself before its body is read. */
  datatype UpstreamMeta = UpstreamMeta(headersHash: Bytes32, tlsCertSha256: Bytes32, requestIdHeader: string)

  /** `CallContext`: the receipt fields fixed before the outcome is known. */
  datatype Context = Context(
    upstreamRequestBlob: Bytes32, upstreamHeadersHash: Bytes32, tlsCertSha256: Bytes32, providerRequestId: string)

  datatype Phase =
    | Arrived
    | Screened(call: Call)
    | Refused(call: Call, message: string)
    | Cleared(call: Call)
    | Dispatched(call: Call)
    | Failed(call: Call, ctx: Context, status: Option<nat>, message: string)
    | Answered(call: Call, ctx: Context, body: Json)
    | Streaming(call: Call, ctx: Context, acc: Stream)
    | Yielding(call: Call, ctx: Context, acc: Stream, chunk: seq<byte>)
    | Ended(call: Call, ctx: Context, acc: Stream, broken: bool)
    | Done

  /** A receipt that was signed and stored. */
  datatype Issued = Issued(payload: Payload, timestampMs: U64, sig: seq<byte>)

  /** A response's status line and metadata as they arrived, and the request it answers as it was dispatched. */
  datatype Answer = Answer(status: nat, meta: UpstreamMeta, upstreamRequestBlob: Bytes32)

  datatype Request = Request(
    phase: Phase,
    // history
    call: Option<Call>,
    verdict: Option<Policy.Verdict>,
    dispatches: nat,
    answer: Option<Answer>,
    body: Option<Json>,
    failureText: string,
    broken: bool,
    fed: seq<seq<byte>>,
    sent: seq<seq<byte>>,
    issued: seq<Issued>)

  const NEW_REQUEST: Request := Request(Arrived, None, None, 0, None, None, "", false, [], [], [])

  /** One step of one request. */
  datatype Event =
    | Reject                                      // no auth, no permit, bad body or bad nonce
    | Screen(call: Call)
    | Evaluate(verdict: Policy.Verdict)
    | NoProvider                                  // no API key configured
    | Dispatch
    | UpstreamFails(message: string)              // no usable response arrived
    | UpstreamAnswers(status: nat, meta: UpstreamMeta, body: Json)
    | StreamOpens(status: nat, meta: UpstreamMeta, upstreamRequestBlob: Bytes32, bodyText: string)
    | Chunk(bytes: seq<byte>)                     // fed to the accumulator ...
    | Yield                                       // ... and handed to the client
    | StreamBreaks
    | StreamEnds
    | Issue(timestampMs: U64, sig: seq<byte>)
    | IssueFails                                  // the signer or a serializer failed
    | Abandon                                     // the client went away

  // --- Adapters by surface ----------------------------------------------------------

  function Provider(s: Surface): byte {
    if s.AnthropicSurface? then ANTHROPIC_PROVIDER else OPENAI_PROVIDER
  }

  function Host(s: Surface): string {
    if s.AnthropicSurface? then "api.anthropic.com" else "api.openai.com"
  }

  function OutcomeOf(s: Surface, stopReason: string): byte {
    var refusal := if s.AnthropicSurface? then "refusal" else "content_filter";
    if stopReason == refusal then OUTCOME_REFUSAL else OUTCOME_OK
  }

  function Separator(s: Surface): (sep: string)
    ensures sep != ""
  {
    if s.AnthropicSurface? then Anthropic.SEPARATOR else OpenAi.SEPARATOR
  }

  function Extraction(f: Foreign, s: Surface): Extract {
    if s.AnthropicSurface? then Anthropic.Extraction(f.json) else OpenAi.Extraction(f.json)
  }

  /** `acc.feed`. */
  function FeedAcc(f: Foreign, s: Surface, acc: Stream, chunk: seq<byte>): Stream {
    Sse.Feed(Separator(s), Extraction(f, s), acc, chunk)
  }

  /** The accumulator's state after a list of chunks. */
  function Accumulated(f: Foreign, s: Surface, chunks: seq<seq<byte>>): Stream {
    if chunks == [] then START else FeedAcc(f, s, Accumulated(f, s, chunks[..|chunks| - 1]), chunks[|chunks| - 1])
  }

  /** `acc.finish`. */
  function Assemble(f: Foreign, s: Surface, acc: Stream, model: string): Assembled {
    if s.AnthropicSurface? then Anthropic.Finish(f.json, Anthropic.Run(acc.events), model)
    else OpenAi.Finish(f.json, OpenAi.Run(acc.events), model)
  }

  function ParseBody(f: Foreign, s: Surface, body: Json): Result<Assembled, DecodeFailure> {
    if s.AnthropicSurface? then Anthropic.ToCanonicalResponse(f.json, body)
    else OpenAi.ToCanonicalResponse(f.json, body)
  }

  // --- Receipts ------------------------------------------------------------------------

  /** `CallContext::no_upstream_call`. */
  function NoUpstream(f: Foreign, call: Call): Context {
    Context(call.requestBlob, f.emptyHeadersHash, Zeros(32), "")
  }

  /** `CallContext::with_upstream_meta`. */
  function WithMeta(upstreamRequestBlob: Bytes32, meta: UpstreamMeta): Context {
    Context(upstreamRequestBlob, meta.headersHash, meta.tlsCertSha256, meta.requestIdHeader)
  }

  /** An error receipt: no usage, an error record in place of the response. */
  function ErrorPayload(
    f: Foreign, cfg: Config, call: Call, ctx: Context, outcome: byte, status: Option<nat>, message: string): Payload
  {
    Payload(
      call.receiptId, cfg.configHash, Provider(call.surface), f.utf8(Host(call.surface)), ctx.tlsCertSha256,
      call.requestBlob, ctx.upstreamRequestBlob, ctx.upstreamHeadersHash, f.utf8(call.policyRequest.model),
      f.utf8(ctx.providerRequestId), f.errorBlob(status, message), f.metaHash(ProviderMeta("", None, None)),
      0, 0, 0, 0, outcome)
  }

  /** The receipt of an assembled response; the body's own request id is preferred over the header's. */
  function ResponsePayload(f: Foreign, cfg: Config, call: Call, ctx: Context, a: Assembled, outcome: byte): Payload {
    Payload(
      call.receiptId, cfg.configHash, Provider(call.surface), f.utf8(Host(call.surface)), ctx.tlsCertSha256,
      call.requestBlob, ctx.upstreamRequestBlob, ctx.upstreamHeadersHash, f.utf8(a.0.model),
      f.utf8(if a.2 == "" then ctx.providerRequestId else a.2), f.responseBlob(a.0), f.metaHash(a.1),
      a.0.usage.input, a.0.usage.cacheCreation, a.0.usage.cacheRead, a.0.usage.output, outcome)
  }

  /** Phases in which the next thing the handler does is sign and store a receipt. */
  predicate Issuing(p: Phase) {
    p.Refused? || p.Failed? || p.Answered? || p.Ended?
  }

  /** What that receipt says. */
  function PayloadOf(f: Foreign, cfg: Config, p: Phase): Payload
    requires Issuing(p)
  {
    match p
    case Refused(call, message) =>
      ErrorPayload(f, cfg, call, NoUpstream(f, call), OUTCOME_POLICY_DENIED, None, message)
    case Failed(call, ctx, status, message) =>
      ErrorPayload(f, cfg, call, ctx, OUTCOME_UPSTREAM_ERROR, status, message)
    case Answered(call, ctx, body) =>
      (match ParseBody(f, call.surface, body)
       case Err(_) => ErrorPayload(
           f, cfg, call, ctx, OUTCOME_UPSTREAM_ERROR, None, f.decodeFailureText(call.surface, body))
       case Ok(a) => ResponsePayload(f, cfg, call, ctx, a, OutcomeOf(call.surface, a.0.stopReason)))
    case Ended(call, ctx, acc, broken) =>
      var a := Assemble(f, call.surface, acc, call.policyRequest.model);
      ResponsePayload(
        f, cfg, call, ctx, a, if broken then OUTCOME_UPSTREAM_ERROR else OutcomeOf(call.surface, a.0.stopReason))
  }

  // --- Steps ----------------------------------------------------------------------------

  predicate IsSuccess(status: nat) {
    200 <= status < 300
  }

  /** May the request take this step now? */
  ghost predicate Enabled(cfg: Config, r: Request, e: Event) {
    match e
    case Reject => r.phase.Arrived?
    case Screen(_) => r.phase.Arrived?
    case Evaluate(v) => r.phase.Screened? && Policy.IsVerdict(cfg.rules, r.phase.call.policyRequest, v)
    case NoProvider => r.phase.Cleared?
    case Dispatch => r.phase.Cleared?
    case UpstreamFails(_) => r.phase.Dispatched?
    case UpstreamAnswers(_, _, _) => r.phase.Dispatched? && !r.phase.call.stream
    case StreamOpens(_, _, blob, _) =>
      && r.phase.Dispatched? && r.phase.call.stream
      && (r.phase.call.surface.AnthropicSurface? ==> blob == r.phase.call.requestBlob)
    case Chunk(_) => r.phase.Streaming?
    case Yield => r.phase.Yielding?
    case StreamBreaks => r.phase.Streaming?
    case StreamEnds => r.phase.Streaming?
    case Issue(_, _) => Issuing(r.phase)
    case IssueFails => Issuing(r.phase)
    case Abandon => r.phase.Dispatched? || r.phase.Streaming? || r.phase.Yielding?
  }

  ghost function Step(f: Foreign, cfg: Config, r: Request, e: Event): Request
    requires Enabled(cfg, r, e)
  {
    match e
    case Reject => r.(phase := Done)
    case Screen(call) => r.(phase := Screened(call), call := Some(call))
    case Evaluate(v) =>
      var call := r.phase.call;
      r.(phase := if v.Allowed? then Cleared(call) else Refused(call, f.denialText(v)), verdict := Some(v))
    case NoProvider => r.(phase := Done)
    case Dispatch => r.(phase := Dispatched(r.phase.call), dispatches := r.dispatches + 1)
    case UpstreamFails(message) =>
      var call := r.phase.call;
      r.(phase := Failed(call, NoUpstream(f, call), None, message), failureText := message)
    case UpstreamAnswers(status, meta, body) =>
      var call := r.phase.call;
      var ctx := WithMeta(call.requestBlob, meta);
      r.(phase := if IsSuccess(status) then Answered(call, ctx, body)
                  else Failed(call, ctx, Some(status), f.json.render(body)),
         answer := Some(Answer(status, meta, call.requestBlob)), body := Some(body))
    case StreamOpens(status, meta, upstreamRequestBlob, bodyText) =>
      var call := r.phase.call;
      var ctx := WithMeta(upstreamRequestBlob, meta);
      r.(phase := if IsSuccess(status) then Streaming(call, ctx, START) else Failed(call, ctx, Some(status), bodyText),
         answer := Some(Answer(status, meta, upstreamRequestBlob)), failureText := bodyText)
    case Chunk(bytes) =>
      var p := r.phase;
      r.(phase := Yielding(p.call, p.ctx, FeedAcc(f, p.call.surface, p.acc, bytes), bytes), fed := r.fed + [bytes])
    case Yield =>
      var p := r.phase;
      r.(phase := Streaming(p.call, p.ctx, p.acc), sent := r.sent + [p.chunk])
    case StreamBreaks =>
      r.(phase := Ended(r.phase.call, r.phase.ctx, r.phase.acc, true), broken := true)
    case StreamEnds =>
      r.(phase := Ended(r.phase.call, r.phase.ctx, r.phase.acc, false))
    case Issue(timestampMs, sig) =>
      r.(phase := Done, issued := r.issued + [Issued(PayloadOf(f, cfg, r.phase), timestampMs, sig)])
    case IssueFails => r.(phase := Done)
    case Abandon => r.(phase := Done)
  }

  // --- What every request keeps ----------------------------------------------------------

  /** Dispatched only once, and only with the policy's permission. */
  ghost predicate Permitted(cfg: Config, r: Request) {
    && r.dispatches <= 1
    && (r.verdict.Some? ==>
          r.call.Some? && Policy.IsVerdict(cfg.rules, r.call.value.policyRequest, r.verdict.value))
    && (r.dispatches > 0 ==> r.verdict.Some? && r.verdict.value.Allowed?)
  }

  /** A 2xx response arrived. */
  predicate Succeeded(r: Request) {
    r.answer.Some? && IsSuccess(r.answer.value.status)
  }

  predicate InStream(p: Phase) {
    p.Streaming? || p.Yielding? || p.Ended?
  }

  predicate BeforeAnswer(p: Phase) {
    p.Arrived? || p.Screened? || p.Refused? || p.Cleared? || p.Dispatched?
  }

  /** The receipt context that the history calls for: that of the answer, if there was one. */
  function ContextIn(f: Foreign, r: Request): Context
    requires r.call.Some?
  {
    match r.answer
    case None => NoUpstream(f, r.call.value)
    case Some(a) => WithMeta(a.upstreamRequestBlob, a.meta)
  }

  /** Only a streaming call on the OpenAI surface dispatches a request other than the one it hashed. */
  predicate SameRequest(r: Request) {
    r.answer.Some? ==>
      && r.call.Some?
      && (r.call.value.surface.AnthropicSurface? || !r.call.value.stream ==>
            r.answer.value.upstreamRequestBlob == r.call.value.requestBlob)
  }

  /** The status an error record carries: that of a response that was no success. */
  function ErrorStatus(r: Request): Option<nat> {
    if r.answer.Some? && !Succeeded(r) then Some(r.answer.value.status) else None
  }

  /** What went wrong, by the history. */
  function ErrorText(f: Foreign, r: Request): string {
    if r.verdict.Some? && !r.verdict.value.Allowed? then f.denialText(r.verdict.value)
    else if r.call.Some? && r.body.Some? then
      if Succeeded(r) then f.decodeFailureText(r.call.value.surface, r.body.value) else f.json.render(r.body.value)
    else r.failureText
  }

  /** How far the request has got, by its history. */
  ghost predicate Progress(r: Request) {
    && (r.phase.Arrived? ==> r.call.None?)
    && (!r.phase.Arrived? && !r.phase.Done? ==> r.call == Some(r.phase.call))
    && (r.phase.Arrived? || r.phase.Screened? ==> r.verdict.None?)
    && (r.phase.Refused? ==> r.verdict.Some? && !r.verdict.value.Allowed?)
    && (r.phase.Cleared? ==> r.verdict.Some? && r.verdict.value.Allowed?)
    && (r.phase.Arrived? || r.phase.Screened? || r.phase.Refused? || r.phase.Cleared? ==> r.dispatches == 0)
    && (r.phase.Dispatched? || r.phase.Failed? || r.phase.Answered? || InStream(r.phase) ==> r.dispatches == 1)
  }

  /** What is known of the upstream response. */
  ghost predicate AnswerAgrees(f: Foreign, r: Request) {
    && SameRequest(r)
    && (BeforeAnswer(r.phase) ==> r.answer.None? && r.body.None?)
    && (r.phase.Failed? ==> !Succeeded(r))
    && (r.phase.Answered? || InStream(r.phase) ==> Succeeded(r))
    && (r.phase.Answered? ==> !r.phase.call.stream && r.body == Some(r.phase.body))
    && (InStream(r.phase) ==> r.phase.call.stream)
    && (r.phase.Failed? || r.phase.Answered? || InStream(r.phase) ==>
          r.call.Some? && r.phase.ctx == ContextIn(f, r))
  }

  /** A receipt about to be issued for a failure says what failed. */
  ghost predicate ErrorAgrees(f: Foreign, r: Request) {
    && (r.phase.Refused? ==> r.answer.None? && r.phase.message == ErrorText(f, r))
    && (r.phase.Failed? ==> r.phase.status == ErrorStatus(r) && r.phase.message == ErrorText(f, r))
    && (r.phase.Cleared? || r.phase.Dispatched? || r.phase.Failed? || r.phase.Answered? ==>
          r.call.Some? && r.verdict.Some? && r.verdict.value.Allowed?)
    && (BeforeAnswer(r.phase) ==> r.answer.None? && r.body.None?)
  }

  /** The accumulator has been fed the recorded chunks. */
  ghost predicate Feeds(f: Foreign, r: Request) {
    && (InStream(r.phase) ==> r.phase.acc == Accumulated(f, r.phase.call.surface, r.fed))
    && (!InStream(r.phase) && !r.phase.Done? ==> r.fed == [])
  }

  /** Every chunk fed has been sent to the client, but for one just fed. */
  ghost predicate Relays(r: Request) {
    && (r.phase.Yielding? ==> r.fed == r.sent + [r.phase.chunk])
    && (!r.phase.Yielding? && !r.phase.Done? ==> r.fed == r.sent)
    && (r.phase.Done? ==> r.sent <= r.fed && |r.fed| <= |r.sent| + 1)
    && (r.phase.Ended? ==> r.broken == r.phase.broken)
    && (!r.phase.Ended? && !r.phase.Done? ==> !r.broken)
  }

  /** What a receipt's outcome says about how the request went. */
  ghost predicate OutcomeTrue(r: Request, outcome: byte) {
    && outcome <= 3
    && (outcome == OUTCOME_POLICY_DENIED <==> r.verdict.Some? && !r.verdict.value.Allowed?)
    && (outcome == OUTCOME_POLICY_DENIED ==> r.dispatches == 0)
    && (outcome <= OUTCOME_REFUSAL ==> r.dispatches == 1 && Succeeded(r) && !r.broken)
    && (outcome == OUTCOME_UPSTREAM_ERROR ==> r.dispatches == 1)
  }

  /** The receipt commits to this response; its own request id is preferred over the header's. */
  ghost predicate CommitsTo(f: Foreign, a: Assembled, headerId: string, p: Payload) {
    && p.responseBlob == f.responseBlob(a.0)
    && p.modelId == f.utf8(a.0.model)
    && p.providerRequestId == f.utf8(if a.2 == "" then headerId else a.2)
    && p.providerMetaHash == f.metaHash(a.1)
    && p.inputTokens == a.0.usage.input && p.outputTokens == a.0.usage.output
    && p.cacheCreationTokens == a.0.usage.cacheCreation && p.cacheReadTokens == a.0.usage.cacheRead
  }

  /** The receipt commits to the error record of what went wrong, and to no usage. */
  ghost predicate CommitsToError(f: Foreign, r: Request, p: Payload)
    requires r.call.Some?
  {
    && p.responseBlob == f.errorBlob(ErrorStatus(r), ErrorText(f, r))
    && p.modelId == f.utf8(r.call.value.policyRequest.model)
    && p.providerRequestId == f.utf8(ContextIn(f, r).providerRequestId)
    && p.providerMetaHash == f.metaHash(ProviderMeta("", None, None))
    && p.inputTokens == p.cacheCreationTokens == p.cacheReadTokens == p.outputTokens == 0
  }

  /**
    What the receipt of a 2xx response covers: for a stream, the response
    assembled from exactly the chunks the client was sent; otherwise the
    response decoded from the body, or the failure to decode it.
  */
  ghost predicate CommitsToAnswer(f: Foreign, r: Request, p: Payload)
    requires r.call.Some? && r.answer.Some?
  {
    var call, headerId := r.call.value, r.answer.value.meta.requestIdHeader;
    if call.stream then
      var a := Assemble(f, call.surface, Accumulated(f, call.surface, r.sent), call.policyRequest.model);
      && r.fed == r.sent
      && CommitsTo(f, a, headerId, p)
      && p.outcome == if r.broken then OUTCOME_UPSTREAM_ERROR else OutcomeOf(call.surface, a.0.stopReason)
    else
      && r.body.Some?
      && match ParseBody(f, call.surface, r.body.value)
         case Ok(a) => CommitsTo(f, a, headerId, p) && p.outcome == OutcomeOf(call.surface, a.0.stopReason)
         case Err(_) => CommitsToError(f, r, p) && p.outcome == OUTCOME_UPSTREAM_ERROR
  }

  /** The receipt names this request, the enclave's configuration and the provider. */
  ghost predicate NamesRequest(f: Foreign, cfg: Config, call: Call, p: Payload) {
    && p.receiptId == call.receiptId
    && p.requestBlob == call.requestBlob
    && p.configHash == cfg.configHash
    && p.provider == Provider(call.surface)
    && p.endpointHost == f.utf8(Host(call.surface))
  }

  /** The receipt names the connection and the request sent over it. */
  ghost predicate NamesUpstream(f: Foreign, r: Request, p: Payload)
    requires r.call.Some?
  {
    && p.tlsCertSha256 == ContextIn(f, r).tlsCertSha256
    && p.upstreamHeadersHash == ContextIn(f, r).upstreamHeadersHash
    && p.upstreamRequestBlob == ContextIn(f, r).upstreamRequestBlob
    && (r.call.value.surface.AnthropicSurface? || !r.call.value.stream || r.answer.None? ==>
          p.upstreamRequestBlob == p.requestBlob)
  }

  /** A stored receipt is about this request, and true of it in every field. */
  ghost predicate IssuedTrue(f: Foreign, cfg: Config, r: Request, p: Payload) {
    && r.call.Some?
    && NamesRequest(f, cfg, r.call.value, p)
    && NamesUpstream(f, r, p)
    && OutcomeTrue(r, p.outcome)
    && if Succeeded(r) then CommitsToAnswer(f, r, p) else CommitsToError(f, r, p)
  }

  /** At most one receipt, issued last. */
  ghost predicate IssuesOnce(f: Foreign, cfg: Config, r: Request) {
    && |r.issued| <= 1
    && (r.issued != [] ==> r.phase.Done? && IssuedTrue(f, cfg, r, r.issued[0].payload))
  }

  ghost predicate RequestOk(f: Foreign, cfg: Config, r: Request) {
    && Permitted(cfg, r) && Progress(r) && AnswerAgrees(f, r) && ErrorAgrees(f, r)
    && Feeds(f, r) && Relays(r) && IssuesOnce(f, cfg, r)
  }

  lemma StepKeepsPermitted(f: Foreign, cfg: Config, r: Request, e: Event)
    requires Permitted(cfg, r) && Progress(r) && Enabled(cfg, r, e)
    ensures Permitted(cfg, Step(f, cfg, r, e))
  {
    hide Assemble, ParseBody, FeedAcc;
  }

  lemma StepKeepsProgress(f: Foreign, cfg: Config, r: Request, e: Event)
    requires Progress(r) && Enabled(cfg, r, e)
    ensures Progress(Step(f, cfg, r, e))
  {
    hide Assemble, ParseBody, FeedAcc;
  }

  lemma AnswerArrives(f: Foreign, cfg: Config, r: Request, e: Event)
    requires AnswerAgrees(f, r) && Progress(r) && Enabled(cfg, r, e)
    requires e.UpstreamFails? || e.UpstreamAnswers? || e.StreamOpens?
    ensures AnswerAgrees(f, Step(f, cfg, r, e))
  {
    hide Assemble, ParseBody, FeedAcc, PayloadOf;
  }

  lemma OthersKeepAnswer(f: Foreign, cfg: Config, r: Request, e: Event)
    requires AnswerAgrees(f, r) && Progress(r) && Enabled(cfg, r, e)
    requires !e.UpstreamFails? && !e.UpstreamAnswers? && !e.StreamOpens?
    ensures AnswerAgrees(f, Step(f, cfg, r, e))
  {
    hide Assemble, ParseBody, FeedAcc, PayloadOf;
  }

  lemma StepKeepsAnswer(f: Foreign, cfg: Config, r: Request, e: Event)
    requires AnswerAgrees(f, r) && Progress(r) && Enabled(cfg, r, e)
    ensures AnswerAgrees(f, Step(f, cfg, r, e))
  {
    hide AnswerAgrees, Step, Enabled, Progress;
    if e.UpstreamFails? || e.UpstreamAnswers? || e.StreamOpens? {
      AnswerArrives(f, cfg, r, e);
    } else {
      OthersKeepAnswer(f, cfg, r, e);
    }
  }

  lemma StepKeepsError(f: Foreign, cfg: Config, r: Request, e: Event)
    requires ErrorAgrees(f, r) && Progress(r) && Enabled(cfg, r, e)
    ensures ErrorAgrees(f, Step(f, cfg, r, e))
  {
    hide Assemble, ParseBody, FeedAcc;
  }

  lemma AccumulatedSnoc(f: Foreign, s: Surface, chunks: seq<seq<byte>>, chunk: seq<byte>)
    ensures Accumulated(f, s, chunks + [chunk]) == FeedAcc(f, s, Accumulated(f, s, chunks), chunk)
  {
    assert (chunks + [chunk])[..|chunks|] == chunks;
  }

  lemma ChunkKeepsFeeds(f: Foreign, cfg: Config, r: Request, bytes: seq<byte>)
    requires Feeds(f, r) && Enabled(cfg, r, Chunk(bytes))
    ensures Feeds(f, Step(f, cfg, r, Chunk(bytes)))
  {
    AccumulatedSnoc(f, r.phase.call.surface, r.fed, bytes);
  }

  lemma OthersKeepFeeds(f: Foreign, cfg: Config, r: Request, e: Event)
    requires Feeds(f, r) && Enabled(cfg, r, e) && !e.Chunk?
    ensures Feeds(f, Step(f, cfg, r, e))
  {
    hide Assemble, ParseBody, FeedAcc;
  }

  lemma StepKeepsFeeds(f: Foreign, cfg: Config, r: Request, e: Event)
    requires Feeds(f, r) && Enabled(cfg, r, e)
    ensures Feeds(f, Step(f, cfg, r, e))
  {
    if e.Chunk? {
      ChunkKeepsFeeds(f, cfg, r, e.bytes);
    } else {
      OthersKeepFeeds(f, cfg, r, e);
    }
  }

  lemma StepKeepsRelays(f: Foreign, cfg: Config, r: Request, e: Event)
    requires Relays(r) && Enabled(cfg, r, e)
    ensures Relays(Step(f, cfg, r, e))
  {
    hide Assemble, ParseBody, FeedAcc;
  }

  /** Every payload the handler issues is true of the request that issues it. */
  lemma PayloadTrue(f: Foreign, cfg: Config, r: Request)
    requires Permitted(cfg, r) && Progress(r) && AnswerAgrees(f, r) && ErrorAgrees(f, r) && Feeds(f, r) && Relays(r)
    requires Issuing(r.phase)
    ensures IssuedTrue(f, cfg, r, PayloadOf(f, cfg, r.phase))
  {
    hide Assemble, ParseBody, FeedAcc;
  }

  lemma StepIssues(f: Foreign, cfg: Config, r: Request, e: Event)
    requires Enabled(cfg, r, e)
    ensures Step(f, cfg, r, e).issued ==
            r.issued + if e.Issue? then [Issued(PayloadOf(f, cfg, r.phase), e.timestampMs, e.sig)] else []
  {
    hide Assemble, ParseBody, FeedAcc;
  }

  /** A receipt stays true of its request when the request is done. */
  lemma IssueKeepsIssues(f: Foreign, cfg: Config, r: Request, timestampMs: U64, sig: seq<byte>)
    requires RequestOk(f, cfg, r) && Issuing(r.phase)
    ensures IssuesOnce(f, cfg, Step(f, cfg, r, Issue(timestampMs, sig)))
  {
    hide Assemble, ParseBody, FeedAcc;
    PayloadTrue(f, cfg, r);
  }

  lemma StepKeepsIssues(f: Foreign, cfg: Config, r: Request, e: Event)
    requires RequestOk(f, cfg, r) && Enabled(cfg, r, e)
    ensures IssuesOnce(f, cfg, Step(f, cfg, r, e))
  {
    hide Assemble, ParseBody, FeedAcc;
    if e.Issue? {
      IssueKeepsIssues(f, cfg, r, e.timestampMs, e.sig);
    } else {
      StepIssues(f, cfg, r, e);
      assert !r.phase.Done?;
    }
  }

  lemma StepKeepsOk(f: Foreign, cfg: Config, r: Request, e: Event)
    requires RequestOk(f, cfg, r) && Enabled(cfg, r, e)
    ensures RequestOk(f, cfg, Step(f, cfg, r, e))
  {
    hide Step, Enabled, Permitted, Progress, AnswerAgrees, ErrorAgrees, Feeds, Relays, IssuesOnce;
    StepKeepsPermitted(f, cfg, r, e);
    StepKeepsProgress(f, cfg, r, e);
    StepKeepsAnswer(f, cfg, r, e);
    StepKeepsError(f, cfg, r, e);
    StepKeepsFeeds(f, cfg, r, e);
    StepKeepsRelays(f, cfg, r, e);
    StepKeepsIssues(f, cfg, r, e);
  }

  // --- The gateway: interleaved requests and the receipt log ---------------------------------

  /** All requests by id, and every stored receipt with the request that stored it. */
  datatype Gateway = Gateway(requests: map<nat, Request>, log: seq<(nat, Issued)>)

  const IDLE: Gateway := Gateway(map[], [])

  function RequestAt(g: Gateway, id: nat): Request {
    if id in g.requests then g.requests[id] else NEW_REQUEST
  }

  ghost function GatewayStep(f: Foreign, cfg: Config, g: Gateway, id: nat, e: Event): Gateway
    requires Enabled(cfg, RequestAt(g, id), e)
  {
    var r := RequestAt(g, id);
    var r' := Step(f, cfg, r, e);
    Gateway(
      g.requests[id := r'],
      g.log + if e.Issue? then [(id, Issued(PayloadOf(f, cfg, r.phase), e.timestampMs, e.sig))] else [])
  }

  /** A run in which every step was possible when it was taken. */
  ghost predicate CanRun(f: Foreign, cfg: Config, g: Gateway, steps: seq<(nat, Event)>)
    decreases |steps|
  {
    steps != [] ==>
      && Enabled(cfg, RequestAt(g, steps[0].0), steps[0].1)
      && CanRun(f, cfg, GatewayStep(f, cfg, g, steps[0].0, steps[0].1), steps[1..])
  }

  ghost function RunAll(f: Foreign, cfg: Config, g: Gateway, steps: seq<(nat, Event)>): Gateway
    requires CanRun(f, cfg, g, steps)
    decreases |steps|
  {
    if steps == [] then g else RunAll(f, cfg, GatewayStep(f, cfg, g, steps[0].0, steps[0].1), steps[1..])
  }

  /** The log holds exactly the issued receipts, one entry for each request that has one. */
  ghost predicate LogOk(g: Gateway) {
    && (forall i :: 0 <= i < |g.log| ==> g.log[i].0 in g.requests && g.requests[g.log[i].0].issued == [g.log[i].1])
    && (forall id :: id in g.requests && g.requests[id].issued != [] ==>
          exists i :: 0 <= i < |g.log| && g.log[i].0 == id)
    && (forall i, j :: 0 <= i < j < |g.log| ==> g.log[i].0 != g.log[j].0)
  }

  ghost predicate GatewayOk(f: Foreign, cfg: Config, g: Gateway) {
    (forall id :: id in g.requests ==> RequestOk(f, cfg, g.requests[id])) && LogOk(g)
  }

  lemma LogGrows(g: Gateway, id: nat, r: Request, i: Issued)
    requires LogOk(g) && RequestAt(g, id).issued == [] && r.issued == [i]
    ensures LogOk(Gateway(g.requests[id := r], g.log + [(id, i)]))
  {
    var g' := Gateway(g.requests[id := r], g.log + [(id, i)]);
    assert g'.log[|g.log|].0 == id;
    forall k | 0 <= k < |g.log| ensures g'.log[k] == g.log[k] && g.log[k].0 != id {}
    forall other | other in g'.requests && g'.requests[other].issued != []
      ensures exists k :: 0 <= k < |g'.log| && g'.log[k].0 == other
    {
      if other != id {
        var k :| 0 <= k < |g.log| && g.log[k].0 == other;
        assert g'.log[k].0 == other;
      }
    }
  }

  lemma LogStays(g: Gateway, id: nat, r: Request)
    requires LogOk(g) && r.issued == RequestAt(g, id).issued
    ensures LogOk(Gateway(g.requests[id := r], g.log))
  {}

  lemma StepKeepsLog(f: Foreign, cfg: Config, g: Gateway, id: nat, e: Event)
    requires LogOk(g) && Enabled(cfg, RequestAt(g, id), e)
    requires e.Issue? ==> RequestAt(g, id).issued == []
    ensures LogOk(GatewayStep(f, cfg, g, id, e))
  {
    hide Step, PayloadOf, LogOk;
    var r := RequestAt(g, id);
    StepIssues(f, cfg, r, e);
    if e.Issue? {
      LogGrows(g, id, Step(f, cfg, r, e), Issued(PayloadOf(f, cfg, r.phase), e.timestampMs, e.sig));
    } else {
      assert r.issued + [] == r.issued && g.log + [] == g.log;
      LogStays(g, id, Step(f, cfg, r, e));
    }
  }

  lemma NewRequestOk(f: Foreign, cfg: Config)
    ensures RequestOk(f, cfg, NEW_REQUEST)
  {
    hide Assemble, ParseBody, FeedAcc;
  }

  lemma NotYetIssued(f: Foreign, cfg: Config, r: Request, e: Event)
    requires RequestOk(f, cfg, r) && Enabled(cfg, r, e)
    ensures r.issued == []
  {
    hide Assemble, ParseBody, FeedAcc;
  }

  lemma GatewayStepKeepsOk(f: Foreign, cfg: Config, g: Gateway, id: nat, e: Event)
    requires GatewayOk(f, cfg, g) && Enabled(cfg, RequestAt(g, id), e)
    ensures GatewayOk(f, cfg, GatewayStep(f, cfg, g, id, e))
  {
    hide RequestOk, Step, Enabled, PayloadOf, LogOk;
    NewRequestOk(f, cfg);
    StepKeepsOk(f, cfg, RequestAt(g, id), e);
    NotYetIssued(f, cfg, RequestAt(g, id), e);
    StepKeepsLog(f, cfg, g, id, e);
  }

  lemma {:induction false} RunKeepsOk(f: Foreign, cfg: Config, g: Gateway, steps: seq<(nat, Event)>)
    requires GatewayOk(f, cfg, g) && CanRun(f, cfg, g, steps)
    ensures GatewayOk(f, cfg, RunAll(f, cfg, g, steps))
    decreases |steps|
  {
    hide GatewayOk, Enabled, GatewayStep;
    if steps != [] {
      GatewayStepKeepsOk(f, cfg, g, steps[0].0, steps[0].1);
      RunKeepsOk(f, cfg, GatewayStep(f, cfg, g, steps[0].0, steps[0].1), steps[1..]);
    }
  }

  /**
    After any interleaving of requests: a dispatched request was permitted by
    the policy document; each request has stored at most one receipt, true of
    it, and none before it is done; while a stream runs its client has been sent
    all chunks its accumulator was fed but the one in hand; and the log holds
    exactly the issued receipts.
  */
  lemma GatewayRuns(f: Foreign, cfg: Config, steps: seq<(nat, Event)>, id: nat)
    requires CanRun(f, cfg, IDLE, steps) && id in RunAll(f, cfg, IDLE, steps).requests
    ensures var g := RunAll(f, cfg, IDLE, steps); var r := g.requests[id];
            && (r.dispatches > 0 ==> r.call.Some? && Policy.Permits(cfg.rules, r.call.value.policyRequest))
            && |r.issued| <= 1 && (r.issued != [] ==> r.phase.Done? && IssuedTrue(f, cfg, r, r.issued[0].payload))
            && r.sent <= r.fed && |r.fed| <= |r.sent| + 1 && (r.phase.Streaming? ==> r.fed == r.sent)
            && LogOk(g)
  {
    hide Assemble, ParseBody, FeedAcc, GatewayStep;
    RunKeepsOk(f, cfg, IDLE, steps);
    var r := RunAll(f, cfg, IDLE, steps).requests[id];
    assert RequestOk(f, cfg, r);
    if r.dispatches > 0 {
      Policy.AllowedIffPermitted(cfg.rules, r.call.value.policyRequest, r.verdict.value);
    }
  }
}
