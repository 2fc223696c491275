/**
  The request handlers as ordered steps with early exits.  Each is proved to do
  exactly what some run of the request step machine does, so what every run
  keeps holds of the handlers: the receipts they store and the chunks they relay.
*/
module Handlers {
  import opened Prelude
  import opened Json
  import opened Canonical
  import opened Receipts
  import opened SdkReceipt
  import opened Sse
  import opened ReceiptStore
  import opened Server
  import Anthropic
  import OpenAi
  import Hex
  import Policy

  // --- Runs of one request ---------------------------------------------------------

  /** The step was possible at `p` and leads to `r`. */
  ghost predicate Moves(f: Foreign, cfg: Config, p: Request, e: Event, r: Request) {
    Enabled(cfg, p, e) && r == Step(f, cfg, p, e)
  }

  /** The states a new request goes through. */
  ghost predicate IsRun(f: Foreign, cfg: Config, trace: seq<Event>, states: seq<Request>) {
    && |states| == |trace| + 1
    && states[0] == NEW_REQUEST
    && forall i :: 0 <= i < |trace| ==> Moves(f, cfg, states[i], trace[i], states[i + 1])
  }

  /** The steps lead a new request to `r`, each one possible when it is taken. */
  ghost predicate Reaches(f: Foreign, cfg: Config, trace: seq<Event>, r: Request) {
    exists states :: IsRun(f, cfg, trace, states) && r == states[|trace|]
  }

  lemma Start(f: Foreign, cfg: Config)
    ensures Reaches(f, cfg, [], NEW_REQUEST)
  {
    assert IsRun(f, cfg, [], [NEW_REQUEST]);
  }

  lemma Extend(f: Foreign, cfg: Config, trace: seq<Event>, r: Request, e: Event)
    requires Reaches(f, cfg, trace, r) && Enabled(cfg, r, e)
    ensures Reaches(f, cfg, trace + [e], Step(f, cfg, r, e))
  {
    hide Step, Enabled;
    var states :| IsRun(f, cfg, trace, states) && r == states[|trace|];
    var longer := states + [Step(f, cfg, r, e)];
    assert Moves(f, cfg, r, e, Step(f, cfg, r, e));
    forall i | 0 <= i < |trace + [e]| ensures Moves(f, cfg, longer[i], (trace + [e])[i], longer[i + 1]) {
      if i < |trace| {
        assert Moves(f, cfg, states[i], trace[i], states[i + 1]);
      }
    }
    assert IsRun(f, cfg, trace + [e], longer);
  }

  lemma {:induction false} RunOk(f: Foreign, cfg: Config, trace: seq<Event>, states: seq<Request>, n: nat)
    requires IsRun(f, cfg, trace, states) && n <= |trace|
    ensures RequestOk(f, cfg, states[n])
  {
    hide Step, Enabled, RequestOk;
    NewRequestOk(f, cfg);
    if n > 0 {
      RunOk(f, cfg, trace, states, n - 1);
      assert Moves(f, cfg, states[n - 1], trace[n - 1], states[n - 1 + 1]);
      StepKeepsOk(f, cfg, states[n - 1], trace[n - 1]);
    }
  }

  lemma ReachedOk(f: Foreign, cfg: Config, trace: seq<Event>, r: Request)
    requires Reaches(f, cfg, trace, r)
    ensures RequestOk(f, cfg, r)
  {
    var states :| IsRun(f, cfg, trace, states) && r == states[|trace|];
    RunOk(f, cfg, trace, states, |trace|);
  }

  lemma IssuesNothingBefore(f: Foreign, cfg: Config, trace: seq<Event>, r: Request)
    requires Reaches(f, cfg, trace, r) && !r.phase.Done?
    ensures r.issued == []
  {
    ReachedOk(f, cfg, trace, r);
  }

  /** Feeding and yielding a list of chunks, one after the other. */
  function Relaying(chunks: seq<seq<byte>>): seq<Event> {
    if chunks == [] then [] else Relaying(chunks[..|chunks| - 1]) + [Chunk(chunks[|chunks| - 1]), Yield]
  }

  /** A streaming request that has relayed these chunks. */
  function Relayed(f: Foreign, r: Request, chunks: seq<seq<byte>>): Request
    requires r.phase.Streaming?
  {
    r.(phase := Streaming(r.phase.call, r.phase.ctx, Accumulated(f, r.phase.call.surface, chunks)),
       fed := chunks, sent := chunks)
  }

  lemma AppendTwo<T>(a: seq<T>, b: seq<T>, x: T, y: T)
    ensures ((a + b) + [x]) + [y] == a + (b + [x, y])
  {}

  /** Relaying one more chunk is feeding it and yielding it. */
  lemma RelayStep(f: Foreign, cfg: Config, r: Request, chunks: seq<seq<byte>>, last: seq<byte>)
    requires r.phase.Streaming?
    ensures var p := Relayed(f, r, chunks);
            && Enabled(cfg, p, Chunk(last)) && Enabled(cfg, Step(f, cfg, p, Chunk(last)), Yield)
            && Step(f, cfg, Step(f, cfg, p, Chunk(last)), Yield) == Relayed(f, r, chunks + [last])
  {
    hide FeedAcc, Accumulated, PayloadOf;
    AccumulatedSnoc(f, r.phase.call.surface, chunks, last);
  }

  lemma RelayOne(
    f: Foreign, cfg: Config, trace: seq<Event>, more: seq<Event>, r: Request, chunks: seq<seq<byte>>, last: seq<byte>)
    requires r.phase.Streaming? && Reaches(f, cfg, trace + more, Relayed(f, r, chunks))
    ensures Reaches(f, cfg, trace + (more + [Chunk(last), Yield]), Relayed(f, r, chunks + [last]))
  {
    hide Reaches, Relayed, Step, Enabled;
    var p := Relayed(f, r, chunks);
    RelayStep(f, cfg, r, chunks, last);
    Extend(f, cfg, trace + more, p, Chunk(last));
    Extend(f, cfg, trace + more + [Chunk(last)], Step(f, cfg, p, Chunk(last)), Yield);
    AppendTwo(trace, more, Chunk(last), Yield);
  }

  lemma RelayingSnoc(chunks: seq<seq<byte>>, last: seq<byte>)
    ensures Relaying(chunks + [last]) == Relaying(chunks) + [Chunk(last), Yield]
  {
    assert (chunks + [last])[..|chunks|] == chunks;
  }

  lemma RelayNone(f: Foreign, cfg: Config, trace: seq<Event>, r: Request)
    requires r.phase.Streaming? && Reaches(f, cfg, trace, r)
    requires r.phase.acc == START && r.fed == [] && r.sent == []
    ensures Reaches(f, cfg, trace + Relaying([]), Relayed(f, r, []))
  {
    assert trace + Relaying([]) == trace && Relayed(f, r, []) == r;
  }

  lemma RelayNext(f: Foreign, cfg: Config, trace: seq<Event>, r: Request, chunks: seq<seq<byte>>, last: seq<byte>)
    requires r.phase.Streaming? && Reaches(f, cfg, trace + Relaying(chunks), Relayed(f, r, chunks))
    ensures Reaches(f, cfg, trace + Relaying(chunks + [last]), Relayed(f, r, chunks + [last]))
  {
    RelayOne(f, cfg, trace, Relaying(chunks), r, chunks, last);
    RelayingSnoc(chunks, last);
  }

  lemma {:induction false} RelayAll(f: Foreign, cfg: Config, trace: seq<Event>, r: Request, chunks: seq<seq<byte>>)
    requires r.phase.Streaming? && Reaches(f, cfg, trace, r)
    requires r.phase.acc == START && r.fed == [] && r.sent == []
    ensures Reaches(f, cfg, trace + Relaying(chunks), Relayed(f, r, chunks))
  {
    if chunks == [] {
      RelayNone(f, cfg, trace, r);
    } else {
      var before, last := chunks[..|chunks| - 1], chunks[|chunks| - 1];
      assert chunks == before + [last];
      RelayAll(f, cfg, trace, r, before);
      RelayNext(f, cfg, trace, r, before, last);
    }
  }

  // --- The outside world -------------------------------------------------------------

  /**
    A streamed body: its chunks, where `None` is a transport error, and how many
    of them the client takes before it goes away, if it does.
  */
  datatype Body = Body(chunks: seq<Option<seq<byte>>>, patience: Option<nat>)

  /** How the upstream behaves, or that the client goes away before the upstream has answered. */
  datatype Upstream =
    | Unawaited
    | NoResponse(message: string)
    | Whole(status: nat, meta: UpstreamMeta, body: Json)
    | Opened(status: nat, meta: UpstreamMeta, requestBlob: Bytes32, bodyText: string, stream: Body)

  /** Only a streaming call opens a stream, and the Anthropic surface dispatches the request it hashed. */
  predicate Suits(call: Call, up: Upstream) {
    && (up.Whole? ==> !call.stream)
    && (up.Opened? ==> call.stream && (call.surface.AnthropicSurface? ==> up.requestBlob == call.requestBlob))
  }

  /** The chunks that arrive before a transport error. */
  function UntilError(chunks: seq<Option<seq<byte>>>): seq<seq<byte>> {
    if chunks == [] || chunks[0].None? then [] else [chunks[0].value] + UntilError(chunks[1..])
  }

  /** The client is gone before the stream ends, in whichever way. */
  predicate Leaves(b: Body) {
    b.patience.Some? && b.patience.value <= |UntilError(b.chunks)|
  }

  /** The chunks that reach the client. */
  function Delivered(b: Body): seq<seq<byte>> {
    if Leaves(b) then UntilError(b.chunks)[..b.patience.value] else UntilError(b.chunks)
  }

  /** The phase that the upstream's answer, or the lack of one, leaves a dispatched request in. */
  function PhaseAfter(f: Foreign, call: Call, up: Upstream): Phase
    requires !up.Unawaited?
  {
    match up
    case NoResponse(message) => Failed(call, NoUpstream(f, call), None, message)
    case Whole(status, meta, body) =>
      var ctx := WithMeta(call.requestBlob, meta);
      if IsSuccess(status) then Answered(call, ctx, body) else Failed(call, ctx, Some(status), f.json.render(body))
    case Opened(status, meta, requestBlob, bodyText, _) =>
      var ctx := WithMeta(requestBlob, meta);
      if IsSuccess(status) then Streaming(call, ctx, START) else Failed(call, ctx, Some(status), bodyText)
  }

  /** What the history says of the upstream is what the upstream did. */
  predicate Records(call: Call, up: Upstream, r: Request) {
    match up
    case Unawaited => r.answer == None && r.body == None
    case NoResponse(message) => r.answer == None && r.body == None && r.failureText == message && !r.broken
    case Whole(status, meta, body) =>
      r.answer == Some(Answer(status, meta, call.requestBlob)) && r.body == Some(body) && !r.broken
    case Opened(status, meta, requestBlob, bodyText, stream) =>
      && r.answer == Some(Answer(status, meta, requestBlob)) && r.body == None && r.failureText == bodyText
      && (r.broken <==> 200 <= status < 300 && Breaks(stream))
  }

  /** The same before a stream is relayed. */
  predicate Heard(call: Call, up: Upstream, r: Request) {
    match up
    case Opened(status, meta, requestBlob, bodyText, _) =>
      r.answer == Some(Answer(status, meta, requestBlob)) && r.body == None && r.failureText == bodyText
    case _ => Records(call, up, r)
  }

  /** The stream ends in a transport error that the client is there to see. */
  predicate Breaks(b: Body) {
    !Leaves(b) && |UntilError(b.chunks)| < |b.chunks|
  }

  /** The client's response: its status, and the receipt id in its header. */
  datatype Reply = Reply(httpStatus: nat, receiptId: Option<string>)

  /** The status of a dispatched request's reply, given whether its receipt was stored. */
  function DispatchedStatus(f: Foreign, call: Call, up: Upstream, stored: bool): nat {
    if up.Opened? && IsSuccess(up.status) then 200
    else if !stored then 500
    else if up.Whole? && IsSuccess(up.status) && ParseBody(f, call.surface, up.body).Ok? then 200
    else 502
  }

  function StoredOf(i: Issued): StoredReceipt {
    Store(i.payload, i.timestampMs, i.sig)
  }

  function StoredEach(issued: seq<Issued>): seq<StoredReceipt> {
    seq(|issued|, i requires 0 <= i < |issued| => StoredOf(issued[i]))
  }

  lemma StoredOne(i: Issued)
    ensures StoredEach([i]) == [StoredOf(i)] && StoredEach([]) == []
  {}

  /**
    A client that checks a served receipt rebuilds the bytes that were signed,
    and finds the signature the enclave made over them.
  */
  lemma ServedReceiptIsSigned(sign: seq<byte> -> Option<seq<byte>>, i: Issued)
    requires sign(MessageBytes(i.timestampMs, OnChain(i.payload))) == Some(i.sig)
    ensures ClientView(StoredOf(i)).Some?
    ensures SerializeReceipt(ClientView(StoredOf(i)).value, StoredOf(i).timestampMs).Some?
    ensures sign(SerializeReceipt(ClientView(StoredOf(i)).value, StoredOf(i).timestampMs).value)
         == Hex.DecodeStrict(StoredOf(i).signature)
  {
    ClientRebuildsSignedBytes(i.payload, i.timestampMs, i.sig);
  }

  // --- Relaying a stream ----------------------------------------------------------------

  lemma AnthropicFed(f: Foreign, sent: seq<seq<byte>>, chunk: seq<byte>)
    ensures Accumulated(f, AnthropicSurface, sent + [chunk])
         == Sse.Feed(Anthropic.SEPARATOR, Anthropic.Extraction(f.json), Accumulated(f, AnthropicSurface, sent), chunk)
  {
    AccumulatedSnoc(f, AnthropicSurface, sent, chunk);
  }

  lemma OpenAiFed(f: Foreign, sent: seq<seq<byte>>, chunk: seq<byte>)
    ensures Accumulated(f, OpenAiSurface, sent + [chunk])
         == Sse.Feed(OpenAi.SEPARATOR, OpenAi.Extraction(f.json), Accumulated(f, OpenAiSurface, sent), chunk)
  {
    AccumulatedSnoc(f, OpenAiSurface, sent, chunk);
  }

  method RelayAnthropic(f: Foreign, body: Body)
    returns (acc: Anthropic.StreamAccumulator, sent: seq<seq<byte>>, hadTransportError: bool, gone: bool)
    ensures fresh(acc) && acc.Valid() && acc.env == f.json
    ensures sent == Delivered(body) && gone == Leaves(body)
    ensures hadTransportError == (!gone && |sent| < |body.chunks|)
    ensures acc.Abstract() == Accumulated(f, AnthropicSurface, sent)
  {
    hide Server.Assemble;
    acc := new Anthropic.StreamAccumulator(f.json);
    sent, hadTransportError := [], false;
    hide Sse.Feed, Server.FeedAcc;
    var chunks, i := body.chunks, 0;
    assert chunks[0..] == chunks;
    while i < |chunks|
      invariant 0 <= i <= |chunks| && fresh(acc) && acc.Valid() && acc.env == f.json && !hadTransportError
      invariant |sent| == i && UntilError(chunks) == sent + UntilError(chunks[i..])
      invariant body.patience.Some? ==> i <= body.patience.value
      invariant acc.Abstract() == Accumulated(f, AnthropicSurface, sent)
    {
      if body.patience == Some(i) {
        break;
      }
      if chunks[i].None? {
        hadTransportError := true;
        break;
      }
      assert chunks[i..][1..] == chunks[i + 1..];
      Associative(sent, [chunks[i].value], UntilError(chunks[i + 1..]));
      AnthropicFed(f, sent, chunks[i].value);
      acc.Feed(chunks[i].value);
      sent := sent + [chunks[i].value];
      i := i + 1;
    }
    gone := body.patience == Some(i);
    assert UntilError(chunks)[..i] == sent;
  }

  method RelayOpenAi(f: Foreign, body: Body)
    returns (acc: OpenAi.StreamAccumulator, sent: seq<seq<byte>>, hadTransportError: bool, gone: bool)
    ensures fresh(acc) && acc.Valid() && acc.env == f.json
    ensures sent == Delivered(body) && gone == Leaves(body)
    ensures hadTransportError == (!gone && |sent| < |body.chunks|)
    ensures acc.Abstract() == Accumulated(f, OpenAiSurface, sent)
  {
    acc := new OpenAi.StreamAccumulator(f.json);
    sent, hadTransportError := [], false;
    hide Sse.Feed, Server.FeedAcc;
    var chunks, i := body.chunks, 0;
    assert chunks[0..] == chunks;
    while i < |chunks|
      invariant 0 <= i <= |chunks| && fresh(acc) && acc.Valid() && acc.env == f.json && !hadTransportError
      invariant |sent| == i && UntilError(chunks) == sent + UntilError(chunks[i..])
      invariant body.patience.Some? ==> i <= body.patience.value
      invariant acc.Abstract() == Accumulated(f, OpenAiSurface, sent)
    {
      if body.patience == Some(i) {
        break;
      }
      if chunks[i].None? {
        hadTransportError := true;
        break;
      }
      assert chunks[i..][1..] == chunks[i + 1..];
      Associative(sent, [chunks[i].value], UntilError(chunks[i + 1..]));
      OpenAiFed(f, sent, chunks[i].value);
      acc.Feed(chunks[i].value);
      sent := sent + [chunks[i].value];
      i := i + 1;
    }
    gone := body.patience == Some(i);
    assert UntilError(chunks)[..i] == sent;
  }

  /** Relays a stream and assembles its response, on either surface; nothing is assembled for a client that left. */
  method RelayStream(f: Foreign, call: Call, body: Body)
    returns (assembled: Option<Assembled>, sent: seq<seq<byte>>, hadTransportError: bool)
    ensures sent == Delivered(body) && hadTransportError == (!Leaves(body) && |sent| < |body.chunks|)
    ensures assembled.None? <==> Leaves(body)
    ensures assembled.Some? ==>
              assembled.value
              == Server.Assemble(f, call.surface, Accumulated(f, call.surface, sent), call.policyRequest.model)
  {
    var gone;
    assembled := None;
    if call.surface.AnthropicSurface? {
      var acc;
      acc, sent, hadTransportError, gone := RelayAnthropic(f, body);
      if !gone {
        var a := acc.FinishStream(call.policyRequest.model);
        assembled := Some(a);
      }
    } else {
      var acc;
      acc, sent, hadTransportError, gone := RelayOpenAi(f, body);
      if !gone {
        var a := acc.FinishStream(call.policyRequest.model);
        assembled := Some(a);
      }
    }
  }

  // --- The handlers ------------------------------------------------------------------------

  class AppState {
    const f: Foreign
    const cfg: Config
    const policy: Policy.CompiledPolicy
    const sign: seq<byte> -> Option<seq<byte>>
    const receipts: Ring

    ghost predicate Valid()
      reads receipts
    {
      receipts.Valid()
    }

    /** The compiled policy is that of the configured rules. */
    ghost predicate PolicyLoaded() {
      Policy.PolicyOf(policy, cfg.rules)
    }

    constructor (
      f: Foreign, cfg: Config, policy: Policy.CompiledPolicy, sign: seq<byte> -> Option<seq<byte>>, capacity: nat)
      requires Policy.PolicyOf(policy, cfg.rules)
      ensures Valid() && PolicyLoaded() && fresh(receipts) && receipts.log == []
      ensures this.f == f && this.cfg == cfg && this.policy == policy && this.sign == sign
    {
      this.f, this.cfg, this.policy, this.sign := f, cfg, policy, sign;
      receipts := new Ring(capacity);
    }

    /** The request that `trace` leads to is over, and its receipts, signed, are what the store gained. */
    ghost predicate Concluded(trace: seq<Event>, r: Request, sent: seq<seq<byte>>, before: seq<StoredReceipt>)
      reads receipts
    {
      && Valid()
      && Reaches(f, cfg, trace, r) && r.phase.Done? && r.sent == sent
      && receipts.log == before + StoredEach(r.issued)
      && AllSigned(r)
    }

    /** Each receipt carries the enclave's signature over its message. */
    ghost predicate AllSigned(r: Request) {
      forall i :: 0 <= i < |r.issued| ==>
        sign(MessageBytes(r.issued[i].timestampMs, OnChain(r.issued[i].payload))) == Some(r.issued[i].sig)
    }

    /** A receipt is issued unless the signer fails, and carries this time. */
    ghost predicate IssuesAt(r: Request, now: U64) {
      && (forall i :: 0 <= i < |r.issued| ==> r.issued[i].timestampMs == now)
      && ((forall message :: sign(message).Some?) ==> r.issued != [])
    }

    /** What an attempt to sign and store does to the request. */
    lemma Issues(p: Payload, now: U64, signature: Option<seq<byte>>, trace: seq<Event>, r: Request)
      returns (e: Event, r': Request)
      requires Reaches(f, cfg, trace, r) && Issuing(r.phase) && p == PayloadOf(f, cfg, r.phase)
      requires signature == sign(MessageBytes(now, OnChain(p)))
      ensures Reaches(f, cfg, trace + [e], r') && AllSigned(r')
      ensures r' == r.(phase := Done, issued := if signature.None? then [] else [Issued(p, now, signature.value)])
    {
      hide Reaches, PayloadOf, OnChain, MessageBytes;
      IssuesNothingBefore(f, cfg, trace, r);
      e := if signature.None? then IssueFails else Issue(now, signature.value);
      StepIssues(f, cfg, r, e);
      Extend(f, cfg, trace, r, e);
      r' := Step(f, cfg, r, e);
    }

    /** `sign_and_store`. */
    method SignAndStore(p: Payload, now: U64, ghost trace: seq<Event>, ghost r: Request)
      returns (stored: Option<StoredReceipt>, ghost trace': seq<Event>, ghost r': Request)
      requires Valid() && Reaches(f, cfg, trace, r) && Issuing(r.phase) && p == PayloadOf(f, cfg, r.phase)
      modifies receipts
      ensures Concluded(trace', r', r.sent, old(receipts.log))
      ensures r' == r.(phase := Done, issued := r'.issued) && IssuesAt(r', now)
      ensures stored.Some? <==> sign(MessageBytes(now, OnChain(p))).Some?
      ensures if stored.Some? then StoredEach(r'.issued) == [stored.value] && r'.issued[0].payload == p
              else r'.issued == []
    {
      hide Reaches, PayloadOf, OnChain, MessageBytes, Store;
      var message := SerializeIntentMessage(p, now);
      var signature := sign(message);
      ghost var e;
      e, r' := Issues(p, now, signature, trace, r);
      trace' := trace + [e];
      if signature.None? {
        assert receipts.log + StoredEach([]) == receipts.log;
        return None, trace', r';
      }
      var receipt := Store(p, now, signature.value);
      receipts.Insert(receipt);
      stored := Some(receipt);
      StoredOne(Issued(p, now, signature.value));
    }

    /** `finish_error_receipt`. */
    method FinishErrorReceipt(
      call: Call, ctx: Context, outcome: byte, status: Option<nat>, message: string, httpStatus: nat, now: U64,
      ghost trace: seq<Event>, ghost r: Request)
      returns (reply: Reply, ghost trace': seq<Event>, ghost r': Request)
      requires Valid() && Reaches(f, cfg, trace, r) && Issuing(r.phase)
      requires PayloadOf(f, cfg, r.phase) == ErrorPayload(f, cfg, call, ctx, outcome, status, message)
      modifies receipts
      ensures Concluded(trace', r', r.sent, old(receipts.log))
      ensures r' == r.(phase := Done, issued := r'.issued) && IssuesAt(r', now)
      ensures reply.receiptId == if r'.issued == [] then None else Some(StoredEach(r'.issued)[0].receiptId)
      ensures reply.httpStatus == if r'.issued == [] then 500 else httpStatus
    {
      hide Reaches, OnChain, MessageBytes, ErrorPayload, PayloadOf;
      var stored;
      stored, trace', r' := SignAndStore(ErrorPayload(f, cfg, call, ctx, outcome, status, message), now, trace, r);
      reply := if stored.Some? then Reply(httpStatus, Some(stored.value.receiptId)) else Reply(500, None);
    }

    /** `finish_non_streaming_ok`. */
    method FinishNonStreamingOk(call: Call, ctx: Context, body: Json, now: U64, ghost trace: seq<Event>, ghost r: Request)
      returns (reply: Reply, ghost trace': seq<Event>, ghost r': Request)
      requires Valid() && Reaches(f, cfg, trace, r) && r.phase == Answered(call, ctx, body)
      modifies receipts
      ensures Concluded(trace', r', r.sent, old(receipts.log))
      ensures r' == r.(phase := Done, issued := r'.issued) && IssuesAt(r', now)
      ensures reply.receiptId == if r'.issued == [] then None else Some(StoredEach(r'.issued)[0].receiptId)
      ensures reply.httpStatus ==
              if r'.issued == [] then 500 else if ParseBody(f, call.surface, body).Err? then 502 else 200
    {
      hide Reaches, OnChain, MessageBytes, ErrorPayload, ResponsePayload, ParseBody;
      var parsed := ParseBody(f, call.surface, body);
      if parsed.Err? {
        reply, trace', r' := FinishErrorReceipt(
          call, ctx, OUTCOME_UPSTREAM_ERROR, None, f.decodeFailureText(call.surface, body), 502, now, trace, r);
        return;
      }
      var outcome := OutcomeOf(call.surface, parsed.value.0.stopReason);
      var stored;
      stored, trace', r' := SignAndStore(ResponsePayload(f, cfg, call, ctx, parsed.value, outcome), now, trace, r);
      reply := if stored.Some? then Reply(200, Some(stored.value.receiptId)) else Reply(500, None);
    }

    /**
      The streamed body of a successful streaming call; its header names the
      receipt before there is one, and there is none if the client goes away.
    */
    method StreamResponse(
      call: Call, ctx: Context, body: Body, now: U64, ghost trace: seq<Event>, ghost r: Request)
      returns (reply: Reply, sent: seq<seq<byte>>, ghost trace': seq<Event>, ghost r': Request)
      requires Valid() && Reaches(f, cfg, trace, r) && r.phase == Streaming(call, ctx, START)
      requires r.fed == [] && r.sent == []
      modifies receipts
      ensures Concluded(trace', r', sent, old(receipts.log))
      ensures r' == r.(phase := Done, fed := sent, sent := sent, broken := r'.broken, issued := r'.issued)
      ensures sent == Delivered(body) && (r'.broken <==> r.broken || Breaks(body))
      ensures if Leaves(body) then r'.issued == [] else IssuesAt(r', now)
      ensures reply == Reply(200, Some(Hex.Encode(call.receiptId)))
    {
      hide Reaches, OnChain, MessageBytes, ResponsePayload, Server.Assemble, Accumulated;
      reply := Reply(200, Some(Hex.Encode(call.receiptId)));
      var assembled, hadTransportError;
      assembled, sent, hadTransportError := RelayStream(f, call, body);
      RelayAll(f, cfg, trace, r, sent);
      if assembled.None? {
        trace', r' := Leave(trace + Relaying(sent), Relayed(f, r, sent));
        assert receipts.log + StoredEach([]) == receipts.log;
        return;
      }
      var outcome :=
        if hadTransportError then OUTCOME_UPSTREAM_ERROR else OutcomeOf(call.surface, assembled.value.0.stopReason);
      ghost var e, ended := EndStream(trace + Relaying(sent), Relayed(f, r, sent), hadTransportError);
      var stored;
      stored, trace', r' := SignAndStore(
        ResponsePayload(f, cfg, call, ctx, assembled.value, outcome), now, trace + Relaying(sent) + [e], ended);
    }

    /** The step that ends a stream. */
    lemma EndStream(trace: seq<Event>, r: Request, broken: bool) returns (e: Event, r': Request)
      requires Reaches(f, cfg, trace, r) && r.phase.Streaming?
      ensures Reaches(f, cfg, trace + [e], r')
      ensures r' == r.(phase := Ended(r.phase.call, r.phase.ctx, r.phase.acc, broken), broken := r.broken || broken)
    {
      e := if broken then StreamBreaks else StreamEnds;
      Extend(f, cfg, trace, r, e);
      r' := Step(f, cfg, r, e);
    }

    /** The client goes away, before the answer or in mid-stream. */
    lemma Leave(trace: seq<Event>, r: Request) returns (trace': seq<Event>, r': Request)
      requires Reaches(f, cfg, trace, r) && (r.phase.Dispatched? || r.phase.Streaming?)
      ensures Reaches(f, cfg, trace', r') && r' == r.(phase := Done) && r'.issued == []
    {
      IssuesNothingBefore(f, cfg, trace, r);
      Extend(f, cfg, trace, r, Abandon);
      trace', r' := trace + [Abandon], Step(f, cfg, r, Abandon);
    }

    /** The step the upstream's behaviour is, and the phase it leaves the request in. */
    lemma Respond(call: Call, up: Upstream, trace: seq<Event>, r: Request) returns (trace': seq<Event>, r': Request)
      requires Reaches(f, cfg, trace, r) && r.phase == Server.Dispatched(call) && Suits(call, up) && !up.Unawaited?
      ensures Reaches(f, cfg, trace', r') && r'.phase == PhaseAfter(f, call, up)
      ensures r'.call == r.call && r'.verdict == r.verdict && r'.dispatches == r.dispatches
      ensures r'.fed == [] && r'.sent == [] && !r'.broken && Heard(call, up, r')
    {
      hide Reaches, PayloadOf, Server.Assemble, ParseBody;
      ReachedOk(f, cfg, trace, r);
      var e := match up
        case NoResponse(message) => UpstreamFails(message)
        case Whole(status, meta, body) => UpstreamAnswers(status, meta, body)
        case Opened(status, meta, requestBlob, bodyText, _) => StreamOpens(status, meta, requestBlob, bodyText);
      Extend(f, cfg, trace, r, e);
      trace', r' := trace + [e], Step(f, cfg, r, e);
    }

    /** The answer's handling, once there is one or none will come. */
    method OnAnswer(call: Call, up: Upstream, now: U64, ghost trace: seq<Event>, ghost r: Request)
      returns (reply: Reply, sent: seq<seq<byte>>, ghost trace': seq<Event>, ghost r': Request)
      requires Valid() && Reaches(f, cfg, trace, r) && r.phase == Server.Dispatched(call) && Suits(call, up)
      requires !up.Unawaited?
      modifies receipts
      ensures Concluded(trace', r', sent, old(receipts.log))
      ensures r'.call == r.call && r'.verdict == r.verdict && r'.dispatches == r.dispatches && Records(call, up, r')
      ensures (up.Opened? && IsSuccess(up.status) && Leaves(up.stream)) || IssuesAt(r', now)
      ensures reply.httpStatus == DispatchedStatus(f, call, up, r'.issued != [])
      ensures sent == if up.Opened? && IsSuccess(up.status) then Delivered(up.stream) else []
      ensures up.Opened? && IsSuccess(up.status) && Leaves(up.stream) ==> r'.issued == []
      ensures !(up.Opened? && IsSuccess(up.status)) ==>
                reply.receiptId == if r'.issued == [] then None else Some(StoredEach(r'.issued)[0].receiptId)
    {
      hide Reaches, OnChain, MessageBytes, ErrorPayload, ParseBody, Delivered, Leaves;
      sent := [];
      ghost var answered, p := Respond(call, up, trace, r);
      match up
      case NoResponse(message) =>
        reply, trace', r' := FinishErrorReceipt(
          call, NoUpstream(f, call), OUTCOME_UPSTREAM_ERROR, None, message, 502, now, answered, p);
      case Whole(status, meta, body) =>
        var ctx := WithMeta(call.requestBlob, meta);
        if IsSuccess(status) {
          reply, trace', r' := FinishNonStreamingOk(call, ctx, body, now, answered, p);
        } else {
          reply, trace', r' := FinishErrorReceipt(
            call, ctx, OUTCOME_UPSTREAM_ERROR, Some(status), f.json.render(body), 502, now, answered, p);
        }
      case Opened(status, meta, requestBlob, bodyText, body) =>
        var ctx := WithMeta(requestBlob, meta);
        if IsSuccess(status) {
          reply, sent, trace', r' := StreamResponse(call, ctx, body, now, answered, p);
        } else {
          reply, trace', r' := FinishErrorReceipt(
            call, ctx, OUTCOME_UPSTREAM_ERROR, Some(status), bodyText, 502, now, answered, p);
        }
    }

    /**
      What the handler does once the policy has allowed the call and a provider
      is configured; a client that does not wait for the answer gets no reply,
      and there is no receipt.
    */
    method Dispatched(call: Call, up: Upstream, now: U64, ghost trace: seq<Event>, ghost r: Request)
      returns (reply: Option<Reply>, sent: seq<seq<byte>>, ghost trace': seq<Event>, ghost r': Request)
      requires Valid() && Reaches(f, cfg, trace, r) && r.phase == Server.Dispatched(call) && Suits(call, up)
      modifies receipts
      ensures Concluded(trace', r', sent, old(receipts.log))
      ensures r'.call == r.call && r'.verdict == r.verdict && r'.dispatches == r.dispatches && Records(call, up, r')
      ensures up.Unawaited? || (up.Opened? && IsSuccess(up.status) && Leaves(up.stream)) || IssuesAt(r', now)
      ensures reply.None? <==> up.Unawaited?
      ensures up.Unawaited? ==> r'.issued == []
      ensures reply.Some? ==> reply.value.httpStatus == DispatchedStatus(f, call, up, r'.issued != [])
      ensures sent == if up.Opened? && IsSuccess(up.status) then Delivered(up.stream) else []
      ensures up.Opened? && IsSuccess(up.status) && Leaves(up.stream) ==> r'.issued == []
      ensures reply.Some? && !(up.Opened? && IsSuccess(up.status)) ==>
                reply.value.receiptId == if r'.issued == [] then None else Some(StoredEach(r'.issued)[0].receiptId)
    {
      hide Reaches, OnChain, MessageBytes, ParseBody, Delivered, Leaves;
      if up.Unawaited? {
        trace', r' := Unanswered(trace, r);
        assert receipts.log + StoredEach([]) == receipts.log;
        return None, [], trace', r';
      }
      var answer;
      answer, sent, trace', r' := OnAnswer(call, up, now, trace, r);
      reply := Some(answer);
    }

    lemma Unanswered(trace: seq<Event>, r: Request) returns (trace': seq<Event>, r': Request)
      requires Reaches(f, cfg, trace, r) && r.phase.Dispatched?
      ensures Reaches(f, cfg, trace', r') && r' == r.(phase := Done)
      ensures r'.issued == [] && r'.sent == [] && r'.answer == None && r'.body == None
    {
      ReachedOk(f, cfg, trace, r);
      trace', r' := Leave(trace, r);
    }

    /** The policy decision, and the phase it leaves the request in. */
    method Screening(call: Call) returns (verdict: Policy.Verdict, ghost trace: seq<Event>, ghost r: Request)
      requires PolicyLoaded()
      ensures Reaches(f, cfg, trace, r)
      ensures verdict.Allowed? <==> Policy.Permits(cfg.rules, call.policyRequest)
      ensures r.phase == if verdict.Allowed? then Cleared(call) else Refused(call, f.denialText(verdict))
      ensures r.call == Some(call) && r.verdict == Some(verdict)
      ensures r.dispatches == 0 && r.sent == [] && r.issued == [] && r.answer == None && r.body == None
    {
      hide Reaches, PayloadOf, Policy.Permits, Policy.PolicyOf;
      Start(f, cfg);
      Extend(f, cfg, [], NEW_REQUEST, Screen(call));
      trace, r := [] + [Screen(call)], Step(f, cfg, NEW_REQUEST, Screen(call));
      verdict := Policy.Evaluate(policy, call.policyRequest, cfg.rules);
      Policy.AllowedIffPermitted(cfg.rules, call.policyRequest, verdict);
      Extend(f, cfg, trace, r, Evaluate(verdict));
      trace, r := trace + [Evaluate(verdict)], Step(f, cfg, r, Evaluate(verdict));
    }

    /** `chat_completions` and `messages`, from a parsed request on. */
    method Handle(call: Call, configured: bool, up: Upstream, now: U64)
      returns (reply: Option<Reply>, sent: seq<seq<byte>>, ghost trace: seq<Event>, ghost r: Request)
      requires Valid() && PolicyLoaded() && Suits(call, up)
      modifies receipts
      ensures Concluded(trace, r, sent, old(receipts.log)) && r.call == Some(call)
      ensures r.verdict.Some? && (r.verdict.value.Allowed? <==> Policy.Permits(cfg.rules, call.policyRequest))
      ensures if r.dispatches == 1 then Records(call, up, r) else r.answer == None && r.body == None
      ensures || IssuesAt(r, now)
              || (Policy.Permits(cfg.rules, call.policyRequest) && !configured)
              || (r.dispatches == 1 && (up.Unawaited? || (up.Opened? && IsSuccess(up.status) && Leaves(up.stream))))
      ensures r.dispatches == if Policy.Permits(cfg.rules, call.policyRequest) && configured then 1 else 0
      ensures reply.None? <==> r.dispatches == 1 && up.Unawaited?
      ensures reply.None? ==> r.issued == []
      ensures reply.Some? ==>
                reply.value.httpStatus == if r.dispatches == 1 then DispatchedStatus(f, call, up, r.issued != [])
                                          else if Policy.Permits(cfg.rules, call.policyRequest) then 503
                                          else if r.issued == [] then 500 else 403
      ensures sent == if r.dispatches == 1 && up.Opened? && IsSuccess(up.status) then Delivered(up.stream) else []
      ensures r.dispatches == 1 && up.Opened? && IsSuccess(up.status) && Leaves(up.stream) ==> r.issued == []
      ensures reply.Some? && !(r.dispatches == 1 && up.Opened? && IsSuccess(up.status)) ==>
                reply.value.receiptId == if r.issued == [] then None else Some(StoredEach(r.issued)[0].receiptId)
    {
      hide Reaches, OnChain, MessageBytes, ErrorPayload, ParseBody, Delivered, Leaves, Policy.Permits;
      sent := [];
      var verdict;
      verdict, trace, r := Screening(call);
      if !verdict.Allowed? {
        var denial;
        denial, trace, r := FinishErrorReceipt(
          call, NoUpstream(f, call), OUTCOME_POLICY_DENIED, None, f.denialText(verdict), 403, now, trace, r);
        reply := Some(denial);
      } else if !configured {
        Extend(f, cfg, trace, r, NoProvider);
        trace, r := trace + [NoProvider], Step(f, cfg, r, NoProvider);
        assert receipts.log + StoredEach([]) == receipts.log;
        reply := Some(Reply(503, None));
      } else {
        Extend(f, cfg, trace, r, Dispatch);
        reply, sent, trace, r := Dispatched(call, up, now, trace + [Dispatch], Step(f, cfg, r, Dispatch));
      }
    }
  }
}
