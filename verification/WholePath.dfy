/**
  A streamed call that happens: from a message, through its events and bytes and
  an enclave's run, to the event on chain.  It shows that the hypotheses of the
  theorems about the whole path hold together, in a reachable world.
*/
module WholePath {
  import opened Prelude
  import opened Receipts
  import opened Server
  import A = Anthropic
  import AE = AnthropicEquality
  import AS = AnthropicStreams
  import Checkpoints
  import E = EndToEnd
  import Handlers
  import Json
  import O = OpenAi
  import OE = OpenAiEquality
  import OS = OpenAiStreams
  import P = Printing
  import Policy
  import R = Registry
  import S = SameEvents
  import Sse
  import StreamToChain
  import Utf8
  import W = Weaving

  // --- One request ---------------------------------------------------------------------

  /** A permitted streaming call with a 200 answer, its chunks relayed and its receipt issued. */
  lemma StreamedRequest(
    f: Foreign, cfg: Config, call: Call, rule: string, meta: UpstreamMeta, chunks: seq<seq<byte>>, now: U64,
    sig: seq<byte>)
    returns (trace: seq<Event>, r: Request)
    requires call.stream && Policy.IsVerdict(cfg.rules, call.policyRequest, Policy.Allowed(rule))
    ensures Handlers.Reaches(f, cfg, trace, r)
    ensures r.call == Some(call) && Succeeded(r) && r.sent == chunks
    ensures |r.issued| == 1 && r.issued[0].timestampMs == now && r.issued[0].sig == sig
  {
    var streaming;
    trace, streaming := OpenedRequest(f, cfg, call, rule, meta);
    Handlers.RelayAll(f, cfg, trace, streaming, chunks);
    var relayed := Handlers.Relayed(f, streaming, chunks);
    trace := trace + Handlers.Relaying(chunks);
    Handlers.Extend(f, cfg, trace, relayed, StreamEnds);
    trace, r := trace + [StreamEnds], Step(f, cfg, relayed, StreamEnds);
    Handlers.IssuesNothingBefore(f, cfg, trace, r);
    Handlers.Extend(f, cfg, trace, r, Issue(now, sig));
    StepIssues(f, cfg, r, Issue(now, sig));
    trace, r := trace + [Issue(now, sig)], Step(f, cfg, r, Issue(now, sig));
  }

  lemma OpenedRequest(f: Foreign, cfg: Config, call: Call, rule: string, meta: UpstreamMeta)
    returns (trace: seq<Event>, r: Request)
    requires call.stream && Policy.IsVerdict(cfg.rules, call.policyRequest, Policy.Allowed(rule))
    ensures Handlers.Reaches(f, cfg, trace, r)
    ensures r.phase == Streaming(call, WithMeta(call.requestBlob, meta), Sse.START)
    ensures r.call == Some(call) && Succeeded(r) && r.fed == [] && r.sent == []
  {
    var verdict := Policy.Allowed(rule);
    Handlers.Start(f, cfg);
    trace, r := [], NEW_REQUEST;
    Handlers.Extend(f, cfg, trace, r, Screen(call));
    trace, r := trace + [Screen(call)], Step(f, cfg, r, Screen(call));
    Handlers.Extend(f, cfg, trace, r, Evaluate(verdict));
    trace, r := trace + [Evaluate(verdict)], Step(f, cfg, r, Evaluate(verdict));
    Handlers.Extend(f, cfg, trace, r, Dispatch);
    trace, r := trace + [Dispatch], Step(f, cfg, r, Dispatch);
    var e := StreamOpens(200, meta, call.requestBlob, "");
    Handlers.Extend(f, cfg, trace, r, e);
    trace, r := trace + [e], Step(f, cfg, r, e);
  }

  // --- One enclave ---------------------------------------------------------------------

  lemma Grow(f: Foreign, w: E.World, a: E.Action)
    requires E.Reachable(f, w) && E.Can(w, a)
    ensures E.Reachable(f, E.Act(f, w, a))
  {
    hide E.Act, E.Can;
    var actions, worlds :| E.IsHistory(f, actions, worlds) && w == worlds[|actions|];
    var w' := E.Act(f, w, a);
    assert E.Moves(f, w, a, w');
    forall i | 0 <= i < |actions + [a]| ensures E.Moves(f, (worlds + [w'])[i], (actions + [a])[i], (worlds + [w'])[i + 1]) {
      if i < |actions| {
        assert E.Moves(f, worlds[i], actions[i], worlds[i + 1]);
      }
    }
    assert E.IsHistory(f, actions + [a], worlds + [w']);
  }

  /** An enclave of this build has taken its request 0 this far, and nothing has happened on chain. */
  ghost predicate Runs(
    f: Foreign, w: E.World, pk: E.PublicKey, t: Checkpoints.Triple, cfg: Config, r: Request)
  {
    && E.Reachable(f, w) && w.chain == R.GENESIS
    && pk in w.enclaves && w.enclaves[pk].measurements == t
    && w.enclaves[pk].cfg == cfg && RequestAt(w.enclaves[pk].gateway, 0) == r
  }

  lemma Booted(f: Foreign, pk: E.PublicKey, t: Checkpoints.Triple, cfg: Config) returns (w: E.World)
    ensures Runs(f, w, pk, t, cfg, NEW_REQUEST)
  {
    var first := E.Beginning({t});
    assert E.IsHistory(f, [], [first]);
    assert E.Reachable(f, first);
    Grow(f, first, E.Boot(pk, t, cfg));
    w := E.Act(f, first, E.Boot(pk, t, cfg));
  }

  lemma OneStep(
    f: Foreign, w: E.World, pk: E.PublicKey, t: Checkpoints.Triple, cfg: Config, r: Request, e: Event)
    returns (w': E.World)
    requires Runs(f, w, pk, t, cfg, r) && Enabled(cfg, r, e)
    ensures Runs(f, w', pk, t, cfg, Step(f, cfg, r, e))
  {
    Grow(f, w, E.Advance(pk, 0, e));
    w' := E.Act(f, w, E.Advance(pk, 0, e));
  }

  /** An enclave can do what a request can do. */
  lemma {:induction false} EnclaveRuns(
    f: Foreign, cfg: Config, pk: E.PublicKey, t: Checkpoints.Triple, trace: seq<Event>, states: seq<Request>, n: nat)
    returns (w: E.World)
    requires Handlers.IsRun(f, cfg, trace, states) && n <= |trace|
    ensures Runs(f, w, pk, t, cfg, states[n])
  {
    hide Runs, Step, Enabled;
    if n == 0 {
      w := Booted(f, pk, t, cfg);
    } else {
      var before := EnclaveRuns(f, cfg, pk, t, trace, states, n - 1);
      assert Handlers.Moves(f, cfg, states[n - 1], trace[n - 1], states[n - 1 + 1]);
      w := OneStep(f, before, pk, t, cfg, states[n - 1], trace[n - 1]);
    }
  }

  // --- On chain --------------------------------------------------------------------------

  /** An attestation of three measurements, made for an address. */
  function Attests(t: Checkpoints.Triple, pk: E.PublicKey, sender: Checkpoints.Address): (doc: Checkpoints.Document)
    ensures Checkpoints.Attested(doc) == Some(t) && doc.nonce == Some(sender) && doc.publicKey == Some(pk)
  {
    var pcrs := [Checkpoints.PcrEntry(0, t.pcr0), Checkpoints.PcrEntry(1, t.pcr1), Checkpoints.PcrEntry(2, t.pcr2)];
    assert pcrs[1..][0] == pcrs[1] && pcrs[1..][1..][0] == pcrs[2];
    Checkpoints.Document(pcrs, Some(sender), Some(pk), 0)
  }

  /** A transaction leaves everything but the chain. */
  lemma Transacts(f: Foreign, w: E.World, op: R.Op) returns (w': E.World)
    requires E.Reachable(f, w) && E.Can(w, E.Transact(op))
    ensures E.Reachable(f, w') && w' == w.(chain := R.Apply(w.chain, w.signed, op))
  {
    hide E.Reachable, R.Apply, E.Can;
    Grow(f, w, E.Transact(op));
    w' := E.Act(f, w, E.Transact(op));
  }

  /** The measurements are approved and the enclave's key is registered as gateway 0. */
  lemma GatewayRegistered(f: Foreign, w: E.World, pk: E.PublicKey, t: Checkpoints.Triple, sender: Checkpoints.Address)
    returns (w': E.World)
    requires E.Reachable(f, w) && w.chain == R.GENESIS
    requires pk in w.enclaves && w.enclaves[pk].measurements == t
    ensures E.Reachable(f, w') && w'.enclaves == w.enclaves && w'.signed == w.signed && w'.chain.events == []
    ensures 0 in w'.chain.gateways && w'.chain.gateways[0].pk == pk && w'.chain.gateways[0].pcrVersion == 0
    ensures |w'.chain.entries| == 1 && !w'.chain.entries[0].revoked
    ensures 0 in w'.chain.registered && w'.chain.registered[0].publicKey == Some(pk)
  {
    hide E.Reachable;
    var approve := R.Approve(t.pcr0, t.pcr1, t.pcr2, "");
    var w1 := Transacts(f, w, approve);
    var register := R.Register(Attests(t, pk, sender), sender);
    assert w1.chain.entries == [Checkpoints.PcrSet(t.pcr0, t.pcr1, t.pcr2, "", false)];
    assert Checkpoints.FirstMatch(w1.chain.entries, t) == Some(0);
    w' := Transacts(f, w1, register);
  }

  /** An issued receipt is verified on a gateway with the enclave's key. */
  lemma Verifies(f: Foreign, w: E.World, op: R.Op, k: nat)
    requires E.Reachable(f, w) && op.Verify? && InTypes(op.timestampMs, op.receipt) && w.chain.events == []
    requires op.id in w.chain.gateways && w.chain.gateways[op.id].pk in w.enclaves
    requires E.IssuedThis(w.enclaves[w.chain.gateways[op.id].pk], op.timestampMs, op.receipt, op.sig, k)
    requires forall i :: 0 <= i < |w.chain.entries| ==> !w.chain.entries[i].revoked
    ensures var events := R.Apply(w.chain, w.signed, op).events;
            |events| == 1 && events[0].receipt == op.receipt && events[0].timestampMs == op.timestampMs
  {
    hide MessageBytes, E.Reachable;
    E.VerifyIsExact(f, w, op);
  }

  /** The receipt of a finished request is verified. */
  lemma ReceiptShown(
    f: Foreign, w: E.World, pk: E.PublicKey, cfg: Config, r: Request, t: Checkpoints.Triple, sender: Checkpoints.Address,
    now: nat) returns (w': E.World)
    requires Runs(f, w, pk, t, cfg, r) && |r.issued| == 1
    ensures E.Reachable(f, w') && pk in w'.enclaves && w'.enclaves[pk].cfg == cfg
    ensures |w'.chain.events| == 1 && E.ShowsRequest(f, cfg, w'.chain.events[0], r, r.issued[0].payload)
  {
    hide E.Reachable, MessageBytes, OnChain, E.ShowsRequest, GatewayOk, IssuedTrue, R.Apply;
    var i := r.issued[0];
    var registered := GatewayRegistered(f, w, pk, t, sender);
    var k := LoggedAt(f, registered, pk, cfg, r);
    OnChainInTypes(i.payload, i.timestampMs);
    var op := R.Verify(0, i.timestampMs, OnChain(i.payload), i.sig, sender, now);
    assert E.IssuedThis(registered.enclaves[pk], op.timestampMs, op.receipt, op.sig, k);
    Verifies(f, registered, op, k);
    w' := Transacts(f, registered, op);
    E.LoggedShows(f, registered.enclaves[pk], k, w'.chain.events[0]);
  }

  /** The log has the request's receipt. */
  lemma LoggedAt(f: Foreign, w: E.World, pk: E.PublicKey, cfg: Config, r: Request) returns (k: nat)
    requires E.Reachable(f, w) && pk in w.enclaves && w.enclaves[pk].cfg == cfg
    requires RequestAt(w.enclaves[pk].gateway, 0) == r && |r.issued| == 1
    ensures GatewayOk(f, cfg, w.enclaves[pk].gateway)
    ensures k < |w.enclaves[pk].gateway.log| && w.enclaves[pk].gateway.log[k] == (0, r.issued[0])
  {
    hide IssuedTrue, Step, PayloadOf, E.EventsSigned;
    E.ReachableOk(f, w);
    var g := w.enclaves[pk].gateway;
    assert 0 in g.requests && g.requests[0].issued != [];
    var i :| 0 <= i < |g.log| && g.log[i].0 == 0;
    k := i;
    assert g.requests[g.log[k].0].issued == [g.log[k].1];
  }

  // --- All together -----------------------------------------------------------------------------

  /** A permitted streaming call on a surface. */
  ghost predicate IsPermitted(cfg: Config, call: Call, s: Surface, rule: string) {
    call.stream && call.surface == s && Policy.IsVerdict(cfg.rules, call.policyRequest, Policy.Allowed(rule))
  }

  /**
    A streamed call reaches the chain: for any foreign code, any configuration
    that permits the call and any chunks, there is a reachable world whose only
    event shows the request, and the enclave it ran in.
  */
  lemma CallReachesChain(
    f: Foreign, cfg: Config, call: Call, rule: string, meta: UpstreamMeta, chunks: seq<seq<byte>>, sig: seq<byte>,
    pk: E.PublicKey, t: Checkpoints.Triple, sender: Checkpoints.Address, now: U64) returns (w: E.World, r: Request)
    requires IsPermitted(cfg, call, call.surface, rule)
    ensures E.Reachable(f, w) && |w.chain.events| == 1 && |r.issued| == 1
    ensures E.ShowsRequest(f, cfg, w.chain.events[0], r, r.issued[0].payload)
    ensures r.call == Some(call) && Succeeded(r) && r.sent == chunks
  {
    hide Runs, E.Reachable, E.ShowsRequest, IssuedTrue;
    var trace;
    trace, r := StreamedRequest(f, cfg, call, rule, meta, chunks, now, sig);
    var states :| Handlers.IsRun(f, cfg, trace, states) && r == states[|trace|];
    var running := EnclaveRuns(f, cfg, pk, t, trace, states, |trace|);
    w := ReceiptShown(f, running, pk, cfg, r, t, sender, now);
  }

  /** The bytes are these payload texts, framed; the enclave's chunks of them are cut between characters. */
  ghost predicate Transmits(texts: seq<string>, clientChunks: seq<seq<byte>>, enclaveChunks: seq<seq<byte>>) {
    && Utf8.Lossy(Concat(clientChunks)) == P.FramesOf(texts).Text()
    && Concat(enclaveChunks) == Concat(clientChunks) && Sse.Aligned(enclaveChunks)
  }

  /**
    From a message to the chain: an Anthropic message, its blocks cut anywhere,
    its events interleaved in any order, printed as texts the parser reads back
    and streamed in any chunks, ends as an event that commits to the message.
  */
  lemma AnthropicMessageReachesChain(
    f: Foreign, cfg: Config, call: Call, rule: string, meta: UpstreamMeta, sig: seq<byte>, pk: E.PublicKey,
    t: Checkpoints.Triple, sender: Checkpoints.Address, now: U64,
    raw: Json.Json, cuts: seq<AS.Cut>, others: seq<Json.Json>, schedule: seq<nat>, texts: seq<string>,
    clientChunks: seq<seq<byte>>, enclaveChunks: seq<seq<byte>>) returns (w: E.World)
    requires IsPermitted(cfg, call, AnthropicSurface, rule)
    requires AS.Cuttable(f.json, raw, cuts, others)
    requires W.Completes(AS.Streams(f.json, raw, cuts, others), schedule)
    requires P.Prints(f.json, texts, W.Weave(AS.Streams(f.json, raw, cuts, others), schedule))
    requires Transmits(texts, clientChunks, enclaveChunks)
    ensures E.Reachable(f, w) && |w.chain.events| == 1
    ensures var whole := A.ToCanonicalResponse(f.json, raw);
            whole.Ok? && StreamToChain.EventCommitsTo(f, whole.value, w.chain.events[0].receipt)
  {
    hide E.Reachable, AE.Describes, S.Carries, A.ToCanonicalResponse, AS.Cuttable, AS.Streams, W.Weave, P.Prints;
    hide E.ShowsRequest, StreamToChain.EventCommitsTo, P.FramesOf;
    var r;
    w, r := CallReachesChain(f, cfg, call, rule, meta, enclaveChunks, sig, pk, t, sender, now);
    AS.WovenMessageIsDescribed(f.json, raw, cuts, others, schedule);
    var events := W.Weave(AS.Streams(f.json, raw, cuts, others), schedule);
    P.PrintedAreSeen(f.json, texts, events, Concat(clientChunks));
    StreamToChain.AnthropicEventCommitsToMessage(
      f, cfg, w.chain.events[0], r, r.issued[0].payload, P.FramesOf(texts), clientChunks, raw);
  }

  /** The same for an OpenAI completion, its text and the arguments of its tool calls cut anywhere. */
  lemma OpenAiCompletionReachesChain(
    f: Foreign, cfg: Config, call: Call, rule: string, meta: UpstreamMeta, sig: seq<byte>, pk: E.PublicKey,
    t: Checkpoints.Triple, sender: Checkpoints.Address, now: U64,
    raw: Json.Json, text: seq<string>, cuts: seq<OS.Cut>, schedule: seq<nat>, texts: seq<string>,
    clientChunks: seq<seq<byte>>, enclaveChunks: seq<seq<byte>>) returns (w: E.World)
    requires IsPermitted(cfg, call, OpenAiSurface, rule)
    requires OS.Cuttable(raw, text, cuts) && W.Completes(OS.Streams(raw, text, cuts), schedule)
    requires P.Prints(f.json, texts, W.Weave(OS.Streams(raw, text, cuts), schedule))
    requires Transmits(texts, clientChunks, enclaveChunks)
    ensures E.Reachable(f, w) && |w.chain.events| == 1
    ensures var whole := O.ToCanonicalResponse(f.json, raw);
            whole.Ok? && StreamToChain.EventCommitsTo(f, whole.value, w.chain.events[0].receipt)
  {
    hide E.Reachable, OE.Describes, S.Carries, O.ToCanonicalResponse, OS.Cuttable, OS.Streams, W.Weave, P.Prints;
    hide E.ShowsRequest, StreamToChain.EventCommitsTo, P.FramesOf;
    var r;
    w, r := CallReachesChain(f, cfg, call, rule, meta, enclaveChunks, sig, pk, t, sender, now);
    OS.WovenCompletionIsDescribed(raw, text, cuts, schedule);
    var events := W.Weave(OS.Streams(raw, text, cuts), schedule);
    P.PrintedAreSeen(f.json, texts, events, Concat(clientChunks));
    StreamToChain.OpenAiEventCommitsToMessage(
      f, cfg, w.chain.events[0], r, r.issued[0].payload, P.FramesOf(texts), clientChunks, OS.Indexes(|cuts|), raw);
  }
  // --- The hypotheses hold together ------------------------------------------------------------

  /** One chunk is aligned. */
  lemma OneChunk(bytes: seq<byte>)
    ensures Concat([bytes]) == bytes && Sse.Aligned([bytes])
  {
    assert [bytes][1..] == [] && Concat([bytes]) == bytes + [];
  }

  /**
    For every completion there are a parser, a stream of it and bytes, so that a
    permitted call of it ends on chain.
  */
  lemma OpenAiPathExists(
    f0: Foreign, cfg: Config, call: Call, rule: string, meta: UpstreamMeta, sig: seq<byte>, pk: E.PublicKey,
    t: Checkpoints.Triple, sender: Checkpoints.Address, now: U64, raw: Json.Json)
    returns (f: Foreign, w: E.World)
    requires IsPermitted(cfg, call, OpenAiSurface, rule)
    requires O.DecodeResponse(raw).Ok? && |OS.ChoiceIn(raw).toolCalls| <= 0xFFFF_FFFF_FFFF_FFFF
    requires OE.ContentOf(raw).Some? ==> OE.ContentOf(raw).value.Str? && OE.ContentOf(raw).value.s != ""
    ensures E.Reachable(f, w) && |w.chain.events| == 1
    ensures var whole := O.ToCanonicalResponse(f.json, raw);
            whole.Ok? && StreamToChain.EventCommitsTo(f, whole.value, w.chain.events[0].receipt)
  {
    hide E.Reachable, OE.Describes, OS.Cuttable, OS.Streams, W.Weave, P.Prints, O.ToCanonicalResponse, Utf8.Lossy;
    hide StreamToChain.EventCommitsTo, P.FramesOf, O.DecodeResponse;
    var text, cuts, schedule := OS.EveryCompletionStreams(raw);
    var reader, texts, bytes := P.SomethingPrints(f0.json, W.Weave(OS.Streams(raw, text, cuts), schedule));
    f := f0.(json := reader);
    OneChunk(bytes);
    w := OpenAiCompletionReachesChain(
      f, cfg, call, rule, meta, sig, pk, t, sender, now, raw, text, cuts, schedule, texts, [bytes], [bytes]);
  }

  /** The block's tool input, if it has one, is spelled as a JSON object; a tool result cannot be streamed. */
  ghost predicate Spelled(env: Json.Env, block: Json.Json, spelled: string) {
    && !AE.TypeIs(block, "tool_result")
    && (AE.TypeIs(block, "tool_use") ==>
          spelled != "" && spelled[0] == '{' && AE.SpellsInput(env, spelled, block))
  }

  /** What is spelled as an object is read as before. */
  lemma SameInput(env: Json.Env, events: seq<Json.Json>, block: Json.Json, spelled: string)
    requires Spelled(env, block, spelled)
    ensures AS.Cuts(P.Counting(env, events), block, AS.WholeCut(block, spelled))
  {
    if AE.TypeIs(block, "tool_use") {
      assert !P.IsOnes(spelled) && "[DONE]"[0] == '[';
    }
    AS.WholeCutCuts(P.Counting(env, events), block, spelled);
  }

  lemma SameStreams(
    env: Json.Env, events: seq<Json.Json>, raw: Json.Json, cuts: seq<AS.Cut>, spelled: seq<string>)
    requires AS.Cuttable(env, raw, cuts, []) && |spelled| == |cuts|
    requires var content := A.DecodeResponse(raw).value.content;
             forall i :: 0 <= i < |content| ==>
               Spelled(env, content[i], spelled[i]) && cuts[i] == AS.WholeCut(content[i], spelled[i])
    ensures var reader := P.Counting(env, events);
            AS.Cuttable(reader, raw, cuts, []) && AS.Streams(reader, raw, cuts, []) == AS.Streams(env, raw, cuts, [])
  {
    hide A.DecodeResponse;
    var content := A.DecodeResponse(raw).value.content;
    forall i | 0 <= i < |content| ensures AS.Cuts(P.Counting(env, events), content[i], cuts[i]) {
      SameInput(env, events, content[i], spelled[i]);
    }
  }

  /** The same for every Anthropic message without tool results whose tool inputs are spelled as JSON objects. */
  lemma AnthropicPathExists(
    f0: Foreign, cfg: Config, call: Call, rule: string, meta: UpstreamMeta, sig: seq<byte>, pk: E.PublicKey,
    t: Checkpoints.Triple, sender: Checkpoints.Address, now: U64, raw: Json.Json, spelled: seq<string>)
    returns (f: Foreign, w: E.World)
    requires IsPermitted(cfg, call, AnthropicSurface, rule)
    requires A.DecodeResponse(raw).Ok?
    requires var content := A.DecodeResponse(raw).value.content;
             && |spelled| == |content| && |content| <= 0xFFFF_FFFF_FFFF_FFFF
             && forall i :: 0 <= i < |content| ==> Spelled(f0.json, content[i], spelled[i])
    ensures E.Reachable(f, w) && |w.chain.events| == 1
    ensures var whole := A.ToCanonicalResponse(f.json, raw);
            whole.Ok? && StreamToChain.EventCommitsTo(f, whole.value, w.chain.events[0].receipt)
  {
    hide E.Reachable, AE.Describes, AS.Streams, W.Weave, P.Prints, A.ToCanonicalResponse, Utf8.Lossy;
    hide StreamToChain.EventCommitsTo, P.FramesOf, A.DecodeResponse, AE.SpellsInput;
    var cuts, schedule := AS.EveryMessageStreams(f0.json, raw, spelled);
    var events := W.Weave(AS.Streams(f0.json, raw, cuts, []), schedule);
    var reader, texts, bytes := P.SomethingPrints(f0.json, events);
    f := f0.(json := reader);
    SameStreams(f0.json, events, raw, cuts, spelled);
    OneChunk(bytes);
    w := AnthropicMessageReachesChain(
      f, cfg, call, rule, meta, sig, pk, t, sender, now, raw, cuts, [], schedule, texts, [bytes], [bytes]);
  }
}
