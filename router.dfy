/** The provider router of the bot: the model-candidate loops of the OpenAI
    and Mistral clients, the OpenAI → Gemini → Mistral fallback chain, the
    normalisation of a Gemini reply to the OpenAI chat shape, the prompt text
    sent to Gemini, the extraction of the reply text, and the vision path of
    the palm reading with the image download it needs.

    HTTP is not performed: the answer to the k-th request a router run makes
    (counting from 0) is `net(k)`, a parameter. */
module Router {
  import opened Text
  import opened Json
  import opened JsonRepair

  /** What one POST gives back: a response with its status code, its body
      text and the result of `resp.json()` (an error message when that
      raises), or the exception `requests` raised (timeout, connection). */
  datatype Outcome =
    | Response(status: int, text: string, body: Result<Json, string>)
    | Raised(error: string)

  /** `resp.status_code // 100 == 2`, stated as the range it denotes (see
      `Is2xxIsFloorDivision`). */
  predicate Is2xx(status: int) {
    200 <= status < 300
  }

  /** The range is exactly the codes whose quotient by 100 is 2; for a
      positive divisor Python's floor division and Dafny's Euclidean division
      agree, negative codes included. */
  lemma Is2xxIsFloorDivision(status: int)
    ensures Is2xx(status) <==> status / 100 == 2
  {
  }

  /** A response outside 2xx: the candidate loops move on after one. */
  predicate Rejected(o: Outcome) {
    o.Response? && !Is2xx(o.status)
  }

  /** A 2xx response whose body decodes: the only outcome a provider returns. */
  predicate Succeeded(o: Outcome) {
    o.Response? && Is2xx(o.status) && o.body.Ok?
  }

  datatype Provider = OpenAI | Gemini | Mistral

  /** One request: the provider and the model asked for. */
  datatype Call = Call(provider: Provider, model: string)

  const OpenAiModels: seq<string> := ["gpt-5-mini", "gpt-4.1-mini"]
  const MistralModels: seq<string> := ["mistral-small-latest", "open-mixtral-8x7b"]
  const GeminiModel: string := "gemini-2.0-flash"

  function ProviderName(p: Provider): string {
    match p
    case OpenAI => "OpenAI"
    case Gemini => "Gemini"
    case Mistral => "Mistral"
  }

  /** The environment variable holding a provider's key. */
  function KeyVarName(p: Provider): string {
    match p
    case OpenAI => "OPENAI_API_KEY"
    case Gemini => "GEMINI_API_KEY"
    case Mistral => "MISTRAL_API_KEY"
  }

  /** The exception a candidate loop raises when every model was refused. */
  function AllCandidatesFailed(p: Provider, last: string): string {
    ProviderName(p) + " all candidates failed. Last: " + last
  }

  // ------------------------------------------------------------------
  // The candidate loop of `_openai_chat_completion` / `_mistral_chat_completion`

  /** No request numbered `lo` to `hi - 1` succeeded. */
  predicate NoneSucceeded(net: nat -> Outcome, lo: nat, hi: int) {
    forall k: nat :: lo <= k < hi ==> !Succeeded(net(k))
  }

  /** Every request numbered `lo` to `hi - 1` got a non-2xx response. */
  predicate AllRejected(net: nat -> Outcome, lo: nat, hi: int) {
    forall k: nat :: lo <= k < hi ==> Rejected(net(k))
  }

  /** Trying `models[i..]` in order, the request for `models[i]` being
      answered by `net(n)`; `lastErr` is the body of the last refusal so far.
      The result and the requests made. A 2xx returns its decoded body, a
      non-2xx moves to the next model, an exception ends the loop. */
  function Candidates(p: Provider, models: seq<string>, i: nat, net: nat -> Outcome, n: nat, lastErr: string)
    : (r: (Result<Json, string>, seq<Call>))
    requires i <= |models|
    ensures |r.1| <= |models| - i
    ensures i < |models| ==> |r.1| >= 1
    decreases |models| - i
  {
    if i == |models| then (Err(AllCandidatesFailed(p, lastErr)), [])
    else
      var call := Call(p, models[i]);
      match net(n)
      case Raised(e) => (Err(e), [call])
      case Response(status, text, body) =>
        if Is2xx(status) then (body, [call])
        else
          var rest := Candidates(p, models, i + 1, net, n + 1, text);
          (rest.0, [call] + rest.1)
  }

  /** The loop asks the models in list order, moves on only after a non-2xx
      response, and returns a body exactly when its request succeeded. */
  lemma {:induction false} CandidatesInOrder(p: Provider, models: seq<string>, i: nat, net: nat -> Outcome, n: nat, lastErr: string)
    requires i <= |models|
    ensures var r := Candidates(p, models, i, net, n, lastErr);
            && (forall k :: 0 <= k < |r.1| ==> r.1[k] == Call(p, models[i + k]))
            && AllRejected(net, n, n + |r.1| - 1)
            && (r.0.Ok? <==> |r.1| >= 1 && Succeeded(net(n + |r.1| - 1)))
            && (r.0.Ok? ==> net(n + |r.1| - 1).body == Ok(r.0.value))
            && (|r.1| < |models| - i ==> |r.1| >= 1 && !Rejected(net(n + |r.1| - 1)))
    decreases |models| - i
  {
    if i < |models| && Rejected(net(n)) {
      CandidatesInOrder(p, models, i + 1, net, n + 1, net(n).text);
    }
  }

  /** The body text of a refusal. */
  function RefusalText(o: Outcome): string {
    if o.Response? then o.text else ""
  }

  /** When every model is refused, each is asked once and the exception names
      the body of the last refusal. */
  lemma {:induction false} CandidatesAllRefused(p: Provider, models: seq<string>, i: nat, net: nat -> Outcome, n: nat, lastErr: string)
    requires i <= |models|
    requires AllRejected(net, n, n + |models| - i)
    ensures |Candidates(p, models, i, net, n, lastErr).1| == |models| - i
    ensures Candidates(p, models, i, net, n, lastErr).0 ==
              Err(AllCandidatesFailed(p, if i == |models| then lastErr else RefusalText(net(n + |models| - i - 1))))
    decreases |models| - i
  {
    if i < |models| {
      assert Rejected(net(n));
      CandidatesAllRefused(p, models, i + 1, net, n + 1, net(n).text);
    }
  }

  /** One refusal: the loop goes on with the next model, the refusal's body as
      the last error, after recording one request. */
  lemma CandidatesRefusal(p: Provider, models: seq<string>, i: nat, net: nat -> Outcome, n: nat, lastErr: string,
                          done: seq<Call>)
    requires i < |models| && Rejected(net(n))
    ensures var here := Candidates(p, models, i, net, n, lastErr);
            var rest := Candidates(p, models, i + 1, net, n + 1, net(n).text);
            here.0 == rest.0 && done + here.1 == (done + [Call(p, models[i])]) + rest.1
  {
    var rest := Candidates(p, models, i + 1, net, n + 1, net(n).text);
    assert done + ([Call(p, models[i])] + rest.1) == (done + [Call(p, models[i])]) + rest.1;
  }

  /** A 2xx or an exception ends the loop. */
  lemma CandidatesStop(p: Provider, models: seq<string>, i: nat, net: nat -> Outcome, n: nat, lastErr: string)
    requires i < |models| && !Rejected(net(n))
    ensures Candidates(p, models, i, net, n, lastErr) ==
            (if net(n).Raised? then Err(net(n).error) else net(n).body, [Call(p, models[i])])
  {
  }

  /** The loop itself, with `last_err_text` and the requests made as local
      state. */
  method TryCandidates(p: Provider, models: seq<string>, net: nat -> Outcome, start: nat)
    returns (r: Result<Json, string>, calls: seq<Call>)
    ensures r == Candidates(p, models, 0, net, start, "").0
    ensures calls == Candidates(p, models, 0, net, start, "").1
  {
    ghost var res := Candidates(p, models, 0, net, start, "").0;
    ghost var all := Candidates(p, models, 0, net, start, "").1;
    var lastErr := "";
    calls := [];
    var i, n := 0, start;
    while i < |models|
      invariant 0 <= i <= |models| && |calls| == i && n == start + i
      invariant res == Candidates(p, models, i, net, n, lastErr).0
      invariant all == calls + Candidates(p, models, i, net, n, lastErr).1
    {
      var o := net(n);
      if !Rejected(o) {
        CandidatesStop(p, models, i, net, n, lastErr);
        r := if o.Raised? then Err(o.error) else o.body;
        calls := calls + [Call(p, models[i])];
        return;
      }
      CandidatesRefusal(p, models, i, net, n, lastErr, calls);
      calls := calls + [Call(p, models[i])];
      lastErr := o.text;
      i, n := i + 1, n + 1;
    }
    r := Err(AllCandidatesFailed(p, lastErr));
  }

  /** `_openai_chat_completion` and `_mistral_chat_completion`: the key check,
      then the provider's candidate list. */
  method ChatCompletion(p: Provider, hasKey: bool, net: nat -> Outcome, start: nat)
    returns (r: Result<Json, string>, calls: seq<Call>)
    requires p != Gemini
    ensures !hasKey ==> r == Err(KeyVarName(p) + " is not set") && calls == []
    ensures hasKey ==> r == ProviderCall(p, net, start).0 && calls == ProviderCall(p, net, start).1
  {
    if !hasKey {
      return Err(KeyVarName(p) + " is not set"), [];
    }
    var models := if p == OpenAI then OpenAiModels else MistralModels;
    r, calls := TryCandidates(p, models, net, start);
  }

  // ------------------------------------------------------------------
  // Gemini

  /** `{"choices": [{"message": {"content": content}}]}`, the OpenAI reply shape. */
  function ChatReply(content: Json): Json {
    JObj(map["choices" := JArr([JObj(map["message" := JObj(map["content" := content])])])])
  }

  /** A Gemini `generateContent` reply carrying `text`. */
  function GeminiReply(text: Json): Json {
    JObj(map["candidates" := JArr([JObj(map["content" := JObj(map["parts" := JArr([JObj(map["text" := text])])])])])])
  }

  /** `data.get("candidates", [{}])[0].get("content", {}).get("parts", [{}])[0].get("text", "")`,
      with `""` when any step raises. */
  function GeminiText(data: Json): (r: Json) {
    var t := GetThen(FirstThen(GetThen(GetThen(FirstThen(Get(data, "candidates", JArr([EmptyObject]))),
                                               "content", EmptyObject), "parts", JArr([EmptyObject]))),
                     "text", JStr(""));
    if t.Some? then t.value else JStr("")
  }

  /** The Gemini branch of the router for one response. */
  function GeminiResult(o: Outcome): (r: Result<Json, string>)
    ensures r.Ok? <==> Succeeded(o)
    ensures r.Ok? ==> r.value == ChatReply(GeminiText(o.body.value))
    ensures Rejected(o) ==> r == Err("Gemini HTTP " + IntToString(o.status) + ": " + o.text)
  {
    match o
    case Raised(e) => Err(e)
    case Response(status, text, body) =>
      if Is2xx(status) then
        match body
        case Ok(data) => Ok(ChatReply(GeminiText(data)))
        case Err(e) => Err(e)
      else Err("Gemini HTTP " + IntToString(status) + ": " + text)
  }

  /** The text Gemini returns is the text the rest of the bot reads. */
  lemma GeminiTextRead(text: Json)
    ensures GeminiText(GeminiReply(text)) == text
  {
    var c := JObj(map["content" := JObj(map["parts" := JArr([JObj(map["text" := text])])])]);
    assert Get(GeminiReply(text), "candidates", JArr([EmptyObject])) == Some(JArr([c]));
  }

  /** A reply without candidates reads as the empty text. */
  lemma GeminiTextOfEmpty()
    ensures GeminiText(EmptyObject) == JStr("")
  {
    assert Get(EmptyObject, "candidates", JArr([EmptyObject])) == Some(JArr([EmptyObject]));
  }

  /** A role and a content, as in the `messages` list of a chat request; the
      role is `None` when the dict has no "role" key, and an absent content is
      the empty text. */
  datatype ChatMessage = ChatMessage(role: Option<string>, content: string)

  function RoleOf(m: ChatMessage): string {
    if m.role.Some? then m.role.value else "user"
  }

  /** One block of the Gemini prompt. The source spells out "system" and
      "developer" separately; both render like any other role. */
  function Chunk(m: ChatMessage): string {
    var role := RoleOf(m);
    if role == "system" then "[system]\n" + m.content
    else if role == "developer" then "[developer]\n" + m.content
    else "[" + role + "]\n" + m.content
  }

  /** The blocks of the messages with a non-empty content, in order. */
  function Chunks(ms: seq<ChatMessage>): (r: seq<string>)
    ensures |r| <= |ms|
  {
    if ms == [] then []
    else if ms[0].content == [] then Chunks(ms[1..])
    else [Chunk(ms[0])] + Chunks(ms[1..])
  }

  /** `_format_messages_for_gemini` */
  function FormatForGemini(ms: seq<ChatMessage>): string {
    Join("\n\n", Chunks(ms))
  }

  /** Every block is the role in brackets, a line break and the content. */
  lemma ChunkShape(m: ChatMessage)
    ensures Chunk(m) == "[" + RoleOf(m) + "]\n" + m.content
  {
  }

  lemma {:induction false} ChunksAppend(ms: seq<ChatMessage>, m: ChatMessage)
    ensures Chunks(ms + [m]) == Chunks(ms) + (if m.content == [] then [] else [Chunk(m)])
    decreases |ms|
  {
    if ms == [] {
      assert ms + [m] == [m];
      assert [m][1..] == [];
    } else {
      assert (ms + [m])[1..] == ms[1..] + [m];
      ChunksAppend(ms[1..], m);
    }
  }

  lemma {:induction false} JoinAppend(sep: string, ps: seq<string>, x: string)
    requires ps != []
    ensures Join(sep, ps + [x]) == Join(sep, ps) + sep + x
    decreases |ps|
  {
    if |ps| == 1 {
      assert (ps + [x])[1..] == [x];
    } else {
      assert (ps + [x])[1..] == ps[1..] + [x];
      JoinAppend(sep, ps[1..], x);
    }
  }

  /** Appending a message adds its block after a blank line, or nothing when its
      content is empty. */
  lemma FormatAppend(ms: seq<ChatMessage>, m: ChatMessage)
    ensures m.content == [] ==> FormatForGemini(ms + [m]) == FormatForGemini(ms)
    ensures m.content != [] && Chunks(ms) == [] ==> FormatForGemini(ms + [m]) == Chunk(m)
    ensures m.content != [] && Chunks(ms) != [] ==>
              FormatForGemini(ms + [m]) == FormatForGemini(ms) + "\n\n" + Chunk(m)
  {
    ChunksAppend(ms, m);
    if m.content == [] {
      assert Chunks(ms) + [] == Chunks(ms);
    }
    if m.content != [] && Chunks(ms) != [] {
      JoinAppend("\n\n", Chunks(ms), Chunk(m));
    }
    if m.content != [] && Chunks(ms) == [] {
      assert Chunks(ms + [m]) == [Chunk(m)];
    }
  }

  /** Messages with an empty content leave no trace in the prompt. */
  lemma {:induction false} EmptyMessagesIgnored(ms: seq<ChatMessage>, e: ChatMessage)
    requires e.content == []
    ensures Chunks([e] + ms) == Chunks(ms)
  {
    assert ([e] + ms)[1..] == ms;
  }

  // ------------------------------------------------------------------
  // `_llm_chat_completion`

  /** Which API keys are configured (non-empty). */
  datatype Keys = Keys(openai: bool, gemini: bool, mistral: bool)

  predicate Enabled(keys: Keys, p: Provider) {
    match p
    case OpenAI => keys.openai
    case Gemini => keys.gemini
    case Mistral => keys.mistral
  }

  predicate NoKeys(keys: Keys) {
    !keys.openai && !keys.gemini && !keys.mistral
  }

  /** The position of a provider in the fallback order. */
  function Rank(p: Provider): nat {
    match p
    case OpenAI => 0
    case Gemini => 1
    case Mistral => 2
  }

  const NoKeysMessage: string := "No LLM keys configured (OPENAI_API_KEY / GEMINI_API_KEY / MISTRAL_API_KEY)"
  const AllFailedPrefix: string := "All LLM providers failed (OpenAI/Gemini/Mistral). Last: "

  /** One provider's attempt, its first request answered by `net(start)`. */
  function ProviderCall(p: Provider, net: nat -> Outcome, start: nat): (r: (Result<Json, string>, seq<Call>))
    ensures |r.1| >= 1
    ensures forall k :: 0 <= k < |r.1| ==> r.1[k].provider == p
    ensures r.0.Ok? <==> Succeeded(net(start + |r.1| - 1))
    ensures NoneSucceeded(net, start, start + |r.1| - 1)
  {
    var r := match p
      case OpenAI => Candidates(OpenAI, OpenAiModels, 0, net, start, "")
      case Gemini => (GeminiResult(net(start)), [Call(Gemini, GeminiModel)])
      case Mistral => Candidates(Mistral, MistralModels, 0, net, start, "");
    CandidatesInOrder(p, if p == OpenAI then OpenAiModels else MistralModels, 0, net, start, "");
    RejectedNotSucceeded(net, start, start + |r.1| - 1);
    r
  }

  lemma RejectedNotSucceeded(net: nat -> Outcome, lo: nat, hi: int)
    ensures AllRejected(net, lo, hi) ==> NoneSucceeded(net, lo, hi)
  {
    if AllRejected(net, lo, hi) {
      forall k: nat | lo <= k < hi ensures !Succeeded(net(k)) {
        assert Rejected(net(k));
      }
    }
  }

  lemma NoneSucceededJoin(net: nat -> Outcome, a: nat, b: nat, c: int)
    requires a <= b && NoneSucceeded(net, a, b) && NoneSucceeded(net, b, c)
    ensures NoneSucceeded(net, a, c)
  {
    forall k: nat | a <= k < c ensures !Succeeded(net(k)) {
      if k < b {
        assert !Succeeded(net(k));
      }
    }
  }

  /** The router's local state between providers: the requests made so far, the
      reply once one provider returned, and the last exception (`last_error`). */
  datatype Progress = Progress(calls: seq<Call>, answer: Option<Json>, lastError: Option<string>)

  /** One `if KEY: try … except` block of the router. */
  function Attempt(p: Provider, enabled: bool, net: nat -> Outcome, g: Progress): (r: Progress)
    ensures g.answer.Some? || !enabled ==> r == g
    ensures g.calls <= r.calls
    ensures forall k :: |g.calls| <= k < |r.calls| ==> r.calls[k].provider == p
    ensures g.answer.None? && enabled ==> |r.calls| > |g.calls|
    ensures g.answer.None? && r.answer.Some? ==> |r.calls| > |g.calls| && Succeeded(net(|r.calls| - 1))
    ensures g.answer.None? ==> NoneSucceeded(net, |g.calls|, |r.calls| - 1)
    ensures g.answer.None? && r.answer.None? ==> NoneSucceeded(net, |g.calls|, |r.calls|)
    ensures g.answer.None? && enabled && r.answer.None? ==> r.lastError.Some?
  {
    if g.answer.Some? || !enabled then g
    else
      var (res, cs) := ProviderCall(p, net, |g.calls|);
      match res
      case Ok(v) => Progress(g.calls + cs, Some(v), g.lastError)
      case Err(e) => Progress(g.calls + cs, None, Some(e))
  }

  /** Python's `f"{last_error}"` */
  function ErrorText(e: Option<string>): string {
    if e.Some? then e.value else "None"
  }

  /** The three attempts in order, before the final decision. */
  function Chain(keys: Keys, net: nat -> Outcome): Progress {
    var g1 := Attempt(OpenAI, keys.openai, net, Progress([], None, None));
    var g2 := Attempt(Gemini, keys.gemini, net, g1);
    Attempt(Mistral, keys.mistral, net, g2)
  }

  /** `_llm_chat_completion`: the reply in the OpenAI shape, or the exception,
      together with the requests made. */
  function Route(keys: Keys, net: nat -> Outcome): (r: (Result<Json, string>, seq<Call>)) {
    var g := Chain(keys, net);
    if g.answer.Some? then (Ok(g.answer.value), g.calls)
    else if NoKeys(keys) then (Err(NoKeysMessage), g.calls)
    else (Err(AllFailedPrefix + ErrorText(g.lastError)), g.calls)
  }

  /** The router asks only providers whose key is set, in the order OpenAI,
      Gemini, Mistral. */
  lemma RouteOrder(keys: Keys, net: nat -> Outcome)
    ensures forall k :: 0 <= k < |Route(keys, net).1| ==> Enabled(keys, Route(keys, net).1[k].provider)
    ensures forall i, j :: 0 <= i <= j < |Route(keys, net).1| ==>
              Rank(Route(keys, net).1[i].provider) <= Rank(Route(keys, net).1[j].provider)
  {
    var g0 := Progress([], None, None);
    var g1 := Attempt(OpenAI, keys.openai, net, g0);
    var g2 := Attempt(Gemini, keys.gemini, net, g1);
    var g3 := Attempt(Mistral, keys.mistral, net, g2);
    var cs := g3.calls;
    assert g1.calls <= g2.calls <= cs;
    forall k | 0 <= k < |cs|
      ensures Enabled(keys, cs[k].provider)
      ensures k < |g1.calls| ==> cs[k].provider == OpenAI
      ensures |g1.calls| <= k < |g2.calls| ==> cs[k].provider == Gemini
      ensures |g2.calls| <= k ==> cs[k].provider == Mistral
    {
      if k < |g1.calls| {
        assert cs[k] == g1.calls[k];
        assert keys.openai;
      } else if k < |g2.calls| {
        assert cs[k] == g2.calls[k];
        assert keys.gemini;
      } else {
        assert keys.mistral;
      }
    }
  }

  /** The router's state so far: no request before the last one succeeded,
      and the last one did exactly when a reply is held. */
  predicate StoppedAtFirstSuccess(g: Progress, net: nat -> Outcome) {
    && (g.answer.Some? ==> |g.calls| >= 1 && Succeeded(net(|g.calls| - 1)) && NoneSucceeded(net, 0, |g.calls| - 1))
    && (g.answer.None? ==> NoneSucceeded(net, 0, |g.calls|))
  }

  /** Each attempt keeps that state. */
  lemma AttemptStopsAtFirstSuccess(p: Provider, enabled: bool, net: nat -> Outcome, g: Progress)
    requires StoppedAtFirstSuccess(g, net)
    ensures StoppedAtFirstSuccess(Attempt(p, enabled, net, g), net)
  {
    var r := Attempt(p, enabled, net, g);
    if g.answer.None? && enabled {
      if r.answer.Some? {
        NoneSucceededJoin(net, 0, |g.calls|, |r.calls| - 1);
      } else {
        NoneSucceededJoin(net, 0, |g.calls|, |r.calls|);
      }
    }
  }

  /** The router returns the first reply that succeeds and asks nothing after
      it; a reply is only returned when its request succeeded. */
  lemma RouteStopsAtFirstSuccess(keys: Keys, net: nat -> Outcome)
    ensures Route(keys, net).0.Ok? ==>
              |Route(keys, net).1| >= 1 && Succeeded(net(|Route(keys, net).1| - 1))
    ensures NoneSucceeded(net, 0, |Route(keys, net).1| - 1)
    ensures Route(keys, net).0.Err? ==> NoneSucceeded(net, 0, |Route(keys, net).1|)
  {
    var g0 := Progress([], None, None);
    var g1 := Attempt(OpenAI, keys.openai, net, g0);
    var g2 := Attempt(Gemini, keys.gemini, net, g1);
    AttemptStopsAtFirstSuccess(OpenAI, keys.openai, net, g0);
    AttemptStopsAtFirstSuccess(Gemini, keys.gemini, net, g1);
    AttemptStopsAtFirstSuccess(Mistral, keys.mistral, net, g2);
    assert StoppedAtFirstSuccess(Chain(keys, net), net);
  }

  /** With no key at all no request is made and the error says so; otherwise a
      failure names the last error. */
  lemma RouteErrors(keys: Keys, net: nat -> Outcome)
    ensures NoKeys(keys) ==> Route(keys, net) == (Err(NoKeysMessage), [])
    ensures !NoKeys(keys) ==> |Route(keys, net).1| >= 1
    ensures !NoKeys(keys) && Route(keys, net).0.Err? ==>
              exists e :: Route(keys, net).0 == Err(AllFailedPrefix + e)
  {
    var g0 := Progress([], None, None);
    var g1 := Attempt(OpenAI, keys.openai, net, g0);
    var g2 := Attempt(Gemini, keys.gemini, net, g1);
    var g3 := Attempt(Mistral, keys.mistral, net, g2);
    if !NoKeys(keys) && g3.answer.None? {
      assert Route(keys, net).0 == Err(AllFailedPrefix + ErrorText(g3.lastError));
    }
  }

  /** When every provider is configured and every request fails, the error
      names the last Mistral failure: the router got that far. */
  lemma RouteReportsLastError(keys: Keys, net: nat -> Outcome)
    requires keys.mistral
    requires Route(keys, net).0.Err?
    ensures exists e :: Route(keys, net).0 == Err(AllFailedPrefix + e) && Chain(keys, net).lastError == Some(e)
  {
    var g0 := Progress([], None, None);
    var g1 := Attempt(OpenAI, keys.openai, net, g0);
    var g2 := Attempt(Gemini, keys.gemini, net, g1);
    var g3 := Attempt(Mistral, keys.mistral, net, g2);
    assert g2.answer.None?;
    assert g3.lastError.Some?;
  }

  /** An OpenAI 2xx on the first model is the answer, after one request. */
  lemma RouteOpenAiFirst(keys: Keys, net: nat -> Outcome, body: Json)
    requires keys.openai
    requires net(0).Response? && Is2xx(net(0).status) && net(0).body == Ok(body)
    ensures Route(keys, net) == (Ok(body), [Call(OpenAI, "gpt-5-mini")])
  {
    assert OpenAiModels[0] == "gpt-5-mini";
    assert Candidates(OpenAI, OpenAiModels, 0, net, 0, "") == (Ok(body), [Call(OpenAI, "gpt-5-mini")]);
    var g1 := Attempt(OpenAI, keys.openai, net, Progress([], None, None));
    assert g1 == Progress([Call(OpenAI, "gpt-5-mini")], Some(body), None);
  }

  /** Without an OpenAI key, a Gemini 2xx is the first request and is returned
      in the OpenAI shape. */
  lemma RouteGeminiWrapped(keys: Keys, net: nat -> Outcome, data: Json)
    requires !keys.openai && keys.gemini
    requires net(0).Response? && Is2xx(net(0).status) && net(0).body == Ok(data)
    ensures Route(keys, net) == (Ok(ChatReply(GeminiText(data))), [Call(Gemini, GeminiModel)])
  {
    var g1 := Attempt(OpenAI, keys.openai, net, Progress([], None, None));
    assert g1 == Progress([], None, None);
    var g2 := Attempt(Gemini, keys.gemini, net, g1);
    assert ProviderCall(Gemini, net, 0) == (Ok(ChatReply(GeminiText(data))), [Call(Gemini, GeminiModel)]);
    assert g2 == Progress([Call(Gemini, GeminiModel)], Some(ChatReply(GeminiText(data))), None);
  }

  /** When both OpenAI models answer with a non-2xx, Gemini is asked next. */
  lemma RouteOpenAiRefused(keys: Keys, net: nat -> Outcome)
    requires keys.openai && keys.gemini
    requires Rejected(net(0)) && Rejected(net(1))
    ensures |Route(keys, net).1| >= 3
    ensures Route(keys, net).1[..3] == [Call(OpenAI, "gpt-5-mini"), Call(OpenAI, "gpt-4.1-mini"), Call(Gemini, GeminiModel)]
  {
    var g1 := Attempt(OpenAI, keys.openai, net, Progress([], None, None));
    assert g1.calls == [Call(OpenAI, "gpt-5-mini"), Call(OpenAI, "gpt-4.1-mini")];
    assert g1.answer.None?;
    var g2 := Attempt(Gemini, keys.gemini, net, g1);
    assert g2.calls == g1.calls + [Call(Gemini, GeminiModel)];
  }

  /** `_llm_chat_completion` with its local `last_error`, calling the
      candidate loops. */
  method LlmChatCompletion(keys: Keys, net: nat -> Outcome) returns (r: Result<Json, string>, calls: seq<Call>)
    ensures (r, calls) == Route(keys, net)
  {
    var lastError: Option<string> := None;
    calls := [];
    if keys.openai {
      var res, cs := ChatCompletion(OpenAI, true, net, 0);
      calls := calls + cs;
      if res.Ok? {
        return res, calls;
      }
      lastError := Some(res.error);
    }
    if keys.gemini {
      var res := GeminiResult(net(|calls|));
      calls := calls + [Call(Gemini, GeminiModel)];
      if res.Ok? {
        return res, calls;
      }
      lastError := Some(res.error);
    }
    if keys.mistral {
      var res, cs := ChatCompletion(Mistral, true, net, |calls|);
      calls := calls + cs;
      if res.Ok? {
        return res, calls;
      }
      lastError := Some(res.error);
    }
    if NoKeys(keys) {
      return Err(NoKeysMessage), calls;
    }
    r := Err(AllFailedPrefix + ErrorText(lastError));
  }

  // ------------------------------------------------------------------
  // Reading the reply

  /** `(raw.get("choices") or [{}])[0].get("message", {}).get("content", "")`,
      or the class of the exception a step raises: AttributeError for `.get`
      on something other than a dict, and what `[0]` raises on the choices. */
  function ExtractContent(raw: Json): (r: Result<Json, string>)
    ensures !raw.JObj? ==> r == Err(AttributeErrorText)
    ensures r.Err? ==> r.error == AttributeErrorText || r.error == KeyErrorText || r.error == TypeErrorText
    ensures raw.JObj? && "choices" in raw.fields && Truthy(raw.fields["choices"]) ==>
              (raw.fields["choices"].JObj? ==> r == Err(KeyErrorText))
              && (raw.fields["choices"].JNum? || raw.fields["choices"].JBool? ==> r == Err(TypeErrorText))
  {
    if !raw.JObj? then Err(AttributeErrorText)
    else
      var choices := Or(Get(raw, "choices", JNull).value, JArr([EmptyObject]));
      match First(choices)
      case Err(e) => Err(e)
      case Ok(choice) =>
        var content := GetThen(Get(choice, "message", EmptyObject), "content", JStr(""));
        if content.None? then Err(AttributeErrorText) else Ok(content.value)
  }

  /** The content put in by the OpenAI shape is the content read back. */
  lemma ContentOfChatReply(content: Json)
    ensures ExtractContent(ChatReply(content)) == Ok(content)
  {
    var m := JObj(map["message" := JObj(map["content" := content])]);
    assert Get(ChatReply(content), "choices", JNull) == Some(JArr([m]));
  }

  /** The text of a Gemini reply reaches the parser unchanged. */
  lemma GeminiContentRoundTrip(text: Json)
    ensures ExtractContent(ChatReply(GeminiText(GeminiReply(text)))) == Ok(text)
  {
    GeminiTextRead(text);
    ContentOfChatReply(text);
  }

  /** A reply without choices, or with an empty list of them, reads as the
      empty text. */
  lemma ContentWithoutChoices(raw: Json)
    requires raw.JObj? && ("choices" !in raw.fields || !Truthy(raw.fields["choices"]))
    ensures ExtractContent(raw) == Ok(JStr(""))
  {
  }

  // ------------------------------------------------------------------
  // The palm vision path

  /** The MIME type guessed from the Telegram file path. */
  function MimeFor(filePath: string): (r: string)
    ensures r in {"image/png", "image/webp", "image/jpeg"}
  {
    var lp := Lower(filePath);
    if EndsWith(lp, ".png") then "image/png"
    else if EndsWith(lp, ".webp") then "image/webp"
    else "image/jpeg"
  }

  lemma LowerConcat(a: string, b: string)
    ensures Lower(a + b) == Lower(a) + Lower(b)
  {
    assert forall i :: 0 <= i < |a| ==> (a + b)[i] == a[i];
    assert forall i :: |a| <= i < |a + b| ==> (a + b)[i] == b[i - |a|];
  }

  /** A ".png" extension, in either letter case, gives "image/png". */
  lemma PngMime(stem: string)
    ensures MimeFor(stem + ".PNG") == "image/png" && MimeFor(stem + ".png") == "image/png"
  {
    LowerConcat(stem, ".PNG");
    LowerConcat(stem, ".png");
    assert Lower(".PNG") == ".png" && Lower(".png") == ".png";
    var t := Lower(stem) + ".png";
    assert t[|t| - 4..] == ".png";
  }

  /** A ".webp" extension, in either letter case, gives "image/webp". */
  lemma WebpMime(stem: string)
    ensures MimeFor(stem + ".WebP") == "image/webp" && MimeFor(stem + ".webp") == "image/webp"
  {
    LowerConcat(stem, ".WebP");
    LowerConcat(stem, ".webp");
    assert Lower(".WebP") == ".webp" && Lower(".webp") == ".webp";
    var t := Lower(stem) + ".webp";
    assert t[|t| - 4..] == "webp";
    assert t[|t| - 5..] == ".webp";
  }

  /** Any other extension gives "image/jpeg". */
  lemma JpegMime(stem: string)
    ensures MimeFor(stem + ".jpg") == "image/jpeg"
  {
    LowerConcat(stem, ".jpg");
    assert Lower(".jpg") == ".jpg";
    var t := Lower(stem) + ".jpg";
    assert t[|t| - 4..] == ".jpg";
  }

  /** `_download_telegram_file_as_data_url`: `info` answers `getFile`, `file`
      answers the download, `base64` stands for the encoding of the downloaded
      bytes. `None` on any failure. */
  function DownloadDataUrl(info: Outcome, file: Outcome, base64: string): (r: Option<string>)
    ensures r.Some? <==> FilePath(info).Some? && file.Response? && Is2xx(file.status)
    ensures r.Some? ==> r.value == "data:" + MimeFor(FilePath(info).value) + ";base64," + base64
  {
    var path := FilePath(info);
    if path.None? then None
    else if !file.Response? || !Is2xx(file.status) then None
    else Some("data:" + MimeFor(path.value) + ";base64," + base64)
  }

  /** `info.json().get("result", {}).get("file_path")` after a 2xx `getFile`,
      when it is a non-empty string; `None` when the request failed, a step
      raises or the path is empty (a path that is not a string would make
      `.lower()` raise later, with the same outcome). */
  function FilePath(info: Outcome): (r: Option<string>)
    ensures r.Some? ==> Succeeded(info) && r.value != []
    ensures r.Some? <==> Succeeded(info) && info.body.value.JObj? && "result" in info.body.value.fields
                         && info.body.value.fields["result"].JObj? && "file_path" in info.body.value.fields["result"].fields
                         && info.body.value.fields["result"].fields["file_path"].JStr?
                         && info.body.value.fields["result"].fields["file_path"].s != []
    ensures r.Some? ==> JStr(r.value) == info.body.value.fields["result"].fields["file_path"]
  {
    if !Succeeded(info) then None
    else
      var path := GetThen(Get(info.body.value, "result", EmptyObject), "file_path", JNull);
      if path.None? || !path.value.JStr? || path.value.s == [] then None
      else Some(path.value.s)
  }

  /** A `getFile` answer naming `path`, then a successful download, give the
      data URL of the downloaded bytes with the MIME type the path implies. */
  lemma DownloadOfGetFile(status: int, text: string, path: string, file: Outcome, base64: string)
    requires Is2xx(status) && path != []
    requires file.Response? && Is2xx(file.status)
    ensures var info := Response(status, text, Ok(JObj(map["ok" := JBool(true), "result" := JObj(map["file_path" := JStr(path)])])));
            DownloadDataUrl(info, file, base64) == Some("data:" + MimeFor(path) + ";base64," + base64)
  {
  }

  /** A failed `getFile`, or one without a path, downloads nothing. */
  lemma DownloadNeedsPath(info: Outcome, file: Outcome, base64: string)
    requires Rejected(info) || (Succeeded(info) && info.body.value == JObj(map["ok" := JBool(true), "result" := EmptyObject]))
    ensures DownloadDataUrl(info, file, base64).None?
  {
  }

  /** The vision settings: `PALM_VISION`, `VISION_PROVIDER`, whether
      `MISTRAL_API_KEY` is set, and `MISTRAL_VISION_MODEL`. */
  datatype VisionConfig = VisionConfig(enabled: bool, provider: string, mistralKey: bool, model: string)

  /** The gate in front of the vision path. */
  predicate VisionEligible(cfg: VisionConfig, fileId: Option<string>) {
    cfg.enabled && fileId.Some? && fileId.value != [] && cfg.provider == "mistral" && cfg.mistralKey
  }

  /** The vision path of `generate_and_send_palm_report`: the report when the
      gate is open, the image downloaded, the vision request succeeded and its
      content parsed to a non-empty value; `None` sends the bot down the
      text-only path. */
  function VisionReport(cfg: VisionConfig, fileId: Option<string>, dataUrl: Option<string>,
                        reply: Outcome, parse: string -> Option<Json>): (r: Option<Json>)
    ensures r.Some? ==> VisionEligible(cfg, fileId) && dataUrl.Some? && dataUrl.value != [] && Truthy(r.value)
    ensures r.Some? ==> Succeeded(reply)
  {
    if !VisionEligible(cfg, fileId) || dataUrl.None? || dataUrl.value == [] || !Succeeded(reply) then None
    else match ExtractContent(reply.body.value)
      case Err(_) => None
      case Ok(content) =>
        var report := TryParseJsonFromText(content, parse);
        if Truthy(report) then Some(report) else None
  }

  /** A vision reply in the chat shape whose content parses to a non-empty
      value is the report. */
  lemma VisionReportOfReply(cfg: VisionConfig, fileId: Option<string>, dataUrl: string, reply: Outcome,
                            content: string, parse: string -> Option<Json>, report: Json)
    requires VisionEligible(cfg, fileId) && dataUrl != []
    requires reply.Response? && Is2xx(reply.status) && reply.body == Ok(ChatReply(JStr(content)))
    requires report == TryParseJsonFromText(JStr(content), parse) && Truthy(report)
    ensures VisionReport(cfg, fileId, Some(dataUrl), reply, parse) == Some(report)
  {
    ContentOfChatReply(JStr(content));
  }
}
