/**
 * The backend client: request construction for the two backend shapes (Ollama's
 * `/api/generate` and the OpenAI-style `/v1/chat/completions` served by LM Studio),
 * the bounded retry loop of `generate_response`, normalisation of both response shapes
 * into one result record, the line filter of `stream_response`, and the model-list
 * lookups.
 *
 * The network is replaced by its outcomes: each POST or GET is an `Outcome` supplied
 * by the caller, in attempt order, and every `time.sleep` becomes an entry of a list
 * of delays in seconds.
 */
module OllamaClient {
  import opened Common
  import opened Json

  /* ---------------------------------------------------------------- client state */

  function BaseUrl(host: string, port: string): string
  {
    "http://" + host + ":" + port
  }

  /** The client object: its base URL (which only `set_base_url` changes) and the POST timeout. */
  class Client {
    var baseUrl: string
    var timeout: nat

    constructor ()
      ensures baseUrl == BaseUrl("localhost", "11434")
      ensures timeout == 300
    {
      baseUrl := BaseUrl("localhost", "11434");
      timeout := 300;
    }

    method SetBaseUrl(host: string, port: string)
      modifies this
      ensures baseUrl == BaseUrl(host, port)
      ensures timeout == old(timeout)
    {
      baseUrl := BaseUrl(host, port);
    }
  }

  /* ------------------------------------------------------------ request payloads */

  /** The arguments of `generate_response` that shape the request. */
  datatype GenRequest = GenRequest(
    prompt: string,
    systemPrompt: Option<string>,
    model: string,
    host: string,
    port: string,
    temperature: Float,
    maxTokens: int,
    stream: bool,
    provider: string)

  /** Only the exact provider name "Ollama" selects the Ollama API; every other name means LM Studio. */
  predicate IsOllama(provider: string)
  {
    provider == "Ollama"
  }

  const TopP: Float := Float("0.9")
  const TopK: int := 40
  const RepeatPenalty: Float := Float("1.1")

  datatype Options = Options(
    temperature: Float,
    topP: Float,
    topK: int,
    repeatPenalty: Float,
    numPredict: int,
    numCtx: int)

  datatype ChatMessage = ChatMessage(role: string, content: string)

  datatype Payload =
    | GeneratePayload(model: string, prompt: string, stream: bool, options: Options)
    | ChatPayload(
        model: string,
        messages: seq<ChatMessage>,
        stream: bool,
        temperature: Float,
        maxTokens: int,
        topP: Float,
        topK: int,
        repeatPenalty: Float)

  /** A POST: its URL and its JSON body. */
  datatype Post = Post(url: string, payload: Payload)

  /**
   * The prompt Ollama receives: the bare prompt, or the system prompt and the prompt
   * joined under "System: " and "User: " headers when a non-empty system prompt is given.
   */
  function FullPrompt(prompt: string, systemPrompt: Option<string>): string
  {
    if IsTruthy(systemPrompt) then "System: " + systemPrompt.value + "\n\nUser: " + prompt else prompt
  }

  /**
   * The prompt always ends with the caller's prompt; it is that prompt alone exactly when
   * no non-empty system prompt is given, and otherwise it is the "System: " header, the
   * system prompt, the "\n\nUser: " header and the prompt, in that order.
   */
  lemma FullPromptShape(prompt: string, systemPrompt: Option<string>)
    ensures var r := FullPrompt(prompt, systemPrompt);
      |prompt| <= |r| && r[|r| - |prompt|..] == prompt
      && (r == prompt <==> !IsTruthy(systemPrompt))
      && (IsTruthy(systemPrompt) ==>
            var sp := systemPrompt.value;
            |r| == |sp| + |prompt| + 16 && r[..8] == "System: " && r[8..8 + |sp|] == sp
            && r[8 + |sp|..8 + |sp| + 8] == "\n\nUser: ")
  {
  }

  /** The chat message list of the LM Studio request: an optional system message, then the user message. */
  function ChatMessages(prompt: string, systemPrompt: Option<string>): seq<ChatMessage>
  {
    (if IsTruthy(systemPrompt) then [ChatMessage("system", systemPrompt.value)] else [])
    + [ChatMessage("user", prompt)]
  }

  /**
   * Two messages (system, then user) when a non-empty system prompt is given, one otherwise;
   * the last is always the user's prompt.
   */
  lemma ChatMessagesShape(prompt: string, systemPrompt: Option<string>)
    ensures var msgs := ChatMessages(prompt, systemPrompt);
      |msgs| == (if IsTruthy(systemPrompt) then 2 else 1)
      && msgs[|msgs| - 1] == ChatMessage("user", prompt)
      && (IsTruthy(systemPrompt) ==> msgs[0] == ChatMessage("system", systemPrompt.value))
  {
  }

  /** The POST that every attempt of `generate_response` sends. */
  function BuildPost(req: GenRequest): (p: Post)
    ensures p.payload.GeneratePayload? <==> IsOllama(req.provider)
    ensures p.payload.model == req.model && p.payload.stream == req.stream
    ensures IsOllama(req.provider) ==>
      p.url == BaseUrl(req.host, req.port) + "/api/generate"
      && p.payload.prompt == FullPrompt(req.prompt, req.systemPrompt)
      && p.payload.options == Options(req.temperature, TopP, TopK, RepeatPenalty, req.maxTokens, 8192)
    ensures !IsOllama(req.provider) ==>
      p.url == BaseUrl(req.host, req.port) + "/v1/chat/completions"
      && p.payload.messages == ChatMessages(req.prompt, req.systemPrompt)
      && p.payload.temperature == req.temperature && p.payload.maxTokens == req.maxTokens
      && p.payload.topP == TopP && p.payload.topK == TopK && p.payload.repeatPenalty == RepeatPenalty
  {
    if IsOllama(req.provider) then
      Post(BaseUrl(req.host, req.port) + "/api/generate",
           GeneratePayload(req.model, FullPrompt(req.prompt, req.systemPrompt), req.stream,
                           Options(req.temperature, TopP, TopK, RepeatPenalty, req.maxTokens, 8192)))
    else
      Post(BaseUrl(req.host, req.port) + "/v1/chat/completions",
           ChatPayload(req.model, ChatMessages(req.prompt, req.systemPrompt), req.stream,
                       req.temperature, req.maxTokens, TopP, TopK, RepeatPenalty))
  }

  /* ---------------------------------------------------------------- HTTP outcomes */

  /** The body of a reply: `response.json()` either fails with a decoder message or yields a value. */
  datatype Body = Unparsable(error: string) | Parsed(value: Json)

  /**
   * What one HTTP call did: a reply with its status, its text and its body, or one of the
   * exceptions `requests` raises (each with its `str(e)`).
   */
  datatype Outcome =
    | Reply(status: nat, text: string, body: Body)
    | Timeout(message: string)
    | ConnError(message: string)
    | Other(message: string)

  /* ---------------------------------------------------------------- normalisation */

  /** The dict `generate_response` returns; each field holds whatever value the body held. */
  datatype GenResult = GenResult(response: Json, tokens: Json, evalCount: Json, promptTokens: Json)

  const NoResponse: Json := JStr("No response generated")

  /** Reading an Ollama `/api/generate` body; `Err` carries the text of the exception raised. */
  function ExtractOllama(data: Json): (r: Result<GenResult>)
    ensures r.Ok? ==> data.JObj?
  {
    var text :- Get(data, "response", NoResponse);
    var evalCount :- Get(data, "eval_count", JInt(0));
    var promptEvalCount :- Get(data, "prompt_eval_count", JInt(0));
    var total :- Add(evalCount, promptEvalCount);
    if !HasLen(text) then Err(LenError(text))
    else Ok(GenResult(text, total, evalCount, promptEvalCount))
  }

  /** Reading an OpenAI-style `/v1/chat/completions` body; `Err` carries the text of the exception raised. */
  function ExtractLmStudio(data: Json): (r: Result<GenResult>)
    ensures r.Ok? ==> data.JObj?
  {
    var choices :- Get(data, "choices", JList([EmptyObj]));
    var first :- First(choices);
    var message :- Get(first, "message", EmptyObj);
    var text :- Get(message, "content", NoResponse);
    var usage :- Get(data, "usage", EmptyObj);
    var total :- Get(usage, "total_tokens", JInt(0));
    if !HasLen(text) then Err(LenError(text))
    else
      var completion :- Get(usage, "completion_tokens", JInt(0));
      var promptTokens :- Get(usage, "prompt_tokens", JInt(0));
      Ok(GenResult(text, total, completion, promptTokens))
  }

  /** Reading the body of a 200 reply according to the provider. */
  function Extract(provider: string, body: Body): (r: Result<GenResult>)
    ensures body.Unparsable? ==> r == Err(body.error)
  {
    match body
    case Unparsable(error) => Err(error)
    case Parsed(data) => if IsOllama(provider) then ExtractOllama(data) else ExtractLmStudio(data)
  }

  /** The value under `key` in a dict, or `default` when the key is absent. */
  function FieldOr(m: map<string, Json>, key: string, default: Json): Json
  {
    if key in m then m[key] else default
  }

  /** `key` is absent or holds an integer. */
  predicate OptionalInt(m: map<string, Json>, key: string)
  {
    key in m ==> m[key].JInt?
  }

  /** The integer under `key`, 0 when absent. */
  function IntOr0(m: map<string, Json>, key: string): int
    requires OptionalInt(m, key)
  {
    if key in m then m[key].i else 0
  }

  /**
   * An Ollama body whose counters are integers (or absent) normalises to its `response`
   * (default "No response generated"), `eval_count + prompt_eval_count` tokens, and the two
   * counters, each defaulting to 0.
   */
  lemma OllamaNormalisation(m: map<string, Json>)
    requires OptionalInt(m, "eval_count") && OptionalInt(m, "prompt_eval_count")
    requires "response" in m ==> m["response"].JStr?
    ensures ExtractOllama(JObj(m)) == Ok(GenResult(
      FieldOr(m, "response", NoResponse),
      JInt(IntOr0(m, "eval_count") + IntOr0(m, "prompt_eval_count")),
      JInt(IntOr0(m, "eval_count")),
      JInt(IntOr0(m, "prompt_eval_count"))))
  {
  }

  /** The example reply `{"response": "hi", "eval_count": 2, "prompt_eval_count": 1}`. */
  lemma OllamaExample()
    ensures ExtractOllama(JObj(map["response" := JStr("hi"), "eval_count" := JInt(2), "prompt_eval_count" := JInt(1)]))
         == Ok(GenResult(JStr("hi"), JInt(3), JInt(2), JInt(1)))
  {
    var m := map["response" := JStr("hi"), "eval_count" := JInt(2), "prompt_eval_count" := JInt(1)];
    OllamaNormalisation(m);
  }

  /**
   * An OpenAI-style body whose first choice carries a text message normalises to that text,
   * with `tokens`, `eval_count` and `prompt_tokens` taken from `usage.total_tokens`,
   * `usage.completion_tokens` and `usage.prompt_tokens`, each defaulting to 0.
   */
  lemma LmStudioNormalisation(m: map<string, Json>, choice: map<string, Json>, message: map<string, Json>,
                              rest: seq<Json>, usage: map<string, Json>, text: string)
    requires "choices" in m && m["choices"] == JList([JObj(choice)] + rest)
    requires "message" in choice && choice["message"] == JObj(message)
    requires "content" in message && message["content"] == JStr(text)
    requires FieldOr(m, "usage", EmptyObj) == JObj(usage)
    ensures ExtractLmStudio(JObj(m)) == Ok(GenResult(
      JStr(text),
      FieldOr(usage, "total_tokens", JInt(0)),
      FieldOr(usage, "completion_tokens", JInt(0)),
      FieldOr(usage, "prompt_tokens", JInt(0))))
  {
  }

  /** An empty `choices` list makes the extraction raise. */
  lemma LmStudioEmptyChoicesFails(m: map<string, Json>)
    requires "choices" in m && m["choices"] == JList([])
    ensures ExtractLmStudio(JObj(m)) == Err("list index out of range")
  {
  }

  /* ---------------------------------------------------------------- one attempt */

  /** The four handlers of `generate_response`, each with its own back-off. */
  datatype FailureClass = BadStatus | TimedOut | ConnectionFailed | Unexpected

  datatype Attempt = Succeeded(result: GenResult) | Failed(cls: FailureClass, message: string)

  /** Seconds slept after a failed attempt that is not the last one. */
  function Backoff(cls: FailureClass): (secs: nat)
    ensures secs == 2 <==> cls == BadStatus || cls == Unexpected
    ensures cls == TimedOut ==> secs == 3
    ensures cls == ConnectionFailed ==> secs == 5
  {
    match cls
    case BadStatus => 2
    case TimedOut => 3
    case ConnectionFailed => 5
    case Unexpected => 2
  }

  /** The name of the backend in the connection-error text. */
  function ProviderName(provider: string): string
  {
    if IsOllama(provider) then "Ollama" else "LM Studio"
  }

  /** "k/n" with the 1-based attempt number. */
  function AttemptLabel(attempt: nat, maxRetries: nat): string
  {
    NatToString(attempt + 1) + "/" + NatToString(maxRetries)
  }

  /** What attempt number `attempt` (0-based) of `maxRetries` makes of its outcome. */
  function RunAttempt(req: GenRequest, attempt: nat, maxRetries: nat, outcome: Outcome): (a: Attempt)
    requires attempt < maxRetries
    ensures a.Succeeded? <==> outcome.Reply? && outcome.status == 200 && Extract(req.provider, outcome.body).Ok?
    ensures a.Succeeded? ==> a.result == Extract(req.provider, outcome.body).value
    ensures a.Failed? ==>
      (a.cls == BadStatus <==> outcome.Reply? && outcome.status != 200)
      && (a.cls == TimedOut <==> outcome.Timeout?)
      && (a.cls == ConnectionFailed <==> outcome.ConnError?)
  {
    var tag := AttemptLabel(attempt, maxRetries);
    match outcome
    case Reply(status, text, body) =>
      if status == 200 then
        match Extract(req.provider, body)
        case Ok(r) => Succeeded(r)
        case Err(e) => Failed(Unexpected, "Unexpected error (attempt " + tag + "): " + e)
      else
        Failed(BadStatus, "API request failed with status " + NatToString(status) + ": " + text)
    case Timeout(_) =>
      Failed(TimedOut, "Request timed out (attempt " + tag
                       + "). The model might be taking too long to respond.")
    case ConnError(_) =>
      Failed(ConnectionFailed, "Connection error (attempt " + tag + "). Please check if "
                               + ProviderName(req.provider) + " is running.")
    case Other(e) =>
      Failed(Unexpected, "Unexpected error (attempt " + tag + "): " + e)
  }

  /** The failure record returned when the last attempt fails. */
  function ErrorResult(message: string): GenResult
  {
    GenResult(JStr("Error: " + message), JInt(0), JInt(0), JInt(0))
  }

  /** A result whose text starts with "Error: " and whose three counters are 0. */
  predicate IsErrorResult(r: GenResult)
  {
    r.response.JStr? && StartsWith(r.response.s, "Error: ")
    && r.tokens == JInt(0) && r.evalCount == JInt(0) && r.promptTokens == JInt(0)
  }

  /** What `generate_response` returns when it stops at attempt `a`. */
  function Conclude(a: Attempt): (r: GenResult)
    ensures a.Failed? ==> IsErrorResult(r)
    ensures a.Succeeded? ==> r == a.result
  {
    match a
    case Succeeded(r) => r
    case Failed(_, message) => ErrorResult(message)
  }

  /** A 200 reply whose body is not JSON is a failed attempt of the generic class, followed by 2 s. */
  lemma UnparsableReplyFails(req: GenRequest, attempt: nat, maxRetries: nat, text: string, error: string)
    requires attempt < maxRetries
    ensures var a := RunAttempt(req, attempt, maxRetries, Reply(200, text, Unparsable(error)));
      a.Failed? && a.cls == Unexpected && Backoff(a.cls) == 2
  {
  }

  /** The connection-error text names Ollama exactly when the provider is "Ollama". */
  lemma ConnectionErrorNamesBackend(req: GenRequest, attempt: nat, maxRetries: nat, error: string)
    requires attempt < maxRetries
    ensures var a := RunAttempt(req, attempt, maxRetries, ConnError(error));
      a.Failed? && (Contains(a.message, "Ollama") <==> IsOllama(req.provider))
  {
    var tag := AttemptLabel(attempt, maxRetries);
    var head := "Connection error (attempt " + tag + "). Please check if ";
    var tail := " is running.";
    assert RunAttempt(req, attempt, maxRetries, ConnError(error)).message
        == head + ProviderName(req.provider) + tail;
    if IsOllama(req.provider) {
      OccursInMiddle(head, "Ollama", tail);
    } else {
      DigitsLackLetterO(NatToString(attempt + 1));
      DigitsLackLetterO(NatToString(maxRetries));
      LetterOAbsent(tag, head + "LM Studio" + tail);
    }
  }

  lemma LetterOAbsent(tag: string, message: string)
    requires 'O' !in tag
    requires message == "Connection error (attempt " + tag + "). Please check if " + "LM Studio" + " is running."
    ensures !Contains(message, "Ollama")
  {
    assert 'O' !in message;
    AbsentCharRulesOutSubstring(message, "Ollama");
  }

  lemma DigitsLackLetterO(s: string)
    requires AllDigits(s)
    ensures 'O' !in s
  {
  }

  /* ---------------------------------------------------------------- the retry loop */

  /**
   * The first `|delays|` attempts all failed, and each was followed by the back-off of
   * its failure class.
   */
  predicate BackedOff(req: GenRequest, maxRetries: int, outcomes: seq<Outcome>, delays: seq<nat>)
    requires |delays| < maxRetries <= |outcomes|
  {
    forall k :: 0 <= k < |delays| ==>
      RunAttempt(req, k, maxRetries, outcomes[k]).Failed?
      && delays[k] == Backoff(RunAttempt(req, k, maxRetries, outcomes[k]).cls)
  }

  /** A further failed attempt extends the back-off record by its class's delay. */
  lemma BackedOffAgain(req: GenRequest, maxRetries: int, outcomes: seq<Outcome>, delays: seq<nat>)
    requires |delays| + 1 < maxRetries <= |outcomes|
    requires BackedOff(req, maxRetries, outcomes, delays)
    requires RunAttempt(req, |delays|, maxRetries, outcomes[|delays|]).Failed?
    ensures BackedOff(req, maxRetries, outcomes,
                      delays + [Backoff(RunAttempt(req, |delays|, maxRetries, outcomes[|delays|]).cls)])
  {
    var more := delays + [Backoff(RunAttempt(req, |delays|, maxRetries, outcomes[|delays|]).cls)];
    forall k | 0 <= k < |more|
      ensures RunAttempt(req, k, maxRetries, outcomes[k]).Failed?
      ensures more[k] == Backoff(RunAttempt(req, k, maxRetries, outcomes[k]).cls)
    {
      if k < |delays| {
        assert more[k] == delays[k];
      }
    }
  }

  /**
   * `generate_response`: up to `maxRetries` attempts, attempt `k` meeting `outcomes[k]`.
   * Returns what the function returns (`None` when the loop never runs), the POSTs sent
   * and the seconds slept between them.
   */
  method GenerateResponse(req: GenRequest, maxRetries: int, outcomes: seq<Outcome>)
    returns (result: Option<GenResult>, sent: seq<Post>, delays: seq<nat>)
    requires maxRetries <= |outcomes|
    ensures maxRetries <= 0 ==> result == None && sent == [] && delays == []
    ensures forall k :: 0 <= k < |sent| ==> sent[k] == BuildPost(req)
    ensures maxRetries > 0 ==>
      result.Some? && 1 <= |sent| <= maxRetries
      // one sleep between consecutive attempts, none after the last
      && |delays| == |sent| - 1
      // every attempt but the last failed, and was followed by its class's back-off
      && BackedOff(req, maxRetries, outcomes, delays)
      // the last attempt decides the result; stopping early means it succeeded
      && result.value == Conclude(RunAttempt(req, |sent| - 1, maxRetries, outcomes[|sent| - 1]))
      && (|sent| < maxRetries ==> RunAttempt(req, |sent| - 1, maxRetries, outcomes[|sent| - 1]).Succeeded?)
  {
    result, sent, delays := None, [], [];
    var attempt := 0;
    while attempt < maxRetries
      invariant 0 <= attempt <= if maxRetries > 0 then maxRetries - 1 else 0
      invariant |sent| == attempt && |delays| == attempt
      invariant forall k :: 0 <= k < |sent| ==> sent[k] == BuildPost(req)
      invariant maxRetries > 0 ==> BackedOff(req, maxRetries, outcomes, delays)
    {
      sent := sent + [BuildPost(req)];
      var a := RunAttempt(req, attempt, maxRetries, outcomes[attempt]);
      if a.Succeeded? {
        result := Some(a.result);
        return;
      } else if attempt < maxRetries - 1 {
        BackedOffAgain(req, maxRetries, outcomes, delays);
        delays := delays + [Backoff(a.cls)];
        attempt := attempt + 1;
      } else {
        result := Some(ErrorResult(a.message));
        return;
      }
    }
  }

  /* ---------------------------------------------------------------- streaming */

  /** The POST of `stream_response`: always Ollama's `/api/generate`, streamed, with a 2048-token context. */
  function StreamPost(prompt: string, systemPrompt: Option<string>, model: string, host: string, port: string,
                      temperature: Float, maxTokens: int): Post
  {
    Post(BaseUrl(host, port) + "/api/generate",
         GeneratePayload(model, FullPrompt(prompt, systemPrompt), true,
                         Options(temperature, TopP, TopK, RepeatPenalty, maxTokens, 2048)))
  }

  /**
   * The streaming POST is the POST `generate_response` sends to Ollama for the same
   * arguments, with `stream` forced on and the context cut from 8192 to 2048 tokens;
   * it goes to Ollama whatever provider the caller had chosen.
   */
  lemma StreamPostLikeGenerate(req: GenRequest)
    ensures var s := StreamPost(req.prompt, req.systemPrompt, req.model, req.host, req.port,
                                req.temperature, req.maxTokens);
      var g := BuildPost(req.(provider := "Ollama"));
      s.url == g.url && g.payload.GeneratePayload? && g.payload.options.numCtx == 8192
      && s.payload == g.payload.(stream := true, options := g.payload.options.(numCtx := 2048))
  {
  }

  /**
   * One line of a streamed reply as `iter_lines` delivers it: empty, not valid JSON (the
   * decoder raised), a parsed value, or a failure that escapes the loop (the connection
   * broke, or the bytes were not UTF-8).
   */
  datatype StreamLine = Blank | Malformed(error: string) | Line(data: Json) | Broken(error: string)

  /** The streamed reply: a status, its text and its lines, or the exception the POST raised. */
  datatype StreamReply = StreamReply(status: nat, text: string, lines: seq<StreamLine>) | StreamRaised(message: string)

  function ErrorFragment(message: string): Json
  {
    JStr("Error: " + message)
  }

  /** The exception a parsed line that is not a dict raises at `'response' in data` or the lines after it. */
  function NonObjectError(v: Json): string
    requires !v.JObj?
  {
    match v
    case JStr(s) =>
      if Contains(s, "response") then "string indices must be integers, not 'str'" else NoAttribute(v, "get")
    case JList(xs) =>
      if JStr("response") in xs then "list indices must be integers or slices, not str" else NoAttribute(v, "get")
    case _ => "argument of type '" + TypeName(v) + "' is not iterable"
  }

  /** The fragment a parsed dict line yields: its `response` value, when it has one. */
  function Yielded(m: map<string, Json>): seq<Json>
  {
    if "response" in m then [m["response"]] else []
  }

  /** `data.get('done', False)` is truthy. */
  predicate IsDone(m: map<string, Json>)
  {
    Truthy(FieldOr(m, "done", JBool(false)))
  }

  /** A line after which the stream yields nothing more. */
  predicate Ends(line: StreamLine)
  {
    line.Broken? || (line.Line? && (!line.data.JObj? || IsDone(line.data.fields)))
  }

  /** The fragments yielded for the lines of a 200 reply. */
  function LineFragments(lines: seq<StreamLine>): seq<Json>
    decreases |lines|
  {
    if lines == [] then []
    else
      match lines[0]
      case Blank => LineFragments(lines[1..])
      case Malformed(_) => LineFragments(lines[1..])
      case Broken(error) => [ErrorFragment(error)]
      case Line(data) =>
        if !data.JObj? then [ErrorFragment(NonObjectError(data))]
        else Yielded(data.fields) + if IsDone(data.fields) then [] else LineFragments(lines[1..])
  }

  /** Everything `stream_response` yields for a reply. */
  function StreamFragments(reply: StreamReply): seq<Json>
  {
    match reply
    case StreamRaised(message) => [ErrorFragment(message)]
    case StreamReply(status, text, lines) =>
      if status == 200 then LineFragments(lines)
      else [ErrorFragment("HTTP " + NatToString(status) + " - " + text)]
  }

  /** A reply that is not 200 yields exactly one fragment, the HTTP error. */
  lemma StreamStatusError(status: nat, text: string, lines: seq<StreamLine>)
    requires status != 200
    ensures StreamFragments(StreamReply(status, text, lines)) == [JStr("Error: HTTP " + NatToString(status) + " - " + text)]
  {
    Regroup("Error: ", "HTTP ", NatToString(status), " - ", text);
    assert "Error: " + "HTTP " == "Error: HTTP ";
  }

  /** Lines that do not end the stream contribute their fragments in order, independently of what follows. */
  lemma {:induction false} LineFragmentsAppend(p: seq<StreamLine>, rest: seq<StreamLine>)
    requires forall j :: 0 <= j < |p| ==> !Ends(p[j])
    ensures LineFragments(p + rest) == LineFragments(p) + LineFragments(rest)
  {
    if p == [] {
      assert p + rest == rest;
    } else {
      assert (p + rest)[0] == p[0];
      assert (p + rest)[1..] == p[1..] + rest;
      LineFragmentsAppend(p[1..], rest);
      if p[0].Line? {
        var y := Yielded(p[0].data.fields);
        assert y + (LineFragments(p[1..]) + LineFragments(rest))
            == (y + LineFragments(p[1..])) + LineFragments(rest);
      }
    }
  }

  /** Nothing after a line that ends the stream (a `done` line, an exception) is ever yielded. */
  lemma {:induction false} StreamStopsAtEnd(p: seq<StreamLine>, rest: seq<StreamLine>)
    requires p != [] && Ends(p[|p| - 1])
    ensures LineFragments(p + rest) == LineFragments(p)
  {
    if |p| > 1 {
      assert (p + rest)[1..] == p[1..] + rest;
      StreamStopsAtEnd(p[1..], rest);
    }
  }

  /** Empty and malformed lines are skipped: they yield nothing. */
  lemma {:induction false} SkippedLinesYieldNothing(lines: seq<StreamLine>)
    requires forall j :: 0 <= j < |lines| ==> lines[j].Blank? || lines[j].Malformed?
    ensures LineFragments(lines) == []
  {
    if lines != [] {
      SkippedLinesYieldNothing(lines[1..]);
    }
  }

  /** At most one fragment per line. */
  lemma {:induction false} LineFragmentsBound(lines: seq<StreamLine>)
    ensures |LineFragments(lines)| <= |lines|
  {
    if lines != [] {
      LineFragmentsBound(lines[1..]);
    }
  }

  /** `stream_response`: the generator's loop, collecting what it yields. */
  method StreamResponse(reply: StreamReply) returns (fragments: seq<Json>)
    ensures fragments == StreamFragments(reply)
  {
    match reply {
      case StreamRaised(message) =>
        fragments := [ErrorFragment(message)];
      case StreamReply(status, text, lines) =>
        if status != 200 {
          fragments := [ErrorFragment("HTTP " + NatToString(status) + " - " + text)];
          return;
        }
        fragments := [];
        var i := 0;
        while i < |lines|
          invariant 0 <= i <= |lines|
          invariant fragments + LineFragments(lines[i..]) == LineFragments(lines)
        {
          assert lines[i..][1..] == lines[i + 1..];
          match lines[i] {
            case Blank =>
            case Malformed(_) =>
            case Broken(error) =>
              fragments := fragments + [ErrorFragment(error)];
              return;
            case Line(data) =>
              if !data.JObj? {
                fragments := fragments + [ErrorFragment(NonObjectError(data))];
                return;
              }
              fragments := fragments + Yielded(data.fields);
              if IsDone(data.fields) {
                return;
              }
          }
          i := i + 1;
        }
    }
  }

  /* ---------------------------------------------------------------- model lists */

  /** `test_connection` / `test_lmstudio_connection`: a GET that answered 200. */
  function ConnectionOk(reply: Outcome): (ok: bool)
    ensures ok <==> reply.Reply? && reply.status == 200
  {
    match reply
    case Reply(status, _, _) => status == 200
    case _ => false
  }

  /**
   * `list_models` (key "models") and `list_lmstudio_models` (key "data"): the value under
   * `key` of a 200 reply's dict body, and `[]` for every other status, body or exception.
   */
  function ListedModels(reply: Outcome, key: string): (models: Json)
    ensures (reply.Reply? && reply.status == 200 && reply.body.Parsed? && reply.body.value.JObj?
             && key in reply.body.value.fields) ==> models == reply.body.value.fields[key]
    ensures models != JList([]) ==>
      reply.Reply? && reply.status == 200 && reply.body.Parsed? && reply.body.value.JObj?
      && key in reply.body.value.fields
  {
    match reply
    case Reply(status, _, body) =>
      if status == 200 && body.Parsed? then
        match Get(body.value, key, JList([]))
        case Ok(v) => v
        case Err(_) => JList([])
      else JList([])
    case _ => JList([])
  }

  function ListModels(reply: Outcome): (models: Json)
    ensures models != JList([]) ==> reply.Reply? && reply.status == 200
  {
    ListedModels(reply, "models")
  }

  function ListLmStudioModels(reply: Outcome): (models: Json)
    ensures models != JList([]) ==> reply.Reply? && reply.status == 200
  {
    ListedModels(reply, "data")
  }

  /** `model['name'] == name` can be evaluated: the entry is a dict with a "name" key. */
  predicate Named(model: Json)
  {
    model.JObj? && "name" in model.fields
  }

  predicate HasName(model: Json, name: string)
  {
    Named(model) && model.fields["name"] == JStr(name)
  }

  /**
   * The loop of `get_model_info` over a list: the first entry named `name`, or `{}` when
   * there is none or when an earlier entry cannot be indexed by "name" (the exception is
   * caught and `{}` returned).
   */
  function FindModel(models: seq<Json>, name: string): (r: Json)
    ensures r != EmptyObj ==> r in models && HasName(r, name)
    decreases |models|
  {
    if models == [] then EmptyObj
    else if !Named(models[0]) then EmptyObj
    else if HasName(models[0], name) then models[0]
    else FindModel(models[1..], name)
  }

  /** The `any(...)` of `check_model_availability` over a list, stopping as that generator does. */
  function ModelListed(models: seq<Json>, name: string): (listed: bool)
    ensures listed ==> exists j :: 0 <= j < |models| && HasName(models[j], name)
    decreases |models|
  {
    if models == [] then false
    else if !Named(models[0]) then false
    else HasName(models[0], name) || ModelListed(models[1..], name)
  }

  /** `get_model_info`: iterating a value that is not a list never finds a dict, so it gives `{}`. */
  function GetModelInfo(reply: Outcome, name: string): (info: Json)
    ensures info != EmptyObj ==>
      ListModels(reply).JList? && info in ListModels(reply).items && HasName(info, name)
  {
    match ListModels(reply)
    case JList(models) => FindModel(models, name)
    case _ => EmptyObj
  }

  /** `check_model_availability`: true exactly when `get_model_info` would find the model. */
  function CheckModelAvailability(reply: Outcome, name: string): (available: bool)
    ensures available <==> GetModelInfo(reply, name) != EmptyObj
  {
    match ListModels(reply)
    case JList(models) =>
      AvailableIffInfoFound(models, name);
      ModelListed(models, name)
    case _ => false
  }

  /** The two lookups agree: a model is available exactly when its info is found. */
  lemma {:induction false} AvailableIffInfoFound(models: seq<Json>, name: string)
    ensures ModelListed(models, name) <==> FindModel(models, name) != EmptyObj
  {
    if models != [] && Named(models[0]) && !HasName(models[0], name) {
      AvailableIffInfoFound(models[1..], name);
    }
  }

  /**
   * On a list whose every entry has a "name", availability is exactly the existence of an
   * entry with that name, and the info found is the first such entry.
   */
  lemma {:induction false} LookupOnNamedList(models: seq<Json>, name: string)
    requires forall j :: 0 <= j < |models| ==> Named(models[j])
    ensures ModelListed(models, name) <==> exists j :: 0 <= j < |models| && HasName(models[j], name)
    ensures forall j :: 0 <= j < |models| && HasName(models[j], name)
              && (forall k :: 0 <= k < j ==> !HasName(models[k], name))
              ==> FindModel(models, name) == models[j]
  {
    if models != [] {
      LookupOnNamedList(models[1..], name);
      if !HasName(models[0], name) {
        forall j | 0 < j < |models| && HasName(models[j], name)
          ensures HasName(models[1..][j - 1], name)
        {
        }
      }
    }
  }

  /** Both lookups read `list_models`, so a failed listing means "not available" and `{}`. */
  lemma LookupsAfterFailedListing(reply: Outcome, name: string)
    requires !reply.Reply? || reply.status != 200
    ensures GetModelInfo(reply, name) == EmptyObj && !CheckModelAvailability(reply, name)
  {
  }
}
