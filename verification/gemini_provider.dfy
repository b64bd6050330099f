/** The Gemini provider (core/providers/gemini_provider.py): input validation, the conversion of the
    chat into a history and a system instruction, the last-message rule, and how replies and SDK
    exceptions become a string or None. */
module GeminiProvider {
  import opened Wrappers
  import opened PyStrings
  import opened ProviderBase
  import Retry

  datatype Gemini = Gemini(apiKey: string, model: string, baseUrl: Option<string>, timeout: real)

  /** One history entry, `{"role": role, "parts": [content]}`. */
  datatype Turn = Turn(role: string, content: string)

  /** The history entry one message contributes: user turns stay "user", assistant turns become
      "model", every other role contributes none. */
  function TurnOf(m: ChatMessage): (t: seq<Turn>)
    ensures |t| <= 1
  {
    if m.role == "user" then [Turn("user", m.content)]
    else if m.role == "assistant" then [Turn("model", m.content)]
    else []
  }

  /** What one message adds to the system instruction: a system content followed by a blank line. */
  function InstructionOf(m: ChatMessage): string {
    if m.role == "system" then m.content + "\n\n" else ""
  }

  /** The history the loop over the messages builds. */
  function History(messages: seq<ChatMessage>): (h: seq<Turn>)
    ensures |h| <= |messages|
    ensures forall i :: 0 <= i < |h| ==> h[i].role in {"user", "model"}
    decreases |messages|
  {
    if messages == [] then []
    else History(messages[..|messages| - 1]) + TurnOf(messages[|messages| - 1])
  }

  /** The system instruction the same loop builds. */
  function Instruction(messages: seq<ChatMessage>): string
    decreases |messages|
  {
    if messages == [] then ""
    else Instruction(messages[..|messages| - 1]) + InstructionOf(messages[|messages| - 1])
  }

  /** The conversion works message by message and keeps the order: converting a concatenation
      concatenates the histories. */
  lemma {:induction false} HistoryAppend(a: seq<ChatMessage>, b: seq<ChatMessage>)
    ensures History(a + b) == History(a) + History(b)
    decreases |b|
  {
    if b == [] {
      assert a + b == a;
    } else {
      var b' := b[..|b| - 1];
      assert (a + b)[..|a + b| - 1] == a + b';
      assert (a + b)[|a + b| - 1] == b[|b| - 1];
      HistoryAppend(a, b');
      var x := TurnOf(b[|b| - 1]);
      calc {
        History(a + b);
        History(a + b') + x;
        (History(a) + History(b')) + x;
        History(a) + (History(b') + x);
        History(a) + History(b);
      }
    }
  }

  /** Likewise the instruction: the system contents in order, each followed by a blank line. */
  lemma {:induction false} InstructionAppend(a: seq<ChatMessage>, b: seq<ChatMessage>)
    ensures Instruction(a + b) == Instruction(a) + Instruction(b)
    decreases |b|
  {
    if b == [] {
      assert a + b == a;
    } else {
      var b' := b[..|b| - 1];
      assert (a + b)[..|a + b| - 1] == a + b';
      assert (a + b)[|a + b| - 1] == b[|b| - 1];
      InstructionAppend(a, b');
      var x := InstructionOf(b[|b| - 1]);
      calc {
        Instruction(a + b);
        Instruction(a + b') + x;
        (Instruction(a) + Instruction(b')) + x;
        Instruction(a) + (Instruction(b') + x);
        Instruction(a) + Instruction(b);
      }
    }
  }

  /** A single message converts to its own turn and instruction part. */
  lemma ConvertOne(m: ChatMessage)
    ensures History([m]) == TurnOf(m) && Instruction([m]) == InstructionOf(m)
  {
    assert [m][..0] == [];
  }

  function LastTurn(h: seq<Turn>): Option<Turn> {
    if h == [] then None else Some(h[|h| - 1])
  }

  /** What is handed to the SDK: the model, the instruction (None when empty), the history without
      its last turn, and the last turn's text as the prompt. */
  datatype Request = Request(model: string, systemInstruction: Option<string>, history: seq<Turn>,
                             prompt: string, temperature: real, maxTokens: int)

  /** The checks before any request: None when `generate_content` returns before calling the SDK. */
  function Prepare(g: Gemini, messages: seq<ChatMessage>, temperature: real, maxTokens: int): (r: Option<Request>)
    ensures Strip(g.apiKey) == "" || Strip(g.model) == "" || messages == [] ==> r.None?
    ensures r.Some? <==>
      && Strip(g.apiKey) != "" && Strip(g.model) != "" && messages != []
      && LastTurn(History(messages)).Some? && LastTurn(History(messages)).value.role == "user"
    ensures r.Some? ==> r.value.history + [Turn("user", r.value.prompt)] == History(messages)
    ensures r.Some? ==> r.value.model == g.model
    ensures r.Some? ==> r.value.systemInstruction == if Instruction(messages) == "" then None else Some(Instruction(messages))
  {
    if Strip(g.apiKey) == "" || Strip(g.model) == "" || messages == [] then None
    else
      var history := History(messages);
      var system := Instruction(messages);
      if history == [] then None
      else
        var last := history[|history| - 1];
        if last.role != "user" then None
        else
          assert history == history[..|history| - 1] + [Turn("user", last.content)];
          Some(Request(g.model, if system == "" then None else Some(system), history[..|history| - 1],
                       last.content, temperature, maxTokens))
  }

  /** The exceptions an attempt can raise, by the class the retry set tests. */
  datatype GeminiExc =
    | ServiceUnavailable
    | DeadlineExceeded
    | ResourceExhausted
    | ConnectionErr
    | TimeoutErr
    | ValueErr     // missing or empty response text
    | OtherError

  /** The retryable set: the three transient Google API errors, connection errors and timeouts. */
  predicate Retryable(e: GeminiExc) {
    !(e.ValueErr? || e.OtherError?)
  }

  /** `max_attempts=3, base_delay=1.0, max_delay=30.0`, the default exponential base 2. */
  const POLICY: Retry.Policy := Retry.Policy(3, 1.0, 30.0, 2.0)

  /** What `send_message` gave: a response whose text is a string (a falsy response reads as ""),
      a response whose text is not a string (None), or an exception. */
  datatype SdkOutcome = Answer(text: Option<string>) | Failed(error: GeminiExc)

  /** A non-empty text with no whitespace at either end, as `strip` leaves a non-empty string. */
  predicate Stripped(s: string) {
    s != "" && !IsSpace(s[0]) && !IsSpace(s[|s| - 1])
  }

  /** One `_do_request`: a missing or (after stripping) empty text raises ValueError. */
  function Attempt(o: SdkOutcome): (r: Retry.Outcome<string, GeminiExc>)
    ensures r.Returned? ==> o.Answer? && o.text.Some? && r.value == Strip(o.text.value) && Stripped(r.value)
    ensures o.Answer? && (o.text.None? || Strip(o.text.value) == "") ==> r == Retry.Raised(ValueErr)
    ensures o.Failed? ==> r == Retry.Raised(o.error)
  {
    match o
    case Failed(e) => Retry.Raised(e)
    case Answer(text) =>
      if text.None? then Retry.Raised(ValueErr)
      else
        var t := Strip(text.value);
        if t == "" then Retry.Raised(ValueErr) else Retry.Returned(t)
  }

  /** `generate_content`. `sdk(req, k)` is what the k-th request for `req` gives. Every exception,
      the retry error included, ends in None. Also returns the number of requests made. */
  function GenerateContent(g: Gemini, messages: seq<ChatMessage>, temperature: real, maxTokens: int,
                           sdk: (Request, nat) -> SdkOutcome): (r: (Option<string>, nat))
    ensures r.1 <= 3
    ensures Prepare(g, messages, temperature, maxTokens).None? ==> r == (None, 0)
  {
    match Prepare(g, messages, temperature, maxTokens)
    case None => (None, 0)
    case Some(req) => Send(req, sdk)
  }

  /** The retried request for a prepared `req`: the reply when an attempt returns one, None for every
      exception, and the number of requests made. */
  function Send(req: Request, sdk: (Request, nat) -> SdkOutcome): (r: (Option<string>, nat))
    ensures 1 <= r.1 <= 3
  {
    var run := Retry.RetryCall(POLICY, Retryable, k => Attempt(sdk(req, k)));
    var reply := if run.result.Value? then Some(run.result.value) else None;
    (reply, run.calls)
  }

  /** Whatever the SDK does, a reply that comes back is non-empty and stripped. */
  lemma ReplyAlwaysStripped(g: Gemini, messages: seq<ChatMessage>, temperature: real, maxTokens: int,
                            sdk: (Request, nat) -> SdkOutcome)
    ensures var r := GenerateContent(g, messages, temperature, maxTokens, sdk); r.0.Some? ==> Stripped(r.0.value)
  {
    match Prepare(g, messages, temperature, maxTokens)
    case None =>
    case Some(req) =>
      var call := k => Attempt(sdk(req, k));
      Retry.ResultOrigin(POLICY, Retryable, call, 1);
      var run := Retry.RetryCall(POLICY, Retryable, call);
      if run.result.Value? {
        var k :| 1 <= k <= 3 && call(k) == Retry.Returned(run.result.value);
        assert Attempt(sdk(req, k)).Returned?;
      }
  }

  /** A system prompt and a user message: the instruction is the prompt plus a blank line, the
      history is empty and the user's text is the prompt. */
  lemma SystemThenUser(g: Gemini, system: string, user: string, temperature: real, maxTokens: int)
    requires Strip(g.apiKey) != "" && Strip(g.model) != ""
    ensures Prepare(g, [ChatMessage("system", system), ChatMessage("user", user)], temperature, maxTokens)
      == Some(Request(g.model, Some(system + "\n\n"), [], user, temperature, maxTokens))
  {
    var ms := [ChatMessage("system", system), ChatMessage("user", user)];
    ConvertOne(ms[0]);
    ConvertOne(ms[1]);
    HistoryAppend([ms[0]], [ms[1]]);
    InstructionAppend([ms[0]], [ms[1]]);
    assert ms == [ms[0]] + [ms[1]];
    assert History(ms) == [Turn("user", user)];
    assert Instruction(ms) == system + "\n\n" + "";
    assert system + "\n\n" + "" == system + "\n\n";
  }

  /** A chat that ends with the assistant (or has only system and unknown roles) is never sent. */
  lemma LastMustBeUser(g: Gemini, messages: seq<ChatMessage>, reply: string, temperature: real, maxTokens: int,
                       sdk: (Request, nat) -> SdkOutcome)
    ensures GenerateContent(g, messages + [ChatMessage("assistant", reply)], temperature, maxTokens, sdk) == (None, 0)
  {
    var m := ChatMessage("assistant", reply);
    ConvertOne(m);
    HistoryAppend(messages, [m]);
  }

  /** `generate_content` on a chat that passes the checks is the retried request for it. */
  lemma Sends(g: Gemini, messages: seq<ChatMessage>, temperature: real, maxTokens: int,
              sdk: (Request, nat) -> SdkOutcome, req: Request)
    requires Prepare(g, messages, temperature, maxTokens) == Some(req)
    ensures GenerateContent(g, messages, temperature, maxTokens, sdk) == Send(req, sdk)
  {
  }

  /** The reply is returned stripped after one request. */
  lemma ReplyStripped(req: Request, sdk: (Request, nat) -> SdkOutcome, text: string)
    requires sdk(req, 1) == Answer(Some(text))
    requires Strip(text) != ""
    ensures Send(req, sdk) == (Some(Strip(text)), 1)
  {
    assert Attempt(sdk(req, 1)) == Retry.Returned(Strip(text));
  }

  /** An empty or whitespace-only reply raises ValueError, which is not retried: one request, None. */
  lemma EmptyReplyNone(req: Request, sdk: (Request, nat) -> SdkOutcome)
    requires sdk(req, 1).Answer? && (sdk(req, 1).text.None? || Strip(sdk(req, 1).text.value) == "")
    ensures Send(req, sdk) == (None, 1)
  {
    assert Attempt(sdk(req, 1)) == Retry.Raised(ValueErr);
  }

  /** Three transient failures in a row: three requests, then None. */
  lemma ExhaustedGivesNone(req: Request, sdk: (Request, nat) -> SdkOutcome)
    requires forall k :: 1 <= k <= 3 ==> sdk(req, k).Failed? && Retryable(sdk(req, k).error)
    ensures Send(req, sdk) == (None, 3)
  {
    Retry.Exhausted(POLICY, Retryable, k => Attempt(sdk(req, k)), 1);
  }
}
