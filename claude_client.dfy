/**
 * The client for Claude's Messages API: default filling of a request, the
 * retry loop over transport outcomes, the checks on the reply, and the
 * extraction of a JSON document from a reply that may wrap it in a Markdown
 * code fence.
 *
 * The HTTP transport is a parameter: `transport(k)` is the outcome of the
 * k-th attempt. Sleeping is recorded as the list of pauses, in seconds.
 * The JSON library is a parameter `parse` from text to a decoded document.
 */
module ClaudeClient {

  import opened Wrappers
  import opened Strings
  import opened JsonValue
  import opened Decimal

  const DefaultMaxTokens: int := 4096
  const MaxRetries: nat := 3
  const StatusOK: int := 200
  const StatusTooManyRequests: int := 429

  datatype Message = Message(role: string, content: string)

  datatype MessageRequest = MessageRequest(
    model: string,
    maxTokens: int,
    messages: seq<Message>,
    system: string,
    temperature: real)

  datatype ContentBlock = ContentBlock(kind: string, text: string)

  datatype Usage = Usage(inputTokens: int, outputTokens: int)

  datatype MessageResponse = MessageResponse(
    id: string,
    kind: string,
    role: string,
    content: seq<ContentBlock>,
    model: string,
    stopReason: string,
    stopSequence: string,
    usage: Usage)

  /** The errors the client reports; `APIError` and `Timeout` carry the wrapped detail. */
  datatype ClaudeError =
    | RateLimitExceeded
    | APIError(detail: string)
    | Timeout(cause: string)
    | EmptyResponse
    | ResponseUnparsable
    | JsonUnparsable

  /** What one HTTP attempt gives: a transport error, or a status and a body. */
  datatype Attempt = TransportFailed(reason: string) | Answered(status: int, body: string)

  // ---------------------------------------------------------------------------
  // Request defaults
  // ---------------------------------------------------------------------------

  /** The request with an empty model replaced by the client's and a zero token limit by 4096. */
  function WithDefaults(req: MessageRequest, clientModel: string): (r: MessageRequest)
    ensures r.maxTokens != 0 && (req.maxTokens != 0 ==> r.maxTokens == req.maxTokens)
    ensures req.maxTokens == 0 ==> r.maxTokens == DefaultMaxTokens
    ensures req.model != "" ==> r.model == req.model
    ensures req.model == "" ==> r.model == clientModel
    ensures r.messages == req.messages && r.system == req.system && r.temperature == req.temperature
  {
    req.(model := if req.model == "" then clientModel else req.model,
         maxTokens := if req.maxTokens == 0 then DefaultMaxTokens else req.maxTokens)
  }

  // ---------------------------------------------------------------------------
  // The retry loop
  // ---------------------------------------------------------------------------

  /** An attempt that is tried again: a transport error or a 429 status. */
  predicate Retryable(a: Attempt) {
    a.TransportFailed? || a.status == StatusTooManyRequests
  }

  /** The pause, in seconds, after a retryable attempt `k` that is not the last. */
  function Backoff(a: Attempt, k: nat): int {
    if a.TransportFailed? then (k + 1) * 2 else (k + 1) * 10
  }

  /** The pauses taken and the final result of the attempts from `k` on. */
  datatype RetryRun = RetryRun(sleeps: seq<int>, last: Result<(int, string), ClaudeError>)

  /** The retry loop, starting at attempt `k`, as a specification. */
  function RetryFrom(transport: nat -> Attempt, k: nat): RetryRun
    requires k < MaxRetries
    decreases MaxRetries - k
  {
    var a := transport(k);
    if !Retryable(a) then RetryRun([], Success((a.status, a.body)))
    else if k == MaxRetries - 1 then
      RetryRun([], Failure(if a.TransportFailed? then Timeout(a.reason) else RateLimitExceeded))
    else
      var rest := RetryFrom(transport, k + 1);
      RetryRun([Backoff(a, k)] + rest.sleeps, rest.last)
  }

  /** Every attempt before the first non-retryable one, among the first `n`, is retryable. */
  predicate RetriedUpTo(transport: nat -> Attempt, n: nat) {
    forall k :: 0 <= k < n ==> Retryable(transport(k))
  }

  /**
   * What the run from attempt `k` does: it pauses once per further retryable
   * attempt with the fixed schedule, stops at the first non-retryable answer,
   * and turns a retryable last attempt into a timeout or the rate-limit error.
   */
  lemma {:induction false} RetryFromShape(transport: nat -> Attempt, k: nat)
    requires k < MaxRetries
    ensures var run := RetryFrom(transport, k);
      && k + |run.sleeps| < MaxRetries
      && (forall i :: 0 <= i < |run.sleeps| ==>
            Retryable(transport(k + i)) && run.sleeps[i] == Backoff(transport(k + i), k + i))
      && var stop := transport(k + |run.sleeps|);
      && (run.last.Success? <==> !Retryable(stop))
      && (run.last.Success? ==> run.last.value == (stop.status, stop.body))
      && (run.last.Failure? ==> k + |run.sleeps| == MaxRetries - 1)
      && (run.last == Failure(RateLimitExceeded) <==> run.last.Failure? && stop.Answered?)
      && (run.last.Failure? && stop.TransportFailed? ==> run.last == Failure(Timeout(stop.reason)))
    decreases MaxRetries - k
  {
    var a := transport(k);
    if Retryable(a) && k < MaxRetries - 1 {
      RetryFromShape(transport, k + 1);
      var rest := RetryFrom(transport, k + 1);
      var run := RetryFrom(transport, k);
      assert run.sleeps == [Backoff(a, k)] + rest.sleeps;
      forall i | 0 <= i < |run.sleeps|
        ensures Retryable(transport(k + i)) && run.sleeps[i] == Backoff(transport(k + i), k + i)
      {
        if i > 0 {
          assert run.sleeps[i] == rest.sleeps[i - 1];
          assert k + i == (k + 1) + (i - 1);
        }
      }
    }
  }

  /**
   * The whole retry loop: at most three attempts; the pauses are (k+1)*2
   * seconds after a transport error and (k+1)*10 seconds after a 429; the
   * loop ends at the first other answer; a transport error on the third
   * attempt is a timeout and a 429 on it the rate-limit error.
   */
  lemma RetrySchedule(transport: nat -> Attempt)
    ensures var run := RetryFrom(transport, 0);
      && |run.sleeps| < MaxRetries
      && RetriedUpTo(transport, |run.sleeps|)
      && (forall i :: 0 <= i < |run.sleeps| ==> run.sleeps[i] == Backoff(transport(i), i))
      && (run.last.Success? <==> !Retryable(transport(|run.sleeps|)))
      && (run.last.Failure? ==> |run.sleeps| == MaxRetries - 1 && Retryable(transport(MaxRetries - 1)))
      && (run.last == Failure(RateLimitExceeded) <==> run.last.Failure? && transport(MaxRetries - 1).Answered?)
  {
    RetryFromShape(transport, 0);
    var run := RetryFrom(transport, 0);
    forall i | 0 <= i < |run.sleeps| ensures Retryable(transport(i)) && run.sleeps[i] == Backoff(transport(i), i) {
      assert 0 + i == i;
    }
  }

  /**
   * The loop ends at attempt `n` when every earlier attempt was retried and
   * attempt `n` is either a non-retryable answer or the third attempt; it
   * ends with that answer, a timeout or the rate-limit error.
   */
  lemma RunEndsAt(transport: nat -> Attempt, n: nat)
    requires n < MaxRetries && RetriedUpTo(transport, n)
    requires !Retryable(transport(n)) || n == MaxRetries - 1
    ensures |RetryFrom(transport, 0).sleeps| == n
    ensures var stop := transport(n);
      RetryFrom(transport, 0).last ==
        if !Retryable(stop) then Success((stop.status, stop.body))
        else if stop.TransportFailed? then Failure(Timeout(stop.reason))
        else Failure(RateLimitExceeded)
  {
    RetryFromShape(transport, 0);
    RetrySchedule(transport);
    assert |RetryFrom(transport, 0).sleeps| == n;
    assert transport(0 + n) == transport(n);
  }

  // ---------------------------------------------------------------------------
  // Checking the reply
  // ---------------------------------------------------------------------------

  function ContentBlockOf(j: Json): Option<ContentBlock> {
    if IsStruct(j) && AsString(Field(j, "type")).Some? && AsString(Field(j, "text")).Some?
    then Some(ContentBlock(AsString(Field(j, "type")).value, AsString(Field(j, "text")).value))
    else None
  }

  function UsageOf(j: Json): Option<Usage> {
    if IsStruct(j) && AsInt(Field(j, "input_tokens")).Some? && AsInt(Field(j, "output_tokens")).Some?
    then Some(Usage(AsInt(Field(j, "input_tokens")).value, AsInt(Field(j, "output_tokens")).value))
    else None
  }

  /** Decoding a success body into the response structure. */
  function ResponseOf(j: Json): Option<MessageResponse> {
    if !IsStruct(j) then None
    else
      var id := AsString(Field(j, "id"));
      var kind := AsString(Field(j, "type"));
      var role := AsString(Field(j, "role"));
      var content := AsList(Field(j, "content"), ContentBlockOf);
      var model := AsString(Field(j, "model"));
      var stopReason := AsString(Field(j, "stop_reason"));
      var stopSequence := AsString(Field(j, "stop_sequence"));
      var usage := UsageOf(Field(j, "usage"));
      if id.Some? && kind.Some? && role.Some? && content.Some? && model.Some?
         && stopReason.Some? && stopSequence.Some? && usage.Some?
      then Some(MessageResponse(id.value, kind.value, role.value, content.value, model.value,
                                stopReason.value, stopSequence.value, usage.value))
      else None
  }

  /** Decoding an error body; the message under `error.message` when it decodes. */
  function ErrorMessageOf(j: Json): Option<string> {
    var e := Field(j, "error");
    if IsStruct(j) && AsString(Field(j, "type")).Some? && IsStruct(e)
       && AsString(Field(e, "type")).Some? && AsString(Field(e, "message")).Some?
    then AsString(Field(e, "message"))
    else None
  }

  /** The detail of an API error: the decoded message, or the status and the raw body. */
  function ApiErrorDetail(status: int, body: string, parse: string -> Option<Json>): string {
    var decoded := if parse(body).Some? then ErrorMessageOf(parse(body).value) else None;
    if decoded.Some? then decoded.value else "status " + IntToString(status) + ", body: " + body
  }

  /** The usable response: at least one content block, and the first one's text is not empty. */
  predicate HasText(resp: MessageResponse) {
    |resp.content| > 0 && resp.content[0].text != ""
  }

  /** What the client makes of the final answer's status and body. */
  function ReplyOutcome(status: int, body: string, parse: string -> Option<Json>): (r: Result<MessageResponse, ClaudeError>)
    ensures r.Success? ==> status == StatusOK && HasText(r.value)
    ensures status != StatusOK ==> r == Failure(APIError(ApiErrorDetail(status, body, parse)))
    ensures status == StatusOK && r.Failure? ==> r.error == ResponseUnparsable || r.error == EmptyResponse
  {
    if status != StatusOK then Failure(APIError(ApiErrorDetail(status, body, parse)))
    else if parse(body).None? || ResponseOf(parse(body).value).None? then Failure(ResponseUnparsable)
    else
      var resp := ResponseOf(parse(body).value).value;
      if !HasText(resp) then Failure(EmptyResponse) else Success(resp)
  }

  /** A 200 answer whose body decodes but has no text is an error, not an empty success. */
  lemma EmptyContentRejected(body: string, parse: string -> Option<Json>)
    requires parse(body).Some? && ResponseOf(parse(body).value).Some?
    requires !HasText(ResponseOf(parse(body).value).value)
    ensures ReplyOutcome(StatusOK, body, parse) == Failure(EmptyResponse)
  {
  }

  /** An error body that decodes gives its message; one that does not gives the status and the raw body. */
  lemma ApiErrorCarriesMessage(status: int, body: string, parse: string -> Option<Json>)
    requires status != StatusOK
    ensures var r := ReplyOutcome(status, body, parse);
      && (parse(body).Some? && ErrorMessageOf(parse(body).value).Some? ==>
            r == Failure(APIError(ErrorMessageOf(parse(body).value).value)))
      && (parse(body).None? || ErrorMessageOf(parse(body).value).None? ==>
            r == Failure(APIError("status " + IntToString(status) + ", body: " + body)))
  {
  }

  /** The outcome of `SendMessage` as a function of the transport and the JSON library. */
  function SendOutcome(transport: nat -> Attempt, parse: string -> Option<Json>): Result<MessageResponse, ClaudeError> {
    match RetryFrom(transport, 0).last
    case Failure(e) => Failure(e)
    case Success(answer) => ReplyOutcome(answer.0, answer.1, parse)
  }

  /**
   * `SendMessage`: fills the defaults, runs up to three attempts with the
   * backoff schedule, then checks the status and the content of the answer.
   */
  method SendMessage(clientModel: string, req: MessageRequest, transport: nat -> Attempt, parse: string -> Option<Json>)
    returns (r: Result<MessageResponse, ClaudeError>, sent: MessageRequest, attempts: nat, sleeps: seq<int>)
    ensures sent == WithDefaults(req, clientModel)
    ensures 1 <= attempts <= MaxRetries && attempts == |sleeps| + 1
    ensures sleeps == RetryFrom(transport, 0).sleeps
    ensures r == SendOutcome(transport, parse)
    ensures r.Success? ==> HasText(r.value)
  {
    sent := req;
    if sent.model == "" {
      sent := sent.(model := clientModel);
    }
    if sent.maxTokens == 0 {
      sent := sent.(maxTokens := DefaultMaxTokens);
    }

    var answer;
    answer, attempts, sleeps := RetryLoop(transport);
    if answer.Failure? {
      r := Failure(answer.error);
      return;
    }
    var (status, body) := answer.value;
    r := CheckReply(status, body, parse);
  }

  /**
   * The retry loop of `SendMessage`: a transport error or a 429 is retried
   * after a pause, up to three attempts; any other answer ends the loop.
   */
  method RetryLoop(transport: nat -> Attempt) returns (answer: Result<(int, string), ClaudeError>, attempts: nat, sleeps: seq<int>)
    ensures 1 <= attempts <= MaxRetries && attempts == |sleeps| + 1
    ensures sleeps == RetryFrom(transport, 0).sleeps
    ensures answer == RetryFrom(transport, 0).last
  {
    sleeps := [];
    var attempt: nat := 0;
    while attempt < MaxRetries
      invariant attempt < MaxRetries && |sleeps| == attempt
      invariant RetriedUpTo(transport, attempt)
      invariant forall i :: 0 <= i < attempt ==> sleeps[i] == Backoff(transport(i), i)
    {
      var outcome := transport(attempt);
      if outcome.TransportFailed? {
        if attempt == MaxRetries - 1 {
          answer, attempts := Failure(Timeout(outcome.reason)), attempt + 1;
          RunEnds(transport, sleeps);
          return;
        }
        sleeps := sleeps + [(attempt + 1) * 2];
        attempt := attempt + 1;
        continue;
      }
      if outcome.status == StatusTooManyRequests {
        if attempt == MaxRetries - 1 {
          answer, attempts := Failure(RateLimitExceeded), attempt + 1;
          RunEnds(transport, sleeps);
          return;
        }
        sleeps := sleeps + [(attempt + 1) * 10];
        attempt := attempt + 1;
        continue;
      }
      answer, attempts := Success((outcome.status, outcome.body)), attempt + 1;
      RunEnds(transport, sleeps);
      return;
    }
  }

  /** The pauses a loop that stopped after `|sleeps|` retries took are those of the specification. */
  lemma RunEnds(transport: nat -> Attempt, sleeps: seq<int>)
    requires |sleeps| < MaxRetries && RetriedUpTo(transport, |sleeps|)
    requires !Retryable(transport(|sleeps|)) || |sleeps| == MaxRetries - 1
    requires forall i :: 0 <= i < |sleeps| ==> sleeps[i] == Backoff(transport(i), i)
    ensures sleeps == RetryFrom(transport, 0).sleeps
    ensures var stop := transport(|sleeps|);
      RetryFrom(transport, 0).last ==
        if !Retryable(stop) then Success((stop.status, stop.body))
        else if stop.TransportFailed? then Failure(Timeout(stop.reason))
        else Failure(RateLimitExceeded)
  {
    RunEndsAt(transport, |sleeps|);
    RetrySchedule(transport);
  }

  /** The checks `SendMessage` makes on the final answer's status and body. */
  method CheckReply(status: int, body: string, parse: string -> Option<Json>) returns (r: Result<MessageResponse, ClaudeError>)
    ensures r == ReplyOutcome(status, body, parse)
  {
    if status != StatusOK {
      var decoded := None;
      var doc := parse(body);
      if doc.Some? {
        decoded := ErrorMessageOf(doc.value);
      }
      if decoded.None? {
        r := Failure(APIError("status " + IntToString(status) + ", body: " + body));
        return;
      }
      r := Failure(APIError(decoded.value));
      return;
    }
    var doc := parse(body);
    if doc.None? || ResponseOf(doc.value).None? {
      r := Failure(ResponseUnparsable);
      return;
    }
    var resp := ResponseOf(doc.value).value;
    if |resp.content| == 0 || resp.content[0].text == "" {
      r := Failure(EmptyResponse);
      return;
    }
    r := Success(resp);
  }

  /** The request `SendMessageWithSystem` builds: one user message under a system prompt. */
  function SystemRequest(clientModel: string, systemPrompt: string, userMessage: string): MessageRequest {
    MessageRequest(clientModel, DefaultMaxTokens, [Message("user", userMessage)], systemPrompt, 0.0)
  }

  /** `SendMessageWithSystem`: the text of the first content block of a successful reply. */
  method SendMessageWithSystem(clientModel: string, systemPrompt: string, userMessage: string,
                               transport: nat -> Attempt, parse: string -> Option<Json>)
    returns (r: Result<string, ClaudeError>, ghost sent: MessageRequest)
    ensures sent.messages == [Message("user", userMessage)] && sent.system == systemPrompt
    ensures sent.maxTokens == DefaultMaxTokens && (clientModel != "" ==> sent.model == clientModel)
    ensures r.Success? <==> SendOutcome(transport, parse).Success?
    ensures r.Success? ==> r.value == SendOutcome(transport, parse).value.content[0].text && r.value != ""
    ensures r.Failure? ==> r.error == SendOutcome(transport, parse).error
  {
    var resp, req, attempts, sleeps := SendMessage(clientModel, SystemRequest(clientModel, systemPrompt, userMessage), transport, parse);
    sent := req;
    if resp.Failure? {
      return Failure(resp.error), sent;
    }
    if |resp.value.content| == 0 {
      return Failure(EmptyResponse), sent;
    }
    r := Success(resp.value.content[0].text);
  }

  // ---------------------------------------------------------------------------
  // Extracting JSON from a reply
  // ---------------------------------------------------------------------------

  const Fence: string := "```"
  const JsonFence: string := "```json"

  /** The text of `s` before its first fence, when it has one. */
  function UpToFence(s: string): (r: Option<string>)
    ensures r.None? <==> !Contains(s, Fence)
    ensures r.Some? ==> HasPrefix(s, r.value) && OccursAt(s, Fence, |r.value|) && !Contains(r.value, Fence)
  {
    IndexOfFirst(s, Fence);
    var e := IndexOf(s, Fence);
    if e == -1 then None
    else
      NoOccurrenceInPrefix(s, Fence, e);
      Some(s[..e])
  }

  /** After a generic opening fence: the rest of its line is skipped, then the text up to the next fence. */
  function GenericBody(line: string): (r: Option<string>)
    ensures r.Some? ==> !Contains(r.value, Fence)
  {
    var newline := IndexOf(line, "\n");
    var start := if newline != -1 then newline + 1 else 0;
    UpToFence(line[start..])
  }

  /**
   * The text `ParseJSONResponse` hands to the JSON decoder: what follows the
   * first "```json" up to the next fence; otherwise, after a first generic
   * fence and the rest of its line, up to the next fence; the whole reply
   * when there is no fence or no closing fence.
   */
  function ExtractFenced(reply: string): (text: string)
    ensures !Contains(reply, Fence) ==> text == reply
    ensures text == reply || !Contains(text, Fence)
  {
    if Contains(reply, JsonFence) then
      IndexOfFirst(reply, JsonFence);
      var at := IndexOf(reply, JsonFence);
      assert OccursAt(reply, Fence, at) by {
        assert reply[at..at + |Fence|] == reply[at..at + |JsonFence|][..|Fence|];
      }
      match UpToFence(reply[at + |JsonFence|..])
      case Some(body) => body
      case None => reply
    else if Contains(reply, Fence) then
      IndexOfFirst(reply, Fence);
      match GenericBody(reply[IndexOf(reply, Fence) + |Fence|..])
      case Some(body) => body
      case None => reply
    else
      reply
  }

  /** `ParseJSONResponse`: decodes the extracted text with `unmarshal`. */
  function ParseJSONResponse<T>(reply: string, unmarshal: string -> Option<T>): (r: Result<T, ClaudeError>)
    ensures r.Success? <==> unmarshal(ExtractFenced(reply)).Some?
    ensures r.Success? ==> r.value == unmarshal(ExtractFenced(reply)).value
    ensures r.Failure? ==> r.error == JsonUnparsable
  {
    match unmarshal(ExtractFenced(reply))
    case Some(v) => Success(v)
    case None => Failure(JsonUnparsable)
  }

  /** "```json" has no border, so its first occurrence after text free of it is right there. */
  lemma FirstJsonFence(a: string, rest: string)
    requires !Contains(a, JsonFence)
    ensures IndexOf(a + JsonFence + rest, JsonFence) == |a|
  {
    var s := a + JsonFence + rest;
    assert s[|a|..|a| + |JsonFence|] == JsonFence;
    forall k | 0 <= k < |a| ensures !OccursAt(s, JsonFence, k) {
      if k + |JsonFence| <= |a| {
        assert a[k..k + |JsonFence|] == s[k..k + |JsonFence|];
        assert !OccursAt(a, JsonFence, k);
      } else if |a| - k <= 3 {
        assert s[k..k + |JsonFence|][3] == s[k + 3] == '`' != JsonFence[3];
      } else {
        assert s[k..k + |JsonFence|][|a| - k] == s[|a|] == '`' != JsonFence[|a| - k];
      }
    }
    IndexOfAt(s, JsonFence, |a|);
  }

  /**
   * The text strictly between the first "```json" and the next fence is
   * what gets decoded, even when a generic fence comes earlier in `a`.
   */
  lemma JsonFenceBody(a: string, body: string, c: string)
    requires !Contains(a, JsonFence)
    requires NoOccurrenceBefore(body + Fence + c, Fence, |body|)
    ensures ExtractFenced(a + JsonFence + body + Fence + c) == body
  {
    var reply := a + JsonFence + body + Fence + c;
    assert reply == a + JsonFence + (body + Fence + c);
    FirstJsonFence(a, body + Fence + c);
    ContainsInfix(a, JsonFence, body + Fence + c);
    var after := body + Fence + c;
    assert reply[|a| + |JsonFence|..] == after;
    assert after[|body|..|body| + |Fence|] == Fence;
    IndexOfAt(after, Fence, |body|);
    assert after[..|body|] == body;
  }

  /** With no fence after "```json", the whole reply is decoded. */
  lemma JsonFenceUnclosed(a: string, b: string)
    requires !Contains(a, JsonFence) && !Contains(b, Fence)
    ensures ExtractFenced(a + JsonFence + b) == a + JsonFence + b
  {
    FirstJsonFence(a, b);
    ContainsInfix(a, JsonFence, []);
    assert a + JsonFence + [] == a + JsonFence;
    var reply := a + JsonFence + b;
    assert reply[|a| + |JsonFence|..] == b;
    assert Contains(reply, JsonFence) by {
      assert OccursAt(reply, JsonFence, |a|) by { assert reply[|a|..|a| + |JsonFence|] == JsonFence; }
    }
  }

  /** No fence starts inside `a`, so the first fence of `a + Fence + rest` is at `|a|`. */
  lemma FirstFence(a: string, rest: string)
    requires NoOccurrenceBefore(a + Fence, Fence, |a|)
    ensures IndexOf(a + Fence + rest, Fence) == |a|
  {
    var s := a + Fence + rest;
    forall k | 0 <= k < |a| ensures !OccursAt(s, Fence, k) {
      assert !OccursAt(a + Fence, Fence, k);
      assert s[k..k + |Fence|] == (a + Fence)[k..k + |Fence|];
    }
    assert s[|a|..|a| + |Fence|] == Fence;
    IndexOfAt(s, Fence, |a|);
  }

  lemma GenericBodyOf(lang: string, body: string, c: string)
    requires '\n' !in lang
    requires NoOccurrenceBefore(body + Fence + c, Fence, |body|)
    ensures GenericBody(lang + "\n" + body + Fence + c) == Some(body)
  {
    var line := lang + "\n" + body + Fence + c;
    assert line[|lang|..|lang| + 1] == "\n";
    forall k | 0 <= k < |lang| ensures !OccursAt(line, "\n", k) {
      assert line[k..k + 1] == [lang[k]];
    }
    IndexOfAt(line, "\n", |lang|);
    var after := body + Fence + c;
    assert line[|lang| + 1..] == after;
    assert after[|body|..|body| + |Fence|] == Fence;
    IndexOfAt(after, Fence, |body|);
    assert after[..|body|] == body;
  }

  lemma GenericBodyUnclosed(b: string)
    requires !Contains(b, Fence)
    ensures GenericBody(b).None?
  {
    var newline := IndexOf(b, "\n");
    NotContainsSuffix(b, Fence, if newline != -1 then newline + 1 else 0);
  }

  /** Past the first generic fence of a reply without "```json" lies `line`. */
  lemma GenericFenceAt(a: string, line: string)
    requires NoOccurrenceBefore(a + Fence, Fence, |a|)
    requires !Contains(a + Fence + line, JsonFence)
    ensures ExtractFenced(a + Fence + line) == if GenericBody(line).Some? then GenericBody(line).value else a + Fence + line
  {
    var reply := a + Fence + line;
    FirstFence(a, line);
    ContainsInfix(a, Fence, line);
    assert reply[|a| + |Fence|..] == line;
  }

  /**
   * A generic fence: the rest of the opening line (a language tag) is
   * skipped, and the text up to the next fence is decoded.
   */
  lemma GenericFenceBody(a: string, lang: string, body: string, c: string)
    requires NoOccurrenceBefore(a + Fence, Fence, |a|)
    requires '\n' !in lang
    requires NoOccurrenceBefore(body + Fence + c, Fence, |body|)
    requires !Contains(a + Fence + lang + "\n" + body + Fence + c, JsonFence)
    ensures ExtractFenced(a + Fence + lang + "\n" + body + Fence + c) == body
  {
    var line := lang + "\n" + body + Fence + c;
    assert a + Fence + lang + "\n" + body + Fence + c == a + Fence + line;
    GenericBodyOf(lang, body, c);
    GenericFenceAt(a, line);
  }

  /** A generic fence without a closing fence leaves the reply as it is. */
  lemma GenericFenceUnclosed(a: string, b: string)
    requires NoOccurrenceBefore(a + Fence, Fence, |a|)
    requires !Contains(b, Fence)
    requires !Contains(a + Fence + b, JsonFence)
    ensures ExtractFenced(a + Fence + b) == a + Fence + b
  {
    GenericBodyUnclosed(b);
    GenericFenceAt(a, b);
  }
}
