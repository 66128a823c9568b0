/**
  The chat client: it resolves its API key, refuses a blank prompt, and asks
  the chat service up to `maxRetries` times, sleeping between attempts, until
  a reply with content arrives. The service is an oracle: `chat(k)` is the
  outcome of the call made at attempt `k + 1`.
 */
module AIClient {
  import opened Wrappers
  import opened Text

  /** The content of a reply message: absent, a plain string, or the texts
      of a list of segments. */
  datatype Content = Missing | Str(text: string) | Segments(texts: seq<string>)

  /** What one call to the service does: it raises an error whose text is
      `error`, or it returns a reply. */
  datatype Outcome = Raised(error: string) | Reply(content: Content)

  /** The errors the client raises. */
  datatype AIClientError =
    | MissingApiKey
    | EmptyPrompt
    | RetriesExhausted(attempts: nat, lastError: string)
    | UnknownError

  /** A chat message as sent to the service. */
  datatype Message = Message(role: string, content: string)

  /** What the client does to the outside world, in order. */
  datatype Event = Call(model: string, messages: seq<Message>) | Sleep(seconds: real)

  /** The client's settings; they are fixed once the client is built. */
  datatype Client = Client(apiKey: string, modelName: string, maxRetries: int, retryDelay: real)

  const DefaultModelName := "command-r-plus-08-2024"
  const DefaultMaxRetries := 3
  const DefaultRetryDelay := 1.0
  const EmptyResponseMessage := "Empty response from Cohere."

  /** Builds a client. The key given as argument wins unless it is empty, in
      which case the environment's key is used; with neither, the client
      cannot be built. The other settings default as in the source. */
  function NewClient(envApiKey: Option<string>, apiKey: string := "", modelName: string := DefaultModelName,
                     maxRetries: int := DefaultMaxRetries, retryDelay: real := DefaultRetryDelay)
    : (r: Result<Client, AIClientError>)
    ensures r.Failure? <==> apiKey == [] && (envApiKey == None || envApiKey.value == [])
    ensures r.Failure? ==> r.error == MissingApiKey
    ensures r.Success? ==>
      && r.value.apiKey != []
      && r.value.apiKey == (if apiKey != [] then apiKey else envApiKey.value)
      && r.value.modelName == modelName && r.value.maxRetries == maxRetries && r.value.retryDelay == retryDelay
  {
    var key := if apiKey != [] then Some(apiKey) else envApiKey;
    if key == None || key.value == [] then Failure(MissingApiKey)
    else Success(Client(key.value, modelName, maxRetries, retryDelay))
  }

  /** The content passes the client's check: it is present and neither the
      empty string nor the empty list, as Python's truth test has it. */
  predicate HasContent(c: Content): (r: bool)
    ensures r <==> c !in {Missing, Str(""), Segments([])}
  {
    match c
    case Missing => false
    case Str(t) => t != []
    case Segments(ts) => ts != []
  }

  /** The call gave a reply the client accepts: a raised error never is one,
      and a reply is one exactly when its content passes the check. */
  predicate IsUsable(o: Outcome): (r: bool)
    ensures o.Raised? ==> !r
    ensures o.Reply? ==> (r <==> o.content !in {Missing, Str(""), Segments([])})
  {
    o.Reply? && HasContent(o.content)
  }

  /** The segment texts joined with nothing in between, in order: a single
      segment is returned as it is, and the join starts with the first one. */
  function Join(texts: seq<string>): (r: string)
    ensures |texts| == 1 ==> r == texts[0]
    ensures texts != [] ==> StartsWith(r, texts[0])
  {
    if texts == [] then [] else texts[0] + Join(texts[1..])
  }

  /** Each segment's text sits in the join right after the texts of the
      segments before it. */
  lemma JoinPlacesSegments(texts: seq<string>)
    ensures forall i :: 0 <= i < |texts| ==> OccursAt(Join(texts), texts[i], |Join(texts[..i])|)
  {
    forall i | 0 <= i < |texts| ensures OccursAt(Join(texts), texts[i], |Join(texts[..i])|) {
      JoinSegmentAt(texts, i);
    }
  }

  lemma JoinSegmentAt(texts: seq<string>, i: nat)
    requires i < |texts|
    ensures OccursAt(Join(texts), texts[i], |Join(texts[..i])|)
  {
    var front, back := texts[..i], texts[i + 1..];
    assert texts == front + [texts[i]] + back;
    JoinAppend(front + [texts[i]], back);
    JoinAppend(front, [texts[i]]);
    assert Join(texts) == Join(front) + texts[i] + Join(back);
    AppendKeepsPieces(Join(front), texts[i], Join(back));
  }

  /** The text the client returns for content it accepted: a string as it
      is, and for a list each segment's text in its place, in order. */
  function Normalise(c: Content): (r: string)
    ensures c.Str? ==> r == c.text
    ensures c.Segments? ==> forall i :: 0 <= i < |c.texts| ==> OccursAt(r, c.texts[i], |Join(c.texts[..i])|)
  {
    match c
    case Missing => []
    case Str(t) => t
    case Segments(ts) => JoinPlacesSegments(ts); Join(ts)
  }

  /** The text of the error an attempt ended with: what the call raised, or
      the client's own complaint about an empty reply. */
  function FailureCause(o: Outcome): string {
    if o.Raised? then o.error else EmptyResponseMessage
  }

  /** The first of the attempts `0 .. n - 1` whose call is usable, if any. */
  function FirstUsable(chat: nat -> Outcome, n: int): (r: Option<nat>)
    ensures r.Some? ==> r.value < n && IsUsable(chat(r.value))
    ensures r.Some? ==> forall j :: 0 <= j < r.value ==> !IsUsable(chat(j))
    ensures r.None? <==> forall j :: 0 <= j < n ==> !IsUsable(chat(j))
    decreases n
  {
    if n <= 0 then None
    else
      match FirstUsable(chat, n - 1)
      case Some(k) => Some(k)
      case None => if IsUsable(chat(n - 1)) then Some(n - 1) else None
  }

  /** How many calls the client makes before it returns or gives up: every
      call but the last one failed, the last one is usable unless it used up
      the budget, and no call is made exactly when the budget is not positive. */
  function AttemptCount(client: Client, chat: nat -> Outcome): (n: nat)
    ensures n <= if client.maxRetries > 0 then client.maxRetries else 0
    ensures n == 0 <==> client.maxRetries <= 0
    ensures forall j :: 0 <= j < n - 1 ==> !IsUsable(chat(j))
    ensures 0 < n < client.maxRetries ==> IsUsable(chat(n - 1))
  {
    match FirstUsable(chat, client.maxRetries)
    case Some(k) => k + 1
    case None => if client.maxRetries > 0 then client.maxRetries else 0
  }

  /** The one call the client makes per attempt: the whole prompt as a single user message. */
  function CallFor(client: Client, prompt: string): Event {
    Call(client.modelName, [Message("user", prompt)])
  }

  /** `m` failed attempts, each followed by the pause before the next. */
  function Rounds(client: Client, prompt: string, m: nat): seq<Event> {
    if m == 0 then [] else Rounds(client, prompt, m - 1) + [CallFor(client, prompt), Sleep(client.retryDelay)]
  }

  /** The events of `n` attempts: pauses only between calls. */
  function Trace(client: Client, prompt: string, n: nat): seq<Event> {
    if n == 0 then [] else Rounds(client, prompt, n - 1) + [CallFor(client, prompt)]
  }

  /** What the client does with a non-blank prompt: it makes exactly the
      attempts up to the first usable reply or to the end of the budget; it
      succeeds exactly when some attempt within the budget is usable, with
      the first such reply's content; otherwise it gives up with the budget
      and the last attempt's error, or with the unknown error when the budget
      is not positive. */
  ghost predicate Answered(client: Client, prompt: string, chat: nat -> Outcome,
                           result: Result<string, AIClientError>, trace: seq<Event>) {
    && trace == Trace(client, prompt, AttemptCount(client, chat))
    && (result.Success? <==> exists k :: 0 <= k < client.maxRetries && IsUsable(chat(k)))
    && match FirstUsable(chat, client.maxRetries)
       case Some(k) => result == Success(Normalise(chat(k).content))
       case None => result == Failure(
         if client.maxRetries > 0 then RetriesExhausted(client.maxRetries, FailureCause(chat(client.maxRetries - 1)))
         else UnknownError)
  }

  /** Sends the prompt, retrying failed calls and empty replies. It returns
      the content of the first usable reply; when every one of the
      `maxRetries` attempts failed it raises with the last attempt's error. */
  method GetAIResponse(client: Client, prompt: string, chat: nat -> Outcome)
    returns (result: Result<string, AIClientError>, trace: seq<Event>)
    ensures IsBlank(prompt) ==> result == Failure(EmptyPrompt) && trace == []
    ensures !IsBlank(prompt) ==> Answered(client, prompt, chat, result, trace)
  {
    if |Strip(prompt)| == 0 {
      return Failure(EmptyPrompt), [];
    }
    trace := [];
    var lastError: Option<string> := None;
    var attempt := 1;
    while attempt <= client.maxRetries
      invariant attempt == 1 || 1 < attempt <= client.maxRetries
      invariant FirstUsable(chat, attempt - 1) == None
      invariant trace == Rounds(client, prompt, attempt - 1)
    {
      trace := trace + [CallFor(client, prompt)];
      var outcome := chat(attempt - 1);
      if IsUsable(outcome) {
        AnsweredOnSuccess(client, prompt, chat, attempt);
        return Success(Normalise(outcome.content)), trace;
      }
      lastError := Some(FailureCause(outcome));
      if attempt < client.maxRetries {
        trace := trace + [Sleep(client.retryDelay)];
        FailedRound(client, prompt, chat, attempt);
      } else {
        AnsweredOnGiveUp(client, prompt, chat);
        return Failure(RetriesExhausted(client.maxRetries, lastError.value)), trace;
      }
      attempt := attempt + 1;
    }
    AnsweredWithoutBudget(client, prompt, chat);
    return Failure(UnknownError), trace;
  }

  /** A failed attempt after only failed ones, followed by its pause. */
  lemma FailedRound(client: Client, prompt: string, chat: nat -> Outcome, attempt: nat)
    requires attempt >= 1
    requires FirstUsable(chat, attempt - 1) == None && !IsUsable(chat(attempt - 1))
    ensures FirstUsable(chat, attempt) == None
    ensures Rounds(client, prompt, attempt) ==
      Rounds(client, prompt, attempt - 1) + [CallFor(client, prompt)] + [Sleep(client.retryDelay)]
  {
  }

  /** A usable reply after only failed attempts is what the client returns. */
  lemma AnsweredOnSuccess(client: Client, prompt: string, chat: nat -> Outcome, attempt: int)
    requires 1 <= attempt <= client.maxRetries
    requires FirstUsable(chat, attempt - 1) == None && IsUsable(chat(attempt - 1))
    ensures Answered(client, prompt, chat, Success(Normalise(chat(attempt - 1).content)),
                     Rounds(client, prompt, attempt - 1) + [CallFor(client, prompt)])
  {
    SucceedsAfterFailures(client, chat, attempt - 1);
  }

  /** A failed last attempt after only failed ones makes the client give up. */
  lemma AnsweredOnGiveUp(client: Client, prompt: string, chat: nat -> Outcome)
    requires client.maxRetries >= 1
    requires FirstUsable(chat, client.maxRetries - 1) == None && !IsUsable(chat(client.maxRetries - 1))
    ensures Answered(client, prompt, chat,
                     Failure(RetriesExhausted(client.maxRetries, FailureCause(chat(client.maxRetries - 1)))),
                     Rounds(client, prompt, client.maxRetries - 1) + [CallFor(client, prompt)])
  {
  }

  /** With no budget the client makes no call and raises the unknown error. */
  lemma AnsweredWithoutBudget(client: Client, prompt: string, chat: nat -> Outcome)
    requires client.maxRetries <= 0
    ensures Answered(client, prompt, chat, Failure(UnknownError), [])
  {
  }

  /** When the first `k` attempts fail and attempt `k + 1` is within the
      budget and usable, the client stops there after `k + 1` calls. */
  lemma SucceedsAfterFailures(client: Client, chat: nat -> Outcome, k: nat)
    requires k < client.maxRetries && IsUsable(chat(k))
    requires forall j :: 0 <= j < k ==> !IsUsable(chat(j))
    ensures FirstUsable(chat, client.maxRetries) == Some(k)
    ensures AttemptCount(client, chat) == k + 1
  {
  }

  /** When every attempt within a positive budget fails, the client uses the
      whole budget; with no budget it makes no call. */
  lemma GivesUpAfterBudget(client: Client, chat: nat -> Outcome)
    requires forall j :: 0 <= j < client.maxRetries ==> !IsUsable(chat(j))
    ensures FirstUsable(chat, client.maxRetries) == None
    ensures AttemptCount(client, chat) == if client.maxRetries > 0 then client.maxRetries else 0
  {
  }

  /** An empty reply is handled exactly like raising the client's own
      "Empty response" error at that attempt: the same attempts are made, and
      the client gives the same result and the same trace. */
  lemma EmptyReplyFailsLikeRaise(client: Client, prompt: string, chat: nat -> Outcome, k: nat,
                                 result: Result<string, AIClientError>, trace: seq<Event>)
    requires chat(k).Reply? && !HasContent(chat(k).content)
    ensures var other := (j: nat) => if j == k then Raised(EmptyResponseMessage) else chat(j);
      && FirstUsable(other, client.maxRetries) == FirstUsable(chat, client.maxRetries)
      && AttemptCount(client, other) == AttemptCount(client, chat)
      && (Answered(client, prompt, other, result, trace) <==> Answered(client, prompt, chat, result, trace))
  {
    var other := (j: nat) => if j == k then Raised(EmptyResponseMessage) else chat(j);
    FirstUsableAgree(other, chat, client.maxRetries);
    assert forall j: nat :: FailureCause(other(j)) == FailureCause(chat(j));
  }

  /** Two services usable at the same attempts make the client stop at the same one. */
  lemma {:induction false} FirstUsableAgree(a: nat -> Outcome, b: nat -> Outcome, n: int)
    requires forall j: nat :: IsUsable(a(j)) == IsUsable(b(j))
    ensures FirstUsable(a, n) == FirstUsable(b, n)
    decreases n
  {
    if n > 0 {
      FirstUsableAgree(a, b, n - 1);
    }
  }

  /** The attempts alternate call and pause, start and end with a call, and
      every call sends the same model and prompt: `n` attempts are `n` calls
      and `n - 1` pauses. */
  lemma TraceShape(client: Client, prompt: string, n: nat)
    requires n > 0
    ensures var t := Trace(client, prompt, n);
      && |t| == 2 * n - 1
      && (forall i :: 0 <= i < |t| ==> t[i] == if i % 2 == 0 then CallFor(client, prompt) else Sleep(client.retryDelay))
  {
    RoundsShape(client, prompt, n - 1);
  }

  lemma {:induction false} RoundsShape(client: Client, prompt: string, m: nat)
    ensures var t := Rounds(client, prompt, m);
      && |t| == 2 * m
      && (forall i :: 0 <= i < |t| ==> t[i] == if i % 2 == 0 then CallFor(client, prompt) else Sleep(client.retryDelay))
  {
    if m > 0 {
      RoundsShape(client, prompt, m - 1);
    }
  }

  function CallCount(t: seq<Event>): nat {
    if t == [] then 0 else CallCount(t[..|t| - 1]) + (if t[|t| - 1].Call? then 1 else 0)
  }

  function SleepCount(t: seq<Event>): nat {
    if t == [] then 0 else SleepCount(t[..|t| - 1]) + (if t[|t| - 1].Sleep? then 1 else 0)
  }

  /** `n` attempts make exactly `n` calls and `n - 1` pauses, and the last
      event is a call: no pause follows the last attempt. */
  lemma TraceCounts(client: Client, prompt: string, n: nat)
    ensures var t := Trace(client, prompt, n);
      && CallCount(t) == n
      && SleepCount(t) == (if n > 0 then n - 1 else 0)
      && (n > 0 ==> t[|t| - 1].Call?)
  {
    if n > 0 {
      var t := Trace(client, prompt, n);
      RoundsCounts(client, prompt, n - 1);
      assert t[..|t| - 1] == Rounds(client, prompt, n - 1);
    }
  }

  lemma {:induction false} RoundsCounts(client: Client, prompt: string, m: nat)
    ensures CallCount(Rounds(client, prompt, m)) == m
    ensures SleepCount(Rounds(client, prompt, m)) == m
  {
    if m > 0 {
      var r := Rounds(client, prompt, m - 1);
      var t := Rounds(client, prompt, m);
      RoundsCounts(client, prompt, m - 1);
      assert t[..|t| - 1] == r + [CallFor(client, prompt)];
      assert (r + [CallFor(client, prompt)])[..|r|] == r;
    }
  }

  /** The client never makes more calls than `maxRetries` allows, and makes
      at least one when it may. */
  lemma AttemptsWithinBudget(client: Client, chat: nat -> Outcome)
    ensures AttemptCount(client, chat) <= if client.maxRetries > 0 then client.maxRetries else 0
    ensures client.maxRetries > 0 ==> AttemptCount(client, chat) > 0
    ensures client.maxRetries <= 0 ==> AttemptCount(client, chat) == 0
  {
  }

  /** Joining concatenated segment lists is concatenating their joins. */
  lemma {:induction false} JoinAppend(a: seq<string>, b: seq<string>)
    ensures Join(a + b) == Join(a) + Join(b)
  {
    if a != [] {
      assert (a + b)[1..] == a[1..] + b;
      JoinAppend(a[1..], b);
    } else {
      assert a + b == b;
    }
  }

  /** Content is checked before it is joined: a non-empty list of empty
      segments is accepted, and the client returns the empty text. */
  lemma EmptySegmentsReturnEmpty()
    ensures IsUsable(Reply(Segments([""])))
    ensures Normalise(Segments([""])) == ""
    ensures !IsUsable(Reply(Str("")))
  {
  }

  /** A usable first reply is returned after a single call and no pause. */
  lemma FirstAttemptSucceeds(client: Client, prompt: string, chat: nat -> Outcome)
    requires client.maxRetries >= 1 && IsUsable(chat(0))
    ensures AttemptCount(client, chat) == 1
    ensures Trace(client, prompt, AttemptCount(client, chat)) == [CallFor(client, prompt)]
  {

  }

  /** One failed call followed by a good reply, with three attempts allowed:
      the client pauses once and returns the reply on the second call. */
  lemma RecoversOnSecondAttempt(client: Client, prompt: string)
    requires client.maxRetries == 3
    ensures var chat := (k: nat) => if k == 0 then Raised("timeout") else Reply(Str("Recovered content"));
      && FirstUsable(chat, client.maxRetries) == Some(1)
      && AttemptCount(client, chat) == 2
      && Trace(client, prompt, 2) == [CallFor(client, prompt), Sleep(client.retryDelay), CallFor(client, prompt)]
  {
    var chat := (k: nat) => if k == 0 then Raised("timeout") else Reply(Str("Recovered content"));
    SucceedsAfterFailures(client, chat, 1);
    assert Rounds(client, prompt, 1) == [CallFor(client, prompt), Sleep(client.retryDelay)];
  }

  /** The decimal digits of `n`, as an f-string writes an int. */
  function Decimal(n: nat): (r: string)
    ensures r != [] && forall i :: 0 <= i < |r| ==> '0' <= r[i] <= '9'
  {
    var digit := ['0' + (n % 10) as char];
    if n < 10 then digit else Decimal(n / 10) + digit
  }

  /** The number a string of decimal digits stands for. */
  function DecimalValue(s: string): nat {
    if s == [] then 0
    else
      var d := s[|s| - 1] as int - '0' as int;
      DecimalValue(s[..|s| - 1]) * 10 + (if 0 <= d then d else 0)
  }

  /** Reading back the digits gives the number. */
  lemma {:induction false} DecimalRoundTrip(n: nat)
    ensures DecimalValue(Decimal(n)) == n
  {
    var digit := ['0' + (n % 10) as char];
    if n >= 10 {
      var r := Decimal(n / 10) + digit;
      assert r[..|r| - 1] == Decimal(n / 10);
      DecimalRoundTrip(n / 10);
    } else {
      assert digit[..0] == [];
    }
  }

  /** The text of each error, as the client words it. */
  function ErrorMessage(e: AIClientError): (r: string)
    ensures r != []
    ensures e.RetriesExhausted? ==>
      StartsWith(r, "Cohere Chat API failed after ") && EndsWith(r, "Last error: " + e.lastError)
  {
    match e
    case MissingApiKey => "Cohere API key not found. Provide api_key or set COHERE_API_KEY env var."
    case EmptyPrompt => "Prompt cannot be empty."
    case RetriesExhausted(attempts, lastError) =>
      var head, tail := "Cohere Chat API failed after ", "Last error: " + lastError;
      AppendKeepsPieces(head, Decimal(attempts) + " attempts.", tail);
      head + (Decimal(attempts) + " attempts.") + tail
    case UnknownError => "Unknown error occurred in Cohere AI client."
  }

  /** The give-up message names the number of attempts, which reads back as
      that number, and ends with the last error's text. */
  lemma ExhaustedMessageNamesAttemptsAndError(attempts: nat, lastError: string)
    ensures var m := ErrorMessage(RetriesExhausted(attempts, lastError));
      && OccursAt(m, Decimal(attempts), |"Cohere Chat API failed after "|)
      && DecimalValue(Decimal(attempts)) == attempts
      && EndsWith(m, "Last error: " + lastError)
  {
    var head, d := "Cohere Chat API failed after ", Decimal(attempts);
    var tail := "Last error: " + lastError;
    var m := ErrorMessage(RetriesExhausted(attempts, lastError));
    assert m == head + d + (" attempts." + tail);
    AppendKeepsPieces(head, d, " attempts." + tail);
    assert m == (head + d + " attempts.") + [] + tail;
    AppendKeepsPieces(head + d + " attempts.", [], tail);
    DecimalRoundTrip(attempts);
  }
}
