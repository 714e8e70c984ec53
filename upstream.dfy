/** The vocabulary both request handlers share: the chat-completions endpoint
    as a handler sees it (the request it sends, the outcome of one call) and
    the HTTP response a handler gives its own caller.  Network I/O, JSON
    (de)serialisation and the framework's request and response objects are
    not modelled; a call to the endpoint is one abstract `Outcome`. */
module Upstream {

  datatype Option<+T> = None | Some(value: T)

  /** JavaScript truthiness of a string-valued field: present and non-empty. */
  predicate Truthy(s: Option<string>)
  {
    s.Some? && |s.value| > 0
  }

  // ---------------------------------------------------------------------------
  // The Retry-After header

  predicate IsDigits(s: string)
  {
    forall i | 0 <= i < |s| :: '0' <= s[i] <= '9'
  }

  /** A Retry-After header value, restricted to decimal digits (possibly none). */
  type DigitString = s: string | IsDigits(s) witness ""

  function DigitValue(c: char): (d: nat)
    requires '0' <= c <= '9'
    ensures d < 10
  {
    (c as int) - ('0' as int)
  }

  function DigitChar(d: nat): (c: char)
    requires d < 10
    ensures '0' <= c <= '9' && DigitValue(c) == d
  {
    (('0' as int) + d) as char
  }

  /** `parseInt` applied to a string of decimal digits, most significant first. */
  function ParseDecimal(s: DigitString): nat
    decreases |s|
  {
    if |s| == 0 then 0 else 10 * ParseDecimal(s[..|s| - 1]) + DigitValue(s[|s| - 1])
  }

  /** The decimal rendering of a number of seconds, as an upstream server writes it. */
  function Decimal(n: nat): (s: DigitString)
    ensures |s| > 0
  {
    if n < 10 then [DigitChar(n)] else Decimal(n / 10) + [DigitChar(n % 10)]
  }

  /** Reading back the rendering of `n` gives `n`: a header saying `n` seconds is read as `n`. */
  lemma {:induction false} ParseDecimalOfDecimal(n: nat)
    ensures ParseDecimal(Decimal(n)) == n
  {
    var s := Decimal(n);
    if n >= 10 {
      assert s[..|s| - 1] == Decimal(n / 10);
      ParseDecimalOfDecimal(n / 10);
    }
  }

  // ---------------------------------------------------------------------------
  // What a call to the chat-completions endpoint can come back with

  datatype Message = Message(content: Option<string>)

  /** One entry of `choices`; `message` is None where the entry has no message object. */
  datatype Choice = Choice(message: Option<Message>)

  /** A parsed JSON reply body: its `choices` list when it has one, and its other
      top-level fields, abstracted to a map. */
  datatype Payload = Payload(choices: Option<seq<Choice>>, fields: map<string, string>)

  /** The outcome of one `fetch` to the endpoint: a reply with its HTTP status,
      its Retry-After header and its body (None when the body is not JSON, so
      that `response.json()` throws), or an exception thrown by `fetch` itself. */
  datatype Outcome =
    | Reply(status: int, retryAfter: Option<DigitString>, body: Option<Payload>)
    | Throws

  /** `response.ok` of the fetch API: a 2xx status. */
  predicate IsOk(status: int)
  {
    200 <= status <= 299
  }

  // ---------------------------------------------------------------------------
  // What a handler sends and what it answers

  const ChatModel := "gpt-3.5-turbo"

  /** A chat message; `content` is None when the prompt it carries is missing,
      in which case JSON serialisation drops the key. */
  datatype ChatMessage = ChatMessage(role: string, content: Option<string>)

  /** Sampling parameters sent with a request (the float `top_p` is not modelled). */
  datatype Sampling = Sampling(temperature: int, maxTokens: nat)

  /** The JSON body POSTed to the endpoint. */
  datatype ChatRequest = ChatRequest(model: string, messages: seq<ChatMessage>, sampling: Option<Sampling>)

  /** The JSON body of a handler's response: `{message}`, `{error}`, or an
      upstream envelope relayed as it came. */
  datatype Body =
    | MessageBody(message: string)
    | ErrorBody(error: string)
    | Envelope(payload: Payload)

  datatype Response = Response(status: nat, body: Body)
}
