/** The retrying relay (`handler` in utils/GeminiAIModal.js): a POST-only
    handler that calls the chat-completions endpoint up to five times, backs
    off on 429 and answers with the extracted text or a generic error.

    The upstream is a sequence of outcomes: the n-th call made receives
    `replies[n - 1]`.  Sleeping is not performed but recorded: every attempt
    leaves an `AttemptRecord` holding the request it sent and the wait, in
    milliseconds, the handler chose after it. */
module GeminiAIModal {
  import opened Upstream

  const MaxRetries: nat := 5
  const RetryDelay: nat := 1000

  /** `generationConfig`: temperature 1 and at most 8192 output tokens. */
  const Generation := Sampling(1, 8192)

  const NotAllowed := Response(405, ErrorBody("Method not allowed"))
  const Exhausted := Response(500, ErrorBody("Failed after multiple attempts"))

  /** The request every attempt sends: the prompt goes in as it came, even
      when it is missing or empty. */
  function Outgoing(prompt: Option<string>): ChatRequest
  {
    ChatRequest(ChatModel, [ChatMessage("user", prompt)], Some(Generation))
  }

  datatype AttemptRecord = AttemptRecord(request: ChatRequest, wait: Option<nat>)

  /** What one request led to: the response sent (None when the handler
      returns without sending one) and one record per upstream call, in order. */
  datatype Trace = Trace(response: Option<Response>, log: seq<AttemptRecord>)

  // ---------------------------------------------------------------------------
  // One attempt

  /** What an attempt makes of its outcome: text to deliver, a rate-limit wait,
      or a failure that lands in the `catch` block. */
  datatype Verdict = Deliver(content: string) | Backoff(ms: nat) | Failed

  /** `data.choices[0].message.content` of an ok reply, when the body parses,
      `choices` is non-empty, the first entry has a message and its content is
      truthy; None on every path that throws instead. */
  function Content(body: Option<Payload>): (c: Option<string>)
    ensures c.Some? <==> body.Some? && body.value.choices.Some? && |body.value.choices.value| > 0
                         && body.value.choices.value[0].message.Some?
                         && Truthy(body.value.choices.value[0].message.value.content)
    ensures c.Some? ==> c == body.value.choices.value[0].message.value.content
  {
    match body
    case None => None
    case Some(data) =>
      match data.choices
      case None => None
      case Some(choices) =>
        if |choices| == 0 then None
        else
          match choices[0].message
          case None => None
          case Some(m) => if Truthy(m.content) then m.content else None
  }

  /** The wait after a 429 on attempt `attempt`: the header's seconds when the
      header is truthy, otherwise linear backoff. */
  function WaitTime(attempt: nat, retryAfter: Option<DigitString>): nat
  {
    if Truthy(retryAfter) then ParseDecimal(retryAfter.value) * 1000 else RetryDelay * attempt
  }

  function Classify(attempt: nat, o: Outcome): (v: Verdict)
    ensures v.Deliver? <==> o.Reply? && IsOk(o.status) && Content(o.body).Some?
    ensures v.Deliver? ==> Content(o.body) == Some(v.content) && |v.content| > 0
    ensures v.Backoff? <==> o.Reply? && o.status == 429
    ensures v.Backoff? ==> v.ms == WaitTime(attempt, o.retryAfter)
  {
    match o
    case Throws => Failed
    case Reply(status, retryAfter, body) =>
      if IsOk(status) then
        match Content(body)
        case Some(text) => Deliver(text)
        case None => Failed
      else if status == 429 then Backoff(WaitTime(attempt, retryAfter))
      else Failed
  }

  /** The loop goes on after attempt `attempt` with verdict `v`: after a 429,
      or after a failure that is not on the last attempt. */
  predicate Continues(attempt: nat, v: Verdict)
  {
    v.Backoff? || (v.Failed? && attempt < MaxRetries)
  }

  /** The response an attempt that ends the handler sends, if any. */
  function Answer(v: Verdict): Option<Response>
  {
    match v
    case Deliver(text) => Some(Response(200, MessageBody(text)))
    case Failed => Some(Exhausted)
    case Backoff(_) => None
  }

  function WaitOf(v: Verdict): Option<nat>
  {
    if v.Backoff? then Some(v.ms) else None
  }

  // ---------------------------------------------------------------------------
  // The attempt loop, as written

  /** The verdicts the five attempts reach: attempt n works on `replies[n - 1]`. */
  function Verdicts(replies: seq<Outcome>): (vs: seq<Verdict>)
    requires MaxRetries <= |replies|
    ensures |vs| == MaxRetries
    ensures forall i | 0 <= i < MaxRetries :: vs[i] == Classify(i + 1, replies[i])
  {
    seq(MaxRetries, i requires 0 <= i < MaxRetries => Classify(i + 1, replies[i]))
  }

  /** The trace of attempts `attempt` .. MaxRetries, given every attempt's
      verdict: the loop stops early on a delivery or on a failure of the last
      attempt; a 429 on the last attempt waits and then leaves the loop
      without a response. */
  function Attempts(prompt: Option<string>, vs: seq<Verdict>, attempt: nat): (t: Trace)
    requires 1 <= attempt <= MaxRetries == |vs|
    ensures 1 <= |t.log| <= MaxRetries - attempt + 1
    ensures t.response.Some? ==> t.response.value == Exhausted || t.response.value.status == 200
    decreases MaxRetries - attempt
  {
    var v := vs[attempt - 1];
    var record := AttemptRecord(Outgoing(prompt), WaitOf(v));
    if Continues(attempt, v) && attempt < MaxRetries then
      var rest := Attempts(prompt, vs, attempt + 1);
      Trace(rest.response, [record] + rest.log)
    else
      Trace(Answer(v), [record])
  }

  /** The handler on one request: the verb check, then the attempt loop. */
  function Relay(verb: string, prompt: Option<string>, replies: seq<Outcome>): (t: Trace)
    requires MaxRetries <= |replies|
    ensures (verb == "POST") <==> |t.log| > 0
    ensures (t.response == Some(NotAllowed)) <==> verb != "POST"
    ensures |t.log| <= MaxRetries
  {
    if verb == "POST" then Attempts(prompt, Verdicts(replies), 1) else Trace(Some(NotAllowed), [])
  }

  /** `log` continued by the attempts from `attempt` on; past the last
      attempt the loop has ended without a response. */
  ghost function Resume(log: seq<AttemptRecord>, prompt: Option<string>, vs: seq<Verdict>, attempt: nat): Trace
    requires 1 <= attempt <= MaxRetries + 1 && MaxRetries == |vs|
  {
    if attempt > MaxRetries then Trace(None, log)
    else
      var rest := Attempts(prompt, vs, attempt);
      Trace(rest.response, log + rest.log)
  }

  /** One turn of the loop: attempt `attempt` either ends the handler with
      the answer its verdict gives or hands over to the next attempt. */
  lemma ResumeStep(log: seq<AttemptRecord>, prompt: Option<string>, vs: seq<Verdict>, attempt: nat)
    requires 1 <= attempt <= MaxRetries == |vs|
    ensures var v := vs[attempt - 1];
            var record := AttemptRecord(Outgoing(prompt), WaitOf(v));
            Resume(log, prompt, vs, attempt) ==
              if Continues(attempt, v) then Resume(log + [record], prompt, vs, attempt + 1)
              else Trace(Answer(v), log + [record])
  {
    var v := vs[attempt - 1];
    var record := AttemptRecord(Outgoing(prompt), WaitOf(v));
    if Continues(attempt, v) && attempt < MaxRetries {
      var rest := Attempts(prompt, vs, attempt + 1);
      assert log + ([record] + rest.log) == (log + [record]) + rest.log;
    }
  }

  /** The handler itself: the `for` loop over attempts with its early returns. */
  method Handler(verb: string, prompt: Option<string>, replies: seq<Outcome>) returns (t: Trace)
    requires MaxRetries <= |replies|
    ensures t == Relay(verb, prompt, replies)
  {
    if verb != "POST" {
      return Trace(Some(NotAllowed), []);
    }
    ghost var vs := Verdicts(replies);
    var log: seq<AttemptRecord> := [];
    var attempt: nat := 1;
    while attempt <= MaxRetries
      invariant 1 <= attempt <= MaxRetries + 1
      invariant Attempts(prompt, vs, 1) == Resume(log, prompt, vs, attempt)
    {
      ResumeStep(log, prompt, vs, attempt);
      var sent := Outgoing(prompt);
      var reply := replies[attempt - 1];
      var wait: Option<nat> := None;
      if reply.Reply? && IsOk(reply.status) {
        var text := Content(reply.body);
        if text.Some? {
          return Trace(Some(Response(200, MessageBody(text.value))), log + [AttemptRecord(sent, None)]);
        }
        // "Response content is missing." / "No content returned": caught below
        if attempt == MaxRetries {
          return Trace(Some(Exhausted), log + [AttemptRecord(sent, None)]);
        }
      } else if reply.Reply? && reply.status == 429 {
        wait := Some(WaitTime(attempt, reply.retryAfter));
      } else if attempt == MaxRetries {
        // a thrown exception or an error status, on the last attempt
        return Trace(Some(Exhausted), log + [AttemptRecord(sent, None)]);
      }
      log := log + [AttemptRecord(sent, wait)];
      attempt := attempt + 1;
    }
    return Trace(None, log);
  }

  // ---------------------------------------------------------------------------
  // What the loop does, stated attempt by attempt

  /** Attempts `first` .. `last - 1` all continue the loop and attempt `last`
      ends it or is the fifth: `last` is where the loop stops. */
  ghost predicate StopsAt(vs: seq<Verdict>, first: nat, last: nat)
    requires 1 <= first && MaxRetries == |vs|
  {
    first <= last <= MaxRetries &&
    (forall i | first - 1 <= i < last - 1 :: Continues(i + 1, vs[i])) &&
    (last == MaxRetries || !Continues(last, vs[last - 1]))
  }

  /** Record number `i - (first - 1)` of `log` is that of attempt `i + 1`: the
      request sent and the wait its verdict asks for. */
  ghost predicate Records(prompt: Option<string>, vs: seq<Verdict>, first: nat, log: seq<AttemptRecord>)
    requires 1 <= first && first + |log| - 1 <= MaxRetries == |vs|
  {
    forall i | first - 1 <= i < first - 1 + |log| :: log[i - (first - 1)] == AttemptRecord(Outgoing(prompt), WaitOf(vs[i]))
  }

  /** `t` is what attempts `first` onwards go through: the loop runs up to the
      attempt where it stops, each attempt leaves its record, and the response
      is the one the verdict of the last attempt gives. */
  ghost predicate ExplainsFrom(prompt: Option<string>, vs: seq<Verdict>, first: nat, t: Trace)
    requires 1 <= first <= MaxRetries == |vs|
  {
    var last := first + |t.log| - 1;
    |t.log| >= 1 && StopsAt(vs, first, last) && Records(prompt, vs, first, t.log) &&
    t.response == Answer(vs[last - 1])
  }

  lemma {:induction false} AttemptsStop(prompt: Option<string>, vs: seq<Verdict>, first: nat)
    requires 1 <= first <= MaxRetries == |vs|
    ensures var t := Attempts(prompt, vs, first);
            StopsAt(vs, first, first + |t.log| - 1) && t.response == Answer(vs[first + |t.log| - 2])
    decreases MaxRetries - first
  {
    if Continues(first, vs[first - 1]) && first < MaxRetries {
      AttemptsStop(prompt, vs, first + 1);
    }
  }

  lemma {:induction false} AttemptsRecords(prompt: Option<string>, vs: seq<Verdict>, first: nat)
    requires 1 <= first <= MaxRetries == |vs|
    ensures Records(prompt, vs, first, Attempts(prompt, vs, first).log)
    decreases MaxRetries - first
  {
    var v := vs[first - 1];
    var t := Attempts(prompt, vs, first);
    if Continues(first, v) && first < MaxRetries {
      AttemptsRecords(prompt, vs, first + 1);
      var rest := Attempts(prompt, vs, first + 1);
      assert t.log == [AttemptRecord(Outgoing(prompt), WaitOf(v))] + rest.log;
      forall i | first - 1 <= i < first - 1 + |t.log|
        ensures t.log[i - (first - 1)] == AttemptRecord(Outgoing(prompt), WaitOf(vs[i]))
      {
        if i > first - 1 {
          assert t.log[i - (first - 1)] == rest.log[i - first];
        }
      }
    }
  }

  lemma AttemptsExplained(prompt: Option<string>, vs: seq<Verdict>, first: nat)
    requires 1 <= first <= MaxRetries == |vs|
    ensures ExplainsFrom(prompt, vs, first, Attempts(prompt, vs, first))
  {
    AttemptsStop(prompt, vs, first);
    AttemptsRecords(prompt, vs, first);
  }

  /** On a POST, the attempts made are attempts 1 .. n for the first n at which
      the loop stops (or 5), every one sends the prompt unchecked, and the
      response is the one the n-th attempt's verdict gives. */
  lemma RelayExplained(prompt: Option<string>, replies: seq<Outcome>)
    requires MaxRetries <= |replies|
    ensures ExplainsFrom(prompt, Verdicts(replies), 1, Relay("POST", prompt, replies))
  {
    AttemptsExplained(prompt, Verdicts(replies), 1);
  }

  /** The first attempt whose reply carries text answers 200 with that text,
      and no later attempt is made. */
  lemma FirstDeliveryAnswers(prompt: Option<string>, replies: seq<Outcome>, k: nat, text: string)
    requires k < MaxRetries <= |replies|
    requires forall j | 0 <= j < k :: !Classify(j + 1, replies[j]).Deliver?
    requires Classify(k + 1, replies[k]) == Deliver(text)
    ensures Relay("POST", prompt, replies).response == Some(Response(200, MessageBody(text)))
    ensures |Relay("POST", prompt, replies).log| == k + 1
  {
    RelayExplained(prompt, replies);
  }

  /** A 200 response always carries the text of the last attempt made, which
      was the first to deliver any. */
  lemma AnswerComesFromDelivery(prompt: Option<string>, replies: seq<Outcome>)
    requires MaxRetries <= |replies|
    requires Relay("POST", prompt, replies).response.Some?
    requires Relay("POST", prompt, replies).response.value.status == 200
    ensures var t := Relay("POST", prompt, replies);
            var n := |t.log|;
            Classify(n, replies[n - 1]) == Deliver(t.response.value.body.message) &&
            |t.response.value.body.message| > 0 &&
            forall j | 0 <= j < n - 1 :: !Classify(j + 1, replies[j]).Deliver?
  {
    RelayExplained(prompt, replies);
  }

  /** Attempts that fail on attempts 1-4 are swallowed without any wait; when
      every attempt fails the fifth answers 500 after five calls. */
  lemma AllFailuresExhaust(prompt: Option<string>, replies: seq<Outcome>)
    requires MaxRetries <= |replies|
    requires forall j | 0 <= j < MaxRetries :: Classify(j + 1, replies[j]).Failed?
    ensures Relay("POST", prompt, replies).response == Some(Exhausted)
    ensures |Relay("POST", prompt, replies).log| == MaxRetries
    ensures forall i | 0 <= i < MaxRetries :: Relay("POST", prompt, replies).log[i].wait.None?
  {
    RelayExplained(prompt, replies);
  }

  /** A reply that fails its attempt (any non-429 error status, a body without
      text, an exception) can be swapped for any other such reply without
      changing anything the handler does: the status code or error of the
      reply never shows. */
  lemma FailuresIndistinguishable(verb: string, prompt: Option<string>, replies: seq<Outcome>, k: nat, o: Outcome)
    requires MaxRetries <= |replies|
    requires k < |replies|
    requires Classify(k + 1, replies[k]).Failed? && Classify(k + 1, o).Failed?
    ensures Relay(verb, prompt, replies[k := o]) == Relay(verb, prompt, replies)
  {
    assert Verdicts(replies[k := o]) == Verdicts(replies);
  }

  /** On a 429 the wait is the Retry-After seconds times 1000 when the header
      is present and non-empty. */
  lemma RetryAfterHonoured(attempt: nat, seconds: nat, body: Option<Payload>)
    ensures Classify(attempt, Reply(429, Some(Decimal(seconds)), body)) == Backoff(1000 * seconds)
  {
    ParseDecimalOfDecimal(seconds);
  }

  /** Without a usable header the wait grows linearly: 1000, 2000, 3000, 4000 ms
      on attempts 1-4; an empty header counts as none. */
  lemma LinearBackoff(attempt: nat, header: Option<DigitString>, body: Option<Payload>)
    requires header == None || header == Some("")
    ensures Classify(attempt, Reply(429, header, body)) == Backoff(1000 * attempt)
  {
  }

  // ---------------------------------------------------------------------------
  // The final-attempt 429

  /** As written, a 429 on the fifth attempt waits and then falls out of the
      loop: five calls are made and no response is ever sent. */
  lemma FinalRateLimitUnanswered(prompt: Option<string>, replies: seq<Outcome>, header: Option<DigitString>, body: Option<Payload>)
    requires MaxRetries <= |replies|
    requires forall j | 0 <= j < MaxRetries - 1 :: Continues(j + 1, Classify(j + 1, replies[j]))
    requires replies[MaxRetries - 1] == Reply(429, header, body)
    ensures Relay("POST", prompt, replies).response == None
    ensures |Relay("POST", prompt, replies).log| == MaxRetries
    ensures Relay("POST", prompt, replies).log[MaxRetries - 1].wait == Some(WaitTime(MaxRetries, header))
  {
    RelayExplained(prompt, replies);
  }

  /** The concrete case: 429 without Retry-After on every attempt waits 1000,
      2000, 3000, 4000 and 5000 ms and sends nothing. */
  lemma AllRateLimitedUnanswered(prompt: Option<string>, body: Option<Payload>)
    ensures var t := Relay("POST", prompt, seq(MaxRetries, _ => Reply(429, None, body)));
            t.response == None &&
            t.log == seq(MaxRetries, i requires 0 <= i => AttemptRecord(Outgoing(prompt), Some(1000 * (i + 1))))
  {
    var replies := seq(MaxRetries, _ => Reply(429, None, body));
    RelayExplained(prompt, replies);
  }

  /** The evidently intended loop: a 429 on the last attempt is a failure like
      any other and answers 500 at once, without waiting first. */
  function AttemptsIntended(prompt: Option<string>, vs: seq<Verdict>, attempt: nat): (t: Trace)
    requires 1 <= attempt <= MaxRetries == |vs|
    ensures t.response.Some?
    ensures 1 <= |t.log| <= MaxRetries - attempt + 1
    decreases MaxRetries - attempt
  {
    var v := vs[attempt - 1];
    if Continues(attempt, v) && attempt < MaxRetries then
      var rest := AttemptsIntended(prompt, vs, attempt + 1);
      Trace(rest.response, [AttemptRecord(Outgoing(prompt), WaitOf(v))] + rest.log)
    else if v.Deliver? then
      Trace(Answer(v), [AttemptRecord(Outgoing(prompt), None)])
    else
      Trace(Some(Exhausted), [AttemptRecord(Outgoing(prompt), None)])
  }

  /** Wherever the handler as written answers, the intended loop does exactly
      the same; it differs only where the written one sends nothing. */
  lemma {:induction false} IntendedAgreesWhereAnswered(prompt: Option<string>, vs: seq<Verdict>, attempt: nat)
    requires 1 <= attempt <= MaxRetries == |vs|
    requires Attempts(prompt, vs, attempt).response.Some?
    ensures AttemptsIntended(prompt, vs, attempt) == Attempts(prompt, vs, attempt)
    decreases MaxRetries - attempt
  {
    var v := vs[attempt - 1];
    if Continues(attempt, v) && attempt < MaxRetries {
      IntendedAgreesWhereAnswered(prompt, vs, attempt + 1);
    }
  }

  /** With the intended loop, 429 without Retry-After on every attempt waits
      1000, 2000, 3000 and 4000 ms and then answers 500 after five calls. */
  lemma AllRateLimitedIntended(prompt: Option<string>, body: Option<Payload>)
    ensures var t := AttemptsIntended(prompt, Verdicts(seq(MaxRetries, _ => Reply(429, None, body))), 1);
            t.response == Some(Exhausted) &&
            t.log == seq(MaxRetries, i requires 0 <= i => AttemptRecord(Outgoing(prompt), if i < 4 then Some(1000 * (i + 1)) else None))
  {
    var vs := Verdicts(seq(MaxRetries, _ => Reply(429, None, body)));
    assert vs == [Backoff(1000), Backoff(2000), Backoff(3000), Backoff(4000), Backoff(5000)];
  }
}
