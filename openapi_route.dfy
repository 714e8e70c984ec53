/** The direct relay (`POST` in app/api/openapi/route.js): one call to the
    chat-completions endpoint per request, no retry, the upstream envelope
    relayed unchanged on success and one of two fixed errors otherwise.

    The single upstream call is the parameter `reply`; whether the call is
    made at all shows in the `sent` list of the result. */
module OpenApiRoute {
  import opened Upstream

  const PromptRequired := Response(400, ErrorBody("Prompt is required"))
  const UpstreamFailed := Response(500, ErrorBody("Failed to fetch data from OpenAI API"))
  const InternalError := Response(500, ErrorBody("Internal server error"))

  /** The request this route sends: the model and the prompt as the single
      user message, with no sampling parameters. */
  function Outgoing(prompt: string): ChatRequest
  {
    ChatRequest(ChatModel, [ChatMessage("user", Some(prompt))], None)
  }

  /** The response and the requests sent upstream, in order. */
  datatype Exchange = Exchange(response: Response, sent: seq<ChatRequest>)

  /** A falsy prompt is refused before any call; otherwise one call is made
      and its outcome decides the response. */
  function Post(prompt: Option<string>, reply: Outcome): (x: Exchange)
    ensures x.sent == (if Truthy(prompt) then [Outgoing(prompt.value)] else [])
    ensures x.response.status == 200 <==>
              Truthy(prompt) && reply.Reply? && IsOk(reply.status) && reply.body.Some?
    ensures x.response.status == 200 ==> x.response.body == Envelope(reply.body.value)
    ensures x.response.status != 200 ==> x.response in {PromptRequired, UpstreamFailed, InternalError}
  {
    if !Truthy(prompt) then Exchange(PromptRequired, [])
    else
      var sent := [Outgoing(prompt.value)];
      match reply
      case Throws => Exchange(InternalError, sent)
      case Reply(status, _, body) =>
        if IsOk(status) then
          match body
          case Some(data) => Exchange(Response(200, Envelope(data)), sent)
          case None => Exchange(InternalError, sent)   // response.json() throws
        else
          match body
          case Some(_) => Exchange(UpstreamFailed, sent)
          case None => Exchange(InternalError, sent)   // the error body does not parse
  }

  /** A missing or empty prompt gets 400 and no call, whatever the upstream
      would have said. */
  lemma FalsyPromptRejected(prompt: Option<string>, reply: Outcome)
    requires !Truthy(prompt)
    ensures Post(prompt, reply) == Exchange(PromptRequired, [])
  {
  }

  /** There is no retry: a 429 is answered like any other error status,
      after exactly one call. */
  lemma RateLimitNotRetried(prompt: string, retryAfter: Option<DigitString>, error: Payload)
    requires |prompt| > 0
    ensures Post(Some(prompt), Reply(429, retryAfter, Some(error))) == Exchange(UpstreamFailed, [Outgoing(prompt)])
  {
  }

  /** An ok reply whose body parses is relayed as it came. */
  lemma EnvelopeRelayed(prompt: string, status: int, retryAfter: Option<DigitString>, data: Payload)
    requires |prompt| > 0 && IsOk(status)
    ensures Post(Some(prompt), Reply(status, retryAfter, Some(data))).response == Response(200, Envelope(data))
  {
  }

  /** The status code and the error body of a failed reply never reach the
      caller: any two non-ok replies whose bodies parse get the same response. */
  lemma ErrorDetailHidden(prompt: Option<string>, r1: Outcome, r2: Outcome)
    requires r1.Reply? && !IsOk(r1.status) && r1.body.Some?
    requires r2.Reply? && !IsOk(r2.status) && r2.body.Some?
    ensures Post(prompt, r1) == Post(prompt, r2)
  {
  }

  /** An exception, including a reply body that fails to parse, answers 500
      "Internal server error" once the prompt passed. */
  lemma ExceptionsAnswerInternalError(prompt: Option<string>, reply: Outcome)
    requires Truthy(prompt)
    requires reply.Throws? || reply.body.None?
    ensures Post(prompt, reply).response == InternalError
  {
  }
}
