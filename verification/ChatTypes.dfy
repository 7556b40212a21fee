/**
 * The records the chat client passes around (types.ts), together with the
 * rate-limit records that the service and the notification component share.
 * Timestamps are integer epoch milliseconds.
 */
module ChatTypes {
  import opened JsRuntime

  datatype Role = User | Model

  datatype Source = Source(title: string, uri: string)

  /** An image attachment, already encoded as base64 text. */
  datatype Attachment = Attachment(mimeType: string, data: string)

  datatype Message = Message(
    role: Role,
    content: string,
    timestamp: int,
    sources: Option<seq<Source>>,
    attachments: Option<seq<Attachment>>,
    isSystemMessage: bool)

  /** An agent profile; the persona prompt and colour are opaque and left out. */
  datatype Agent = Agent(
    id: string,
    name: string,
    role: string,
    description: string,
    avatar: string,
    isTriage: bool)

  datatype Session = Session(
    id: string,
    agentId: string,
    title: string,
    lastMessage: string,
    timestamp: int,
    isActive: bool)

  /** The triage decision; every field other than `handoff` may be absent. */
  datatype HandOffResponse = HandOffResponse(
    handoff: bool,
    agentId: Option<string>,
    message: Option<string>,
    reason: Option<string>)

  /** Requests per minute, tokens per minute, requests per day, or not recognised. */
  datatype LimitType = RPM | TPM | RPD | Unknown

  /** What the service attaches to the error it throws for a classified rate limit. */
  datatype RateLimitError = RateLimitError(
    isRateLimitError: bool,
    limitType: LimitType,
    resetTime: Option<int>,
    retryAfterSeconds: Option<ParsedInt>,
    message: string)

  /** What the notification component is given to display. */
  datatype RateLimitState = RateLimitState(
    isLimited: bool,
    limitType: LimitType,
    resetTime: Option<int>,
    message: string)
}
