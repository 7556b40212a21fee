/**
 * Classification of backend failures as rate limits (services/geminiService.ts,
 * `isUsingFreeApiKey`, `isRateLimitError`, `parseRateLimitError` and the gate in
 * the catch block of `sendMessage`).
 *
 * HTTP status 429 is "Too Many Requests" (section 4 of RFC 6585); a
 * `retry-after` header in the delay-seconds form of section 10.2.3 of RFC 9110
 * is a run of decimal digits and overrides the window derived from the message.
 */
module RateLimitClassifier {
  import opened JsRuntime
  import opened ChatTypes

  /** A failure thrown by the backend client, as far as the classifier looks at it. */
  datatype BackendError = BackendError(
    status: Option<int>,           // error.status
    message: Option<string>,       // error.message
    text: string,                  // error.toString()
    serialized: string,            // JSON.stringify(error)
    retryAfter: Option<string>)    // error.headers['retry-after']

  /** How a failure leaves `sendMessage`: with rate-limit details attached, or rethrown as it was. */
  datatype Failure = RateLimited(info: RateLimitError) | Unclassified(error: BackendError)

  const TOO_MANY_REQUESTS: int := 429
  const MS_PER_DAY: int := 86400000
  const MESSAGE_KEYWORDS: seq<string> := ["quota", "rate limit", "resource has been exhausted", "too many requests"]
  const SERIALIZED_KEYWORDS: seq<string> := ["quota", "rate limit"]
  const FRIENDLY_PREFIX: string := "API rate limit exceeded. "
  const RPM_ADVICE: string := "You've sent too many requests per minute. Please wait a moment."
  const TPM_ADVICE: string := "Token usage limit reached. Please wait a moment."
  const RPD_ADVICE: string := "Daily request limit reached. You can resume tomorrow."
  const UNKNOWN_ADVICE: string := "Please try again later."

  /** Rate-limit handling is on only when API_KEY_TYPE, lower-cased, is "free". */
  function IsUsingFreeApiKey(apiKeyType: Option<string>): bool {
    apiKeyType.Some? && ToLower(apiKeyType.value) == "free"
  }

  /** The gate accepts "free" in any mix of upper and lower case, and nothing else. */
  lemma FreeKeyIsCaseInsensitiveFree(apiKeyType: Option<string>)
    ensures IsUsingFreeApiKey(apiKeyType) <==>
      apiKeyType.Some? && |apiKeyType.value| == 4 &&
      forall i | 0 <= i < 4 :: apiKeyType.value[i] == "free"[i] || apiKeyType.value[i] == "FREE"[i]
  {
    if apiKeyType.Some? && |apiKeyType.value| == 4 {
      var k := apiKeyType.value;
      var l := ToLower(k);
      if forall i | 0 <= i < 4 :: k[i] == "free"[i] || k[i] == "FREE"[i] {
        assert l == "free" by {
          forall i | 0 <= i < 4 ensures l[i] == "free"[i] {
            assert l[i] == LowerChar(k[i]);
          }
        }
      }
      if l == "free" {
        forall i | 0 <= i < 4 ensures k[i] == "free"[i] || k[i] == "FREE"[i] {
          assert LowerChar(k[i]) == "free"[i];
        }
      }
    }
  }

  /** `error?.message?.toLowerCase() || ''`. */
  function LowerMessage(e: BackendError): string {
    ToLower(OrElse(e.message, ""))
  }

  predicate MentionsAny(s: string, keywords: seq<string>) {
    exists k | k in keywords :: Contains(s, k)
  }

  /** `isRateLimitError`. */
  predicate IsRateLimitError(e: BackendError) {
    e.status == Some(TOO_MANY_REQUESTS)
    || MentionsAny(LowerMessage(e), MESSAGE_KEYWORDS)
    || MentionsAny(ToLower(e.serialized), SERIALIZED_KEYWORDS)
  }

  lemma MentionsAnyIffOccurs(s: string, keywords: seq<string>)
    ensures MentionsAny(s, keywords) <==> exists k, i | k in keywords :: OccursAt(s, k, i)
  {
    forall k | k in keywords {
      ContainsIffOccurs(s, k);
    }
  }

  /** Classified exactly when the status is 429 or a keyword occurs at some position of the lower-cased texts. */
  lemma RateLimitIffKeywordOccurs(e: BackendError)
    ensures IsRateLimitError(e) <==>
      || e.status == Some(TOO_MANY_REQUESTS)
      || (exists k, i | k in MESSAGE_KEYWORDS :: OccursAt(LowerMessage(e), k, i))
      || (exists k, i | k in SERIALIZED_KEYWORDS :: OccursAt(ToLower(e.serialized), k, i))
  {
    MentionsAnyIffOccurs(LowerMessage(e), MESSAGE_KEYWORDS);
    MentionsAnyIffOccurs(ToLower(e.serialized), SERIALIZED_KEYWORDS);
    assert IsRateLimitError(e) <==>
      (e.status == Some(TOO_MANY_REQUESTS)
       || MentionsAny(LowerMessage(e), MESSAGE_KEYWORDS)
       || MentionsAny(ToLower(e.serialized), SERIALIZED_KEYWORDS));
  }

  /** `error?.message || error?.toString() || 'Rate limit exceeded'`. */
  function ErrorMessage(e: BackendError): string {
    OrElse(e.message, OrElse(Some(e.text), "Rate limit exceeded"))
  }

  /** The limit type named by the lower-cased message, first match wins. */
  function LimitTypeOf(m: string): LimitType {
    if Contains(m, "minute") || Contains(m, "rpm") then RPM
    else if Contains(m, "tpm") || Contains(m, "token") then TPM
    else if Contains(m, "day") || Contains(m, "daily") || Contains(m, "rpd") then RPD
    else Unknown
  }

  /** Keyword priority: a type is chosen only when none of the earlier keyword groups occurs. */
  lemma LimitTypePriority(m: string)
    ensures LimitTypeOf(m) == RPM <==>
      (exists i :: OccursAt(m, "minute", i)) || (exists i :: OccursAt(m, "rpm", i))
    ensures LimitTypeOf(m) == TPM ==>
      (forall i :: !OccursAt(m, "minute", i) && !OccursAt(m, "rpm", i)) &&
      ((exists i :: OccursAt(m, "tpm", i)) || (exists i :: OccursAt(m, "token", i)))
    ensures LimitTypeOf(m) == RPD ==>
      (forall i :: !OccursAt(m, "minute", i) && !OccursAt(m, "rpm", i) &&
                   !OccursAt(m, "tpm", i) && !OccursAt(m, "token", i)) &&
      ((exists i :: OccursAt(m, "day", i)) || (exists i :: OccursAt(m, "daily", i)) ||
       (exists i :: OccursAt(m, "rpd", i)))
    ensures LimitTypeOf(m) == Unknown ==>
      forall k, i | k in ["minute", "rpm", "tpm", "token", "day", "daily", "rpd"] :: !OccursAt(m, k, i)
  {
    ContainsIffOccurs(m, "minute");
    ContainsIffOccurs(m, "rpm");
    ContainsIffOccurs(m, "tpm");
    ContainsIffOccurs(m, "token");
    ContainsIffOccurs(m, "day");
    ContainsIffOccurs(m, "daily");
    ContainsIffOccurs(m, "rpd");
  }

  /** A message naming a rate limit and a minute is classified as a per-minute limit with a 60 s window. */
  lemma RateLimitPerMinuteMessage(e: BackendError, i: int, j: int)
    requires e.message.Some? && e.message.value != ""
    requires OccursAt(ToLower(e.message.value), "rate limit", i)
    requires OccursAt(ToLower(e.message.value), "minute", j)
    ensures IsRateLimitError(e)
    ensures LimitTypeOf(ToLower(ErrorMessage(e))) == RPM
  {
    var m := ToLower(e.message.value);
    assert LowerMessage(e) == m && ToLower(ErrorMessage(e)) == m;
    ContainsIffOccurs(m, "rate limit");
    ContainsIffOccurs(m, "minute");
    assert "rate limit" in MESSAGE_KEYWORDS;
  }

  /** The first UTC midnight strictly after `now` (epoch milliseconds). */
  function NextUtcMidnight(now: int): (r: int)
    ensures r % MS_PER_DAY == 0
    ensures now < r <= now + MS_PER_DAY
  {
    (now / MS_PER_DAY + 1) * MS_PER_DAY
  }

  /** `Math.floor((tomorrow - now) / 1000)`: whole seconds left until the next UTC midnight. */
  function SecondsUntilUtcMidnight(now: int): (r: int)
    ensures 0 <= r <= 86400
    ensures now + r * 1000 <= NextUtcMidnight(now) < now + (r + 1) * 1000
  {
    (NextUtcMidnight(now) - now) / 1000
  }

  /** The per-type sentence that follows the fixed prefix of the friendly message. */
  function LimitAdvice(t: LimitType): string {
    match t
    case RPM => RPM_ADVICE
    case TPM => TPM_ADVICE
    case RPD => RPD_ADVICE
    case Unknown => UNKNOWN_ADVICE
  }

  /**
   * The retry window derived from the message alone, before any retry-after
   * header: a recognised type always has one, a whole number of seconds of at
   * most one day; an unrecognised one has none.
   */
  function KeywordWindow(t: LimitType, now: int): (r: Option<ParsedInt>)
    ensures r.Some? <==> t != Unknown
    ensures r.Some? ==> r.value.Num? && 0 <= r.value.value <= 86400
  {
    match t
    case RPM => Some(Num(60))
    case TPM => Some(Num(60))
    case RPD => Some(Num(SecondsUntilUtcMidnight(now)))
    case Unknown => None
  }

  predicate HasRetryAfter(e: BackendError) {
    e.retryAfter.Some? && e.retryAfter.value != ""
  }

  /**
   * What `parseRateLimitError` promises about the details it attaches to `e` at
   * clock reading `now`: the limit type follows the keyword priority on the
   * lower-cased message; a retry-after header overrides the window that type
   * gives; a reset time exists exactly when the seconds are a non-zero number,
   * and lies that many seconds ahead; the message is the fixed prefix and the
   * type's advice.
   */
  predicate ParsedFrom(info: RateLimitError, e: BackendError, now: int) {
    && info.isRateLimitError
    && info.limitType == LimitTypeOf(ToLower(ErrorMessage(e)))
    && (HasRetryAfter(e) ==> info.retryAfterSeconds == Some(ParseInt(e.retryAfter.value)))
    && (!HasRetryAfter(e) ==> info.retryAfterSeconds == KeywordWindow(info.limitType, now))
    && (info.resetTime.Some? <==>
        info.retryAfterSeconds.Some? && info.retryAfterSeconds.value.Num? && info.retryAfterSeconds.value.value != 0)
    && (info.resetTime.Some? ==> info.resetTime.value == now + info.retryAfterSeconds.value.value * 1000)
    && info.message == FRIENDLY_PREFIX + LimitAdvice(info.limitType)
  }

  /** The description leaves nothing open: one error at one clock reading has one set of details. */
  lemma ParsedFromDetermines(a: RateLimitError, b: RateLimitError, e: BackendError, now: int)
    requires ParsedFrom(a, e, now) && ParsedFrom(b, e, now)
    ensures a == b
  {
  }

  /** `parseRateLimitError`, evaluated at clock reading `now`. */
  method ParseRateLimitError(e: BackendError, now: int) returns (info: RateLimitError)
    ensures ParsedFrom(info, e, now)
  {
    var errorMessage := OrElse(e.message, OrElse(Some(e.text), "Rate limit exceeded"));
    var limitType := Unknown;
    var retryAfterSeconds: Option<ParsedInt> := None;
    var resetTime: Option<int> := None;

    var msgLower := ToLower(errorMessage);
    if Contains(msgLower, "minute") || Contains(msgLower, "rpm") {
      limitType := RPM;
      retryAfterSeconds := Some(Num(60));
    } else if Contains(msgLower, "tpm") || Contains(msgLower, "token") {
      limitType := TPM;
      retryAfterSeconds := Some(Num(60));
    } else if Contains(msgLower, "day") || Contains(msgLower, "daily") || Contains(msgLower, "rpd") {
      limitType := RPD;
      retryAfterSeconds := Some(Num(SecondsUntilUtcMidnight(now)));
    }

    if e.retryAfter.Some? && e.retryAfter.value != "" {
      retryAfterSeconds := Some(ParseInt(e.retryAfter.value));
    }

    if retryAfterSeconds.Some? && retryAfterSeconds.value.Num? && retryAfterSeconds.value.value != 0 {
      resetTime := Some(now + retryAfterSeconds.value.value * 1000);
    }

    var friendlyMessage := FRIENDLY_PREFIX;
    if limitType == RPM {
      friendlyMessage := friendlyMessage + RPM_ADVICE;
    } else if limitType == TPM {
      friendlyMessage := friendlyMessage + TPM_ADVICE;
    } else if limitType == RPD {
      friendlyMessage := friendlyMessage + RPD_ADVICE;
    } else {
      friendlyMessage := friendlyMessage + UNKNOWN_ADVICE;
    }

    info := RateLimitError(true, limitType, resetTime, retryAfterSeconds, friendlyMessage);
  }

  /** With no header, a per-minute limit resets exactly one minute from now. */
  lemma PerMinuteResetsInOneMinute(t: LimitType, now: int)
    requires t == RPM || t == TPM
    ensures KeywordWindow(t, now) == Some(Num(60))
    ensures now + KeywordWindow(t, now).value.value * 1000 == now + 60000
  {
  }

  /**
   * With no header, a daily limit resets within the second before the next UTC
   * midnight, or carries no reset time when less than a second is left.
   */
  lemma DailyResetNearMidnight(now: int)
    ensures KeywordWindow(RPD, now).value.Num?
    ensures var w := KeywordWindow(RPD, now).value.value;
      (w == 0 <==> NextUtcMidnight(now) - now < 1000) &&
      NextUtcMidnight(now) - 1000 < now + w * 1000 <= NextUtcMidnight(now)
  {
  }

  /**
   * A delay-seconds header of `n` overrides any window: the details say to retry
   * after `n` seconds, with the reset that many seconds ahead, or no reset time
   * for a header of 0.
   */
  lemma RetryAfterOverrides(info: RateLimitError, e: BackendError, now: int, n: nat)
    requires e.retryAfter == Some(NatToString(n)) && ParsedFrom(info, e, now)
    ensures info.retryAfterSeconds == Some(Num(n))
    ensures n != 0 ==> info.resetTime == Some(now + n * 1000)
    ensures n == 0 ==> info.resetTime.None?
  {
    ParseIntRoundTrip(n);
  }

  /**
   * The catch block of `sendMessage`: with a free key, a rate-limit failure is
   * rethrown with its classification attached; every other failure is rethrown unchanged.
   */
  method ClassifyFailure(e: BackendError, apiKeyType: Option<string>, now: int) returns (f: Failure)
    ensures f.Unclassified? <==> !(IsUsingFreeApiKey(apiKeyType) && IsRateLimitError(e))
    ensures f.Unclassified? ==> f.error == e
    ensures f.RateLimited? ==> ParsedFrom(f.info, e, now)
  {
    if IsUsingFreeApiKey(apiKeyType) {
      if IsRateLimitError(e) {
        var info := ParseRateLimitError(e, now);
        return RateLimited(info);
      }
    }
    return Unclassified(e);
  }
}
