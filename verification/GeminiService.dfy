/**
 * The service that shapes one model request and its reply (services/geminiService.ts):
 * the last six turns of history, the attachments and the query as the final user
 * turn, the search reminder for specialists, the triage decision with its
 * fallback, the de-duplicated grounding sources, and the classification of a
 * failure as a rate limit.
 *
 * The network call itself is not modelled: what the model client hands back is
 * an input (`CallOutcome`).
 */
module GeminiService {
  import opened JsRuntime
  import opened ChatTypes
  import opened RateLimitClassifier

  datatype Part = TextPart(text: string) | InlineData(mimeType: string, data: string)

  datatype Content = Content(role: Role, parts: seq<Part>)

  /** One grounding chunk of the reply; only chunks with a web reference yield a source. */
  datatype GroundingChunk = GroundingChunk(web: Option<Source>)

  /**
   * What the model client hands back: a reply (its text, what JSON.parse makes of
   * that text when it is asked to — None when parsing throws — and the grounding
   * chunks of the first candidate), or the error it threw.
   */
  datatype CallOutcome =
    | Responded(text: Option<string>, json: Option<HandOffResponse>, chunks: seq<GroundingChunk>)
    | Threw(error: BackendError)

  datatype Reply = Reply(text: string, sources: seq<Source>, handoff: Option<HandOffResponse>)

  datatype SendResult = Ok(reply: Reply) | Err(failure: Failure)

  const HISTORY_WINDOW: nat := 6
  const SEARCH_REMINDER := "\n\n(System: Remember to search docs.github.com)"
  const REPHRASE := "Could you please rephrase your request?"
  const PROCESSING := "Processing..."
  const EMPTY_JSON := "{}"

  function Min(a: nat, b: nat): nat {
    if a <= b then a else b
  }

  // ---------------------------------------------------------------------------
  // Request shaping

  /** `s.slice(start)` with JavaScript's treatment of a negative start. */
  function SliceFrom<T>(s: seq<T>, start: int): (r: seq<T>)
    ensures start < 0 ==> |r| == Min(-start, |s|)
    ensures 0 <= start ==> |r| == |s| - Min(start, |s|)
    ensures r == s[|s| - |r|..]
  {
    var from := if start < 0 then (if |s| + start < 0 then 0 else |s| + start)
                else (if start < |s| then start else |s|);
    s[from..]
  }

  function ToContent(m: Message): Content {
    Content(m.role, [TextPart(m.content)])
  }

  function ToContents(ms: seq<Message>): (r: seq<Content>)
    ensures |r| == |ms|
    ensures forall i | 0 <= i < |ms| :: r[i] == ToContent(ms[i])
  {
    if ms == [] then [] else [ToContent(ms[0])] + ToContents(ms[1..])
  }

  /** The last six messages of the history, oldest first, each as one text part. */
  function RecentHistory(history: seq<Message>): (r: seq<Content>)
    ensures |r| == Min(HISTORY_WINDOW, |history|)
    ensures forall i | 0 <= i < |r| :: r[i] == ToContent(history[|history| - |r| + i])
  {
    ToContents(SliceFrom(history, -(HISTORY_WINDOW as int)))
  }

  /**
   * The request as sent: the recent history followed by one user turn whose parts
   * are the attachments in order, the query, and — for a specialist — the search
   * reminder.
   */
  predicate IsRequestFor(contents: seq<Content>, query: string, history: seq<Message>,
                         attachments: seq<Attachment>, isTriage: bool)
  {
    var n := |attachments|;
    |contents| == Min(HISTORY_WINDOW, |history|) + 1
    && contents[..|contents| - 1] == RecentHistory(history)
    && contents[|contents| - 1].role == User
    && |contents[|contents| - 1].parts| == n + (if isTriage then 1 else 2)
    && (forall k | 0 <= k < n ::
          contents[|contents| - 1].parts[k] == InlineData(attachments[k].mimeType, attachments[k].data))
    && contents[|contents| - 1].parts[n] == TextPart(query)
    && (!isTriage ==> contents[|contents| - 1].parts[n + 1] == TextPart(SEARCH_REMINDER))
  }

  method BuildContents(query: string, history: seq<Message>, attachments: seq<Attachment>, isTriage: bool)
    returns (contents: seq<Content>)
    ensures IsRequestFor(contents, query, history, attachments, isTriage)
  {
    var recentHistory := RecentHistory(history);
    var currentParts: seq<Part> := [];
    for i := 0 to |attachments|
      invariant |currentParts| == i
      invariant forall k | 0 <= k < i ::
        currentParts[k] == InlineData(attachments[k].mimeType, attachments[k].data)
    {
      currentParts := currentParts + [InlineData(attachments[i].mimeType, attachments[i].data)];
    }
    currentParts := currentParts + [TextPart(query)];
    contents := recentHistory + [Content(User, currentParts)];
    if !isTriage {
      var last := contents[|contents| - 1];
      contents := contents[..|contents| - 1] + [Content(last.role, last.parts + [TextPart(SEARCH_REMINDER)])];
    }
  }

  /** The history window holds at most six turns, so the request holds at most seven. */
  lemma RequestLengthBounded(contents: seq<Content>, query: string, history: seq<Message>,
                             attachments: seq<Attachment>, isTriage: bool)
    requires IsRequestFor(contents, query, history, attachments, isTriage)
    ensures |contents| <= HISTORY_WINDOW + 1
    ensures |history| >= HISTORY_WINDOW ==> |contents| == HISTORY_WINDOW + 1
    ensures |contents| >= 2 ==> contents[|contents| - 2] == ToContent(history[|history| - 1])
  {
    assert contents[..|contents| - 1] == RecentHistory(history);
    if |contents| >= 2 {
      assert contents[|contents| - 2] == contents[..|contents| - 1][|contents| - 2];
    }
  }

  // ---------------------------------------------------------------------------
  // The triage reply

  /** What the reply is when JSON.parse throws on the triage text. */
  const UNPARSEABLE_DECISION := HandOffResponse(false, None, Some(REPHRASE), None)

  /** What JSON.parse("{}") gives: an object with no fields. */
  const EMPTY_DECISION := HandOffResponse(false, None, None, None)

  /**
   * The triage reply: the decoded decision (the empty object when the text is
   * empty or absent, the rephrase request when it does not parse), with the
   * decision's message as the text, or "Processing..." when it has none.
   */
  function TriageReply(text: Option<string>, json: Option<HandOffResponse>): (r: Reply)
    ensures r.sources == [] && r.handoff.Some? && r.text != ""
    ensures OrElse(text, EMPTY_JSON) == EMPTY_JSON ==> r.handoff == Some(EMPTY_DECISION) && r.text == PROCESSING
    ensures OrElse(text, EMPTY_JSON) != EMPTY_JSON && json.None? ==>
              r.handoff == Some(UNPARSEABLE_DECISION) && r.text == REPHRASE
    ensures OrElse(text, EMPTY_JSON) != EMPTY_JSON && json.Some? ==> r.handoff == json
    ensures r.handoff.value.message.Some? && r.handoff.value.message.value != "" ==>
              r.text == r.handoff.value.message.value
    ensures r.handoff.value.message.None? || r.handoff.value.message.value == "" ==> r.text == PROCESSING
  {
    var jsonText := OrElse(text, EMPTY_JSON);
    var parsed := if jsonText == EMPTY_JSON then EMPTY_DECISION
                  else if json.Some? then json.value
                  else UNPARSEABLE_DECISION;
    Reply(OrElse(parsed.message, PROCESSING), [], Some(parsed))
  }

  // ---------------------------------------------------------------------------
  // Grounding sources

  /** The web references of the chunks, in order, skipping chunks without one. */
  function ExtractSources(chunks: seq<GroundingChunk>): (r: seq<Source>)
    ensures |r| <= |chunks|
    ensures forall s :: s in r <==> GroundingChunk(Some(s)) in chunks
  {
    if chunks == [] then []
    else (if chunks[0].web.Some? then [chunks[0].web.value] else []) + ExtractSources(chunks[1..])
  }

  /** Extraction works chunk by chunk: the sources of two runs of chunks are the first's followed by the second's. */
  lemma {:induction false} ExtractSourcesOfConcat(a: seq<GroundingChunk>, b: seq<GroundingChunk>)
    ensures ExtractSources(a + b) == ExtractSources(a) + ExtractSources(b)
    decreases |a|
  {
    if a != [] {
      assert (a + b)[0] == a[0];
      assert (a + b)[1..] == a[1..] + b;
      ExtractSourcesOfConcat(a[1..], b);
    } else {
      assert a + b == b;
    }
  }

  function Uris(s: seq<Source>): set<string> {
    set k | 0 <= k < |s| :: s[k].uri
  }

  /** The position of the first entry with the given URI. */
  function FirstIndex(s: seq<Source>, u: string): (r: nat)
    requires u in Uris(s)
    ensures r < |s| && s[r].uri == u
    ensures forall k | 0 <= k < r :: s[k].uri != u
  {
    if s[0].uri == u then 0
    else
      assert u in Uris(s[1..]) by {
        var k :| 0 <= k < |s| && s[k].uri == u;
        assert s[1..][k - 1] == s[k];
      }
      1 + FirstIndex(s[1..], u)
  }

  /** The position of the last entry with the given URI. */
  function LastIndex(s: seq<Source>, u: string): (r: nat)
    requires u in Uris(s)
    ensures r < |s| && s[r].uri == u
    ensures forall k | r < k < |s| :: s[k].uri != u
  {
    if s[|s| - 1].uri == u then |s| - 1
    else
      assert u in Uris(s[..|s| - 1]) by {
        var k :| 0 <= k < |s| && s[k].uri == u;
        assert s[..|s| - 1][k] == s[k];
      }
      LastIndex(s[..|s| - 1], u)
  }

  /** The position of the entry keyed by `u`, or -1 (the lookup of a JavaScript Map). */
  function IndexOfUri(entries: seq<Source>, u: string): (r: int)
    ensures -1 <= r < |entries|
    ensures r >= 0 ==> entries[r].uri == u
    ensures r < 0 <==> u !in Uris(entries)
  {
    if entries == [] then -1
    else
      var i := IndexOfUri(entries[..|entries| - 1], u);
      assert Uris(entries) == Uris(entries[..|entries| - 1]) + {entries[|entries| - 1].uri} by {
        assert entries == entries[..|entries| - 1] + [entries[|entries| - 1]];
        UrisSnoc(entries[..|entries| - 1], entries[|entries| - 1]);
      }
      if i >= 0 then i
      else if entries[|entries| - 1].uri == u then |entries| - 1
      else -1
  }

  /** `map.set(s.uri, s)`: overwrite the value in place if the key is present, else append. */
  function MapSet(entries: seq<Source>, s: Source): (r: seq<Source>)
    ensures |r| == |entries| + (if s.uri in Uris(entries) then 0 else 1)
    ensures forall k | 0 <= k < |entries| :: r[k].uri == entries[k].uri
    ensures DistinctUris(entries) ==>
              forall k | 0 <= k < |entries| :: r[k] == if entries[k].uri == s.uri then s else entries[k]
    ensures s.uri !in Uris(entries) ==> r[|entries|] == s
    ensures Uris(r) == Uris(entries) + {s.uri}
    ensures DistinctUris(entries) ==> DistinctUris(r)
  {
    var i := IndexOfUri(entries, s.uri);
    if i >= 0 then
      var r := entries[i := s];
      assert forall k | 0 <= k < |entries| :: r[k].uri == entries[k].uri;
      assert Uris(r) == Uris(entries);
      r
    else
      UrisSnoc(entries, s);
      entries + [s]
  }

  predicate DistinctUris(r: seq<Source>) {
    forall i, j | 0 <= i < j < |r| :: r[i].uri != r[j].uri
  }

  lemma UrisSnoc(p: seq<Source>, x: Source)
    ensures Uris(p + [x]) == Uris(p) + {x.uri}
  {
    var s := p + [x];
    forall u ensures u in Uris(s) <==> u in Uris(p) + {x.uri} {
      if u in Uris(s) {
        var k :| 0 <= k < |s| && s[k].uri == u;
        if k < |p| { assert p[k] == s[k]; }
      }
      if u in Uris(p) {
        var k :| 0 <= k < |p| && p[k].uri == u;
        assert s[k] == p[k];
      }
      assert s[|p|] == x;
    }
  }

  /**
   * `Array.from(new Map(sources.map(s => [s.uri, s])).values())`: one entry per
   * URI, kept at the position where the URI first appeared, holding the value
   * set last.
   */
  function UniqueByUri(sources: seq<Source>): (r: seq<Source>)
    ensures DistinctUris(r)
    ensures Uris(r) == Uris(sources)
    ensures |r| <= |sources|
  {
    if sources == [] then []
    else
      var p := sources[..|sources| - 1];
      var x := sources[|sources| - 1];
      assert sources == p + [x];
      UrisSnoc(p, x);
      MapSet(UniqueByUri(p), x)
  }

  lemma FirstIndexPrefix(p: seq<Source>, x: Source, u: string)
    requires u in Uris(p)
    ensures u in Uris(p + [x]) && FirstIndex(p + [x], u) == FirstIndex(p, u)
  {
    UrisSnoc(p, x);
    var s := p + [x];
    var b := FirstIndex(p, u);
    assert s[b] == p[b];
    var a := FirstIndex(s, u);
    assert a <= b;
    assert s[a] == p[a];
  }

  lemma FirstIndexNew(p: seq<Source>, x: Source)
    requires x.uri !in Uris(p)
    ensures x.uri in Uris(p + [x]) && FirstIndex(p + [x], x.uri) == |p|
  {
    UrisSnoc(p, x);
    var s := p + [x];
    assert s[|p|] == x;
    var a := FirstIndex(s, x.uri);
    assert forall k | 0 <= k < |p| :: s[k] == p[k] && p[k].uri in Uris(p);
  }

  lemma LastIndexPrefix(p: seq<Source>, x: Source, u: string)
    requires u in Uris(p) && x.uri != u
    ensures u in Uris(p + [x]) && LastIndex(p + [x], u) == LastIndex(p, u)
  {
    UrisSnoc(p, x);
    var s := p + [x];
    var b := LastIndex(p, u);
    assert s[b] == p[b];
    var a := LastIndex(s, u);
    assert a >= b;
    assert s[|p|] == x;
    assert s[a] == p[a];
  }

  lemma LastIndexAppended(p: seq<Source>, x: Source)
    ensures x.uri in Uris(p + [x]) && LastIndex(p + [x], x.uri) == |p|
  {
    UrisSnoc(p, x);
    assert (p + [x])[|p|] == x;
  }

  /** The entries appear in the order in which their URIs first appear in `sources`. */
  predicate KeepsFirstOrder(r: seq<Source>, sources: seq<Source>)
    requires Uris(r) <= Uris(sources)
  {
    forall i, j | 0 <= i < j < |r| ::
      (assert r[i].uri in Uris(r) && r[j].uri in Uris(r);
       FirstIndex(sources, r[i].uri) < FirstIndex(sources, r[j].uri))
  }

  /** Each entry is the last source in `sources` with its URI. */
  predicate HoldsLastValue(r: seq<Source>, sources: seq<Source>)
    requires Uris(r) <= Uris(sources)
  {
    forall i | 0 <= i < |r| :: (assert r[i].uri in Uris(r); r[i] == sources[LastIndex(sources, r[i].uri)])
  }

  /** The de-duplicated sources list the URIs in the order in which they first appear. */
  lemma {:induction false} UniqueByUriKeepsFirstOrder(sources: seq<Source>)
    ensures KeepsFirstOrder(UniqueByUri(sources), sources)
    decreases |sources|
  {
    if sources != [] {
      var p := sources[..|sources| - 1];
      var x := sources[|sources| - 1];
      assert sources == p + [x];
      UniqueByUriKeepsFirstOrder(p);
      var q := UniqueByUri(p);
      var r := UniqueByUri(sources);
      assert r == MapSet(q, x);
      forall i, j | 0 <= i < j < |r|
        ensures FirstIndex(sources, r[i].uri) < FirstIndex(sources, r[j].uri)
      {
        assert r[i].uri == q[i].uri && q[i].uri in Uris(q);
        FirstIndexPrefix(p, x, q[i].uri);
        if j < |q| {
          assert r[j].uri == q[j].uri && q[j].uri in Uris(q);
          FirstIndexPrefix(p, x, q[j].uri);
        } else {
          FirstIndexNew(p, x);
        }
      }
    }
  }

  /** Each de-duplicated source carries the title of the last chunk with its URI. */
  lemma {:induction false} UniqueByUriHoldsLastValue(sources: seq<Source>)
    ensures HoldsLastValue(UniqueByUri(sources), sources)
    decreases |sources|
  {
    if sources != [] {
      var p := sources[..|sources| - 1];
      var x := sources[|sources| - 1];
      assert sources == p + [x];
      UniqueByUriHoldsLastValue(p);
      var q := UniqueByUri(p);
      var r := UniqueByUri(sources);
      assert r == MapSet(q, x);
      LastIndexAppended(p, x);
      forall i | 0 <= i < |r| ensures r[i] == sources[LastIndex(sources, r[i].uri)] {
        if i < |q| && q[i].uri != x.uri {
          assert r[i] == q[i] && q[i].uri in Uris(q);
          LastIndexPrefix(p, x, q[i].uri);
          assert sources[LastIndex(p, q[i].uri)] == p[LastIndex(p, q[i].uri)];
        } else {
          assert r[i] == x;
        }
      }
    }
  }

  /**
   * The specialist reply: the text (or ""), and the unique web sources of the
   * grounding chunks, in the order in which each URI first appears and with the
   * last source seen for it.
   */
  function SpecialistReply(text: Option<string>, chunks: seq<GroundingChunk>): (r: Reply)
    ensures r.handoff.None?
    ensures DistinctUris(r.sources)
    ensures Uris(r.sources) == Uris(ExtractSources(chunks))
    ensures KeepsFirstOrder(r.sources, ExtractSources(chunks))
    ensures HoldsLastValue(r.sources, ExtractSources(chunks))
    ensures text.Some? ==> r.text == text.value
    ensures text.None? ==> r.text == ""
  {
    UniqueByUriKeepsFirstOrder(ExtractSources(chunks));
    UniqueByUriHoldsLastValue(ExtractSources(chunks));
    Reply(OrElse(text, ""), UniqueByUri(ExtractSources(chunks)), None)
  }

  // ---------------------------------------------------------------------------
  // The whole call

  /**
   * One call to the service: shape the request, then turn the client's outcome
   * into a reply or a failure. Only a triage agent's reply carries a handoff
   * decision; a thrown error becomes a rate-limit failure exactly when the key is
   * a free key and the error looks like a rate limit, and is passed on untouched
   * otherwise.
   */
  method SendMessage(query: string, history: seq<Message>, attachments: seq<Attachment>,
                     agent: Option<Agent>, outcome: CallOutcome, apiKeyType: Option<string>, now: int)
    returns (contents: seq<Content>, result: SendResult)
    ensures IsRequestFor(contents, query, history, attachments, agent.Some? && agent.value.isTriage)
    ensures result.Err? <==> outcome.Threw?
    ensures outcome.Responded? && agent.Some? && agent.value.isTriage ==>
              result == Ok(TriageReply(outcome.text, outcome.json))
    ensures outcome.Responded? && !(agent.Some? && agent.value.isTriage) ==>
              result == Ok(SpecialistReply(outcome.text, outcome.chunks))
    ensures result.Ok? && result.reply.handoff.Some? ==> agent.Some? && agent.value.isTriage
    ensures outcome.Threw? ==>
              (result.failure.Unclassified? <==> !(IsUsingFreeApiKey(apiKeyType) && IsRateLimitError(outcome.error)))
    ensures outcome.Threw? && result.failure.Unclassified? ==> result.failure.error == outcome.error
    ensures outcome.Threw? && result.failure.RateLimited? ==> ParsedFrom(result.failure.info, outcome.error, now)
  {
    var isTriage := agent.Some? && agent.value.isTriage;
    contents := BuildContents(query, history, attachments, isTriage);
    match outcome {
      case Threw(error) =>
        var f := ClassifyFailure(error, apiKeyType, now);
        result := Err(f);
      case Responded(text, json, chunks) =>
        if isTriage {
          result := Ok(TriageReply(text, json));
        } else {
          result := Ok(SpecialistReply(text, chunks));
        }
    }
  }
}
