/**
 * The conversation orchestrator (App.tsx): the state cells of the top-level
 * component and the handlers that update them — sending a message,
 * completing a handoff to a specialist, ending a session on inactivity,
 * re-opening a session from the list — together with the idle timer the
 * component owns.
 *
 * Each handler runs as one sequential step; the backend's answer is given as
 * an outcome value and the clock as an integer number of milliseconds.
 */
module App {
  import opened JsRuntime
  import opened ChatTypes
  import G = GeminiService
  import Idle = IdleTimeout
  import SessionList
  import RC = ResponseCard

  const LIVE_SUPPORT := "Live Support"
  const CONNECTING_DEFAULT := "Connecting you to an expert..."
  const APOLOGY := "I'm sorry, I encountered an error. Please try again."
  const INACTIVITY_NOTICE := "Session ended due to inactivity. Feel free to start a new conversation!"
  const SESSION_ENDED := "Session ended"
  const NEW_CONVERSATION := "New Conversation"
  const CONNECTED_TO := "Connected to "
  const ELLIPSIS := "..."
  const TITLE_LIMIT: nat := 40
  const PREVIEW_LIMIT: nat := 50
  const SESSION_ID_PREFIX := "sess-"
  const WARNING_TIME_MS: nat := 3 * 60 * 1000
  const TIMEOUT_MS: nat := 5 * 60 * 1000

  /** The triage guide every conversation starts with. */
  function TriageAgent(): Agent {
    Agent("triage", "Devin", "Support Guide",
          "welcoming users and guiding them to the right expert", "/github-logo-black.png", true)
  }

  /** The specialists the guide can hand over to. */
  function Specialists(): seq<Agent> {
    [ Agent("agent-1", "Nina", "Domains & Billing", "accounts, billing, and domain configuration",
            "https://avatar.iran.liara.run/public/girl?username=Nina", false),
      Agent("agent-2", "Jake", "Repos & Actions", "repositories, git operations, and CI/CD pipelines",
            "https://avatar.iran.liara.run/public/boy?username=Jake", false),
      Agent("agent-3", "Alex", "Security & API", "security features, API integration, and permissions",
            "https://avatar.iran.liara.run/public/boy?username=Alex", false)
    ]
  }

  /** The agents the component is built with: the triage guide and the specialists it can hand over to. */
  datatype Roster = Roster(triage: Agent, specialists: seq<Agent>)

  /** The roster the application ships with. */
  function ShippedRoster(): Roster {
    Roster(TriageAgent(), Specialists())
  }

  /** The opening and closing wording of the instruction that asks a new specialist to greet the user. */
  function GreetingOpening(): string {
    "[SYSTEM: You have just been assigned to this user. The user's initial inquiry was: \""
  }
  function GreetingClosing(): string {
    "\". Please introduce yourself, state your expertise, and end your message with \"How can I help you today?\". Do NOT answer the question yet, just greet them.]"
  }

  /** A file handed to the send handler, already read and encoded as base64 text. */
  datatype UploadFile = UploadFile(mimeType: string, data: string)

  /** What the idle timer's effect last ran with: its `enabled` flag and the session-end callback's inputs. */
  datatype IdleDeps = IdleDeps(enabled: bool, currentSessionId: Option<string>, agent: Agent)

  /** The component's state cells. */
  datatype AppState = AppState(
    activeTab: string,
    selectedAgent: Agent,
    messages: seq<Message>,
    inputText: string,
    isLoading: bool,
    isConnecting: bool,
    pendingAgent: Option<Agent>,
    pendingUserQuery: string,
    sessions: seq<Session>,
    activeSessionId: Option<string>,
    currentSessionId: Option<string>,
    showDisconnectOverlay: bool,
    disconnectedAgent: Option<Agent>,
    nextSessionNumber: nat,
    idleDeps: Option<IdleDeps>)

  /** The state cells as the component mounts. */
  function Initial(roster: Roster): AppState {
    AppState(LIVE_SUPPORT, roster.triage, [], "", false, false, None, "", [], None, None, false, None, 0, None)
  }

  // ---------------------------------------------------------------------------
  // Agents

  /** The triage agent is the one marked as triage; no specialist is. */
  predicate WellFormedRoster(roster: Roster) {
    && roster.triage.isTriage
    && forall k :: 0 <= k < |roster.specialists| ==> !roster.specialists[k].isTriage
  }

  lemma ShippedRosterWellFormed()
    ensures WellFormedRoster(ShippedRoster())
  {
  }

  /** `SPECIALIST_AGENTS.find(a => a.id === agentId)`; an absent id matches nobody. */
  function FindSpecialist(roster: Roster, agentId: Option<string>): (r: Option<Agent>)
    ensures r.Some? ==> r.value in roster.specialists && agentId == Some(r.value.id)
    ensures r.None? ==> agentId.None? || forall a :: a in roster.specialists ==> a.id != agentId.value
  {
    if agentId.None? then None
    else match SessionList.FindAgent(roster.specialists, agentId.value)
      case None => None
      case Some(k) => Some(roster.specialists[k])
  }

  /** The agents the application ever talks as. */
  predicate KnownAgent(roster: Roster, a: Agent) {
    a == roster.triage || a in roster.specialists
  }

  /** Exactly one known agent is the triage agent. */
  lemma OnlyTriageIsTriage(roster: Roster, a: Agent)
    requires WellFormedRoster(roster) && KnownAgent(roster, a)
    ensures a.isTriage <==> a == roster.triage
  {
  }

  // ---------------------------------------------------------------------------
  // Messages

  function UserMessage(text: string, attachments: seq<Attachment>, now: int): Message {
    Message(User, text, now, None, Some(attachments), false)
  }

  function HandoffNotice(h: HandOffResponse, now: int): Message {
    Message(Model, OrElse(h.message, CONNECTING_DEFAULT), now, None, None, true)
  }

  function ReplyMessage(reply: G.Reply, now: int): Message {
    Message(Model, reply.text, now, Some(reply.sources), None, false)
  }

  function ApologyMessage(now: int): Message {
    Message(Model, APOLOGY, now, None, None, false)
  }

  function EndNotice(now: int): Message {
    Message(Model, INACTIVITY_NOTICE, now, None, None, true)
  }

  /** The reply the service resolves with, or None when it throws. */
  function ReplyOf(outcome: G.CallOutcome, agent: Agent): (r: Option<G.Reply>)
    ensures r.None? <==> outcome.Threw?
    ensures r.Some? && r.value.handoff.Some? ==> agent.isTriage
  {
    match outcome
    case Threw(_) => None
    case Responded(text, json, chunks) =>
      Some(if agent.isTriage then G.TriageReply(text, json) else G.SpecialistReply(text, chunks))
  }

  /** Whether a reply asks for a handoff (`response.handoff && response.handoff.handoff`). */
  predicate AsksHandoff(reply: G.Reply) {
    reply.handoff.Some? && reply.handoff.value.handoff
  }

  /** The attachments built from the files, one per file in the same order. */
  function AttachmentsOf(files: seq<UploadFile>): (r: seq<Attachment>)
    ensures |r| == |files|
    ensures forall k :: 0 <= k < |r| ==> r[k] == Attachment(files[k].mimeType, files[k].data)
  {
    seq(|files|, k requires 0 <= k < |files| => Attachment(files[k].mimeType, files[k].data))
  }

  // ---------------------------------------------------------------------------
  // Sessions

  function SessionId(n: nat): string {
    SESSION_ID_PREFIX + NatToString(n)
  }

  /** Ids with different counters differ. */
  lemma SessionIdInjective(a: nat, b: nat)
    requires SessionId(a) == SessionId(b)
    ensures a == b
  {
    assert SessionId(a)[|SESSION_ID_PREFIX|..] == NatToString(a);
    assert SessionId(b)[|SESSION_ID_PREFIX|..] == NatToString(b);
    NatToStringInjective(a, b);
  }

  /** The title of a new session: the query, cut to 40 characters plus an ellipsis, or a default when empty. */
  function SessionTitle(query: string): (r: string)
    ensures |query| > TITLE_LIMIT ==> |r| == TITLE_LIMIT + |ELLIPSIS|
    ensures |r| <= TITLE_LIMIT + |ELLIPSIS|
  {
    if |query| > TITLE_LIMIT then Take(query, TITLE_LIMIT) + ELLIPSIS
    else if query == "" then NEW_CONVERSATION
    else query
  }

  /** The title keeps a long query's first 40 characters, a short one whole, and names an empty one. */
  lemma SessionTitleRule(query: string)
    ensures |query| > TITLE_LIMIT ==>
              SessionTitle(query)[..TITLE_LIMIT] == query[..TITLE_LIMIT] &&
              SessionTitle(query)[TITLE_LIMIT..] == ELLIPSIS
    ensures 0 < |query| <= TITLE_LIMIT ==> SessionTitle(query) == query
    ensures query == "" ==> SessionTitle(query) == NEW_CONVERSATION
    ensures SessionTitle(query) != ""
  {
    if |query| > TITLE_LIMIT {
      var r := Take(query, TITLE_LIMIT) + ELLIPSIS;
      assert r[..TITLE_LIMIT] == Take(query, TITLE_LIMIT);
    }
  }

  /** The sidebar preview of a greeting: its first 50 characters, always followed by an ellipsis. */
  function Preview(text: string): (r: string)
    ensures |r| == (if |text| < PREVIEW_LIMIT then |text| else PREVIEW_LIMIT) + |ELLIPSIS|
    ensures r[..|r| - |ELLIPSIS|] == text[..|r| - |ELLIPSIS|] && r[|r| - |ELLIPSIS|..] == ELLIPSIS
  {
    var head := Take(text, PREVIEW_LIMIT);
    var r := head + ELLIPSIS;
    assert r[..|head|] == head;
    r
  }

  /** The session `map` of the session-end handler: the session with that id is closed. */
  function Ended(sessions: seq<Session>, id: string): (r: seq<Session>)
    ensures |r| == |sessions|
    ensures forall k :: 0 <= k < |r| ==>
              r[k] == if sessions[k].id == id
                      then sessions[k].(isActive := false, lastMessage := SESSION_ENDED)
                      else sessions[k]
  {
    seq(|sessions|, k requires 0 <= k < |sessions| =>
      if sessions[k].id == id then sessions[k].(isActive := false, lastMessage := SESSION_ENDED)
      else sessions[k])
  }

  /** The session `map` after a greeting: the session with that id shows the greeting's preview. */
  function Greeted(sessions: seq<Session>, id: string, text: string): (r: seq<Session>)
    ensures |r| == |sessions|
    ensures forall k :: 0 <= k < |r| ==>
              r[k] == if sessions[k].id == id then sessions[k].(lastMessage := Preview(text)) else sessions[k]
  {
    seq(|sessions|, k requires 0 <= k < |sessions| =>
      if sessions[k].id == id then sessions[k].(lastMessage := Preview(text)) else sessions[k])
  }

  /** Closing the same id twice changes nothing the second time. */
  lemma EndedIdempotent(sessions: seq<Session>, id: string)
    ensures Ended(Ended(sessions, id), id) == Ended(sessions, id)
  {
    var once := Ended(sessions, id);
    var twice := Ended(once, id);
    assert forall k :: 0 <= k < |twice| ==> twice[k] == once[k];
  }

  function Ids(sessions: seq<Session>): (r: seq<string>)
    ensures |r| == |sessions| && forall k :: 0 <= k < |r| ==> r[k] == sessions[k].id
  {
    seq(|sessions|, k requires 0 <= k < |sessions| => sessions[k].id)
  }

  /** Neither session `map` changes any id. */
  lemma MapsKeepIds(sessions: seq<Session>, id: string, text: string)
    ensures Ids(Ended(sessions, id)) == Ids(sessions)
    ensures Ids(Greeted(sessions, id, text)) == Ids(sessions)
  {
  }

  // ---------------------------------------------------------------------------
  // The invariant every handler keeps

  /** The id was issued by a connection before the counter reached `n`. */
  ghost predicate IssuedBefore(id: string, n: nat) {
    exists j: nat :: j < n && id == SessionId(j)
  }

  lemma NotYetIssued(id: string, n: nat)
    requires IssuedBefore(id, n)
    ensures id != SessionId(n)
  {
    var j: nat :| j < n && id == SessionId(j);
    if id == SessionId(n) {
      SessionIdInjective(j, n);
    }
  }

  ghost predicate DistinctIds(sessions: seq<Session>) {
    forall i, j :: 0 <= i < j < |sessions| ==> sessions[i].id != sessions[j].id
  }

  /** Every listed session carries a distinct id issued before the counter reached `n`. */
  ghost predicate IdsIssued(sessions: seq<Session>, n: nat) {
    && (forall k :: 0 <= k < |sessions| ==> IssuedBefore(sessions[k].id, n))
    && DistinctIds(sessions)
  }

  /** Only the ids matter: a list with the same ids keeps the property. */
  lemma SameIdsKeepIssued(a: seq<Session>, b: seq<Session>, n: nat)
    requires IdsIssued(a, n) && Ids(b) == Ids(a)
    ensures IdsIssued(b, n)
  {
    assert forall k :: 0 <= k < |b| ==> b[k].id == Ids(b)[k] == a[k].id;
  }

  /**
   * Every listed session carries a distinct id issued earlier; the connecting
   * flag is up exactly while an agent is pending; only a specialist is ever
   * pending, and the agent is always one of the roster's.
   */
  ghost predicate Inv(s: AppState, roster: Roster) {
    && IdsIssued(s.sessions, s.nextSessionNumber)
    && (s.isConnecting <==> s.pendingAgent.Some?)
    && (s.pendingAgent.Some? ==> s.pendingAgent.value in roster.specialists)
    && KnownAgent(roster, s.selectedAgent)
  }

  lemma InitialInv(roster: Roster)
    ensures Inv(Initial(roster), roster)
  {
  }

  // ---------------------------------------------------------------------------
  // handleSendMessage

  /** After the user's message is in: what the reply, or its absence, does. */
  function Answered(s: AppState, roster: Roster, text: string, reply: Option<G.Reply>, now: int): (AppState, bool) {
    match reply
    case None => (Posted(s, ApologyMessage(now)).(isLoading := false), false)
    case Some(r) =>
      if AsksHandoff(r) then (HandedOff(s, roster, text, r.handoff.value, now).(isLoading := false), false)
      else
        (Posted(s, ReplyMessage(r, now)).(isLoading := false), true)
  }

  /** A handoff decision: the notice is shown, and a specialist it names becomes pending. */
  function HandedOff(s: AppState, roster: Roster, text: string, h: HandOffResponse, now: int): AppState {
    var noticed := Posted(s, HandoffNotice(h, now));
    match FindSpecialist(roster, h.agentId)
    case None => noticed
    case Some(a) => Awaiting(noticed, a, text)
  }

  /** A message appended to the conversation. */
  function Posted(s: AppState, m: Message): AppState {
    s.(messages := s.messages + [m])
  }

  /** A specialist is pending with the user's query, and the connecting overlay is up. */
  function Awaiting(s: AppState, agent: Agent, query: string): AppState {
    s.(pendingAgent := Some(agent), pendingUserQuery := query, isConnecting := true, isLoading := false)
  }

  /**
   * The state after `handleSendMessage(text, files)` when the service answers
   * with `outcome`, and whether the idle timer was reset.
   */
  function SendStep(s: AppState, roster: Roster, text: string, files: seq<UploadFile>, outcome: G.CallOutcome, now: int): (AppState, bool) {
    if !RC.HasContent(text, files) then (s, false)
    else Answered(WithUserMessage(s, text, files, now), roster, text, ReplyOf(outcome, s.selectedAgent), now)
  }

  /** An accepted send before the service call: the live tab, the loading flag, the user's message, an empty input. */
  function WithUserMessage(s: AppState, text: string, files: seq<UploadFile>, now: int): AppState {
    s.(activeTab := LIVE_SUPPORT, isLoading := true,
       messages := s.messages + [UserMessage(text, AttachmentsOf(files), now)],
       inputText := "")
  }

  /** Blank text and no files: nothing at all changes and the timer is left alone. */
  lemma BlankSendChangesNothing(s: AppState, roster: Roster, text: string, files: seq<UploadFile>, outcome: G.CallOutcome, now: int)
    requires IsBlank(text) && files == []
    ensures SendStep(s, roster, text, files, outcome, now) == (s, false)
  {
  }

  /**
   * An accepted send appends exactly two messages: the user's, with its
   * attachments, and then one answer from the model side. The input is
   * cleared, the tab is the live one and loading is over.
   */
  lemma AcceptedSendAppendsTwo(s: AppState, roster: Roster, text: string, files: seq<UploadFile>, outcome: G.CallOutcome, now: int)
    requires RC.HasContent(text, files)
    ensures var r := SendStep(s, roster, text, files, outcome, now).0;
      && |r.messages| == |s.messages| + 2
      && r.messages[..|s.messages|] == s.messages
      && r.messages[|s.messages|] == UserMessage(text, AttachmentsOf(files), now)
      && r.messages[|s.messages| + 1].role == Model
      && r.inputText == "" && r.activeTab == LIVE_SUPPORT && !r.isLoading
      && r.sessions == s.sessions && r.selectedAgent == s.selectedAgent
  {
    var w := WithUserMessage(s, text, files, now);
    AnswerAppendsOne(w, roster, text, ReplyOf(outcome, s.selectedAgent), now);
    var r := SendStep(s, roster, text, files, outcome, now).0;
    assert r.messages == s.messages + [UserMessage(text, AttachmentsOf(files), now)] + [r.messages[|s.messages| + 1]];
  }

  /** Whatever comes back, exactly one message from the model side is appended and loading ends. */
  lemma AnswerAppendsOne(s: AppState, roster: Roster, text: string, reply: Option<G.Reply>, now: int)
    ensures var r := Answered(s, roster, text, reply, now).0;
      && |r.messages| == |s.messages| + 1
      && r.messages[..|s.messages|] == s.messages
      && r.messages[|s.messages|].role == Model
      && r.inputText == s.inputText && r.activeTab == s.activeTab && !r.isLoading
      && r.sessions == s.sessions && r.selectedAgent == s.selectedAgent
  {
    if reply.Some? && AsksHandoff(reply.value) {
      HandedOffPostsNotice(s, roster, text, reply.value.handoff.value, now);
    }
  }

  /** A handoff appends its notice and touches neither the sessions nor the agent. */
  lemma HandedOffPostsNotice(s: AppState, roster: Roster, text: string, h: HandOffResponse, now: int)
    ensures var r := HandedOff(s, roster, text, h, now);
      && r.messages == s.messages + [HandoffNotice(h, now)]
      && r.inputText == s.inputText && r.activeTab == s.activeTab
      && r.sessions == s.sessions && r.nextSessionNumber == s.nextSessionNumber
      && r.selectedAgent == s.selectedAgent
  {
  }

  /**
   * A handoff request appends the notice with the decision's message or the
   * default; the connection is prepared exactly when the id names a
   * specialist, and otherwise the pending state is untouched.
   */
  lemma HandoffPreparesConnection(s: AppState, roster: Roster, text: string, files: seq<UploadFile>, outcome: G.CallOutcome, now: int)
    requires RC.HasContent(text, files)
    requires var reply := ReplyOf(outcome, s.selectedAgent); reply.Some? && AsksHandoff(reply.value)
    ensures var h := ReplyOf(outcome, s.selectedAgent).value.handoff.value;
      var (r, reset) := SendStep(s, roster, text, files, outcome, now);
      && s.selectedAgent.isTriage
      && !reset
      && |r.messages| == |s.messages| + 2
      && r.messages[|r.messages| - 1] == HandoffNotice(h, now)
      && r.messages[|r.messages| - 1].content == OrElse(h.message, CONNECTING_DEFAULT)
      && r.selectedAgent == s.selectedAgent
      && (FindSpecialist(roster, h.agentId).Some? ==>
            r.pendingAgent == FindSpecialist(roster, h.agentId) && r.pendingUserQuery == text && r.isConnecting)
      && (FindSpecialist(roster, h.agentId).None? ==>
            r.pendingAgent == s.pendingAgent && r.pendingUserQuery == s.pendingUserQuery &&
            r.isConnecting == s.isConnecting)
  {
    var w := WithUserMessage(s, text, files, now);
    var h := ReplyOf(outcome, s.selectedAgent).value.handoff.value;
    assert SendStep(s, roster, text, files, outcome, now) == (HandedOff(w, roster, text, h, now).(isLoading := false), false);
  }

  /** A plain reply is shown with its text and sources and resets the idle timer. */
  lemma ReplyResetsTimer(s: AppState, roster: Roster, text: string, files: seq<UploadFile>, outcome: G.CallOutcome, now: int)
    requires RC.HasContent(text, files)
    requires var reply := ReplyOf(outcome, s.selectedAgent); reply.Some? && !AsksHandoff(reply.value)
    ensures var reply := ReplyOf(outcome, s.selectedAgent).value;
      var (r, reset) := SendStep(s, roster, text, files, outcome, now);
      && reset
      && r.messages[|r.messages| - 1].content == reply.text
      && r.messages[|r.messages| - 1].sources == Some(reply.sources)
      && r.pendingAgent == s.pendingAgent && r.isConnecting == s.isConnecting
  {
  }

  /** A thrown error shows the apology and leaves the idle timer alone. */
  lemma ErrorApologises(s: AppState, roster: Roster, text: string, files: seq<UploadFile>, outcome: G.CallOutcome, now: int)
    requires RC.HasContent(text, files) && outcome.Threw?
    ensures var (r, reset) := SendStep(s, roster, text, files, outcome, now);
      && !reset
      && r.messages[|r.messages| - 1] == ApologyMessage(now)
      && r.pendingAgent == s.pendingAgent && r.isConnecting == s.isConnecting
  {
  }

  /** The idle timer is reset by a send exactly when a plain reply came back. */
  lemma SendResetsOnlyOnReply(s: AppState, roster: Roster, text: string, files: seq<UploadFile>, outcome: G.CallOutcome, now: int)
    ensures SendStep(s, roster, text, files, outcome, now).1 <==>
              RC.HasContent(text, files) && outcome.Responded? && !AsksHandoff(ReplyOf(outcome, s.selectedAgent).value)
  {
  }

  /** An answer touches neither the sessions nor the counter, and can only make a specialist pending. */
  lemma AnsweredKeepsInv(s: AppState, roster: Roster, text: string, reply: Option<G.Reply>, now: int)
    requires Inv(s, roster)
    ensures Inv(Answered(s, roster, text, reply, now).0, roster)
  {
    if reply.Some? && AsksHandoff(reply.value) {
      HandedOffPostsNotice(s, roster, text, reply.value.handoff.value, now);
    }
  }

  lemma SendKeepsInv(s: AppState, roster: Roster, text: string, files: seq<UploadFile>, outcome: G.CallOutcome, now: int)
    requires Inv(s, roster)
    ensures Inv(SendStep(s, roster, text, files, outcome, now).0, roster)
  {
    if RC.HasContent(text, files) {
      var withUser := WithUserMessage(s, text, files, now);
      assert Inv(withUser, roster);
      AnsweredKeepsInv(withUser, roster, text, ReplyOf(outcome, s.selectedAgent), now);
    }
  }

  // ---------------------------------------------------------------------------
  // handleConnectionComplete

  /** The session a completed connection opens, with the counter's next id. */
  function NewSession(s: AppState, agent: Agent, now: int): Session {
    Session(SessionId(s.nextSessionNumber), agent.id, SessionTitle(s.pendingUserQuery),
            CONNECTED_TO + agent.name, now, true)
  }

  /**
   * The state after the connecting overlay calls `handleConnectionComplete`
   * and the greeting request answers with `outcome`, and whether the idle
   * timer was reset.
   */
  function ConnectStep(s: AppState, outcome: G.CallOutcome, now: int): (AppState, bool) {
    if s.pendingAgent.None? then (s, false)
    else
      var agent := s.pendingAgent.value;
      (Finished(Opened(s, agent, now), SessionId(s.nextSessionNumber), ReplyOf(outcome, agent), now), true)
  }

  /** The connection's first half: the specialist takes over and a new live session is put in front. */
  function Opened(s: AppState, agent: Agent, now: int): AppState {
    Listed(TakenOver(s, agent), NewSession(s, agent, now))
  }

  /** The overlay is gone and the specialist is selected, with the greeting loading. */
  function TakenOver(s: AppState, agent: Agent): AppState {
    s.(isConnecting := false, selectedAgent := agent, isLoading := true)
  }

  /** A new session is put in front of the list and becomes current and active; the counter moves on. */
  function Listed(s: AppState, session: Session): AppState {
    s.(sessions := [session] + s.sessions,
       currentSessionId := Some(session.id), activeSessionId := Some(session.id),
       nextSessionNumber := s.nextSessionNumber + 1)
  }

  /** The connection's second half: the greeting, if any, is shown and previewed; the handoff is over. */
  function Finished(s: AppState, id: string, greeting: Option<G.Reply>, now: int): AppState {
    Settled(GreetingShown(s, id, greeting, now))
  }

  /** The greeting, if any, is shown and becomes the preview of the session `id`. */
  function GreetingShown(s: AppState, id: string, greeting: Option<G.Reply>, now: int): AppState {
    match greeting
    case None => s
    case Some(reply) =>
      Posted(s, ReplyMessage(reply, now)).(sessions := Greeted(s.sessions, id, reply.text))
  }

  /** The handoff is over: nothing is loading or pending. */
  function Settled(s: AppState): AppState {
    s.(isLoading := false, pendingAgent := None, pendingUserQuery := "")
  }

  /** Without a pending agent the callback does nothing. */
  lemma ConnectWithoutPendingChangesNothing(s: AppState, roster: Roster, outcome: G.CallOutcome, now: int)
    requires s.pendingAgent.None?
    ensures ConnectStep(s, outcome, now) == (s, false)
  {
  }

  /**
   * A completed connection switches to the pending specialist and puts one
   * new live session in front, current and active, titled after the query;
   * every older session is untouched. A greeting is appended and previewed
   * on the new session; without one the session keeps "Connected to <name>".
   */
  lemma ConnectOpensSession(s: AppState, roster: Roster, outcome: G.CallOutcome, now: int)
    requires Inv(s, roster) && s.pendingAgent.Some?
    ensures var agent := s.pendingAgent.value;
      var (r, reset) := ConnectStep(s, outcome, now);
      var id := SessionId(s.nextSessionNumber);
      && reset
      && r.selectedAgent == agent && !r.isConnecting && r.pendingAgent.None? && !r.isLoading
      && |r.sessions| == |s.sessions| + 1
      && r.sessions[1..] == s.sessions
      && r.sessions[0].id == id && r.sessions[0].agentId == agent.id && r.sessions[0].isActive
      && r.sessions[0].title == SessionTitle(s.pendingUserQuery)
      && r.currentSessionId == Some(id) && r.activeSessionId == Some(id)
      && (outcome.Threw? ==> r.sessions[0].lastMessage == CONNECTED_TO + agent.name && r.messages == s.messages)
      && (outcome.Responded? ==>
            var text := ReplyOf(outcome, agent).value.text;
            r.sessions[0].lastMessage == Preview(text) && r.messages == s.messages + [ReplyMessage(ReplyOf(outcome, agent).value, now)])
  {
    var agent := s.pendingAgent.value;
    var id := SessionId(s.nextSessionNumber);
    var r := ConnectStep(s, outcome, now).0;
    forall k | 0 <= k < |s.sessions|
      ensures s.sessions[k].id != id
    {
      NotYetIssued(s.sessions[k].id, s.nextSessionNumber);
    }
    if outcome.Responded? {
      var text := ReplyOf(outcome, agent).value.text;
      var all := [NewSession(s, agent, now)] + s.sessions;
      assert r.sessions == Greeted(all, id, text);
      assert forall k :: 1 <= k < |all| ==> all[k] == s.sessions[k - 1];
    }
  }

  lemma ConnectKeepsInv(s: AppState, roster: Roster, outcome: G.CallOutcome, now: int)
    requires Inv(s, roster)
    ensures Inv(ConnectStep(s, outcome, now).0, roster)
  {
    if s.pendingAgent.Some? {
      var n := s.nextSessionNumber;
      var r := ConnectStep(s, outcome, now).0;
      ConnectOpensSession(s, roster, outcome, now);
      forall k | 0 <= k < |r.sessions|
        ensures IssuedBefore(r.sessions[k].id, n + 1)
      {
        if k == 0 {
          assert r.sessions[0].id == SessionId(n);
        } else {
          assert r.sessions[k] == s.sessions[k - 1];
          var j: nat :| j < n && s.sessions[k - 1].id == SessionId(j);
        }
      }
      forall k | 0 <= k < |s.sessions|
        ensures s.sessions[k].id != SessionId(n)
      {
        NotYetIssued(s.sessions[k].id, n);
      }
      assert forall k :: 1 <= k < |r.sessions| ==> r.sessions[k] == s.sessions[k - 1];
    }
  }

  // ---------------------------------------------------------------------------
  // handleSessionEnd, handleEndSession, handleSelectSession

  /** The state after `handleSessionEnd`. */
  function EndStep(s: AppState, roster: Roster, now: int): AppState {
    Posted(CurrentClosed(DisconnectShown(s)), EndNotice(now)).(selectedAgent := roster.triage)
  }

  /** A specialist being left is remembered for the disconnect overlay, which is shown. */
  function DisconnectShown(s: AppState): AppState {
    if !s.selectedAgent.isTriage
    then s.(disconnectedAgent := Some(s.selectedAgent), showDisconnectOverlay := true)
    else s
  }

  /** The current session, if there is one, is marked ended and forgotten as current. */
  function CurrentClosed(s: AppState): AppState {
    if s.currentSessionId.Some? && s.currentSessionId.value != ""
    then s.(sessions := Ended(s.sessions, s.currentSessionId.value), currentSessionId := None)
    else s
  }

  /**
   * Ending closes the current session and no other, forgets it as current,
   * appends the inactivity notice and falls back to triage; a specialist is
   * remembered for the disconnect overlay.
   */
  lemma EndClosesCurrentOnly(s: AppState, roster: Roster, now: int)
    ensures var r := EndStep(s, roster, now);
      && |r.sessions| == |s.sessions|
      && (forall k :: 0 <= k < |r.sessions| ==>
            if s.currentSessionId.Some? && s.currentSessionId.value != "" && s.sessions[k].id == s.currentSessionId.value
            then r.sessions[k] == s.sessions[k].(isActive := false, lastMessage := SESSION_ENDED)
            else r.sessions[k] == s.sessions[k])
      && (r.currentSessionId.None? || r.currentSessionId == Some(""))
      && r.messages == s.messages + [EndNotice(now)]
      && r.selectedAgent == roster.triage
      && (!s.selectedAgent.isTriage ==> r.showDisconnectOverlay && r.disconnectedAgent == Some(s.selectedAgent))
      && (s.selectedAgent.isTriage ==> r.showDisconnectOverlay == s.showDisconnectOverlay &&
                                       r.disconnectedAgent == s.disconnectedAgent)
  {
  }

  /** A second end leaves the sessions as the first left them and appends one more notice. */
  lemma SecondEndOnlyAddsNotice(s: AppState, roster: Roster, now: int, later: int)
    ensures EndStep(EndStep(s, roster, now), roster, later).sessions == EndStep(s, roster, now).sessions
    ensures EndStep(EndStep(s, roster, now), roster, later).messages == EndStep(s, roster, now).messages + [EndNotice(later)]
  {
    var once := EndStep(s, roster, now);
    if once.currentSessionId == Some("") {
      // The empty id is never taken as current, so nothing more is closed.
    } else if s.currentSessionId.Some? && s.currentSessionId.value != "" {
      EndedIdempotent(s.sessions, s.currentSessionId.value);
    }
  }

  lemma EndKeepsInv(s: AppState, roster: Roster, now: int)
    requires Inv(s, roster)
    ensures Inv(EndStep(s, roster, now), roster)
  {
    var closed := CurrentClosed(DisconnectShown(s));
    assert closed.nextSessionNumber == s.nextSessionNumber;
    assert closed.pendingAgent == s.pendingAgent && closed.isConnecting == s.isConnecting;
    if s.currentSessionId.Some? && s.currentSessionId.value != "" {
      MapsKeepIds(s.sessions, s.currentSessionId.value, "");
      SameIdsKeepIssued(s.sessions, closed.sessions, s.nextSessionNumber);
    } else {
      assert closed.sessions == s.sessions;
    }
  }

  /** The agent a re-opened session is continued with: its specialist, or triage. */
  function AgentFor(roster: Roster, session: Session): (r: Agent)
    ensures KnownAgent(roster, r)
    ensures (forall a :: a in roster.specialists ==> a.id != session.agentId) ==> r == roster.triage
    ensures (exists a :: a in roster.specialists && a.id == session.agentId) ==> r in roster.specialists && r.id == session.agentId
  {
    match FindSpecialist(roster, Some(session.agentId))
    case None => roster.triage
    case Some(a) => a
  }

  /** The state after `handleSelectSession`: the session's agent, an empty conversation, the live tab. */
  function SelectStep(s: AppState, roster: Roster, session: Session): AppState {
    s.(activeSessionId := Some(session.id), selectedAgent := AgentFor(roster, session),
       messages := [], activeTab := LIVE_SUPPORT)
  }

  lemma SelectKeepsInv(s: AppState, roster: Roster, session: Session)
    requires Inv(s, roster)
    ensures Inv(SelectStep(s, roster, session), roster)
  {
  }

  /** The disconnect overlay's dismiss callback. */
  function DismissStep(s: AppState): AppState {
    s.(showDisconnectOverlay := false, disconnectedAgent := None)
  }

  // ---------------------------------------------------------------------------
  // The idle timer

  /** The idle timer runs only while a specialist is selected and the conversation is not empty. */
  predicate IdleEnabled(s: AppState) {
    !s.selectedAgent.isTriage && |s.messages| > 0
  }

  function IdleDepsOf(s: AppState): IdleDeps {
    IdleDeps(IdleEnabled(s), s.currentSessionId, s.selectedAgent)
  }

  /** After a session ends, or one is re-opened, the idle timer is switched off. */
  lemma EndAndSelectDisableIdle(s: AppState, roster: Roster, now: int, session: Session)
    requires WellFormedRoster(roster)
    ensures !IdleEnabled(EndStep(s, roster, now))
    ensures !IdleEnabled(SelectStep(s, roster, session))
  {
  }

  /** A successful greeting leaves the timer enabled for the new specialist. */
  lemma GreetingEnablesIdle(s: AppState, roster: Roster, outcome: G.CallOutcome, now: int)
    requires WellFormedRoster(roster) && Inv(s, roster) && s.pendingAgent.Some? && outcome.Responded?
    ensures IdleEnabled(ConnectStep(s, outcome, now).0)
  {
    var agent := s.pendingAgent.value;
    assert !agent.isTriage;
  }

  // ---------------------------------------------------------------------------
  // The component

  class Orchestrator {
    var activeTab: string
    var selectedAgent: Agent
    var messages: seq<Message>
    var inputText: string
    var isLoading: bool
    var isConnecting: bool
    var pendingAgent: Option<Agent>
    var pendingUserQuery: string
    var sessions: seq<Session>
    var activeSessionId: Option<string>
    var currentSessionId: Option<string>
    var showDisconnectOverlay: bool
    var disconnectedAgent: Option<Agent>
    var nextSessionNumber: nat
    var idleDeps: Option<IdleDeps>
    /** The idle-timeout hook the component mounts (3 minutes to the warning, 5 to the timeout). */
    const idle: Idle.IdleSupervisor
    /** The key type the service reads from its environment. */
    const apiKeyType: Option<string>
    /** The agents the component is built with. */
    const roster: Roster
    /** The fixed wording around the user's first question in the instruction that asks a specialist to greet. */
    const greetingOpening: string
    const greetingClosing: string

    function State(): AppState
      reads this
    {
      AppState(activeTab, selectedAgent, messages, inputText, isLoading, isConnecting, pendingAgent,
               pendingUserQuery, sessions, activeSessionId, currentSessionId, showDisconnectOverlay,
               disconnectedAgent, nextSessionNumber, idleDeps)
    }

    ghost predicate Valid()
      reads this, idle
    {
      && WellFormedRoster(roster)
      && Inv(State(), roster)
      && idle.Valid()
      && idle.warningTimeMs == WARNING_TIME_MS && idle.timeoutMs == TIMEOUT_MS
    }

    /** Mounting at time `now`. */
    constructor (roster: Roster, greetingOpening: string, greetingClosing: string, apiKeyType: Option<string>, now: int)
      requires WellFormedRoster(roster)
      ensures Valid() && fresh(idle)
      ensures this.roster == roster && State() == Initial(roster) && this.apiKeyType == apiKeyType
      ensures this.greetingOpening == greetingOpening && this.greetingClosing == greetingClosing
      ensures idle.State() == Idle.IdleState(now, false, false, false, TIMEOUT_MS, false)
    {
      activeTab := LIVE_SUPPORT;
      selectedAgent := roster.triage;
      messages := [];
      inputText := "";
      isLoading := false;
      isConnecting := false;
      pendingAgent := None;
      pendingUserQuery := "";
      sessions := [];
      activeSessionId := None;
      currentSessionId := None;
      showDisconnectOverlay := false;
      disconnectedAgent := None;
      nextSessionNumber := 0;
      idleDeps := None;
      this.apiKeyType := apiKeyType;
      this.roster := roster;
      this.greetingOpening := greetingOpening;
      this.greetingClosing := greetingClosing;
      idle := new Idle.IdleSupervisor(WARNING_TIME_MS, TIMEOUT_MS, now);
    }

    /**
     * `geminiService.sendMessage` as the handlers use it: the request it
     * builds and the reply it resolves with; when it throws, the handlers
     * only log, so the failure it carries is dropped here.
     */
    method Ask(query: string, history: seq<Message>, attachments: seq<Attachment>, agent: Agent,
               outcome: G.CallOutcome, now: int)
      returns (contents: seq<G.Content>, reply: Option<G.Reply>)
      ensures G.IsRequestFor(contents, query, history, attachments, agent.isTriage)
      ensures reply == ReplyOf(outcome, agent)
    {
      var result;
      contents, result := G.SendMessage(query, history, attachments, Some(agent), outcome, apiKeyType, now);
      reply := if result.Ok? then Some(result.reply) else None;
    }

    /**
     * `handleSendMessage(text, files)` with the service answering `outcome`;
     * returns the request the service was given, if the guard let the send through.
     */
    method HandleSendMessage(text: string, files: seq<UploadFile>, outcome: G.CallOutcome, now: int)
      returns (request: Option<seq<G.Content>>)
      requires Valid()
      modifies this, idle
      ensures Valid()
      ensures State() == SendStep(old(State()), roster, text, files, outcome, now).0
      ensures idle.State() == if SendStep(old(State()), roster, text, files, outcome, now).1
                              then Idle.ActivityState(old(idle.State()), now, TIMEOUT_MS)
                              else old(idle.State())
      ensures request.Some? <==> RC.HasContent(text, files)
      ensures request.Some? ==>
                G.IsRequestFor(request.value, text, old(messages), AttachmentsOf(files), old(selectedAgent).isTriage)
    {
      ghost var s := State();
      request := None;
      if |Trim(text)| == 0 && |files| == 0 {
        return;
      }
      var history := messages;
      var attachments := PostUserMessage(text, files, now);
      var contents, answer := Ask(text, history, attachments, selectedAgent, outcome, now);
      request := Some(contents);
      Respond(text, answer, now);
      SendKeepsInv(s, roster, text, files, outcome, now);
    }

    /** `handleSendMessage` past its guard up to the service call, the attachment loop included. */
    method PostUserMessage(text: string, files: seq<UploadFile>, now: int) returns (attachments: seq<Attachment>)
      modifies this
      ensures State() == WithUserMessage(old(State()), text, files, now)
      ensures attachments == AttachmentsOf(files)
    {
      activeTab := LIVE_SUPPORT;
      isLoading := true;
      attachments := [];
      for i := 0 to |files|
        invariant |attachments| == i
        invariant forall k :: 0 <= k < i ==> attachments[k] == Attachment(files[k].mimeType, files[k].data)
      {
        attachments := attachments + [Attachment(files[i].mimeType, files[i].data)];
      }
      assert attachments == AttachmentsOf(files);
      messages := messages + [UserMessage(text, attachments, now)];
      inputText := "";
    }

    /** The handoff branch of `handleSendMessage`. */
    method HandOff(text: string, h: HandOffResponse, now: int)
      modifies this
      ensures State() == HandedOff(old(State()), roster, text, h, now)
    {
      Post(HandoffNotice(h, now));
      var found := FindSpecialist(roster, h.agentId);
      if found.Some? {
        Await(found.value, text);
      }
    }

    /** Appending one message (`setMessages(prev => [...prev, m])`). */
    method Post(m: Message)
      modifies this
      ensures State() == Posted(old(State()), m)
    {
      messages := messages + [m];
    }

    /** Making `agent` the pending specialist and raising the connecting overlay. */
    method Await(agent: Agent, query: string)
      modifies this
      ensures State() == Awaiting(old(State()), agent, query)
    {
      pendingAgent := Some(agent);
      pendingUserQuery := query;
      isConnecting := true;
      isLoading := false;
    }

    /** The part of `handleSendMessage` after the service call: show the answer, or prepare a handoff. */
    method Respond(text: string, answer: Option<G.Reply>, now: int)
      requires Valid()
      requires answer.Some? && answer.value.handoff.Some? ==> selectedAgent.isTriage
      modifies this, idle
      ensures State() == Answered(old(State()), roster, text, answer, now).0
      ensures idle.State() == if Answered(old(State()), roster, text, answer, now).1
                              then Idle.ActivityState(old(idle.State()), now, TIMEOUT_MS)
                              else old(idle.State())
      ensures idle.Valid()
    {
      match answer {
        case None =>
          Post(ApologyMessage(now));
        case Some(reply) =>
          if reply.handoff.Some? && reply.handoff.value.handoff {
            HandOff(text, reply.handoff.value, now);
          } else {
            Post(ReplyMessage(reply, now));
            idle.HandleActivity(now);
          }
      }
      isLoading := false;
    }

    /** `handleFAQClick`: sends the question with no files. */
    method HandleFaqClick(question: string, outcome: G.CallOutcome, now: int)
      returns (request: Option<seq<G.Content>>)
      requires Valid()
      modifies this, idle
      ensures Valid()
      ensures State() == SendStep(old(State()), roster, question, [], outcome, now).0
      ensures idle.State() == if SendStep(old(State()), roster, question, [], outcome, now).1
                              then Idle.ActivityState(old(idle.State()), now, TIMEOUT_MS)
                              else old(idle.State())
    {
      request := HandleSendMessage(question, [], outcome, now);
    }

    /**
     * `handleConnectionComplete`, called by the connecting overlay, with the
     * greeting request answering `outcome`; returns the greeting request.
     */
    method HandleConnectionComplete(outcome: G.CallOutcome, now: int)
      returns (request: Option<seq<G.Content>>)
      requires Valid()
      modifies this, idle
      ensures Valid()
      ensures State() == ConnectStep(old(State()), outcome, now).0
      ensures idle.State() == if ConnectStep(old(State()), outcome, now).1
                              then Idle.ActivityState(old(idle.State()), now, TIMEOUT_MS)
                              else old(idle.State())
      ensures request.Some? <==> old(pendingAgent).Some?
      ensures request.Some? ==>
                G.IsRequestFor(request.value, greetingOpening + old(pendingUserQuery) + greetingClosing, old(messages), [], false)
    {
      ghost var s := State();
      request := None;
      if pendingAgent.None? {
        return;
      }
      var agent := pendingAgent.value;
      var query := pendingUserQuery;
      var history := messages;
      var id := OpenSession(agent, now);
      var contents, greeting := Ask(greetingOpening + query + greetingClosing, history, [], agent, outcome, now);
      request := Some(contents);
      FinishConnection(id, greeting, now);
      ConnectKeepsInv(s, roster, outcome, now);
    }

    /** `handleConnectionComplete` up to the greeting request; returns the new session's id. */
    method OpenSession(agent: Agent, now: int) returns (id: string)
      modifies this
      ensures State() == Opened(old(State()), agent, now)
      ensures id == SessionId(old(nextSessionNumber))
    {
      id := SessionId(nextSessionNumber);
      var session := Session(id, agent.id, SessionTitle(pendingUserQuery), CONNECTED_TO + agent.name, now, true);
      TakeOver(agent);
      ListSession(session);
    }

    /** The specialist takes over the conversation. */
    method TakeOver(agent: Agent)
      modifies this
      ensures State() == TakenOver(old(State()), agent)
    {
      isConnecting := false;
      selectedAgent := agent;
      isLoading := true;
    }

    /** The new session is listed first and made current and active. */
    method ListSession(session: Session)
      modifies this
      ensures State() == Listed(old(State()), session)
    {
      sessions := [session] + sessions;
      currentSessionId := Some(session.id);
      activeSessionId := Some(session.id);
      nextSessionNumber := nextSessionNumber + 1;
    }

    /** `handleConnectionComplete` after the greeting request, the `finally` block included. */
    method FinishConnection(id: string, greeting: Option<G.Reply>, now: int)
      requires idle.Valid() && idle.timeoutMs == TIMEOUT_MS
      modifies this, idle
      ensures State() == Finished(old(State()), id, greeting, now)
      ensures idle.Valid() && idle.State() == Idle.ActivityState(old(idle.State()), now, TIMEOUT_MS)
    {
      ShowGreeting(id, greeting, now);
      Settle();
      idle.HandleActivity(now);
    }

    /** The greeting, if the request answered, is shown and previewed on its session. */
    method ShowGreeting(id: string, greeting: Option<G.Reply>, now: int)
      modifies this
      ensures State() == GreetingShown(old(State()), id, greeting, now)
    {
      if greeting.Some? {
        Post(ReplyMessage(greeting.value, now));
        sessions := Greeted(sessions, id, greeting.value.text);
      }
    }

    /** The `finally` block of `handleConnectionComplete`. */
    method Settle()
      modifies this
      ensures State() == Settled(old(State()))
    {
      isLoading := false;
      pendingAgent := None;
      pendingUserQuery := "";
    }

    /** `handleSessionEnd`, the idle timer's timeout callback. */
    method HandleSessionEnd(now: int)
      requires Valid()
      modifies this
      ensures Valid()
      ensures State() == EndStep(old(State()), roster, now)
    {
      ghost var s := State();
      ShowDisconnect();
      CloseCurrent();
      Post(EndNotice(now));
      selectedAgent := roster.triage;
      EndKeepsInv(s, roster, now);
    }

    /** Leaving a specialist shows the disconnect overlay for them. */
    method ShowDisconnect()
      modifies this
      ensures State() == DisconnectShown(old(State()))
    {
      if !selectedAgent.isTriage {
        disconnectedAgent := Some(selectedAgent);
        showDisconnectOverlay := true;
      }
    }

    /** The current session, if any, is ended and forgotten as current. */
    method CloseCurrent()
      modifies this
      ensures State() == CurrentClosed(old(State()))
    {
      if currentSessionId.Some? && currentSessionId.value != "" {
        sessions := Ended(sessions, currentSessionId.value);
        currentSessionId := None;
      }
    }

    /** `handleEndSession`, the warning modal's end button: dismiss the warning, then end. */
    method HandleEndSession(now: int)
      requires Valid()
      modifies this, idle
      ensures Valid()
      ensures State() == EndStep(old(State()), roster, now)
      ensures idle.State() == Idle.DismissState(old(idle.State()), now, TIMEOUT_MS)
    {
      idle.DismissWarning(now);
      HandleSessionEnd(now);
    }

    /** `handleSelectSession`. */
    method HandleSelectSession(session: Session)
      requires Valid()
      modifies this
      ensures Valid()
      ensures State() == SelectStep(old(State()), roster, session)
    {
      SelectKeepsInv(State(), roster, session);
      activeSessionId := Some(session.id);
      selectedAgent := AgentFor(roster, session);
      messages := [];
      activeTab := LIVE_SUPPORT;
    }

    /** The disconnect overlay's dismiss callback. */
    method DismissDisconnect()
      requires Valid()
      modifies this
      ensures Valid()
      ensures State() == DismissStep(old(State()))
    {
      showDisconnectOverlay := false;
      disconnectedAgent := None;
    }

    /**
     * After a render: the idle hook's effect runs again when `enabled` or the
     * session-end callback it closes over has changed since it last ran.
     */
    method AfterRender(now: int)
      requires Valid()
      modifies this, idle
      ensures Valid()
      ensures State() == old(State()).(idleDeps := Some(IdleDepsOf(old(State()))))
      ensures old(idleDeps) == Some(IdleDepsOf(old(State()))) ==> idle.State() == old(idle.State())
      ensures old(idleDeps) != Some(IdleDepsOf(old(State()))) ==>
                idle.State() == Idle.EffectState(old(idle.State()), IdleEnabled(old(State())), now, TIMEOUT_MS)
    {
      var deps := IdleDepsOf(State());
      if idleDeps != Some(deps) {
        idle.Effect(deps.enabled, now);
        idleDeps := Some(deps);
      }
    }

    /** One tick of the idle hook's interval; on timeout the session is ended. */
    method IdleTick(now: int) returns (events: Idle.TickEvents)
      requires Valid()
      modifies this, idle
      ensures Valid()
      ensures (idle.State(), events) == Idle.TickState(old(idle.State()), now, WARNING_TIME_MS, TIMEOUT_MS)
      ensures State() == if events.timedOut then EndStep(old(State()), roster, now) else old(State())
    {
      events := idle.Tick(now);
      if events.timedOut {
        HandleSessionEnd(now);
      }
    }
  }
}
