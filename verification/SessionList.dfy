/**
 * The conversation list of the sidebar (components/SessionList.tsx): an
 * "active" and a "history" tab that split the sessions by `isActive`, the
 * badge counting live sessions, the avatar lookup and the status label.
 */
module SessionList {
  import opened JsRuntime
  import opened ChatTypes

  datatype Tab = ActiveTab | HistoryTab

  /** The list opens on the active tab. */
  const INITIAL_TAB := ActiveTab

  const FALLBACK_AVATAR := "https://github.com/shadcn.png"
  const LIVE_LABEL := "Live Now"
  const ENDED_LABEL := "Ended"

  /** Whether a session is listed under a tab. */
  predicate ListedUnder(s: Session, tab: Tab) {
    if tab == ActiveTab then s.isActive else !s.isActive
  }

  /** The sessions a tab lists, in the order given. */
  function Filtered(sessions: seq<Session>, tab: Tab): (r: seq<Session>)
    ensures |r| <= |sessions|
    ensures forall s :: s in r <==> s in sessions && ListedUnder(s, tab)
  {
    if sessions == [] then []
    else if ListedUnder(sessions[0], tab) then [sessions[0]] + Filtered(sessions[1..], tab)
    else Filtered(sessions[1..], tab)
  }

  /** Filtering a list split in two filters each part and keeps them in order. */
  lemma {:induction false} FilteredOfConcat(a: seq<Session>, b: seq<Session>, tab: Tab)
    ensures Filtered(a + b, tab) == Filtered(a, tab) + Filtered(b, tab)
  {
    if a == [] {
      assert a + b == b;
    } else {
      assert (a + b)[0] == a[0];
      assert (a + b)[1..] == a[1..] + b;
      FilteredOfConcat(a[1..], b, tab);
    }
  }

  /** Every session lands in exactly one of the two tabs, as often as it occurs. */
  lemma {:induction false} TabsPartitionSessions(sessions: seq<Session>)
    ensures multiset(Filtered(sessions, ActiveTab)) + multiset(Filtered(sessions, HistoryTab)) == multiset(sessions)
    ensures |Filtered(sessions, ActiveTab)| + |Filtered(sessions, HistoryTab)| == |sessions|
  {
    if sessions != [] {
      TabsPartitionSessions(sessions[1..]);
      assert sessions == [sessions[0]] + sessions[1..];
    }
  }

  /** A session is never listed under both tabs. */
  lemma TabsAreDisjoint(sessions: seq<Session>, s: Session)
    ensures !(s in Filtered(sessions, ActiveTab) && s in Filtered(sessions, HistoryTab))
  {
  }

  /** The number on the "Active" tab button. */
  function ActiveCount(sessions: seq<Session>): nat {
    |Filtered(sessions, ActiveTab)|
  }

  /** The badge counts every live session and nothing else: it is full iff all sessions are live, zero iff none is. */
  lemma ActiveCountBounds(sessions: seq<Session>)
    ensures ActiveCount(sessions) == |sessions| <==> forall k :: 0 <= k < |sessions| ==> sessions[k].isActive
    ensures ActiveCount(sessions) == 0 <==> forall k :: 0 <= k < |sessions| ==> !sessions[k].isActive
  {
    ActiveCountFull(sessions);
    ActiveCountZero(sessions);
  }

  /** The first session counts once if live; the rest are counted as a list of their own. */
  lemma ActiveCountUnfolds(sessions: seq<Session>)
    requires sessions != []
    ensures ActiveCount(sessions) == (if sessions[0].isActive then 1 else 0) + ActiveCount(sessions[1..])
  {
  }

  lemma {:induction false} ActiveCountFull(sessions: seq<Session>)
    ensures ActiveCount(sessions) == |sessions| <==> forall k :: 0 <= k < |sessions| ==> sessions[k].isActive
  {
    if sessions != [] {
      var rest := sessions[1..];
      ActiveCountUnfolds(sessions);
      ActiveCountFull(rest);
      assert forall k :: 1 <= k < |sessions| ==> sessions[k] == rest[k - 1];
    }
  }

  lemma {:induction false} ActiveCountZero(sessions: seq<Session>)
    ensures ActiveCount(sessions) == 0 <==> forall k :: 0 <= k < |sessions| ==> !sessions[k].isActive
  {
    if sessions != [] {
      var rest := sessions[1..];
      ActiveCountUnfolds(sessions);
      ActiveCountZero(rest);
      assert forall k :: 1 <= k < |sessions| ==> sessions[k] == rest[k - 1];
    }
  }

  /** The position of the first agent with the given id, if any (`Array.prototype.find`). */
  function FindAgent(agents: seq<Agent>, agentId: string): (r: Option<nat>)
    ensures r.Some? ==> r.value < |agents| && agents[r.value].id == agentId
    ensures r.Some? ==> forall j :: 0 <= j < r.value ==> agents[j].id != agentId
    ensures r.None? ==> forall j :: 0 <= j < |agents| ==> agents[j].id != agentId
  {
    if agents == [] then None
    else if agents[0].id == agentId then Some(0)
    else match FindAgent(agents[1..], agentId)
      case None => None
      case Some(k) => Some(k + 1)
  }

  /** The avatar shown beside a session: the first matching agent's, unless missing or empty. */
  function AgentAvatar(agents: seq<Agent>, agentId: string): (r: string)
    ensures r != []
    ensures r == FALLBACK_AVATAR || exists k :: 0 <= k < |agents| && agents[k].id == agentId && r == agents[k].avatar
  {
    match FindAgent(agents, agentId)
    case None => FALLBACK_AVATAR
    case Some(k) => OrElse(Some(agents[k].avatar), FALLBACK_AVATAR)
  }

  /** An agent listed ahead of every other agent with its id decides the avatar. */
  lemma FirstMatchDecidesAvatar(agents: seq<Agent>, k: nat)
    requires k < |agents| && agents[k].avatar != []
    requires forall j :: 0 <= j < k ==> agents[j].id != agents[k].id
    ensures AgentAvatar(agents, agents[k].id) == agents[k].avatar
  {
    var r := FindAgent(agents, agents[k].id);
    assert r.Some?;
    assert r.value == k;
  }

  /** With no agent of that id, the fallback picture is shown. */
  lemma UnknownAgentGetsFallback(agents: seq<Agent>, agentId: string)
    requires forall j :: 0 <= j < |agents| ==> agents[j].id != agentId
    ensures AgentAvatar(agents, agentId) == FALLBACK_AVATAR
  {
  }

  /** The status line at the bottom of a session card. */
  function StatusLabel(s: Session): string {
    if s.isActive then LIVE_LABEL else ENDED_LABEL
  }

  /** Every session listed under the active tab reads "Live Now"; every one under history reads "Ended". */
  lemma LabelMatchesTab(sessions: seq<Session>, tab: Tab, s: Session)
    requires s in Filtered(sessions, tab)
    ensures StatusLabel(s) == (if tab == ActiveTab then LIVE_LABEL else ENDED_LABEL)
  {
  }
}
