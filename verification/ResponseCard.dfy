/**
 * The composer at the bottom of the conversation card
 * (components/ResponseCard.tsx): the list of selected image files with their
 * previews, removing one by position, sending, the send button's readiness
 * and the input's placeholder.
 */
module ResponseCard {
  import opened JsRuntime
  import opened ChatTypes

  const RATE_LIMITED_PLACEHOLDER := "Rate limit reached - please wait..."
  const TRIAGE_PLACEHOLDER := "Describe your issue (e.g. 'I need help with billing')..."
  const ASK := "Ask "
  const ABOUT := " about "
  const ELLIPSIS := "..."

  /** A file picked in the browser's file dialog; its bytes are not modelled. */
  datatype SelectedFile = SelectedFile(name: string, mimeType: string)

  /** What `onSend` is called with. */
  datatype Submission = Submission(text: string, files: seq<SelectedFile>)

  /** The component's own state: the selected files and one preview per file, in the same order. */
  datatype ComposerState = ComposerState(files: seq<SelectedFile>, previews: seq<string>)

  predicate Aligned(s: ComposerState) {
    |s.files| == |s.previews|
  }

  /**
   * Whether the input holds something to send: text that is not all
   * whitespace, or a file. The conversation's send handler applies the same
   * guard to what it receives.
   */
  function HasContent<F>(inputText: string, files: seq<F>): (r: bool)
    ensures r <==> !IsBlank(inputText) || |files| > 0
  {
    TrimEmptyIffBlank(inputText);
    |Trim(inputText)| > 0 || |files| > 0
  }

  /** Whether the send button is enabled. */
  function IsSendReady(inputText: string, files: seq<SelectedFile>, isLoading: bool, isLimited: bool): (r: bool)
    ensures r <==> (!IsBlank(inputText) || |files| > 0) && !isLoading && !isLimited
  {
    TrimEmptyIffBlank(inputText);
    (|Trim(inputText)| > 0 || |files| > 0) && !isLoading && !isLimited
  }

  /** `Array.prototype.filter((_, i) => i !== index)`. */
  function WithoutIndex<T>(s: seq<T>, index: int): (r: seq<T>)
    ensures !(0 <= index < |s|) ==> r == s
    ensures 0 <= index < |s| ==> |r| == |s| - 1
    ensures 0 <= index < |s| ==> forall k :: 0 <= k < index ==> r[k] == s[k]
    ensures 0 <= index < |s| ==> forall k :: index <= k < |r| ==> r[k] == s[k + 1]
  {
    if 0 <= index < |s| then s[..index] + s[index + 1..] else s
  }

  /** Removing a position loses exactly the element there. */
  lemma WithoutIndexLosesOne<T>(s: seq<T>, index: int)
    requires 0 <= index < |s|
    ensures multiset(WithoutIndex(s, index)) + multiset{s[index]} == multiset(s)
  {
    assert s == s[..index] + [s[index]] + s[index + 1..];
  }

  function Zip<A, B>(a: seq<A>, b: seq<B>): (r: seq<(A, B)>)
    requires |a| == |b|
    ensures |r| == |a| && forall k :: 0 <= k < |r| ==> r[k] == (a[k], b[k])
  {
    if a == [] then [] else [(a[0], b[0])] + Zip(a[1..], b[1..])
  }

  /** Removing the same position from the files and from the previews keeps every file with its own preview. */
  lemma RemovalKeepsPairs<A, B>(a: seq<A>, b: seq<B>, index: int)
    requires |a| == |b|
    ensures |WithoutIndex(a, index)| == |WithoutIndex(b, index)|
    ensures Zip(WithoutIndex(a, index), WithoutIndex(b, index)) == WithoutIndex(Zip(a, b), index)
  {
  }

  /** File selection: a non-empty selection is appended after the files already chosen. */
  function Selected(s: ComposerState, newFiles: seq<SelectedFile>, newPreviews: seq<string>): (r: ComposerState)
    requires |newPreviews| == |newFiles|
    ensures Aligned(s) ==> Aligned(r)
    ensures |r.files| == |s.files| + |newFiles| && |r.previews| == |s.previews| + |newPreviews|
    ensures r.files[..|s.files|] == s.files && r.files[|s.files|..] == newFiles
    ensures r.previews[..|s.previews|] == s.previews && r.previews[|s.previews|..] == newPreviews
  {
    if |newFiles| > 0 then ComposerState(s.files + newFiles, s.previews + newPreviews) else s
  }

  /** Removing the file at `index` and its preview; any other index changes nothing. */
  function Removed(s: ComposerState, index: int): (r: ComposerState)
    ensures Aligned(s) ==> Aligned(r)
    ensures 0 <= index < |s.files| ==> |r.files| == |s.files| - 1
    ensures !(0 <= index < |s.files|) ==> r.files == s.files
  {
    ComposerState(WithoutIndex(s.files, index), WithoutIndex(s.previews, index))
  }

  /**
   * Sending: with content, the text and the selected files go out and the
   * selection is cleared; without content nothing is sent and nothing changes.
   */
  function Sent(s: ComposerState, inputText: string): (r: (ComposerState, Option<Submission>))
    ensures HasContent(inputText, s.files) ==> r.1 == Some(Submission(inputText, s.files)) && r.0 == ComposerState([], [])
    ensures !HasContent(inputText, s.files) ==> r.1 == None && r.0 == s
  {
    if HasContent(inputText, s.files) then (ComposerState([], []), Some(Submission(inputText, s.files)))
    else (s, None)
  }

  /** Whenever the send button is enabled, pressing it sends. */
  lemma ReadyButtonSends(s: ComposerState, inputText: string, isLoading: bool, isLimited: bool)
    requires IsSendReady(inputText, s.files, isLoading, isLimited)
    ensures Sent(s, inputText).1.Some?
  {
  }

  /** A message of only whitespace and no files is never sent, whatever else holds. */
  lemma BlankWithoutFilesNeverSends(s: ComposerState, inputText: string)
    requires IsBlank(inputText) && s.files == []
    ensures Sent(s, inputText) == (s, None)
    ensures !IsSendReady(inputText, s.files, false, false)
  {
  }

  /** Enter without Shift sends; every other key leaves the composer alone. */
  function KeyPressed(s: ComposerState, key: string, shift: bool, inputText: string): (r: (ComposerState, Option<Submission>))
    ensures r.1.Some? ==> key == "Enter" && !shift && r == Sent(s, inputText)
    ensures r.1.None? ==> r.0 == s
    ensures key == "Enter" && !shift && HasContent(inputText, s.files) ==> r.1.Some?
  {
    if key == "Enter" && !shift then Sent(s, inputText) else (s, None)
  }

  /**
   * The input's hint: a wait notice while rate-limited, the triage prompt for
   * the triage agent, otherwise "Ask <name> about <topic>..." with the topic
   * being the description up to its first comma.
   */
  function Placeholder(agent: Agent, isLimited: bool): (r: string)
    ensures isLimited ==> r == RATE_LIMITED_PLACEHOLDER
    ensures !isLimited && agent.isTriage ==> r == TRIAGE_PLACEHOLDER
    ensures !isLimited && !agent.isTriage ==>
      var head := ASK + agent.name + ABOUT;
      && |r| >= |head| + |ELLIPSIS|
      && r[..|head|] == head
      && r[|r| - |ELLIPSIS|..] == ELLIPSIS
      && var topic := r[|head|..|r| - |ELLIPSIS|];
         && |topic| <= |agent.description|
         && topic == agent.description[..|topic|]
         && ',' !in topic
         && (|topic| < |agent.description| ==> agent.description[|topic|] == ',')
  {
    if isLimited then RATE_LIMITED_PLACEHOLDER
    else if agent.isTriage then TRIAGE_PLACEHOLDER
    else
      var head := ASK + agent.name + ABOUT;
      var topic := BeforeFirstComma(agent.description);
      var r := head + topic + ELLIPSIS;
      assert r[..|head|] == head;
      assert r[|head|..|r| - |ELLIPSIS|] == topic;
      r
  }

  /** The composer as the component holds it. */
  class Composer {
    var selectedFiles: seq<SelectedFile>
    var previews: seq<string>

    function State(): ComposerState
      reads this
    {
      ComposerState(selectedFiles, previews)
    }

    constructor()
      ensures State() == ComposerState([], [])
    {
      selectedFiles := [];
      previews := [];
    }

    /** `handleFileSelect`, with the previews the file reader produces for the new files. */
    method SelectFiles(newFiles: seq<SelectedFile>, newPreviews: seq<string>)
      requires |newPreviews| == |newFiles|
      modifies this
      ensures State() == Selected(old(State()), newFiles, newPreviews)
    {
      if |newFiles| > 0 {
        selectedFiles := selectedFiles + newFiles;
        previews := previews + newPreviews;
      }
    }

    /** `removeFile`. */
    method RemoveFile(index: int)
      modifies this
      ensures State() == Removed(old(State()), index)
    {
      selectedFiles := WithoutIndex(selectedFiles, index);
      previews := WithoutIndex(previews, index);
    }

    /** `handleSend`: returns what `onSend` was called with, if anything. */
    method HandleSend(inputText: string) returns (sent: Option<Submission>)
      modifies this
      ensures (State(), sent) == Sent(old(State()), inputText)
    {
      sent := None;
      if |Trim(inputText)| > 0 || |selectedFiles| > 0 {
        sent := Some(Submission(inputText, selectedFiles));
        selectedFiles := [];
        previews := [];
      }
    }

    /** `handleKeyDown`. */
    method KeyDown(key: string, shift: bool, inputText: string) returns (sent: Option<Submission>)
      modifies this
      ensures (State(), sent) == KeyPressed(old(State()), key, shift, inputText)
    {
      sent := None;
      if key == "Enter" && !shift {
        sent := HandleSend(inputText);
      }
    }
  }
}
