/**
 * The activity heuristic: whether a session's last record means the assistant
 * is still at work (ACTIVE) or done and waiting for the user (INACTIVE).
 */
module Activity {
  import opened Wrappers
  import opened Strings
  import opened Records

  /** Five minutes, in milliseconds. */
  const StaleAfterMs: int := 5 * 60 * 1000

  /**
   * The record is older than five minutes. A record whose timestamp is missing or
   * unparseable is never stale: every `<` comparison against NaN is false.
   */
  predicate IsStale(r: Record, now: int) {
    match TimeOf(r.timestamp)
    case Some(t) => t < now - StaleAfterMs
    case None => false
  }

  /** `content.some(item => item.type === "tool_use")`. */
  predicate HasToolUse(items: seq<ContentItem>) {
    exists k :: 0 <= k < |items| && items[k].itemType == Some("tool_use")
  }

  /** `content.find(item => item.type === "text")`: the first item whose type is "text". */
  function FindText(items: seq<ContentItem>): (r: Option<ContentItem>)
    ensures r.None? <==> forall k :: 0 <= k < |items| ==> items[k].itemType != Some("text")
    ensures r.Some? ==> exists k :: 0 <= k < |items| && items[k] == r.value &&
                          items[k].itemType == Some("text") &&
                          forall j :: 0 <= j < k ==> items[j].itemType != Some("text")
  {
    if items == [] then None
    else if items[0].itemType == Some("text") then Some(items[0])
    else
      var r := FindText(items[1..]);
      assert forall k :: 1 <= k < |items| ==> items[k] == items[1..][k - 1];
      r
  }

  /** The fixed phrase list, matched case-sensitively against the trimmed text. */
  predicate HasActionPhrase(text: string)
    ensures HasActionPhrase(text) ==> Trim(text) != []
  {
    var t := Trim(text);
    || StartsWith(t, "Now I'll")
    || StartsWith(t, "I'll")
    || StartsWith(t, "Now I")
    || StartsWith(t, "Now let")
    || StartsWith(t, "Finally,")
    || Contains(t, "Let me")
    || Contains(t, "I need")
  }

  /** The first "text" item exists, has a non-empty `text`, and that text carries an action phrase. */
  predicate FirstTextHasActionPhrase(items: seq<ContentItem>) {
    var item := FindText(items);
    item.Some? && IsTruthy(item.value.text) && HasActionPhrase(item.value.text.value)
  }

  /** `isActiveMessage`. */
  predicate IsActiveMessage(r: Record, now: int)
    ensures IsActiveMessage(r, now) ==> r.message.Some? && !IsStale(r, now)
  {
    if r.message.None? then false
    else if IsStale(r, now) then false
    else
      var m := r.message.value;
      if m.role == Some("assistant") && m.messageType == Some("message") then
        m.content.Some? && (HasToolUse(m.content.value) || FirstTextHasActionPhrase(m.content.value))
      else true
  }

  /** A record without a `message` is inactive. */
  lemma NoMessageIsInactive(r: Record, now: int)
    requires r.message.None?
    ensures !IsActiveMessage(r, now)
  {
  }

  /** A record older than five minutes is inactive, whatever it holds. */
  lemma StaleIsInactive(r: Record, now: int)
    requires IsStale(r, now)
    ensures !IsActiveMessage(r, now)
  {
  }

  /** A record whose timestamp is missing or unparseable is judged on its content alone. */
  lemma UntimedIsNeverStale(r: Record, now: int, later: int)
    requires TimeOf(r.timestamp).None?
    ensures IsActiveMessage(r, now) == IsActiveMessage(r, later)
  {
  }

  /** Within the window, an assistant message with a tool_use item is active. */
  lemma ToolUseIsActive(r: Record, now: int)
    requires r.message.Some? && !IsStale(r, now)
    requires r.message.value.role == Some("assistant") && r.message.value.messageType == Some("message")
    requires r.message.value.content.Some? && HasToolUse(r.message.value.content.value)
    ensures IsActiveMessage(r, now)
  {
  }

  /**
   * Within the window, an assistant message without a tool_use item is active
   * exactly when its first text item carries an action phrase.
   */
  lemma AssistantTextRule(r: Record, now: int)
    requires r.message.Some? && !IsStale(r, now)
    requires r.message.value.role == Some("assistant") && r.message.value.messageType == Some("message")
    requires r.message.value.content.None? || !HasToolUse(r.message.value.content.value)
    ensures IsActiveMessage(r, now) <==>
              r.message.value.content.Some? && FirstTextHasActionPhrase(r.message.value.content.value)
  {
  }

  /** Within the window, every record that is not an assistant "message" is active. */
  lemma OtherRolesAreActive(r: Record, now: int)
    requires r.message.Some? && !IsStale(r, now)
    requires r.message.value.role != Some("assistant") || r.message.value.messageType != Some("message")
    ensures IsActiveMessage(r, now)
  {
  }

  /**
   * A text none of whose phrases can match: after trimming it neither starts with 'N', 'I' or 'F'
   * nor holds an 'L' or an 'I' anywhere.
   */
  lemma NoPhraseWithout(text: string)
    requires var t := Trim(text); t == [] || (t[0] != 'N' && t[0] != 'I' && t[0] != 'F')
    requires Lacks(Trim(text), 'L') && Lacks(Trim(text), 'I')
    ensures !HasActionPhrase(text)
  {
    var t := Trim(text);
    NotStartsWithOtherChar(t, "Now I'll");
    NotStartsWithOtherChar(t, "I'll");
    NotStartsWithOtherChar(t, "Now I");
    NotStartsWithOtherChar(t, "Now let");
    NotStartsWithOtherChar(t, "Finally,");
    NotContainedWithoutFirstChar(t, "Let me");
    NotContainedWithoutFirstChar(t, "I need");
  }

  /** The phrase match is case-sensitive: a text without capital letters, such as "let me know", has no action phrase. */
  lemma NoCapitalsNoPhrase(text: string)
    requires forall i :: 0 <= i < |text| ==> !('A' <= text[i] <= 'Z')
    ensures !HasActionPhrase(text)
  {
    TrimKeeps(text, c => !('A' <= c <= 'Z'));
    NoPhraseWithout(text);
  }

  /** "Let me", with its capital, is one anywhere in the text. */
  lemma CapitalLetMeIsPhrase()
    ensures HasActionPhrase("Let me know")
  {
    TrimOfTrimmed("Let me know");
    assert StartsWith("Let me know", "Let me");
  }

  /** An assistant message whose content is one text item. */
  function AssistantText(text: string, ts: int): Record {
    Record(Some(Message(None, Some("assistant"), Some("message"), None,
                        Some([ContentItem(Some("text"), Some(text))]), None)),
           Millis(ts), None)
  }

  /**
   * Six minutes old is stale whatever the record holds; one minute old with a tool_use
   * item is active.
   */
  lemma StalenessExamples(r: Record, now: int)
    requires TimeOf(r.timestamp) == Some(now - 6 * 60 * 1000)
    ensures !IsActiveMessage(r, now)
    ensures var toolUse := Message(None, Some("assistant"), Some("message"), None,
                                   Some([ContentItem(Some("tool_use"), None)]), None);
            IsActiveMessage(Record(Some(toolUse), Millis(now - 60 * 1000), None), now)
  {
    var items := [ContentItem(Some("tool_use"), None)];
    assert items[0].itemType == Some("tool_use");
  }

  /** Within the window, "Now I'll refactor the module" is active. */
  lemma LeadingPhraseExample(now: int)
    ensures IsActiveMessage(AssistantText("Now I'll refactor the module", now), now)
  {
    var a := "Now I'll refactor the module";
    TrimOfTrimmed(a);
    assert a[..8] == "Now I'll";
  }

  /** A text-only assistant reply whose text has no action phrase is inactive. */
  lemma PlainReplyIsInactive(text: string, now: int)
    requires !HasActionPhrase(text)
    ensures !IsActiveMessage(AssistantText(text, now), now)
  {
    var items := [ContentItem(Some("text"), Some(text))];
    assert !HasToolUse(items);
    assert FindText(items) == Some(items[0]);
  }

  /** "The function now returns 42." has no action phrase. */
  lemma PlainStatementExample()
    ensures !HasActionPhrase("The function now returns 42.")
  {
    var b := "The function now returns 42.";
    TrimOfTrimmed(b);
    assert Lacks(b, 'L') && Lacks(b, 'I');
    NoPhraseWithout(b);
  }

  /** "Done, let me know if you need anything else" has no action phrase: its "let me" is lower-case. */
  lemma LowerCaseLetMeExample()
    ensures !HasActionPhrase("Done, let me know if you need anything else")
  {
    var c1, c2 := "Done, let me know ", "if you need anything else";
    var c := c1 + c2;
    assert c == "Done, let me know if you need anything else";
    TrimOfTrimmed(c);
    assert Lacks(c1, 'L') && Lacks(c2, 'L') && Lacks(c1, 'I') && Lacks(c2, 'I');
    LacksAppend(c1, c2, 'L');
    LacksAppend(c1, c2, 'I');
    NoPhraseWithout(c);
  }
}
