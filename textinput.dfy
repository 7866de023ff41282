/**
 * The chat input's keystroke handler: one step over the value and the cursor offset,
 * and the effect that pulls the cursor back when the value is replaced from outside.
 */
module TextInput {
  import opened Strings

  /** The flags of one keystroke as the terminal input hook reports them; several may be set at once. */
  datatype Key = Key(
    upArrow: bool,
    downArrow: bool,
    leftArrow: bool,
    rightArrow: bool,
    ctrl: bool,
    shift: bool,
    tab: bool,
    backspace: bool,
    delete: bool,
    returnKey: bool)

  /**
   * What one keystroke does: nothing, a call of `onSubmit` with the current value, or a new
   * cursor offset and value, where `notifyChange` means `onChange` is called.
   */
  datatype KeyOutcome =
    | Ignored
    | Submitted(value: string)
    | Edited(cursorOffset: int, value: string, notifyChange: bool)

  /** The branch the handler takes, tested in the handler's order. */
  datatype Edit = Ignore | Submit | MoveLeft | MoveRight | Erase | KillWord | Insert

  function EditOf(input: string, key: Key): (e: Edit)
    ensures key.upArrow || key.downArrow || key.tab ==> e == Ignore
    ensures key.ctrl && (input == "c" || input == "d") ==> e == Ignore
    ensures e == Submit ==> key.returnKey
    ensures e == KillWord ==> key.ctrl && input == "w"
    ensures e == Insert <==>
      && !(key.upArrow || key.downArrow || key.tab || (key.ctrl && (input == "c" || input == "d")))
      && !key.returnKey && !key.leftArrow && !key.rightArrow && !key.backspace && !key.delete
      && !(key.ctrl && input == "w")
  {
    if key.upArrow || key.downArrow || (key.ctrl && input == "c") || (key.ctrl && input == "d")
       || key.tab || (key.shift && key.tab) then Ignore
    else if key.returnKey then Submit
    else if key.leftArrow then MoveLeft
    else if key.rightArrow then MoveRight
    else if key.backspace || key.delete then Erase
    else if key.ctrl && input == "w" then KillWord
    else Insert
  }

  /** `s.slice(0, n)` for `n >= 0`. */
  function Prefix(s: string, n: nat): (r: string)
    ensures r <= s && |r| == if n < |s| then n else |s|
  {
    if n < |s| then s[..n] else s
  }

  /** `s.slice(n)` for `n >= 0`. */
  function SuffixFrom(s: string, n: nat): (r: string)
    ensures |r| == if n < |s| then |s| - n else 0
  {
    if n < |s| then s[n..] else []
  }

  /** The final clamp of the cursor offset into `0..len`. */
  function Clamp(offset: int, len: nat): (r: nat)
    ensures r <= len
    ensures 0 <= offset <= len ==> r == offset
    ensures offset < 0 ==> r == 0
    ensures offset > len ==> r == len
  {
    if offset < 0 then 0 else if offset > len then len else offset
  }

  /** The `useInput` handler of the text input. */
  method HandleKey(value: string, cursorOffset: nat, input: string, key: Key) returns (outcome: KeyOutcome)
    ensures outcome.Ignored? <==> EditOf(input, key) == Ignore
    ensures outcome.Submitted? <==> EditOf(input, key) == Submit
    ensures outcome.Submitted? ==> outcome.value == value
    ensures outcome.Edited? ==>
              && 0 <= outcome.cursorOffset <= |outcome.value|
              && (outcome.notifyChange <==> outcome.value != value)
    // movement leaves the value alone and moves the cursor by one, clamped
    ensures EditOf(input, key) == MoveLeft ==>
              outcome.Edited? && outcome.value == value && outcome.cursorOffset == Clamp(cursorOffset - 1, |value|)
    ensures EditOf(input, key) == MoveRight ==>
              outcome.Edited? && outcome.value == value && outcome.cursorOffset == Clamp(cursorOffset + 1, |value|)
    // erasing at the start changes nothing; otherwise exactly the character before the cursor goes
    ensures EditOf(input, key) == Erase && cursorOffset == 0 ==>
              outcome == Edited(0, value, false)
    ensures EditOf(input, key) == Erase && 0 < cursorOffset <= |value| ==>
              outcome == Edited(cursorOffset - 1, value[..cursorOffset - 1] + value[cursorOffset..], true)
    // word kill: the prefix up to and including the last space of the value without its trailing whitespace
    ensures EditOf(input, key) == KillWord ==>
              && outcome.Edited?
              && outcome.value <= TrimEnd(value)
              && (outcome.value == [] || outcome.value[|outcome.value| - 1] == ' ')
              && (forall j :: |outcome.value| <= j < |TrimEnd(value)| ==> TrimEnd(value)[j] != ' ')
              && outcome.cursorOffset == |outcome.value|
    // insertion keeps what was before and after the cursor and moves the cursor over the input
    ensures EditOf(input, key) == Insert && cursorOffset <= |value| ==>
              && outcome.Edited?
              && |outcome.value| == |value| + |input|
              && outcome.value[..cursorOffset] == value[..cursorOffset]
              && outcome.value[cursorOffset..cursorOffset + |input|] == input
              && outcome.value[cursorOffset + |input|..] == value[cursorOffset..]
              && outcome.cursorOffset == cursorOffset + |input|
  {
    if key.upArrow || key.downArrow || (key.ctrl && input == "c") || (key.ctrl && input == "d")
       || key.tab || (key.shift && key.tab) {
      return Ignored;
    }
    if key.returnKey {
      return Submitted(value);
    }
    var nextCursorOffset, nextValue := ApplyEdit(value, cursorOffset, input, key);
    outcome := Edited(Clamp(nextCursorOffset, |nextValue|), nextValue, nextValue != value);
  }

  /** The editing branches of the handler: the value and the cursor offset before the final clamp. */
  method ApplyEdit(value: string, cursorOffset: nat, input: string, key: Key) returns (nextCursorOffset: int, nextValue: string)
    requires EditOf(input, key) != Ignore && EditOf(input, key) != Submit
    ensures EditOf(input, key) == MoveLeft ==> nextValue == value && nextCursorOffset == cursorOffset - 1
    ensures EditOf(input, key) == MoveRight ==> nextValue == value && nextCursorOffset == cursorOffset + 1
    ensures EditOf(input, key) == Erase && cursorOffset == 0 ==> nextValue == value && nextCursorOffset == 0
    ensures EditOf(input, key) == Erase && 0 < cursorOffset <= |value| ==>
              nextValue == value[..cursorOffset - 1] + value[cursorOffset..] && nextCursorOffset == cursorOffset - 1
    ensures EditOf(input, key) == KillWord ==>
              && nextValue <= TrimEnd(value)
              && (nextValue == [] || nextValue[|nextValue| - 1] == ' ')
              && (forall j :: |nextValue| <= j < |TrimEnd(value)| ==> TrimEnd(value)[j] != ' ')
              && nextCursorOffset == |nextValue|
    ensures EditOf(input, key) == Insert && cursorOffset <= |value| ==>
              && |nextValue| == |value| + |input|
              && nextValue[..cursorOffset] == value[..cursorOffset]
              && nextValue[cursorOffset..cursorOffset + |input|] == input
              && nextValue[cursorOffset + |input|..] == value[cursorOffset..]
              && nextCursorOffset == cursorOffset + |input|
  {
    nextCursorOffset := cursorOffset;
    nextValue := value;
    if key.leftArrow {
      nextCursorOffset := nextCursorOffset - 1;
    } else if key.rightArrow {
      nextCursorOffset := nextCursorOffset + 1;
    } else if key.backspace || key.delete {
      if cursorOffset > 0 {
        nextValue := Prefix(value, cursorOffset - 1) + SuffixFrom(value, cursorOffset);
        nextCursorOffset := nextCursorOffset - 1;
      }
    } else if key.ctrl && input == "w" {
      nextValue := WordKill(value);
      nextCursorOffset := |nextValue|;
    } else {
      nextValue := Prefix(value, cursorOffset) + input + SuffixFrom(value, cursorOffset);
      nextCursorOffset := nextCursorOffset + |input|;
      if cursorOffset <= |value| {
        InsertShape(value, cursorOffset, input, nextValue);
      }
    }
  }

  /**
   * Ctrl+W: the value up to and including the last space of the value without its trailing
   * whitespace, or nothing when that has no space.
   */
  function WordKill(value: string): (killed: string)
    ensures killed <= TrimEnd(value)
    ensures killed == [] || killed[|killed| - 1] == ' '
    ensures forall j :: |killed| <= j < |TrimEnd(value)| ==> TrimEnd(value)[j] != ' '
  {
    var trimmed := TrimEnd(value);
    var lastSpaceIndex := LastIndexOf(trimmed, ' ');
    if lastSpaceIndex == -1 then "" else value[..lastSpaceIndex + 1]
  }

  /** Inserting at a cursor inside the value keeps what lies before and after it. */
  lemma InsertShape(value: string, cursorOffset: nat, input: string, inserted: string)
    requires cursorOffset <= |value|
    requires inserted == Prefix(value, cursorOffset) + input + SuffixFrom(value, cursorOffset)
    ensures |inserted| == |value| + |input|
    ensures inserted[..cursorOffset] == value[..cursorOffset]
    ensures inserted[cursorOffset..cursorOffset + |input|] == input
    ensures inserted[cursorOffset + |input|..] == value[cursorOffset..]
  {
    assert Prefix(value, cursorOffset) == value[..cursorOffset];
    assert SuffixFrom(value, cursorOffset) == value[cursorOffset..];
  }

  /**
   * The effect run when the value is replaced from outside: with focus, a cursor past the
   * last character is moved to the end of the new value.
   */
  function SyncCursor(cursorOffset: nat, newValue: string, focus: bool): (r: nat)
    ensures focus ==> r == if cursorOffset < |newValue| then cursorOffset else |newValue|
    ensures !focus ==> r == cursorOffset
    ensures focus ==> r <= |newValue| && r <= cursorOffset
  {
    if !focus then cursorOffset
    else if cursorOffset > |newValue| - 1 then |newValue|
    else cursorOffset
  }
}
