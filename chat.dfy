/**
 * The decision `handleSubmit` makes about the chat input: the `/nick` command, which works
 * even while the chat is hidden, the block on posting while hidden, and the post itself.
 */
module Chat {
  import opened Wrappers
  import opened Strings

  const NickCommand := "/nick "

  /** What submitting the input does. */
  datatype SubmitAction =
      /** A blank input does nothing. */
    | NoAction
      /** `/nick`: the username becomes `name` when there is one; the input is cleared either way. */
    | Nick(name: Option<string>)
      /** The chat is hidden: the post is blocked, a warning shown, the input kept. */
    | BlockedHidden
      /** The trimmed input is posted as a message. */
    | Publish(text: string)

  function HandleSubmit(inputValue: string, isHidden: bool): (a: SubmitAction)
    ensures a == NoAction <==> Trim(inputValue) == []
    ensures a.Nick? <==> StartsWith(Trim(inputValue), NickCommand)
    ensures a.BlockedHidden? <==> Trim(inputValue) != [] && !StartsWith(Trim(inputValue), NickCommand) && isHidden
    ensures a.Publish? ==> a.text == Trim(inputValue) && !isHidden
    ensures a.Nick? && a.name.Some? ==> a.name.value != [] && a.name.value == Trim(Trim(inputValue)[|NickCommand|..])
  {
    var trimmedInput := Trim(inputValue);
    if trimmedInput == [] then NoAction
    else if StartsWith(trimmedInput, NickCommand) then
      var newUsername := Trim(trimmedInput[6..]);
      Nick(if newUsername != [] then Some(newUsername) else None)
    else if isHidden then BlockedHidden
    else Publish(trimmedInput)
  }

  /**
   * The name is never empty: the trimmed input ends in a character that is not whitespace,
   * so something follows "/nick ". The `if (newUsername)` test never fails.
   */
  lemma NickAlwaysNamesSomeone(inputValue: string, isHidden: bool)
    requires StartsWith(Trim(inputValue), NickCommand)
    ensures HandleSubmit(inputValue, isHidden).Nick?
    ensures HandleSubmit(inputValue, isHidden).name.Some?
  {
    var t := Trim(inputValue);
    assert t[..6] == NickCommand;
    assert t[5] == ' ' && IsWhitespace(' ');
    assert !IsWhitespace(t[|t| - 1]);
    var rest := t[6..];
    assert rest[|rest| - 1] == t[|t| - 1];
    assert !IsWhitespace(rest[|rest| - 1]);
    assert Trim(rest) != [];
  }

  /** `/nick` works the same whether or not the chat is hidden. */
  lemma NickIgnoresHidden(inputValue: string)
    requires StartsWith(Trim(inputValue), NickCommand)
    ensures HandleSubmit(inputValue, true) == HandleSubmit(inputValue, false)
  {
  }

  /** A bare "/nick", however much whitespace surrounds it, is not a command: it is posted, or blocked while hidden. */
  lemma BareNickIsAMessage(inputValue: string, isHidden: bool)
    requires Trim(inputValue) == "/nick"
    ensures HandleSubmit(inputValue, isHidden) == if isHidden then BlockedHidden else Publish("/nick")
  {
  }
}
