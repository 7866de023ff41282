/**
 * Reading a session log: the last record that parses (`parseLastMessage`) and the
 * records that fall in today's window (`parseAllMessagesForDailyCount`).
 */
module LogParser {
  import opened Wrappers
  import opened Strings
  import opened Records
  import opened Environment

  /** `readFile(path, "utf-8")`: `None` when it throws. */
  function ReadFile(fs: FileSystem, path: string): Option<string> {
    if path in fs.contents then Some(fs.contents[path]) else None
  }

  /** `content.trim().split("\n").filter(line => line.length > 0)`. */
  function Lines(content: string): seq<string> {
    NonEmpty(Split(Trim(content), '\n'))
  }

  /** Every line is non-empty and holds no newline. */
  lemma {:induction false} LinesAreClean(content: string, k: int)
    requires 0 <= k < |Lines(content)|
    ensures Lines(content)[k] != [] && Lacks(Lines(content)[k], '\n')
  {
    var parts := Split(Trim(content), '\n');
    var line := Lines(content)[k];
    assert line in Lines(content);
    NonEmptyMembers(parts, line);
    SplitPartsLackSeparator(Trim(content), '\n');
  }

  /** Content that is blank after trimming has no lines. */
  lemma BlankContentHasNoLines(content: string)
    requires Trim(content) == []
    ensures Lines(content) == []
  {
    assert Split(Trim(content), '\n') == [[]];
    assert NonEmpty([[]]) == NonEmpty([]) + [];
  }

  // ---------------------------------------------------------------------------
  // Tail parse
  // ---------------------------------------------------------------------------

  /** The parse of the last line that parses, scanning from the end. */
  function LastParsed(parse: Parser, lines: seq<string>): Option<Json> {
    if lines == [] then None
    else
      var last := lines[|lines| - 1];
      if parse(last).Some? then parse(last) else LastParsed(parse, lines[..|lines| - 1])
  }

  /**
   * The tail parse is `None` exactly when no line parses, and otherwise the parse of
   * some line after which no line parses.
   */
  lemma {:induction false} LastParsedIsLastSuccess(parse: Parser, lines: seq<string>)
    ensures var r := LastParsed(parse, lines);
            && (r.None? <==> forall k :: 0 <= k < |lines| ==> parse(lines[k]).None?)
            && (r.Some? ==> exists k :: 0 <= k < |lines| && parse(lines[k]) == r &&
                              forall j :: k < j < |lines| ==> parse(lines[j]).None?)
  {
    if lines != [] {
      var init := lines[..|lines| - 1];
      LastParsedIsLastSuccess(parse, init);
      assert forall k :: 0 <= k < |init| ==> init[k] == lines[k];
    }
  }

  /** What `parseLastMessage` returns: `None` for `null` (a read failure, no lines, no line that parses). */
  function LastMessage(fs: FileSystem, parse: Parser, filePath: string): Option<Json> {
    match ReadFile(fs, filePath)
    case None => None
    case Some(content) => LastParsed(parse, Lines(content))
  }

  /** `parseLastMessage`: tries the lines from the last to the first and returns the first parse that succeeds. */
  method ParseLastMessage(fs: FileSystem, parse: Parser, filePath: string) returns (r: Option<Json>)
    ensures r == LastMessage(fs, parse, filePath)
  {
    var content := ReadFile(fs, filePath);
    if content.None? {
      return None;
    }
    var lines := Lines(content.value);
    if |lines| == 0 {
      return None;
    }
    var i := |lines| - 1;
    assert lines[..i + 1] == lines;
    while i >= 0
      invariant -1 <= i < |lines|
      invariant LastParsed(parse, lines) == LastParsed(parse, lines[..i + 1])
    {
      LastParsedStep(parse, lines, i);
      var data := parse(lines[i]);
      if data.Some? {
        return data;
      }
      i := i - 1;
    }
    assert lines[..0] == [];
    return None;
  }

  /** One step of the backward scan: line `i` decides unless it fails to parse. */
  lemma LastParsedStep(parse: Parser, lines: seq<string>, i: int)
    requires 0 <= i < |lines|
    ensures LastParsed(parse, lines[..i + 1]) ==
              if parse(lines[i]).Some? then parse(lines[i]) else LastParsed(parse, lines[..i])
  {
    assert lines[..i + 1][..i] == lines[..i];
    assert lines[..i + 1][i] == lines[i];
  }

  /** A readable log whose trimmed content is blank gives `null`. */
  lemma BlankLogHasNoLastMessage(fs: FileSystem, parse: Parser, filePath: string)
    requires filePath in fs.contents && Trim(fs.contents[filePath]) == []
    ensures LastMessage(fs, parse, filePath).None?
  {
    BlankContentHasNoLines(fs.contents[filePath]);
  }

  // ---------------------------------------------------------------------------
  // Today-window parse
  // ---------------------------------------------------------------------------

  /**
   * `data && data.message && data.timestamp` and `new Date(data.timestamp).getTime() >= todayStart`:
   * an unparseable timestamp gives NaN, which fails the comparison.
   */
  predicate InTodayWindow(data: Json, todayStart: int) {
    && data.Value?
    && data.record.message.Some?
    && data.record.timestamp.IsTruthy()
    && match TimeOf(data.record.timestamp)
       case Some(t) => t >= todayStart
       case None => false
  }

  /** The records of the lines that parse and fall in the window, in line order. */
  function TodayRecords(parse: Parser, lines: seq<string>, todayStart: int): seq<Record> {
    if lines == [] then []
    else
      var data := parse(lines[|lines| - 1]);
      TodayRecords(parse, lines[..|lines| - 1], todayStart)
        + (if data.Some? && InTodayWindow(data.value, todayStart) then [data.value.record] else [])
  }

  /** What `parseAllMessagesForDailyCount` returns: nothing when the file cannot be read. */
  function DailyRecords(fs: FileSystem, parse: Parser, filePath: string, todayStart: int): seq<Record> {
    match ReadFile(fs, filePath)
    case None => []
    case Some(content) => TodayRecords(parse, Lines(content), todayStart)
  }

  /** `parseAllMessagesForDailyCount`. */
  method ParseAllMessagesForDailyCount(fs: FileSystem, parse: Parser, filePath: string, todayStart: int)
    returns (messages: seq<Record>)
    ensures messages == DailyRecords(fs, parse, filePath, todayStart)
  {
    var content := ReadFile(fs, filePath);
    if content.None? {
      return [];
    }
    var lines := Lines(content.value);
    messages := [];
    for i := 0 to |lines|
      invariant messages == TodayRecords(parse, lines[..i], todayStart)
    {
      assert lines[..i + 1][..i] == lines[..i];
      var data := parse(lines[i]);
      if data.Some? && data.value.Value? {
        var rec := data.value.record;
        if rec.message.Some? && rec.timestamp.IsTruthy() {
          var timestamp := TimeOf(rec.timestamp);
          if timestamp.Some? && timestamp.value >= todayStart {
            messages := messages + [rec];
          }
        }
      }
    }
    assert lines[..|lines|] == lines;
  }

  /** The window keeps exactly the records of lines that parse into it. */
  lemma {:induction false} TodayRecordsMembers(parse: Parser, lines: seq<string>, todayStart: int, r: Record)
    ensures r in TodayRecords(parse, lines, todayStart) <==>
              exists k :: 0 <= k < |lines| && parse(lines[k]) == Some(Value(r)) && InTodayWindow(Value(r), todayStart)
  {
    if lines != [] {
      var init := lines[..|lines| - 1];
      TodayRecordsMembers(parse, init, todayStart, r);
      assert forall k :: 0 <= k < |init| ==> init[k] == lines[k];
    }
  }

  /** The window keeps line order: the records of `a + b` are those of `a` followed by those of `b`. */
  lemma {:induction false} TodayRecordsAppend(parse: Parser, a: seq<string>, b: seq<string>, todayStart: int)
    ensures TodayRecords(parse, a + b, todayStart) == TodayRecords(parse, a, todayStart) + TodayRecords(parse, b, todayStart)
  {
    if b == [] {
      assert a + b == a;
    } else {
      var init := b[..|b| - 1];
      TodayRecordsAppend(parse, a, init, todayStart);
      assert (a + b)[..|a + b| - 1] == a + init;
    }
  }

  /** Every record in the window has a message and a timestamp at or after the day start. */
  lemma {:induction false} TodayRecordsAreInWindow(parse: Parser, lines: seq<string>, todayStart: int, k: int)
    requires 0 <= k < |TodayRecords(parse, lines, todayStart)|
    ensures InTodayWindow(Value(TodayRecords(parse, lines, todayStart)[k]), todayStart)
  {
    var r := TodayRecords(parse, lines, todayStart)[k];
    assert r in TodayRecords(parse, lines, todayStart);
    TodayRecordsMembers(parse, lines, todayStart, r);
  }
}
