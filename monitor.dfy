/**
 * `ClaudeSessionMonitor`: the session table, the daily ledger, the day rollover,
 * the initial scan and the reactions to watch events, as sequential calls on one object.
 */
module Monitor {
  import opened Wrappers
  import opened Strings
  import opened Records
  import opened Environment
  import opened Scanner
  import opened Activity
  import opened UsageLedger
  import opened LogParser

  /** A session's `status`, "ACTIVE" or "INACTIVE". */
  datatype Status = Active | Inactive

  /** One entry of the session table; every update replaces an entry whole. */
  datatype SessionState = SessionState(status: Status, lastMessage: Record, filePath: string, projectPath: string)

  /** What `onUpdate` is called with. */
  datatype Update = Update(activeSessions: nat, todayCost: real, todayTokens: int)

  /** `start` either throws because no data directory was found or completes the initial scan. */
  datatype StartOutcome = NoDataDirectories | Started(notes: seq<Update>)

  function Max(a: int, b: int): int {
    if a < b then b else a
  }

  // ---------------------------------------------------------------------------
  // The session table
  // ---------------------------------------------------------------------------

  /** `getActiveSessions`: the number of entries whose status is ACTIVE. */
  function ActiveCount(sessions: map<string, SessionState>): (n: nat)
    ensures n <= |sessions|
  {
    var active := ActiveIds(sessions);
    assert active <= sessions.Keys;
    SubsetIsSmaller(active, sessions.Keys);
    |active|
  }

  /** The ids of the ACTIVE entries. */
  function ActiveIds(sessions: map<string, SessionState>): set<string> {
    set id | id in sessions && sessions[id].status == Active
  }

  lemma SubsetIsSmaller<T>(a: set<T>, b: set<T>)
    requires a <= b
    ensures |a| <= |b|
  {
    if a != {} {
      var x :| x in a;
      SubsetIsSmaller(a - {x}, b - {x});
    }
  }

  /** Replacing one entry changes the count by what that entry's old and new statuses contribute. */
  lemma ActiveCountUpdate(sessions: map<string, SessionState>, id: string, s: SessionState)
    ensures ActiveCount(sessions[id := s]) ==
              ActiveCount(sessions)
              - (if id in sessions && sessions[id].status == Active then 1 else 0)
              + (if s.status == Active then 1 else 0)
  {
    var before := ActiveIds(sessions);
    var after := ActiveIds(sessions[id := s]);
    assert after - {id} == before - {id};
    assert id in after <==> s.status == Active;
    CardinalityAcross(before, after, id);
  }

  /** Two sets that agree except perhaps on `x` differ in size by what `x` contributes to each. */
  lemma CardinalityAcross<T>(a: set<T>, b: set<T>, x: T)
    requires a - {x} == b - {x}
    ensures |b| == |a| - (if x in a then 1 else 0) + (if x in b then 1 else 0)
  {
    var rest := a - {x};
    if x in a {
      assert a == rest + {x};
    } else {
      assert a == rest;
    }
    if x in b {
      assert b == rest + {x};
    } else {
      assert b == rest;
    }
  }

  /** The table entry for a session whose last record is `lastMessage`. */
  function StateFor(lastMessage: Record, filePath: string, projectPath: string, now: int): (s: SessionState)
    ensures s.status == Active <==> IsActiveMessage(lastMessage, now)
    ensures s.lastMessage == lastMessage && s.filePath == filePath && s.projectPath == projectPath
  {
    SessionState(if IsActiveMessage(lastMessage, now) then Active else Inactive, lastMessage, filePath, projectPath)
  }

  /** `if (!lastMessage) return`: the tail parse gives a record, or nothing to act on. */
  function LastRecord(fs: FileSystem, parse: Parser, filePath: string): (r: Option<Record>)
    ensures r.Some? <==> LastMessage(fs, parse, filePath).Some? && LastMessage(fs, parse, filePath).value.Value?
  {
    match LastMessage(fs, parse, filePath)
    case Some(Value(rec)) => Some(rec)
    case _ => None
  }

  /** The tail parse of every file, as one function of the path. */
  function TailOf(fs: FileSystem, parse: Parser): string -> Option<Record> {
    p => LastRecord(fs, parse, p)
  }

  /** The table after one session's entry is refreshed from its file's last record `last`, if any. */
  function Refreshed(sessions: map<string, SessionState>, last: Option<Record>,
                     sessionId: string, filePath: string, projectPath: string, now: int): map<string, SessionState>
  {
    match last
    case Some(rec) => sessions[sessionId := StateFor(rec, filePath, projectPath, now)]
    case None => sessions
  }

  /**
   * A refresh touches at most its own key: every other entry is as it was, the key itself is
   * present afterwards exactly when it was before or there is a last record, and that record
   * decides its status.
   */
  lemma RefreshedTouchesOnlyItsKey(sessions: map<string, SessionState>, last: Option<Record>,
                                   sessionId: string, filePath: string, projectPath: string, now: int)
    ensures var t := Refreshed(sessions, last, sessionId, filePath, projectPath, now);
            && (forall id :: id != sessionId ==> (id in t <==> id in sessions) && (id in t ==> t[id] == sessions[id]))
            && (sessionId in t <==> sessionId in sessions || last.Some?)
            && (last.None? ==> t == sessions)
            && (last.Some? ==> (t[sessionId].status == Active <==> IsActiveMessage(last.value, now)))
  {
  }

  /** Refreshing twice from the same record is refreshing once. */
  lemma RefreshedIdempotent(sessions: map<string, SessionState>, last: Option<Record>,
                            sessionId: string, filePath: string, projectPath: string, now: int)
    ensures var t := Refreshed(sessions, last, sessionId, filePath, projectPath, now);
            Refreshed(t, last, sessionId, filePath, projectPath, now) == t
  {
  }

  /** The table after the second pass of the initial scan: every session file refreshed, in order. */
  function ScanStates(sessions: map<string, SessionState>, tail: string -> Option<Record>,
                      files: seq<SessionFile>, now: int): map<string, SessionState>
  {
    if files == [] then sessions
    else
      var e := files[|files| - 1];
      Refreshed(ScanStates(sessions, tail, files[..|files| - 1], now), tail(e.filePath), e.sessionId, e.filePath, e.projectPath, now)
  }

  /** Some file of `files` belongs to session `id` and has a last record. */
  predicate SomeFileLoads(tail: string -> Option<Record>, files: seq<SessionFile>, id: string) {
    exists k :: 0 <= k < |files| && files[k].sessionId == id && tail(files[k].filePath).Some?
  }

  lemma SomeFileLoadsSplit(tail: string -> Option<Record>, files: seq<SessionFile>, id: string)
    requires files != []
    ensures SomeFileLoads(tail, files, id) <==>
              SomeFileLoads(tail, files[..|files| - 1], id) ||
              (files[|files| - 1].sessionId == id && tail(files[|files| - 1].filePath).Some?)
  {
    var init := files[..|files| - 1];
    if SomeFileLoads(tail, init, id) {
      var k :| 0 <= k < |init| && init[k].sessionId == id && tail(init[k].filePath).Some?;
      assert files[k] == init[k];
    }
    if SomeFileLoads(tail, files, id) {
      var k :| 0 <= k < |files| && files[k].sessionId == id && tail(files[k].filePath).Some?;
      if k < |init| {
        assert files[k] == init[k];
      }
    }
  }

  /** After the scan, every session of a file with a last record has an entry, and nothing else was added. */
  lemma {:induction false} ScanStatesKeys(sessions: map<string, SessionState>, tail: string -> Option<Record>,
                                          files: seq<SessionFile>, now: int, id: string)
    ensures id in ScanStates(sessions, tail, files, now) <==> id in sessions || SomeFileLoads(tail, files, id)
  {
    if files != [] {
      var init := files[..|files| - 1];
      ScanStatesKeys(sessions, tail, init, now, id);
      SomeFileLoadsSplit(tail, files, id);
    }
  }

  // ---------------------------------------------------------------------------
  // The daily ledger
  // ---------------------------------------------------------------------------

  /** Today's records of every session file, file by file. */
  function AllToday(fs: FileSystem, parse: Parser, files: seq<SessionFile>, todayStart: int): seq<Record> {
    if files == [] then []
    else AllToday(fs, parse, files[..|files| - 1], todayStart) + DailyRecords(fs, parse, files[|files| - 1].filePath, todayStart)
  }

  /** The ledger `recalculateDailyTotals` builds from nothing for the day starting at `dayStart`. */
  function DailyTotals(fs: FileSystem, parse: Parser, roots: seq<string>, dayStart: int, pricing: Pricing): Totals {
    Fold(NoTotals, AllToday(fs, parse, AllSessions(fs, roots), dayStart), dayStart, pricing)
  }

  /**
   * The rebuilt ledger counts each of today's countable uuids exactly once: its totals are the sums
   * over a log of distinct uuids, and its processed set is exactly the countable uuids of today's records.
   */
  lemma DailyTotalsAccounts(fs: FileSystem, parse: Parser, roots: seq<string>, dayStart: int, pricing: Pricing)
    ensures var rs := AllToday(fs, parse, AllSessions(fs, roots), dayStart);
            && Accounts(DailyTotals(fs, parse, roots, dayStart, pricing), Counted(NoTotals, rs, dayStart, pricing))
            && DailyTotals(fs, parse, roots, dayStart, pricing).processed == CountableIds(rs, dayStart, pricing)
  {
    FreshFoldAccounts(AllToday(fs, parse, AllSessions(fs, roots), dayStart), dayStart, pricing);
  }

  /**
   * The ledger after `updateSession`: on a new day it is rebuilt, ignoring what it held before;
   * then the file's last record, if any, is applied under the guard.
   */
  function LedgerAfter(t: Totals, todayStart: int, fs: FileSystem, parse: Parser, roots: seq<string>,
                       pricing: Pricing, filePath: string, currentDayStart: int): (u: Totals)
    ensures currentDayStart <= todayStart ==> t.processed <= u.processed
    ensures currentDayStart > todayStart ==> DailyTotals(fs, parse, roots, currentDayStart, pricing).processed <= u.processed
    ensures LastRecord(fs, parse, filePath).None? ==>
              u == if currentDayStart > todayStart then DailyTotals(fs, parse, roots, currentDayStart, pricing) else t
  {
    var dayStart := Max(todayStart, currentDayStart);
    var base := if currentDayStart > todayStart then DailyTotals(fs, parse, roots, currentDayStart, pricing) else t;
    match LastRecord(fs, parse, filePath)
    case Some(rec) => Step(base, rec, dayStart, pricing)
    case None => base
  }

  /** On a new day the ledger that results does not depend on the ledger before. */
  lemma RolloverForgetsPriorTotals(t1: Totals, t2: Totals, todayStart: int, fs: FileSystem, parse: Parser,
                                   roots: seq<string>, pricing: Pricing, filePath: string, currentDayStart: int)
    requires currentDayStart > todayStart
    ensures LedgerAfter(t1, todayStart, fs, parse, roots, pricing, filePath, currentDayStart) ==
            LedgerAfter(t2, todayStart, fs, parse, roots, pricing, filePath, currentDayStart)
  {
  }

  /** On the same day only the last record is applied, and only if it passes the guard. */
  lemma SameDayAppliesLastRecord(t: Totals, todayStart: int, fs: FileSystem, parse: Parser,
                                 roots: seq<string>, pricing: Pricing, filePath: string, currentDayStart: int)
    requires currentDayStart <= todayStart
    ensures var u := LedgerAfter(t, todayStart, fs, parse, roots, pricing, filePath, currentDayStart);
            && t.processed <= u.processed
            && (u != t ==> LastRecord(fs, parse, filePath).Some? && Counts(t, LastRecord(fs, parse, filePath).value, todayStart, pricing))
  {
  }

  /**
   * The same file change handled twice adds nothing the second time: the day has already
   * advanced, and the last record's uuid is already processed.
   */
  lemma LedgerAfterIdempotent(t: Totals, todayStart: int, fs: FileSystem, parse: Parser,
                              roots: seq<string>, pricing: Pricing, filePath: string, currentDayStart: int)
    ensures var u := LedgerAfter(t, todayStart, fs, parse, roots, pricing, filePath, currentDayStart);
            LedgerAfter(u, Max(todayStart, currentDayStart), fs, parse, roots, pricing, filePath, currentDayStart) == u
  {
    var dayStart := Max(todayStart, currentDayStart);
    var base := if currentDayStart > todayStart then DailyTotals(fs, parse, roots, currentDayStart, pricing) else t;
    if LastRecord(fs, parse, filePath).Some? {
      StepIdempotent(base, LastRecord(fs, parse, filePath).value, dayStart, pricing);
    }
  }

  // ---------------------------------------------------------------------------
  // Watching
  // ---------------------------------------------------------------------------

  /** The `projects` directories `start` asks to watch that exist. */
  function WatchTargets(fs: FileSystem, roots: seq<string>): seq<string> {
    if roots == [] then []
    else
      var dir := Join(roots[|roots| - 1], "projects");
      WatchTargets(fs, roots[..|roots| - 1]) + (if fs.Exists(dir) then [dir] else [])
  }

  /**
   * The watch loop's filter: a filename is present, ends with the lower-case ".jsonl",
   * and its last component passes the session filename filter.
   */
  predicate WatchAccepts(filename: Option<string>)
    ensures WatchAccepts(filename) ==>
              filename.Some? && |BaseName(filename.value)| == 42 &&
              SessionIdOf(BaseName(filename.value)) == BaseName(filename.value)[..36]
  {
    AcceptedNameHasLowerCaseExtension(filename);
    && filename.Some?
    && filename.value != []
    && EndsWith(filename.value, ".jsonl")
    && IsUuidFilename(BaseName(filename.value))
  }

  /**
   * A filename that passes the watch filter ends in a base name that passes the session
   * filter and ends with the lower-case ".jsonl", so its session id is the bare UUID.
   */
  lemma AcceptedNameHasLowerCaseExtension(filename: Option<string>)
    ensures filename.Some? && EndsWith(filename.value, ".jsonl") && IsUuidFilename(BaseName(filename.value)) ==>
              |BaseName(filename.value)| == 42 && SessionIdOf(BaseName(filename.value)) == BaseName(filename.value)[..36]
  {
    if filename.Some? && EndsWith(filename.value, ".jsonl") && IsUuidFilename(BaseName(filename.value)) {
      var p := filename.value;
      var b := BaseName(p);
      BaseNameIsSuffix(p);
      assert b[|b| - 6..] == p[|p| - 6..];
      SessionIdOfLowerCase(b);
    }
  }

  /** An event for a session file `f` of a project directory, reported as `d/f`, passes the watch filter. */
  lemma WatchAcceptsSessionFile(d: string, f: string)
    requires IsUuidFilename(f) && EndsWith(f, ".jsonl")
    ensures WatchAccepts(Some(Join(d, f)))
  {
    UuidFilenameParts(f);
    BaseNameOfJoin(d, f);
    assert Join(d, f)[|Join(d, f)| - 6..] == f[|f| - 6..];
  }

  /**
   * An event for file `f` of project directory `d`, reported relative to the watched `projects`
   * directory, names the same path the scan finds and yields the scan's session id and project name.
   */
  lemma WatchEventMatchesScan(projectsDir: string, d: string, f: string)
    requires d != [] && Lacks(d, '/')
    requires IsUuidFilename(f)
    ensures Join(projectsDir, Join(d, f)) == Join(Join(projectsDir, d), f)
    ensures var filePath := Join(Join(projectsDir, d), f);
            SessionIdOf(BaseName(filePath)) == SessionIdOf(f) && BaseName(DirName(filePath)) == d
  {
    UuidFilenameParts(f);
    var dir := Join(projectsDir, d);
    BaseNameOfJoin(dir, f);
    DirNameOfJoin(dir, f);
    BaseNameOfJoin(projectsDir, d);
  }

  /** The scan accepts an upper-case ".JSONL" file, but the watch filter never does. */
  lemma WatchIgnoresUpperCaseExtension(d: string, f: string)
    requires IsUuidFilename(f) && f[36..] == ".JSONL"
    ensures !WatchAccepts(Some(Join(d, f)))
  {
    var p := Join(d, f);
    assert p[|p| - 6..] == f[36..];
    assert p[|p| - 6..][1] == 'J';
  }

  // ---------------------------------------------------------------------------
  // The monitor
  // ---------------------------------------------------------------------------

  class SessionMonitor {
    var sessions: map<string, SessionState>
    var todayTokens: int
    var todayCost: real
    var todayStart: int
    var processedMessages: set<string>
    var isShuttingDown: bool
    /** The directories being watched. */
    var watchers: seq<string>
    const modelPricing: Pricing
    const claudePaths: seq<string>
    /** `JSON.parse`. */
    const parse: Parser
    /** The messages counted since the last reset, in the order they were counted. */
    ghost var counted: seq<Entry>

    /** `todayTokens`, `todayCost` and `processedMessages` together. */
    function Ledger(): Totals
      reads this`todayTokens, this`todayCost, this`processedMessages
    {
      Totals(todayTokens, todayCost, processedMessages)
    }

    /** The ledger is the sum over the counted messages, each `uuid` counted once. */
    ghost predicate Valid()
      reads this`todayTokens, this`todayCost, this`processedMessages, this`counted
    {
      Accounts(Ledger(), counted)
    }

    /** `new ClaudeSessionMonitor(pricingData)`, with the day start, the environment and the parser as inputs. */
    constructor(fs: FileSystem, env: Option<string>, home: string, dayStart: int,
                pricingData: Option<Pricing>, parse: Parser)
      ensures Valid()
      ensures sessions == map[] && Ledger() == NoTotals && todayStart == dayStart
      ensures !isShuttingDown && watchers == []
      ensures modelPricing == pricingData.GetOr(map[])
      ensures claudePaths == ClaudePaths(fs, env, home)
      ensures this.parse == parse
    {
      sessions := map[];
      todayTokens := 0;
      todayCost := 0.0;
      todayStart := dayStart;
      watchers := [];
      isShuttingDown := false;
      modelPricing := pricingData.GetOr(map[]);
      processedMessages := {};
      var paths := GetClaudePaths(fs, env, home);
      claudePaths := paths;
      this.parse := parse;
      counted := [];
    }

    /** The guarded block shared by every accounting loop. */
    method AccountRecord(r: Record)
      requires Valid()
      modifies this`todayTokens, this`todayCost, this`processedMessages, this`counted
      ensures Valid()
      ensures Ledger() == Step(old(Ledger()), r, todayStart, modelPricing)
    {
      StepAccounts(Ledger(), counted, r, todayStart, modelPricing);
      ghost var log := counted + NewEntries(Ledger(), r, todayStart, modelPricing);
      var c := TokensAndCost(r, todayStart, modelPricing);
      if c.tokens > 0 && IsTruthy(r.uuid) && r.uuid.value !in processedMessages {
        todayTokens := todayTokens + c.tokens;
        todayCost := todayCost + c.cost;
        processedMessages := processedMessages + {r.uuid.value};
      }
      counted := log;
    }

    /** The loop over one file's records. */
    method AccountRecords(rs: seq<Record>)
      requires Valid()
      modifies this`todayTokens, this`todayCost, this`processedMessages, this`counted
      ensures Valid()
      ensures Ledger() == Fold(old(Ledger()), rs, todayStart, modelPricing)
    {
      for k := 0 to |rs|
        invariant Valid()
        invariant Ledger() == Fold(old(Ledger()), rs[..k], todayStart, modelPricing)
      {
        assert rs[..k + 1][..k] == rs[..k];
        AccountRecord(rs[k]);
      }
      assert rs[..|rs|] == rs;
    }

    /** The first pass over the session files: each file's records of today, in order. */
    method AccountFiles(fs: FileSystem, sessionFiles: seq<SessionFile>)
      requires Valid()
      modifies this`todayTokens, this`todayCost, this`processedMessages, this`counted
      ensures Valid()
      ensures Ledger() == Fold(old(Ledger()), AllToday(fs, parse, sessionFiles, todayStart), todayStart, modelPricing)
    {
      for i := 0 to |sessionFiles|
        invariant Valid()
        invariant Ledger() == Fold(old(Ledger()), AllToday(fs, parse, sessionFiles[..i], todayStart), todayStart, modelPricing)
      {
        assert sessionFiles[..i + 1][..i] == sessionFiles[..i];
        var allMessages := ParseAllMessagesForDailyCount(fs, parse, sessionFiles[i].filePath, todayStart);
        FoldAppend(old(Ledger()), AllToday(fs, parse, sessionFiles[..i], todayStart), allMessages, todayStart, modelPricing);
        AccountRecords(allMessages);
      }
      assert sessionFiles[..|sessionFiles|] == sessionFiles;
    }

    /** `recalculateDailyTotals`: the ledger is reset and rebuilt from every session file. */
    method RecalculateDailyTotals(fs: FileSystem)
      requires Valid()
      modifies this`todayTokens, this`todayCost, this`processedMessages, this`counted
      ensures Valid()
      ensures Ledger() == DailyTotals(fs, parse, claudePaths, todayStart, modelPricing)
    {
      var sessionFiles := FindAllSessions(fs, claudePaths);
      todayTokens := 0;
      todayCost := 0.0;
      processedMessages := {};
      counted := [];
      NoTotalsAccounts();
      AccountFiles(fs, sessionFiles);
    }

    /** `updateSessionState`: refreshes one entry of the table and never touches the ledger. */
    method UpdateSessionState(fs: FileSystem, sessionId: string, filePath: string, projectPath: string, now: int)
      returns (note: Option<Update>)
      modifies this`sessions
      ensures sessions == Refreshed(old(sessions), LastRecord(fs, parse, filePath), sessionId, filePath, projectPath, now)
      ensures note == if LastRecord(fs, parse, filePath).Some?
                      then Some(Update(ActiveCount(sessions), todayCost, todayTokens)) else None
    {
      var lastMessage := ParseLastMessage(fs, parse, filePath);
      if lastMessage.None? || lastMessage.value.Falsy? {
        return None;
      }
      var rec := lastMessage.value.record;
      var isActive := IsActiveMessage(rec, now);
      sessions := sessions[sessionId := SessionState(if isActive then Active else Inactive, rec, filePath, projectPath)];
      note := Some(Update(ActiveCount(sessions), todayCost, todayTokens));
    }

    /**
     * `updateSession`: on a new day the ledger is reset and rebuilt, then the file's last record
     * refreshes its entry and is applied to the ledger.
     */
    method UpdateSession(fs: FileSystem, sessionId: string, filePath: string, projectPath: string,
                         now: int, currentDayStart: int)
      returns (note: Option<Update>)
      requires Valid()
      modifies this`sessions, this`todayTokens, this`todayCost, this`todayStart, this`processedMessages, this`counted
      ensures Valid()
      ensures Updated(fs, sessionId, filePath, projectPath, now, currentDayStart, note)
    {
      if currentDayStart > todayStart {
        StartNewDay(fs, currentDayStart);
      }
      var lastMessage := ParseLastMessage(fs, parse, filePath);
      if lastMessage.None? || lastMessage.value.Falsy? {
        return None;
      }
      var rec := lastMessage.value.record;
      var isActive := IsActiveMessage(rec, now);
      sessions := sessions[sessionId := SessionState(if isActive then Active else Inactive, rec, filePath, projectPath)];
      AccountRecord(rec);
      note := Some(Update(ActiveCount(sessions), todayCost, todayTokens));
    }

    /**
     * The state `updateSession` leaves: the day start has advanced to `currentDayStart` if that is
     * later, the ledger is `LedgerAfter` the old one, the file's last record, if any, has refreshed
     * the session's entry, and a notification is sent exactly when there was such a record.
     */
    twostate predicate Updated(fs: FileSystem, sessionId: string, filePath: string, projectPath: string,
                               now: int, currentDayStart: int, new note: Option<Update>)
      reads this
    {
      && todayStart == Max(old(todayStart), currentDayStart)
      && Ledger() == LedgerAfter(old(Ledger()), old(todayStart), fs, parse, claudePaths, modelPricing, filePath, currentDayStart)
      && sessions == Refreshed(old(sessions), LastRecord(fs, parse, filePath), sessionId, filePath, projectPath, now)
      && note == if LastRecord(fs, parse, filePath).Some?
                 then Some(Update(ActiveCount(sessions), todayCost, todayTokens)) else None
    }

    /** The day-rollover block of `updateSession`: the new day starts and the ledger is rebuilt for it. */
    method StartNewDay(fs: FileSystem, currentDayStart: int)
      requires Valid()
      requires currentDayStart > todayStart
      modifies this`todayTokens, this`todayCost, this`todayStart, this`processedMessages, this`counted
      ensures Valid()
      ensures todayStart == currentDayStart
      ensures Ledger() == DailyTotals(fs, parse, claudePaths, currentDayStart, modelPricing)
    {
      todayStart := currentDayStart;
      todayTokens := 0;
      todayCost := 0.0;
      processedMessages := {};
      counted := [];
      NoTotalsAccounts();
      RecalculateDailyTotals(fs);
    }

    /** `getActiveSessions`. */
    function ActiveSessions(): (n: nat)
      reads this
      ensures n <= |sessions|
    {
      ActiveCount(sessions)
    }

    /**
     * `initialScan`: the first pass adds every session file's records of today to the ledger,
     * the second refreshes every session's entry; every notification carries the final totals.
     */
    method InitialScan(fs: FileSystem, now: int) returns (notes: seq<Update>)
      requires Valid()
      modifies this`sessions, this`todayTokens, this`todayCost, this`processedMessages, this`counted
      ensures Valid()
      ensures Ledger() == Fold(old(Ledger()), AllToday(fs, parse, AllSessions(fs, claudePaths), todayStart), todayStart, modelPricing)
      ensures sessions == ScanStates(old(sessions), TailOf(fs, parse), AllSessions(fs, claudePaths), now)
      ensures |notes| <= |AllSessions(fs, claudePaths)|
      ensures forall k :: 0 <= k < |notes| ==> notes[k].todayTokens == todayTokens && notes[k].todayCost == todayCost
    {
      var sessionFiles := FindAllSessions(fs, claudePaths);
      AccountFiles(fs, sessionFiles);
      notes := RefreshAll(fs, sessionFiles, now);
    }

    /** The second pass of `initialScan`: every session file refreshes its entry, in order. */
    method RefreshAll(fs: FileSystem, sessionFiles: seq<SessionFile>, now: int) returns (notes: seq<Update>)
      modifies this`sessions
      ensures sessions == ScanStates(old(sessions), TailOf(fs, parse), sessionFiles, now)
      ensures |notes| <= |sessionFiles|
      ensures forall k :: 0 <= k < |notes| ==> notes[k].todayTokens == todayTokens && notes[k].todayCost == todayCost
    {
      notes := [];
      for i := 0 to |sessionFiles|
        invariant sessions == ScanStates(old(sessions), TailOf(fs, parse), sessionFiles[..i], now)
        invariant |notes| <= i
        invariant forall k :: 0 <= k < |notes| ==> notes[k].todayTokens == todayTokens && notes[k].todayCost == todayCost
      {
        assert sessionFiles[..i + 1][..i] == sessionFiles[..i];
        var e := sessionFiles[i];
        var note := UpdateSessionState(fs, e.sessionId, e.filePath, e.projectPath, now);
        assert TailOf(fs, parse)(e.filePath) == LastRecord(fs, parse, e.filePath);
        if note.Some? {
          notes := notes + [note.value];
        }
      }
      assert sessionFiles[..|sessionFiles|] == sessionFiles;
    }

    /** `watchDirectory`: starts watching an existing directory unless the monitor is stopping. */
    method WatchDirectory(fs: FileSystem, dirPath: string)
      modifies this`watchers
      ensures watchers == if fs.Exists(dirPath) && !isShuttingDown then old(watchers) + [dirPath] else old(watchers)
    {
      if !fs.Exists(dirPath) || isShuttingDown {
        return;
      }
      watchers := watchers + [dirPath];
    }

    /** The loop of `start` that watches the `projects` directory of every root. */
    method WatchAll(fs: FileSystem)
      modifies this`watchers
      ensures watchers == old(watchers) + (if isShuttingDown then [] else WatchTargets(fs, claudePaths))
    {
      for i := 0 to |claudePaths|
        invariant watchers == old(watchers) + (if isShuttingDown then [] else WatchTargets(fs, claudePaths[..i]))
      {
        assert claudePaths[..i + 1][..i] == claudePaths[..i];
        var projectsDir := Join(claudePaths[i], "projects");
        WatchDirectory(fs, projectsDir);
      }
      assert claudePaths[..|claudePaths|] == claudePaths;
    }

    /** `start`: throws when no data directory was found; otherwise scans, then watches every `projects` directory. */
    method Start(fs: FileSystem, now: int) returns (outcome: StartOutcome)
      requires Valid()
      modifies this`sessions, this`todayTokens, this`todayCost, this`processedMessages, this`counted, this`watchers
      ensures Valid()
      ensures claudePaths == [] ==> outcome == NoDataDirectories && unchanged(this)
      ensures claudePaths != [] ==>
                && outcome.Started?
                && Ledger() == Fold(old(Ledger()), AllToday(fs, parse, AllSessions(fs, claudePaths), todayStart), todayStart, modelPricing)
                && sessions == ScanStates(old(sessions), TailOf(fs, parse), AllSessions(fs, claudePaths), now)
                && watchers == old(watchers) + (if isShuttingDown then [] else WatchTargets(fs, claudePaths))
    {
      if |claudePaths| == 0 {
        return NoDataDirectories;
      }
      var notes := InitialScan(fs, now);
      WatchAll(fs);
      outcome := Started(notes);
    }

    /** `handleFileChange`: nothing happens once stopping or when the file is gone. */
    method HandleFileChange(fs: FileSystem, filePath: string, now: int, currentDayStart: int)
      returns (note: Option<Update>)
      requires Valid()
      modifies this`sessions, this`todayTokens, this`todayCost, this`todayStart, this`processedMessages, this`counted
      ensures Valid()
      ensures isShuttingDown || !fs.Exists(filePath) ==> note == None && unchanged(this)
      ensures !isShuttingDown && fs.Exists(filePath) ==>
                Updated(fs, SessionIdOf(BaseName(filePath)), filePath, BaseName(DirName(filePath)), now, currentDayStart, note)
    {
      if !fs.Exists(filePath) || isShuttingDown {
        return None;
      }
      note := UpdateSession(fs, SessionIdOf(BaseName(filePath)), filePath, BaseName(DirName(filePath)), now, currentDayStart);
    }

    /**
     * One event of the watch loop on `dirPath`: ignored once stopping, and acted on only when
     * `WatchAccepts` holds for its filename.
     */
    method OnWatchEvent(fs: FileSystem, dirPath: string, filename: Option<string>, now: int, currentDayStart: int)
      returns (note: Option<Update>)
      requires Valid()
      modifies this`sessions, this`todayTokens, this`todayCost, this`todayStart, this`processedMessages, this`counted
      ensures Valid()
      ensures isShuttingDown || !WatchAccepts(filename) ==> note == None && unchanged(this)
      ensures !isShuttingDown && WatchAccepts(filename) && !fs.Exists(Join(dirPath, filename.value)) ==>
                note == None && unchanged(this)
      ensures !isShuttingDown && WatchAccepts(filename) && fs.Exists(Join(dirPath, filename.value)) ==>
                var filePath := Join(dirPath, filename.value);
                Updated(fs, SessionIdOf(BaseName(filePath)), filePath, BaseName(DirName(filePath)), now, currentDayStart, note)
    {
      if isShuttingDown {
        return None;
      }
      if filename.Some? && filename.value != [] && EndsWith(filename.value, ".jsonl") &&
         IsUuidFilename(BaseName(filename.value)) {
        var fullPath := Join(dirPath, filename.value);
        note := HandleFileChange(fs, fullPath, now, currentDayStart);
      } else {
        note := None;
      }
    }

    /** `stop`: from now on no file change is acted on. */
    method Stop()
      modifies this`isShuttingDown
      ensures isShuttingDown
    {
      isShuttingDown := true;
    }
  }
}
