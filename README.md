# vibechat session monitor, in Dafny

This project models `ClaudeSessionMonitor`, the engine of vibechat's status line. It watches an
AI coding assistant's session logs: one newline-delimited JSON file per session, named
`<uuid>.jsonl`, under `<root>/projects/<project>/`. The engine does two jobs:

- It classifies each session as ACTIVE or INACTIVE from the last record of its log.
- It keeps a ledger of today's tokens and cost in which each message `uuid` is counted at most
  once. The ledger is reset and rebuilt from every log when the day changes.

The environment is an input:

- The filesystem is a snapshot (`Environment.FileSystem`). It records which paths exist and
  which are directories, the listing of each readable directory, and the content of each
  readable file.
- `JSON.parse` is an abstract function from a line to an optional parse (`Records.Parser`).
- "Now" and the start of the current day are integer milliseconds.
- The pricing table is a map from model name to four optional per-token rates.
- Calls to `onUpdate` become returned `Update` values.

The model also covers three smaller pieces of the same program:

- The text input's keystroke handler.
- The double-press-to-exit state machine.
- The `/nick` and hidden-chat rule of `handleSubmit`.

Modules follow the engine's parts:

- `Strings`: the JavaScript string operations.
- `Environment`: the filesystem snapshot and `node:path`.
- `Records`: the log record and the parser type.
- `Scanner`: path resolution, the filename filter and the directory walk.
- `LogParser`: the tail parse and the today-window parse.
- `Activity`: the classifier.
- `UsageLedger`: token/cost extraction and the deduplicating ledger.
- `Monitor`: the session table and the `SessionMonitor` class.
- `TextInput`, `ExitKey` and `Chat`.

The monitor's methods are imperative. Each is proved against a specification function:

- `AllSessions` for the walk.
- `LastMessage` and `DailyRecords` for the two parses.
- `Fold` and `DailyTotals` for the ledger.
- `Refreshed` and `ScanStates` for the session table.

The class invariant `Valid` states the ledger's central property. The totals are the sums over
a log of counted messages. No `uuid` appears in that log twice. The processed set is exactly the
log's uuids.

On these points the code's behaviour is easy to misread; the model follows the code:

- The dedup key is only the top-level `uuid`. The inner `message.id` is never read
  (`UsageLedger.DedupIgnoresMessageId`).
- The phrase match is case-sensitive. "Done, let me know if you need anything else" is
  therefore INACTIVE (`Activity.LowerCaseLetMeExample`).
- The today window has no upper bound: a record is kept when its timestamp is at or after the
  day start.
- A missing or unparseable timestamp gives NaN. Such a record is never stale and never before
  the day start, but it is not in the today window.
- The filename filter ignores case, extension included. `file.replace(".jsonl", "")` does not
  ignore case, so a `.JSONL` session keeps its extension in its session id
  (`Scanner.SessionIdOfUpperCase`). The watch loop never accepts an event for such a file in
  any directory (`Monitor.WatchIgnoresUpperCaseExtension`).
- A `projects` entry that vanishes between listing and `statSync` throws. That abandons the
  rest of that root's walk.

## Model

| member | source | states |
|---|---|---|
| `Scanner.GetClaudePaths` | main.tsx:236-263 | the roots are the kept `CLAUDE_CONFIG_DIR` entries in order, then `~/.config/claude` and `~/.claude`, each kept only when `<root>/projects` exists |
| `Scanner.PushWithProjects` | main.tsx:245-249 | one root loop appends exactly the candidates with a `projects` entry, in order, duplicates kept |
| `Scanner.ClaudePathsMembers` | main.js:89-110 | a root is resolved iff it is a configured or default candidate and `<root>/projects` exists |
| `Scanner.ClaudePathsEmpty` | main.js:89-110 | the result is empty iff no candidate has a `projects` entry |
| `Scanner.ConfigDirEntriesAreClean` | main.tsx:237-244 | every configured entry is non-empty, has no whitespace at either end and holds no ',' |
| `Scanner.IsUuidFilename` | main.tsx:265-269 | the anchored case-insensitive 8-4-4-4-12 ".jsonl" pattern; an accepted name is 42 characters, its first '.' is at position 36, and it holds no '/' |
| `Scanner.UuidFilenameIsShape` | main.tsx:265-269 | the filter accepts exactly 42-character names with hex digits and dashes in 8-4-4-4-12 form and a case-insensitive ".jsonl" |
| `Scanner.CanonicalNameExample` | main.js:111-115 | "3f29b6d2-1a4e-4c7e-9c11-2b7e8b9a0000.jsonl" passes the filter |
| `Scanner.NameExamples` | main.js:111-115 | "notes.txt", "3f29b6d2.jsonl" and a name with a trailing ".bak" do not pass |
| `Scanner.SessionIdOf` | main.tsx:290 | `replace` removes the first ".jsonl" only: a name without one is unchanged, otherwise exactly 6 characters go |
| `Scanner.SessionIdOfLowerCase` | main.tsx:290 | a session file with a lower-case extension has its 36-character UUID as session id |
| `Scanner.SessionIdOfUpperCase` | main.tsx:289-290 | a session file with a ".JSONL" extension keeps its whole name as session id |
| `Scanner.FindAllSessions` | main.tsx:271-310 | the walk returns `AllSessions`: by root, then directory listing, then file listing |
| `Scanner.ScanRoot` | main.tsx:272-307 | one root's walk skips non-directories and unreadable directories, and stops at an entry that no longer exists |
| `Scanner.ScanProject` | main.tsx:286-299 | one project directory yields a session file for exactly its names that pass the filter, in listing order |
| `Scanner.FilesOfMembers` | main.js:128-138 | an entry is found iff some listed name passes the filter and the entry is built from that name |
| `Scanner.AllSessionsAreDiscovered` | main.js:116-146 | every entry found has a filtered file name, the session id derived from it, a project name that is a directory under some root's `projects` |
| `LogParser.LinesAreClean` | main.tsx:315-318 | every line of a log is non-empty and holds no newline |
| `LogParser.ParseLastMessage` | main.tsx:312-335 | the backward scan returns `LastMessage`: nothing on a read failure, otherwise the tail parse of the lines |
| `LogParser.LastParsedIsLastSuccess` | main.js:147-164 | the tail parse is none iff no line parses; otherwise it is the parse of a line after which no line parses |
| `LogParser.BlankLogHasNoLastMessage` | main.tsx:320 | a readable log that is blank after trimming gives nothing |
| `LogParser.ParseAllMessagesForDailyCount` | main.tsx:337-364 | the loop returns `DailyRecords`: nothing on a read failure, otherwise the in-window records in line order |
| `LogParser.TodayRecordsMembers` | main.js:165-187 | a record is kept iff some line parses to it with a message, a truthy timestamp and a time at or after the day start |
| `LogParser.TodayRecordsAppend` | main.js:170-183 | the window keeps line order: the records of two runs of lines are concatenated |
| `LogParser.TodayRecordsAreInWindow` | main.tsx:349-353 | every kept record has a message and a timestamp at or after the day start |
| `Activity.IsActiveMessage` | main.tsx:366-405 | the classifier; an active record always has a `message` and is not stale |
| `Activity.HasActionPhrase` | main.tsx:388-395 | the seven case-sensitive phrase tests on the trimmed text; a blank text never carries one |
| `Activity.FindText` | main.tsx:386-387 | the first content item whose type is "text", or none iff there is no such item |
| `Activity.NoMessageIsInactive` | main.tsx:367 | a record without `message` is inactive |
| `Activity.StaleIsInactive` | main.tsx:369-374 | a record older than now minus 300000 ms is inactive whatever it holds |
| `Activity.UntimedIsNeverStale` | main.tsx:370-374 | with a missing or unparseable timestamp the verdict does not depend on the clock |
| `Activity.ToolUseIsActive` | main.tsx:376-382 | within the window an assistant message with a tool_use item is active |
| `Activity.AssistantTextRule` | main.tsx:384-401 | within the window an assistant message without tool_use is active iff its first text item's trimmed text carries one of the seven phrases |
| `Activity.OtherRolesAreActive` | main.tsx:404 | within the window every other role/type combination is active |
| `Activity.NoCapitalsNoPhrase` | main.tsx:388-395 | a text without capital letters never carries a phrase: the match is case-sensitive |
| `Activity.CapitalLetMeIsPhrase` | main.tsx:394 | "Let me" anywhere in the text is a phrase |
| `Activity.StalenessExamples` | main.tsx:369-382 | six minutes old is inactive; one minute old with tool_use is active |
| `Activity.LeadingPhraseExample` | main.tsx:389 | "Now I'll refactor the module" is active |
| `Activity.PlainReplyIsInactive` | main.tsx:397-401 | a text-only assistant reply without a phrase is inactive |
| `Activity.PlainStatementExample` | main.tsx:388-395 | "The function now returns 42." carries no phrase |
| `Activity.LowerCaseLetMeExample` | main.tsx:388-395 | "Done, let me know if you need anything else" carries no phrase |
| `UsageLedger.TokensAndCost` | main.tsx:407-440 | no message, no usage or a timestamp before the day start gives (0, 0); a non-zero cost needs a priced model |
| `UsageLedger.ChargeOfUsage` | main.tsx:414-437 | otherwise tokens are the four subcounts summed with missing ones as 0, and cost is the rated sum for a priced model, else 0 |
| `UsageLedger.CostExample` | main.tsx:428-437 | 1000 input and 500 output tokens at 0.000003 and 0.000015 cost 0.0105; an unknown model costs 0 and still counts 1500 tokens |
| `UsageLedger.TokensIgnorePricing` | main.tsx:424-437 | the token count does not depend on the pricing table |
| `UsageLedger.ChargeIsNonNegative` | main.tsx:407-440 | non-negative subcounts and rates give a non-negative charge |
| `UsageLedger.Step` | main.tsx:494-502 | the guard only grows the processed set, adds a countable record's uuid, and changes nothing when it fails |
| `UsageLedger.StepIdempotent` | main.tsx:494-502 | applying the same record twice is applying it once |
| `UsageLedger.DedupIgnoresMessageId` | main.tsx:496 | the inner `message.id` has no effect on accounting |
| `UsageLedger.FoldAppend` | main.tsx:529-546 | accounting two batches in turn is accounting their concatenation |
| `UsageLedger.ReplayIsNoOp` | main.tsx:536-544 | re-applying a whole batch leaves the ledger unchanged |
| `UsageLedger.StepAccounts` | main.tsx:536-544 | one guarded step keeps the totals equal to the sums over distinct counted uuids |
| `UsageLedger.FoldAccounts` | main.tsx:529-546 | a batch keeps the totals equal to the sums over distinct counted uuids, each counted at most once |
| `UsageLedger.CountedIds` | main.tsx:536-544 | after a batch the processed set is the old set plus the countable uuids of the batch |
| `UsageLedger.CountedAreFirstOccurrences` | main.tsx:536-544 | every counted message is the first countable record of the batch with its uuid, a uuid not processed before, and carries that record's tokens and cost |
| `UsageLedger.FreshFoldAccounts` | main.tsx:520-547 | from an empty ledger the totals are the sums over exactly the batch's countable uuids, each once |
| `Monitor.ActiveCount` | main.tsx:514-518 | the number of ACTIVE entries is at most the number of entries |
| `Monitor.ActiveCountUpdate` | main.tsx:447-452 | replacing one entry changes the count only by that entry's old and new status |
| `Monitor.StateFor` | main.tsx:445-452 | the new entry is ACTIVE iff `isActiveMessage` holds, and keeps the record, path and project |
| `Monitor.LastRecord` | main.tsx:443-444 | there is a record to act on iff the tail parse gives a truthy value |
| `Monitor.RefreshedTouchesOnlyItsKey` | main.js:231-248 | an update replaces only its own session's entry, with a status from the classifier, and leaves the table alone when there is no record |
| `Monitor.RefreshedIdempotent` | main.tsx:447-452 | refreshing twice from the same record is refreshing once |
| `Monitor.ScanStatesKeys` | main.tsx:573-575 | after the second scan pass a session has an entry iff it had one or one of its files has a last record |
| `Monitor.DailyTotalsAccounts` | main.tsx:520-547 | the rebuilt ledger counts each of today's countable uuids exactly once |
| `Monitor.LedgerAfter` | main.tsx:464-502 | the processed set only grows from its base: the old ledger on the same day, the rebuilt one on a new day; without a last record the base is the result |
| `Monitor.RolloverForgetsPriorTotals` | main.tsx:466-477 | on a new day the resulting ledger does not depend on the ledger before |
| `Monitor.SameDayAppliesLastRecord` | main.tsx:493-502 | on the same day the ledger changes only if the last record passes the guard |
| `Monitor.LedgerAfterIdempotent` | main.tsx:464-512 | handling the same file change twice adds nothing the second time |
| `Monitor.WatchAccepts` | main.tsx:605-609 | the watch filter; an accepted event's base name is 42 characters and its session id is the bare 36-character UUID |
| `Monitor.AcceptedNameHasLowerCaseExtension` | main.tsx:605-609 | a filename ending in ".jsonl" whose base name passes the filter yields the UUID as session id |
| `Monitor.WatchAcceptsSessionFile` | main.tsx:604-609 | an event for a session file with a lower-case extension passes the watch filter |
| `Monitor.WatchEventMatchesScan` | main.tsx:610-628 | an event's path and its derived session id and project name are those the scan finds |
| `Monitor.WatchIgnoresUpperCaseExtension` | main.tsx:605-609 | the watch filter never accepts an event `<d>/<f>` for a ".JSONL" file `f` that the scan accepts |
| `Monitor.SessionMonitor.constructor` | main.tsx:199-216 | a new monitor has an empty table, an empty ledger, the given day start, the resolved roots and the given pricing |
| `Monitor.SessionMonitor.AccountRecord` | main.tsx:494-502 | one guarded update of the ledger, keeping `Valid` |
| `Monitor.SessionMonitor.AccountRecords` | main.tsx:532-545 | one file's loop applies its records in order |
| `Monitor.SessionMonitor.AccountFiles` | main.tsx:552-570 | the first pass applies every file's today records, file by file |
| `Monitor.SessionMonitor.RecalculateDailyTotals` | main.tsx:520-547 | the ledger becomes `DailyTotals` for the current day start, whatever it held |
| `Monitor.SessionMonitor.StartNewDay` | main.tsx:467-477 | called only for a later day start: the day start advances to it and the ledger is rebuilt for the new day |
| `Monitor.SessionMonitor.UpdateSessionState` | main.tsx:442-462 | refreshes one entry, never touches the ledger, and notifies iff there was a record |
| `Monitor.SessionMonitor.UpdateSession` | main.tsx:464-512 | the day start becomes the later one, the ledger is rebuilt on a new day before the last record is applied, and the entry is refreshed |
| `Monitor.SessionMonitor.ActiveSessions` | main.tsx:514-518 | the active count is at most the table size |
| `Monitor.SessionMonitor.InitialScan` | main.tsx:549-576 | the ledger absorbs every file's today records before any entry is refreshed; every notification carries the final totals |
| `Monitor.SessionMonitor.RefreshAll` | main.tsx:573-575 | the second pass refreshes every file's entry, in order, and never changes the totals |
| `Monitor.SessionMonitor.WatchDirectory` | main.tsx:593-598 | a directory is watched only if it exists and the monitor is not stopping |
| `Monitor.SessionMonitor.WatchAll` | main.tsx:587-590 | every root's existing `projects` directory is watched, in order |
| `Monitor.SessionMonitor.Start` | main.tsx:578-591 | with no roots it fails and changes nothing; otherwise it scans, then watches |
| `Monitor.SessionMonitor.HandleFileChange` | main.tsx:623-635 | once stopping, or for a vanished file, nothing changes; otherwise it runs `updateSession` with the id and project from the path |
| `Monitor.SessionMonitor.OnWatchEvent` | main.tsx:600-613 | once stopping, or for a filename that fails the filter, nothing changes; otherwise the event is handled as a file change |
| `Monitor.SessionMonitor.Stop` | main.tsx:637-639 | the monitor is stopping from then on |
| `TextInput.EditOf` | main.tsx:43-86 | the handler's branch order: up, down, tab, Ctrl+C and Ctrl+D are ignored first, Return submits, Ctrl+W kills a word, and any key that takes none of these branches inserts its input, Ctrl with letters other than c, d and w and Shift included (an iff on `Insert`) |
| `TextInput.HandleKey` | main.tsx:41-97 | ignored keys change nothing, Return submits the value unchanged, and every edit leaves the cursor in 0..length |
| `TextInput.ApplyEdit` | main.tsx:59-86 | left/right move by one; backspace at 0 changes nothing, otherwise removes exactly the character before the cursor; insertion keeps prefix and suffix |
| `TextInput.WordKill` | main.tsx:72-78 | Ctrl+W keeps the value up to and including the last space of its trimEnd, or nothing |
| `TextInput.Clamp` | main.tsx:88-90 | the cursor is clamped into 0..length |
| `TextInput.SyncCursor` | main.tsx:30-39 | with focus, a cursor past the value is moved to its end; without focus it stays |
| `ExitKey.PressExitKey` | main.tsx:871-890 | a press exits iff the pending warning is for the same key; every press clears the pending timer; otherwise a new timer starts with the warning shown for this key |
| `ExitKey.ExitKeyOf` | main.tsx:892-906 | Escape, Ctrl+C and Ctrl+D are the exit keys, Escape first |
| `ExitKey.ExpireTimer` | main.tsx:884-886 | the live timer's expiry returns to idle with nothing shown; a stale timer changes nothing |
| `ExitKey.TerminatesOnSecondPress` | main.tsx:872-879 | a press exits iff a warning for the same key is pending, clearing its timer |
| `ExitKey.DoublePressExits` | main.tsx:871-890 | pressing the same key twice in a row exits |
| `ExitKey.DifferentKeyRestarts` | main.tsx:880-889 | a different key clears the old timer, starts a new one and replaces the pending key |
| `ExitKey.ExpiryForgetsThePress` | main.tsx:884-886 | after expiry the next press only warns |
| `ExitKey.StepsStayReachable` | main.tsx:871-890 | presses and expiries keep the warning shown exactly while a timer runs |
| `Chat.HandleSubmit` | main.js:525-543 | blank input does nothing; "/nick " sets the trimmed rest as username when non-empty and clears the input; otherwise a hidden chat blocks the post |
| `Chat.NickAlwaysNamesSomeone` | main.js:528-535 | after trimming, something always follows "/nick ", so the name is never empty |
| `Chat.NickIgnoresHidden` | main.js:528-537 | `/nick` works the same whether or not the chat is hidden |
| `Chat.BareNickIsAMessage` | main.js:528 | a bare "/nick" is not a command |

## Left out

- Terminal rendering: the Ink/React layout, the cursor drawing of the text input and the overflow measurement. These are UI.
- Network code: the AWS Amplify Events chat transport and the version/pricing bootstrap. The pricing table is an input.
- Settings persistence (`getConfigPath`, `saveSettings`, `loadSettings`). This is file I/O; only the `/nick` decision is modelled.
- Asynchronous watching, signal handlers and process exit. Handlers are sequential calls, and the watch loop is one call per event (`OnWatchEvent`).
- Wall-clock time. `getTodayStart` (local midnight via `Date.setHours`) and `Date.now()` are integer parameters, and date-string parsing is the `Timestamp` datatype.
- `JSON.parse` is abstract. A timestamp that is falsy yet a valid time (the number 0, `null`) is not distinguished from a missing one.
- Floating point: costs are exact `real` sums of products. The `toFixed` formatting of amounts is not modelled.
- `getUserColor`: its hash mixes 32-bit shifts with double arithmetic and only picks a colour.
- `loadPricingData`: the object's entries become the pricing map directly. Its `try`/`catch` around `Object.entries` is not modelled.
- Token subcounts are unbounded integers. JavaScript's `|| 0` on a non-number value, and double precision past 2^53, are not modelled.
- The publish branch of `handleSubmit` is modelled only as the decision `Publish(text)`. The network post, and keeping the input on a failed post, are not.
- `Monitor.SessionMonitor.InitialScan`: states the totals each notification carries, but not its active-session count.
- `Monitor.SessionMonitor.Start`: states the ledger, table and watch list it leaves, but not the notifications it returns.
- `ExitKey`: the handler reads `exitWarning` from the render in which it was created. A press that lands before a state update re-renders is not modelled.
- `TextInput.HandleKey`: lengths and cursor offsets count characters, not UTF-16 code units. Text outside the Basic Multilingual Plane is edited differently: inserting an emoji moves the cursor by 1 rather than 2, and backspace after it removes the whole character rather than one code unit.
- `Environment.Join`: joins by plain concatenation `dir + "/" + name`, without `path.join`'s normalisation. With a root that ends in '/' or holds `.`/`..` segments, the model checks and records paths containing "//" where the program uses the normalised path. This affects `Scanner.GetClaudePaths`, `Scanner.FindAllSessions`, `Scanner.ScanRoot`, `Scanner.ScanProject`, `Monitor.SessionMonitor.WatchAll` and `Monitor.SessionMonitor.OnWatchEvent`. `Environment.BaseName` and `Environment.DirName` likewise do not strip trailing slashes as `path.basename` and `path.dirname` do.
