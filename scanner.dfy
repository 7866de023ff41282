/**
 * Where session logs live: resolving the data roots (`getClaudePaths`), the
 * session filename filter (`isUuidFilename`) and the directory walk (`findAllSessions`).
 */
module Scanner {
  import opened Wrappers
  import opened Strings
  import opened Environment

  // ---------------------------------------------------------------------------
  // Filename filter
  // ---------------------------------------------------------------------------

  predicate IsHexDigit(c: char) {
    ('0' <= c <= '9') || ('a' <= c <= 'f') || ('A' <= c <= 'F')
  }

  /** ASCII lower-casing, the only case folding a non-Unicode `/i` regular expression does here. */
  function LowerAscii(c: char): char {
    if 'A' <= c <= 'Z' then (c as int + 32) as char else c
  }

  /** `s[start..start + len]` is all hexadecimal digits. */
  predicate HexRun(s: string, start: nat, len: nat)
    requires start + len <= |s|
  {
    forall i :: start <= i < start + len ==> IsHexDigit(s[i])
  }

  /** The extension matches ".jsonl" ignoring ASCII case. */
  predicate IsJsonlExtension(ext: string) {
    |ext| == 6 && forall i :: 0 <= i < 6 ==> LowerAscii(ext[i]) == ".jsonl"[i]
  }

  /**
   * `/^[0-9a-f]{8}-[0-9a-f]{4}-[0-9a-f]{4}-[0-9a-f]{4}-[0-9a-f]{12}\.jsonl$/i`:
   * the groups of hexadecimal digits in order, each followed by its separator,
   * anchored at both ends, every letter compared ignoring case.
   */
  predicate IsUuidFilename(f: string)
    ensures IsUuidFilename(f) ==> |f| == 42 && f[36] == '.' && forall i :: 0 <= i < 36 ==> f[i] != '.' && f[i] != '/'
  {
    && |f| == 42
    && HexRun(f, 0, 8) && f[8] == '-'
    && HexRun(f, 9, 4) && f[13] == '-'
    && HexRun(f, 14, 4) && f[18] == '-'
    && HexRun(f, 19, 4) && f[23] == '-'
    && HexRun(f, 24, 12)
    && IsJsonlExtension(f[36..])
  }

  /** The positions of the four dashes of the canonical 8-4-4-4-12 form. */
  predicate IsDashPosition(i: int) {
    i == 8 || i == 13 || i == 18 || i == 23
  }

  /** An independent statement of the same shape, position by position. */
  predicate HasUuidShape(f: string) {
    && |f| == 42
    && (forall i :: 0 <= i < 36 ==> if IsDashPosition(i) then f[i] == '-' else IsHexDigit(f[i]))
    && IsJsonlExtension(f[36..])
  }

  /** The group-by-group filter and the position-by-position shape agree, in both directions. */
  lemma UuidFilenameIsShape(f: string)
    ensures IsUuidFilename(f) <==> HasUuidShape(f)
  {
    if IsUuidFilename(f) {
      forall i | 0 <= i < 36 ensures if IsDashPosition(i) then f[i] == '-' else IsHexDigit(f[i]) {
        if i < 8 { assert HexRun(f, 0, 8); }
        else if 8 < i < 13 { assert HexRun(f, 9, 4); }
        else if 13 < i < 18 { assert HexRun(f, 14, 4); }
        else if 18 < i < 23 { assert HexRun(f, 19, 4); }
        else if 23 < i { assert HexRun(f, 24, 12); }
      }
    }
  }

  /** A session filename holds no '/' and its first '.' is the one before the extension. */
  lemma UuidFilenameParts(f: string)
    requires IsUuidFilename(f)
    ensures Lacks(f, '/')
    ensures Lacks(f[..36], '.') && f[36] == '.'
  {
    UuidFilenameIsShape(f);
    assert LowerAscii(f[36]) == '.';
    forall i | 0 <= i < |f| ensures f[i] != '/' {
      if 36 < i {
        assert LowerAscii(f[i]) == ".jsonl"[i - 36];
      }
    }
    forall i | 0 <= i < 36 ensures f[..36][i] != '.' {
      assert f[..36][i] == f[i];
    }
  }

  /** `file.replace(".jsonl", "")`: the session id is the filename with its first ".jsonl" removed. */
  function SessionIdOf(fileName: string): (id: string)
    ensures !Contains(fileName, ".jsonl") ==> id == fileName
    ensures Contains(fileName, ".jsonl") ==> |id| == |fileName| - 6
  {
    ReplaceFirst(fileName, ".jsonl", "")
  }

  /** With a lower-case extension, the session id is the 36-character UUID. */
  lemma SessionIdOfLowerCase(f: string)
    requires IsUuidFilename(f) && EndsWith(f, ".jsonl")
    ensures SessionIdOf(f) == f[..36]
  {
    UuidFilenameParts(f);
    assert OccursAt(f, ".jsonl", 36);
    ContainsAt(f, ".jsonl", 36);
    forall k | 0 <= k < 36 ensures !OccursAt(f, ".jsonl", k) {
      assert f[..36][k] == f[k];
      NotStartsWithOtherChar(f[k..], ".jsonl");
    }
    var i := IndexOf(f, ".jsonl");
    assert i == 36;
    assert f[i + 6..] == [];
  }

  /**
   * The filter ignores case, so an upper-case ".JSONL" file is a session file too; the
   * case-sensitive `replace` then leaves its extension in the session id.
   */
  lemma SessionIdOfUpperCase(f: string)
    requires IsUuidFilename(f) && f[36..] == ".JSONL"
    ensures SessionIdOf(f) == f
  {
    UuidFilenameParts(f);
    forall k | 0 <= k <= |f| ensures !OccursAt(f, ".jsonl", k) {
      if k < 36 {
        assert f[..36][k] == f[k];
        NotStartsWithOtherChar(f[k..], ".jsonl");
      } else if k == 36 {
        assert f[k..][1] == 'J';
      }
    }
    NotContainsAt(f, ".jsonl");
  }

  /** All characters of `s` are hexadecimal digits. */
  predicate AllHex(s: string) {
    forall i :: 0 <= i < |s| ==> IsHexDigit(s[i])
  }

  /** Five groups of hexadecimal digits of the right lengths, joined by dashes and followed by the extension, pass. */
  lemma UuidFromGroups(a: string, b: string, c: string, d: string, e: string, ext: string)
    requires |a| == 8 && |b| == 4 && |c| == 4 && |d| == 4 && |e| == 12
    requires AllHex(a) && AllHex(b) && AllHex(c) && AllHex(d) && AllHex(e)
    requires IsJsonlExtension(ext)
    ensures IsUuidFilename(a + "-" + b + "-" + c + "-" + d + "-" + e + ext)
  {
    var f := a + "-" + b + "-" + c + "-" + d + "-" + e + ext;
    forall i | 0 <= i < 8 ensures IsHexDigit(f[i]) { assert f[i] == a[i]; }
    forall i | 9 <= i < 13 ensures IsHexDigit(f[i]) { assert f[i] == b[i - 9]; }
    forall i | 14 <= i < 18 ensures IsHexDigit(f[i]) { assert f[i] == c[i - 14]; }
    forall i | 19 <= i < 23 ensures IsHexDigit(f[i]) { assert f[i] == d[i - 19]; }
    forall i | 24 <= i < 36 ensures IsHexDigit(f[i]) { assert f[i] == e[i - 24]; }
    assert f[36..] == ext;
  }

  /** The example session filename, written as its five groups and its extension. */
  lemma CanonicalNameGroups()
    ensures "3f29b6d2" + "-" + "1a4e" + "-" + "4c7e" + "-" + "9c11" + "-" + "2b7e8b9a0000" + ".jsonl"
            == "3f29b6d2-1a4e-4c7e-9c11-2b7e8b9a0000.jsonl"
  {
  }

  /** A canonical UUID followed by ".jsonl" passes. */
  lemma CanonicalNameExample()
    ensures IsUuidFilename("3f29b6d2-1a4e-4c7e-9c11-2b7e8b9a0000.jsonl")
  {
    var a, b, c, d, e := "3f29b6d2", "1a4e", "4c7e", "9c11", "2b7e8b9a0000";
    assert AllHex(a) && AllHex(b) && AllHex(c) && AllHex(d) && AllHex(e);
    UuidFromGroups(a, b, c, d, e, ".jsonl");
    CanonicalNameGroups();
  }

  /** Names of the wrong length never pass: the pattern is anchored at both ends. */
  lemma NameExamples()
    ensures !IsUuidFilename("notes.txt")
    ensures !IsUuidFilename("3f29b6d2.jsonl")
    ensures !IsUuidFilename("3f29b6d2-1a4e-4c7e-9c11-2b7e8b9a0000.jsonl.bak")
  {
  }

  // ---------------------------------------------------------------------------
  // Path resolution
  // ---------------------------------------------------------------------------

  /** `parts.map(p => p.trim())`. */
  function TrimAll(parts: seq<string>): (r: seq<string>)
    ensures |r| == |parts|
  {
    seq(|parts|, i requires 0 <= i < |parts| => Trim(parts[i]))
  }

  /** The entries of `CLAUDE_CONFIG_DIR`: split on ',', each trimmed, empty ones dropped. */
  function ConfigDirEntries(env: Option<string>): seq<string> {
    var envPaths := Trim(env.GetOr(""));
    if envPaths == [] then [] else NonEmpty(TrimAll(Split(envPaths, ',')))
  }

  /** The two default roots, in the order they are tried. */
  function DefaultRoots(home: string): seq<string> {
    [Join(home, ".config/claude"), Join(home, ".claude")]
  }

  predicate HasProjects(fs: FileSystem, root: string) {
    fs.Exists(Join(root, "projects"))
  }

  /** The candidates that have a `projects` subdirectory, in order, duplicates kept. */
  function WithProjects(fs: FileSystem, candidates: seq<string>): seq<string> {
    if candidates == [] then []
    else
      var last := candidates[|candidates| - 1];
      WithProjects(fs, candidates[..|candidates| - 1]) + (if HasProjects(fs, last) then [last] else [])
  }

  /** The resolved roots: kept entries of the variable first, then the kept defaults. */
  function ClaudePaths(fs: FileSystem, env: Option<string>, home: string): seq<string> {
    WithProjects(fs, ConfigDirEntries(env)) + WithProjects(fs, DefaultRoots(home))
  }

  /** `getClaudePaths`. */
  method GetClaudePaths(fs: FileSystem, env: Option<string>, home: string) returns (paths: seq<string>)
    ensures paths == ClaudePaths(fs, env, home)
  {
    paths := [];
    var envPaths := Trim(env.GetOr(""));
    if envPaths != [] {
      var envPathList := NonEmpty(TrimAll(Split(envPaths, ',')));
      paths := PushWithProjects(fs, paths, envPathList);
    }
    assert paths == WithProjects(fs, ConfigDirEntries(env));
    paths := PushWithProjects(fs, paths, DefaultRoots(home));
  }

  /** One loop of `getClaudePaths`: appends to `paths` each candidate that has a `projects` subdirectory. */
  method PushWithProjects(fs: FileSystem, paths: seq<string>, candidates: seq<string>) returns (pushed: seq<string>)
    ensures pushed == paths + WithProjects(fs, candidates)
  {
    pushed := paths;
    for i := 0 to |candidates|
      invariant pushed == paths + WithProjects(fs, candidates[..i])
    {
      assert candidates[..i + 1][..i] == candidates[..i];
      if fs.Exists(Join(candidates[i], "projects")) {
        pushed := pushed + [candidates[i]];
      }
    }
    assert candidates[..|candidates|] == candidates;
  }

  /** A candidate is kept exactly when it has a `projects` subdirectory. */
  lemma {:induction false} WithProjectsMembers(fs: FileSystem, candidates: seq<string>, p: string)
    ensures p in WithProjects(fs, candidates) <==> p in candidates && HasProjects(fs, p)
  {
    if candidates != [] {
      var init := candidates[..|candidates| - 1];
      WithProjectsMembers(fs, init, p);
      assert candidates == init + [candidates[|candidates| - 1]];
    }
  }

  /** A root is resolved exactly when it is a configured or default candidate with a `projects` subdirectory. */
  lemma ClaudePathsMembers(fs: FileSystem, env: Option<string>, home: string, p: string)
    ensures p in ClaudePaths(fs, env, home) <==>
              (p in ConfigDirEntries(env) || p in DefaultRoots(home)) && HasProjects(fs, p)
  {
    WithProjectsMembers(fs, ConfigDirEntries(env), p);
    WithProjectsMembers(fs, DefaultRoots(home), p);
  }

  /** No root is resolved exactly when no candidate has a `projects` subdirectory. */
  lemma ClaudePathsEmpty(fs: FileSystem, env: Option<string>, home: string)
    ensures ClaudePaths(fs, env, home) == [] <==>
              forall p :: (p in ConfigDirEntries(env) || p in DefaultRoots(home)) ==> !HasProjects(fs, p)
  {
    forall p ensures p in ClaudePaths(fs, env, home) <==>
                       (p in ConfigDirEntries(env) || p in DefaultRoots(home)) && HasProjects(fs, p) {
      ClaudePathsMembers(fs, env, home, p);
    }
    if ClaudePaths(fs, env, home) != [] {
      assert ClaudePaths(fs, env, home)[0] in ClaudePaths(fs, env, home);
    }
  }

  /** Every configured entry is non-empty, has no surrounding whitespace and holds no ','. */
  lemma ConfigDirEntriesAreClean(env: Option<string>, p: string)
    requires p in ConfigDirEntries(env)
    ensures p != [] && !IsWhitespace(p[0]) && !IsWhitespace(p[|p| - 1])
    ensures Lacks(p, ',')
  {
    var envPaths := Trim(env.GetOr(""));
    var parts := Split(envPaths, ',');
    NonEmptyMembers(TrimAll(parts), p);
    var k :| 0 <= k < |parts| && TrimAll(parts)[k] == p;
    SplitPartsLackSeparator(envPaths, ',');
    TrimKeeps(parts[k], c => c != ',');
  }

  // ---------------------------------------------------------------------------
  // Directory walk
  // ---------------------------------------------------------------------------

  /** One discovered session log. */
  datatype SessionFile = SessionFile(sessionId: string, projectPath: string, filePath: string)

  /** The session files of one project directory's listing, in listing order. */
  function FilesOf(projectPath: string, projectDir: string, files: seq<string>): seq<SessionFile> {
    if files == [] then []
    else
      var f := files[|files| - 1];
      FilesOf(projectPath, projectDir, files[..|files| - 1])
        + (if IsUuidFilename(f) then [SessionFile(SessionIdOf(f), projectDir, Join(projectPath, f))] else [])
  }

  /**
   * The session files under the listed entries `dirs` of a `projects` directory. Entries that are
   * not directories, and directories that cannot be read, are skipped; an entry that no longer
   * exists makes `statSync` throw, which abandons the rest of this root.
   */
  function ProjectSessions(fs: FileSystem, projectsDir: string, dirs: seq<string>): seq<SessionFile> {
    if dirs == [] then []
    else
      var projectPath := Join(projectsDir, dirs[0]);
      if !fs.Exists(projectPath) then []
      else
        (if fs.IsDirectory(projectPath) && projectPath in fs.listings
         then FilesOf(projectPath, dirs[0], fs.listings[projectPath]) else [])
        + ProjectSessions(fs, projectsDir, dirs[1..])
  }

  /** The session files of one root; a missing or unreadable `projects` directory gives none. */
  function RootSessions(fs: FileSystem, root: string): seq<SessionFile> {
    var projectsDir := Join(root, "projects");
    if !fs.Exists(projectsDir) || projectsDir !in fs.listings then []
    else ProjectSessions(fs, projectsDir, fs.listings[projectsDir])
  }

  /** The session files of all roots: by root, then by directory listing, then by file listing. */
  function AllSessions(fs: FileSystem, roots: seq<string>): seq<SessionFile> {
    if roots == [] then []
    else AllSessions(fs, roots[..|roots| - 1]) + RootSessions(fs, roots[|roots| - 1])
  }

  /** `findAllSessions`. */
  method FindAllSessions(fs: FileSystem, roots: seq<string>) returns (sessionFiles: seq<SessionFile>)
    ensures sessionFiles == AllSessions(fs, roots)
  {
    sessionFiles := [];
    for i := 0 to |roots|
      invariant sessionFiles == AllSessions(fs, roots[..i])
    {
      assert roots[..i + 1][..i] == roots[..i];
      var found := ScanRoot(fs, roots[i]);
      sessionFiles := sessionFiles + found;
    }
    assert roots[..|roots|] == roots;
  }

  /** One iteration of `findAllSessions` over the roots: the `projects` directory of `root`. */
  method ScanRoot(fs: FileSystem, root: string) returns (found: seq<SessionFile>)
    ensures found == RootSessions(fs, root)
  {
    found := [];
    var projectsDir := Join(root, "projects");
    if fs.Exists(projectsDir) && projectsDir in fs.listings {
      var projectDirs := fs.listings[projectsDir];
      var j := 0;
      var aborted := false;
      while j < |projectDirs| && !aborted
        invariant 0 <= j <= |projectDirs|
        invariant aborted ==> found == RootSessions(fs, root)
        invariant !aborted ==> found + ProjectSessions(fs, projectsDir, projectDirs[j..]) == RootSessions(fs, root)
        decreases |projectDirs| - j, !aborted
      {
        var projectDir := projectDirs[j];
        var projectPath := Join(projectsDir, projectDir);
        assert projectDirs[j..][1..] == projectDirs[j + 1..];
        if !fs.Exists(projectPath) {
          aborted := true;
        } else {
          if fs.IsDirectory(projectPath) && projectPath in fs.listings {
            var files := ScanProject(projectPath, projectDir, fs.listings[projectPath]);
            found := found + files;
          }
          j := j + 1;
        }
      }
      if !aborted {
        assert projectDirs[j..] == [];
      }
    }
  }

  /** The innermost loop of `findAllSessions`: the session files of one project directory's listing. */
  method ScanProject(projectPath: string, projectDir: string, files: seq<string>) returns (found: seq<SessionFile>)
    ensures found == FilesOf(projectPath, projectDir, files)
  {
    found := [];
    for k := 0 to |files|
      invariant found == FilesOf(projectPath, projectDir, files[..k])
    {
      assert files[..k + 1][..k] == files[..k];
      var file := files[k];
      if IsUuidFilename(file) {
        found := found + [SessionFile(SessionIdOf(file), projectDir, Join(projectPath, file))];
      }
    }
    assert files[..|files|] == files;
  }

  /** A file entry is listed exactly when some session file of the listing names it. */
  lemma {:induction false} FilesOfMembers(projectPath: string, projectDir: string, files: seq<string>, e: SessionFile)
    ensures e in FilesOf(projectPath, projectDir, files) <==>
              exists f :: f in files && IsUuidFilename(f) && e == SessionFile(SessionIdOf(f), projectDir, Join(projectPath, f))
  {
    if files != [] {
      var init := files[..|files| - 1];
      FilesOfMembers(projectPath, projectDir, init, e);
      assert files == init + [files[|files| - 1]];
    }
  }

  /** Every session file under a `projects` directory comes from a readable project directory in its listing. */
  lemma {:induction false} ProjectSessionsMembers(fs: FileSystem, projectsDir: string, dirs: seq<string>, e: SessionFile)
    requires e in ProjectSessions(fs, projectsDir, dirs)
    ensures exists d :: d in dirs && fs.IsDirectory(Join(projectsDir, d)) && Join(projectsDir, d) in fs.listings &&
                        e in FilesOf(Join(projectsDir, d), d, fs.listings[Join(projectsDir, d)])
  {
    var projectPath := Join(projectsDir, dirs[0]);
    if fs.IsDirectory(projectPath) && projectPath in fs.listings &&
       e in FilesOf(projectPath, dirs[0], fs.listings[projectPath]) {
      assert dirs[0] in dirs;
    } else {
      ProjectSessionsMembers(fs, projectsDir, dirs[1..], e);
      var d :| d in dirs[1..] && fs.IsDirectory(Join(projectsDir, d)) && Join(projectsDir, d) in fs.listings &&
               e in FilesOf(Join(projectsDir, d), d, fs.listings[Join(projectsDir, d)]);
      assert d in dirs;
    }
  }

  /** Every session file found comes from one of the roots. */
  lemma {:induction false} AllSessionsMembers(fs: FileSystem, roots: seq<string>, e: SessionFile)
    requires e in AllSessions(fs, roots)
    ensures exists k :: 0 <= k < |roots| && e in RootSessions(fs, roots[k])
  {
    var init := roots[..|roots| - 1];
    if e in AllSessions(fs, init) {
      AllSessionsMembers(fs, init, e);
      var k :| 0 <= k < |init| && e in RootSessions(fs, init[k]);
      assert roots[k] == init[k];
    }
  }

  /**
   * What the watcher can recover from a discovered file's path alone: its name passes the
   * filter, the session id and the project name derive from the path as `handleFileChange`
   * derives them, the enclosing directory is a project directory, and the one above it is
   * the `projects` directory of a root.
   */
  predicate Discovered(fs: FileSystem, roots: seq<string>, e: SessionFile) {
    var file := BaseName(e.filePath);
    var dir := DirName(e.filePath);
    && IsUuidFilename(file)
    && e.sessionId == SessionIdOf(file)
    && e.projectPath == BaseName(dir)
    && fs.IsDirectory(dir)
    && exists k :: 0 <= k < |roots| && DirName(dir) == Join(roots[k], "projects")
  }

  /** Every session file the walk returns is `Discovered`, when listings hold single path components. */
  lemma AllSessionsAreDiscovered(fs: FileSystem, roots: seq<string>, e: SessionFile)
    requires fs.WellFormed()
    requires e in AllSessions(fs, roots)
    ensures Discovered(fs, roots, e)
  {
    AllSessionsMembers(fs, roots, e);
    var k :| 0 <= k < |roots| && e in RootSessions(fs, roots[k]);
    var projectsDir := Join(roots[k], "projects");
    var dirs := fs.listings[projectsDir];
    ProjectSessionsMembers(fs, projectsDir, dirs, e);
    var d :| d in dirs && fs.IsDirectory(Join(projectsDir, d)) && Join(projectsDir, d) in fs.listings &&
             e in FilesOf(Join(projectsDir, d), d, fs.listings[Join(projectsDir, d)]);
    var projectPath := Join(projectsDir, d);
    var files := fs.listings[projectPath];
    FilesOfMembers(projectPath, d, files, e);
    var f :| f in files && IsUuidFilename(f) && e == SessionFile(SessionIdOf(f), d, Join(projectPath, f));
    var di :| 0 <= di < |dirs| && dirs[di] == d;
    var fi :| 0 <= fi < |files| && files[fi] == f;
    assert Lacks(d, '/') && Lacks(f, '/');
    BaseNameOfJoin(projectPath, f);
    DirNameOfJoin(projectPath, f);
    BaseNameOfJoin(projectsDir, d);
    DirNameOfJoin(projectsDir, d);
  }
}
