/**
 * The environment the monitor reads, made an input: a snapshot of the filesystem
 * and the `node:path` operations on '/'-separated paths.
 */
module Environment {
  import opened Strings

  datatype Kind = Directory | RegularFile

  /**
   * One snapshot of the filesystem as the monitor sees it.
   * `entries` answers `existsSync` and `statSync(..).isDirectory()`;
   * `listings` holds what `readdirSync` returns for each directory that can be read
   * (a directory missing here makes `readdirSync` throw);
   * `contents` holds what `readFile` returns for each file that can be read.
   */
  datatype FileSystem = FileSystem(
    entries: map<string, Kind>,
    listings: map<string, seq<string>>,
    contents: map<string, string>)
  {
    predicate Exists(path: string) {
      path in entries
    }

    predicate IsDirectory(path: string) {
      path in entries && entries[path] == Directory
    }

    /**
     * Only directories have listings (`readdirSync` on a file throws), and the names in a
     * listing are single path components.
     */
    predicate WellFormed() {
      && (forall dir :: dir in listings ==> IsDirectory(dir))
      && (forall dir, k :: dir in listings && 0 <= k < |listings[dir]| ==>
            listings[dir][k] != [] && Lacks(listings[dir][k], '/'))
    }
  }

  /** `path.join(dir, name)`, without the normalisation step. */
  function Join(dir: string, name: string): string {
    dir + "/" + name
  }

  /** `path.basename(p)`: what follows the last '/'. */
  function BaseName(p: string): (r: string)
    ensures Lacks(r, '/')
  {
    var i := LastIndexOf(p, '/');
    if i == -1 then p
    else
      var r := p[i + 1..];
      assert Lacks(r, '/') by {
        forall k | 0 <= k < |r| ensures r[k] != '/' {
          assert r[k] == p[i + 1 + k];
        }
      }
      r
  }

  /** `path.dirname(p)`: what precedes the last '/' ("." when there is none, "/" for the root). */
  function DirName(p: string): string {
    var i := LastIndexOf(p, '/');
    if i == -1 then "." else if i == 0 then "/" else p[..i]
  }

  /** `path.basename` gives a suffix of the path. */
  lemma BaseNameIsSuffix(p: string)
    ensures |BaseName(p)| <= |p| && BaseName(p) == p[|p| - |BaseName(p)|..]
  {
  }

  lemma BaseNameOfJoin(dir: string, name: string)
    requires Lacks(name, '/')
    ensures BaseName(Join(dir, name)) == name
  {
    var p := Join(dir, name);
    assert p[|dir|] == '/';
    assert LastIndexOf(p, '/') == |dir| by {
      forall j | |dir| < j < |p| ensures p[j] != '/' {
        assert p[j] == name[j - |dir| - 1];
      }
    }
  }

  lemma DirNameOfJoin(dir: string, name: string)
    requires Lacks(name, '/') && dir != []
    ensures DirName(Join(dir, name)) == dir
  {
    var p := Join(dir, name);
    assert p[|dir|] == '/';
    assert LastIndexOf(p, '/') == |dir| by {
      forall j | |dir| < j < |p| ensures p[j] != '/' {
        assert p[j] == name[j - |dir| - 1];
      }
    }
    assert p[..|dir|] == dir;
  }
}
