/** The working directory as a set of existing file paths, with the path
    helpers the bot uses: `cleanup_file`, `os.path.splitext` and the
    `os.path.dirname` emptiness test behind `os.makedirs`. */
module FileSystem {
  import opened Wrappers
  import opened Text

  type FileSet = set<string>

  /** `cleanup_file`: removes the path when it exists, does nothing
      otherwise, and never raises (OS errors are only logged). */
  function CleanupFile(fs: FileSet, path: string): (r: FileSet)
    ensures path !in r
    ensures forall q :: q != path ==> (q in r <==> q in fs)
  {
    fs - {path}
  }

  /** Removing a file twice leaves the same directory as removing it once. */
  lemma CleanupFileIdempotent(fs: FileSet, path: string)
    ensures CleanupFile(CleanupFile(fs, path), path) == CleanupFile(fs, path)
    ensures path !in fs ==> CleanupFile(fs, path) == fs
  {
  }

  /** `str.rfind(c)`: -1 when absent. */
  function LastIndexOf(s: string, c: char): (r: int)
    ensures -1 <= r < |s|
    ensures r >= 0 ==> s[r] == c
    ensures forall k :: r < k < |s| ==> s[k] != c
    decreases |s|
  {
    if |s| == 0 then -1
    else if s[|s| - 1] == c then |s| - 1
    else LastIndexOf(s[..|s| - 1], c)
  }

  /** `os.path.splitext` on POSIX paths: splits before the last `.` of the
      last path component, unless that component consists of dots up to it
      (so `dir/.hidden` has no extension). */
  function SplitExt(p: string): (r: (string, string))
    ensures r.0 + r.1 == p
    ensures r.1 == "" || (r.1[0] == '.' && '/' !in r.1 && '.' !in r.1[1..])
  {
    var sep := LastIndexOf(p, '/');
    var dot := LastIndexOf(p, '.');
    if dot > sep && exists i :: sep + 1 <= i < dot && p[i] != '.' then
      assert '/' !in p[dot..] by {
        forall k | 0 <= k < |p[dot..]| ensures p[dot..][k] != '/' {
          assert p[dot..][k] == p[dot + k];
        }
      }
      assert '.' !in p[dot + 1..] by {
        var tail := p[dot + 1..];
        forall k | 0 <= k < |tail| ensures tail[k] != '.' {
          assert tail[k] == p[dot + 1 + k];
        }
      }
      assert p[dot..][1..] == p[dot + 1..];
      (p[..dot], p[dot..])
    else (p, "")
  }

  /** `os.path.dirname(p) != ''`: the path names a directory part. */
  predicate HasDirectory(p: string) {
    '/' in p
  }

  /** `f"{base}.{ext}"`. */
  function WithExtension(base: string, ext: string): string {
    base + "." + ext
  }

  /** The position of the first extension `e` in `exts` for which
      `base.e` exists: the probing loop that stops at its first hit. */
  function FirstExisting(base: string, exts: seq<string>, fs: FileSet): (r: Option<nat>)
    ensures r.Some? ==> r.value < |exts| && WithExtension(base, exts[r.value]) in fs
    ensures r.Some? ==> forall j :: 0 <= j < r.value ==> WithExtension(base, exts[j]) !in fs
    ensures r.None? <==> forall j :: 0 <= j < |exts| ==> WithExtension(base, exts[j]) !in fs
    decreases |exts|
  {
    if |exts| == 0 then None
    else if WithExtension(base, exts[0]) in fs then Some(0)
    else
      assert forall j :: 1 <= j < |exts| ==> exts[1..][j - 1] == exts[j];
      match FirstExisting(base, exts[1..], fs)
      case None => None
      case Some(i) => Some(i + 1)
  }
}
