/** The POSIX `os.path` operations the player relies on: `rfind`, `basename`,
    `splitext`, `join`, and the parent directory the browser computes with
    `abspath(join(d, os.pardir))`. */
module Paths {
  import opened Text

  /** `s.rfind(c)`: the index of the last `c` in `s`, or -1 when there is none. */
  function LastIndexOf(s: string, c: char): (r: int)
    ensures -1 <= r < |s|
    ensures r >= 0 ==> s[r] == c
    ensures forall k :: r < k < |s| ==> s[k] != c
  {
    if s == [] then -1
    else if s[|s| - 1] == c then |s| - 1
    else LastIndexOf(s[..|s| - 1], c)
  }

  /** `os.path.basename(p)`: everything after the last '/'. */
  function Basename(p: string): (r: string)
    ensures '/' !in r
    ensures |r| <= |p| && r == p[|p| - |r|..]
    ensures |r| < |p| ==> p[|p| - |r| - 1] == '/'
  {
    p[LastIndexOf(p, '/') + 1..]
  }

  /** True when some character of `p[lo..hi]` is not a dot. */
  predicate HasNonDot(p: string, lo: int, hi: int)
    requires 0 <= lo <= hi <= |p|
  {
    exists k :: lo <= k < hi && p[k] != '.'
  }

  /** `os.path.splitext(p)`: the extension starts at the last dot of the
      final path component, provided that dot is preceded in the component
      by something other than dots (so ".mp3" and "..mp3" have none). */
  function SplitExt(p: string): (r: (string, string))
    ensures r.0 + r.1 == p
    ensures r.1 == [] || (r.1[0] == '.' && '/' !in r.1 && '.' !in r.1[1..])
    ensures r.1 != [] ==> |r.1| == |p| - LastIndexOf(p, '.')
    ensures r.1 != [] <==>
      var sepIndex, dotIndex := LastIndexOf(p, '/'), LastIndexOf(p, '.');
      dotIndex > sepIndex && HasNonDot(p, sepIndex + 1, dotIndex)
  {
    var sepIndex := LastIndexOf(p, '/');
    var dotIndex := LastIndexOf(p, '.');
    if dotIndex > sepIndex && HasNonDot(p, sepIndex + 1, dotIndex) then
      (p[..dotIndex], p[dotIndex..])
    else
      (p, [])
  }

  /** The extension: `os.path.splitext(p)[1]`. */
  function Ext(p: string): string {
    SplitExt(p).1
  }

  /** The file name without extension: `os.path.splitext(os.path.basename(p))[0]`. */
  function Stem(p: string): string {
    SplitExt(Basename(p)).0
  }

  /** `os.path.join(a, b)` for two components. */
  function Join(a: string, b: string): (r: string)
    ensures b != [] && b[0] == '/' ==> r == b
    ensures (b == [] || b[0] != '/') && (a == [] || a[|a| - 1] == '/') ==> r == a + b
    ensures (b == [] || b[0] != '/') && a != [] && a[|a| - 1] != '/' ==> r == a + "/" + b
  {
    if b != [] && b[0] == '/' then b
    else if a == [] || a[|a| - 1] == '/' then a + b
    else a + "/" + b
  }

  lemma SplitExtExamples()
    ensures SplitExt("song.mp3") == ("song", ".mp3")
    ensures SplitExt(".mp3") == (".mp3", "")
    ensures SplitExt("/music/a.b/track") == ("/music/a.b/track", "")
  {
    assert HasNonDot("song.mp3", 0, 4) by { assert "song.mp3"[0] != '.'; }
    assert LastIndexOf("song.mp3", '/') == -1 by { assert '/' !in "song.mp3"; }
    assert LastIndexOf(".mp3", '/') == -1 by { assert '/' !in ".mp3"; }
    assert LastIndexOf("song.mp3", '.') == 4 by { LastIndexOfIs("song.mp3", '.', 4); }
    assert "song.mp3"[..4] == "song" && "song.mp3"[4..] == ".mp3";
    assert LastIndexOf(".mp3", '.') == 0 by { LastIndexOfIs(".mp3", '.', 0); }
    assert LastIndexOf("/music/a.b/track", '/') == 10 by { LastIndexOfIs("/music/a.b/track", '/', 10); }
    assert LastIndexOf("/music/a.b/track", '.') == 8 by { LastIndexOfIs("/music/a.b/track", '.', 8); }
  }

  /** The last component of a joined path is the name that was joined. */
  lemma BasenameOfJoin(a: string, n: string)
    requires IsName(n)
    ensures Basename(Join(a, n)) == n
  {
    var j := Join(a, n);
    if a == [] {
      assert j == n;
      assert LastIndexOf(j, '/') == -1;
    } else {
      var i := |j| - |n| - 1;
      assert j[i] == '/' && j[i + 1..] == n;
      assert forall k :: i < k < |j| ==> j[k] == n[k - i - 1];
      LastIndexOfIs(j, '/', i);
    }
  }

  /** A file name as `os.listdir` returns it: non-empty, without '/'. */
  predicate IsName(n: string) {
    n != [] && '/' !in n
  }

  /** An absolute directory without a trailing '/', or the root itself. */
  predicate IsAbsoluteDir(d: string) {
    d != [] && d[0] == '/' && (d == "/" || d[|d| - 1] != '/')
  }

  /** `os.path.abspath(os.path.join(d, os.pardir))` for an absolute,
      normalised directory: the text before the last '/', and the root
      when that is empty. The parent of the root is the root. */
  function Parent(d: string): (r: string)
    ensures d != [] && d[0] == '/' ==> r != [] && r[0] == '/' && StartsWith(d, r)
    ensures IsAbsoluteDir(d) && d != "/" ==> |r| < |d|
  {
    var i := LastIndexOf(d, '/');
    if i <= 0 then "/" else d[..i]
  }

  /** Entering a sub-directory and going back up returns to where one was. */
  lemma ParentOfJoin(d: string, n: string)
    requires IsAbsoluteDir(d) && IsName(n)
    ensures IsAbsoluteDir(Join(d, n))
    ensures Parent(Join(d, n)) == d
  {
    var j := Join(d, n);
    if d == "/" {
      assert j == "/" + n;
      assert LastIndexOf(j, '/') == 0 by {
        assert forall k :: 0 < k < |j| ==> j[k] == n[k - 1];
        LastIndexOfIs(j, '/', 0);
      }
    } else {
      assert j == d + "/" + n;
      assert LastIndexOf(j, '/') == |d| by {
        assert j[|d|] == '/';
        assert forall k :: |d| < k < |j| ==> j[k] == n[k - |d| - 1];
        LastIndexOfIs(j, '/', |d|);
      }
    }
  }

  /** The last occurrence is the one after which the character never appears. */
  lemma {:induction false} LastIndexOfIs(s: string, c: char, i: int)
    requires 0 <= i < |s| && s[i] == c
    requires forall k :: i < k < |s| ==> s[k] != c
    ensures LastIndexOf(s, c) == i
    decreases |s|
  {
    if s[|s| - 1] != c {
      LastIndexOfIs(s[..|s| - 1], c, i);
    }
  }
}
