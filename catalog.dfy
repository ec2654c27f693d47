/** The track catalog builder (`collect_tracks`, ascii_player.py): gather the
    files named on the command line or found under the named directories,
    drop duplicates, sort them, keep the supported audio formats and give
    each a title and a duration. The file system walk and the tag reader are
    inputs: what `os.walk` yields for each directory, and the functions that
    return a file's tag title and duration. */
module Catalog {
  import opened Wrappers
  import opened Text
  import opened Paths
  import opened Seqs

  /** A playable file: its path, its display title and its length in
      seconds when the tag reader knows it. */
  datatype Track = Track(path: string, title: string, duration: Option<real>)

  /** `SUPPORTED_EXTS` */
  const SupportedExts: set<string> := {".mp3", ".wav", ".ogg", ".flac"}

  /** The lower-cased extension is one of the supported ones. */
  predicate IsSupported(name: string) {
    Lower(Ext(name)) in SupportedExts
  }

  /** One file that `os.walk` reports: the directory it lies in and its name. */
  datatype WalkedFile = WalkedFile(root: string, name: string)

  /** One command-line path: whether `os.path.isdir` holds of it and, for a
      directory, the files `os.walk` yields beneath it, in walk order. */
  datatype PathArg = PathArg(path: string, isDir: bool, walk: seq<WalkedFile>)

  /** The walked files whose own name has a supported extension, joined to their directory. */
  function WalkHits(walk: seq<WalkedFile>): seq<string> {
    if walk == [] then [] else WalkHits(walk[..|walk| - 1]) + Hit(walk[|walk| - 1])
  }

  /** What one walked file adds to the candidates: its joined path when its
      extension is supported, and nothing otherwise. */
  function Hit(w: WalkedFile): seq<string> {
    if IsSupported(w.name) then [Join(w.root, w.name)] else []
  }

  /** Walking one more file appends that file's hit to what was gathered so far. */
  lemma WalkStep(files: seq<string>, walk: seq<WalkedFile>, j: nat, acc: seq<string>)
    requires j < |walk| && acc == files + WalkHits(walk[..j])
    ensures acc + Hit(walk[j]) == files + WalkHits(walk[..j + 1])
  {
    assert walk[..j + 1][..j] == walk[..j];
    AppendAssociative(files, WalkHits(walk[..j]), Hit(walk[j]));
  }

  /** What one argument contributes to the list of candidate files: a
      directory its supported walked files, anything else itself. */
  function ArgFiles(a: PathArg): seq<string> {
    if a.isDir then WalkHits(a.walk) else [a.path]
  }

  /** The list `files` that the first half of `collect_tracks` builds. */
  function Candidates(args: seq<PathArg>): seq<string> {
    if args == [] then [] else Candidates(args[..|args| - 1]) + ArgFiles(args[|args| - 1])
  }

  /** `get_title_from_tags(path) or os.path.splitext(os.path.basename(path))[0]`:
      a missing or empty tag title falls back to the file name without extension. */
  function TitleFor(path: string, tagTitle: Option<string>): (r: string)
    ensures tagTitle.Some? && tagTitle.value != "" ==> r == tagTitle.value
    ensures (tagTitle.None? || tagTitle.value == "") ==> r == Stem(path)
  {
    if tagTitle.Some? && tagTitle.value != "" then tagTitle.value else Stem(path)
  }

  /** The record built for one surviving file. */
  function MakeTrack(path: string, tagTitle: string -> Option<string>, duration: string -> Option<real>): Track {
    Track(path, TitleFor(path, tagTitle(path)), duration(path))
  }

  function PathsOf(tracks: seq<Track>): (r: seq<string>)
    ensures |r| == |tracks| && forall i :: 0 <= i < |tracks| ==> r[i] == tracks[i].path
  {
    seq(|tracks|, i requires 0 <= i < |tracks| => tracks[i].path)
  }

  /** Strictly increasing in Python's string order, hence free of duplicates. */
  predicate Increasing(s: seq<string>) {
    forall i, j :: 0 <= i < j < |s| ==> LexLess(s[i], s[j])
  }

  /** A strictly increasing list repeats no element. */
  lemma IncreasingIsDistinct(s: seq<string>)
    requires Increasing(s)
    ensures forall i, j :: 0 <= i < j < |s| ==> s[i] != s[j]
  {
    forall i, j | 0 <= i < j < |s|
      ensures s[i] != s[j]
    {
      LexLessIrreflexive(s[i]);
    }
  }

  /** The least string of a non-empty set. */
  method Least(s: set<string>) returns (m: string)
    requires s != {}
    ensures m in s
    ensures forall x :: x in s && x != m ==> LexLess(m, x)
  {
    m :| m in s;
    var rest := s - {m};
    while rest != {}
      invariant rest <= s && m in s && m !in rest
      invariant forall x :: x in s && x !in rest && x != m ==> LexLess(m, x)
      decreases rest
    {
      var x :| x in rest;
      if LexLess(x, m) {
        forall y | y in s && y !in rest && y != x
          ensures LexLess(x, y)
        {
          if y != m {
            LexLessTransitive(x, m, y);
          }
        }
        m := x;
      } else {
        LexLessTotal(m, x);
      }
      rest := rest - {x};
    }
  }

  /** `sorted(s)` for a set of strings: every element once, in increasing order. */
  method SortedUnique(s: set<string>) returns (r: seq<string>)
    ensures Increasing(r)
    ensures forall x :: x in r <==> x in s
  {
    r := [];
    var pending := s;
    while pending != {}
      invariant pending <= s
      invariant Increasing(r)
      invariant forall x :: x in s <==> (x in r || x in pending)
      invariant forall x, y :: x in r && y in pending ==> LexLess(x, y)
      decreases pending
    {
      var m := Least(pending);
      r := r + [m];
      pending := pending - {m};
    }
  }

  /** The inner loop of `collect_tracks` over what `os.walk` yields for one
      directory: append each walked file with a supported extension. */
  method GatherWalk(files: seq<string>, walk: seq<WalkedFile>) returns (files': seq<string>)
    ensures files' == files + WalkHits(walk)
  {
    files' := files;
    var j := 0;
    while j < |walk|
      invariant 0 <= j <= |walk|
      invariant files' == files + WalkHits(walk[..j])
    {
      var w := walk[j];
      WalkStep(files, walk, j, files');
      files' := files' + Hit(w);
      j := j + 1;
    }
    assert walk[..j] == walk;
  }

  /** The first half of `collect_tracks`: the loop over the arguments that
      builds `files`. */
  method GatherFiles(args: seq<PathArg>) returns (files: seq<string>)
    ensures files == Candidates(args)
  {
    files := [];
    var i := 0;
    while i < |args|
      invariant 0 <= i <= |args|
      invariant files == Candidates(args[..i])
    {
      var a := args[i];
      assert args[..i + 1][..i] == args[..i];
      if a.isDir {
        files := GatherWalk(files, a.walk);
      } else {
        files := files + [a.path];
      }
      i := i + 1;
    }
    assert args[..i] == args;
  }

  /** What one sorted file adds to the catalog: its record when its
      extension is supported, and nothing otherwise. */
  function Kept(p: string, tagTitle: string -> Option<string>, duration: string -> Option<real>): seq<Track> {
    if IsSupported(p) then [MakeTrack(p, tagTitle, duration)] else []
  }

  /** The catalog built from the first `k` sorted files: increasing paths,
      exactly the supported files among them, all before the files still to
      come, each record built by `MakeTrack`. */
  ghost predicate BuiltFrom(tracks: seq<Track>, ordered: seq<string>, k: nat,
                      tagTitle: string -> Option<string>, duration: string -> Option<real>)
    requires k <= |ordered|
  {
    && Increasing(PathsOf(tracks))
    && (forall f :: f in PathsOf(tracks) <==> f in ordered[..k] && IsSupported(f))
    && (forall n, m :: 0 <= n < |tracks| && k <= m < |ordered| ==> LexLess(tracks[n].path, ordered[m]))
    && (forall n :: 0 <= n < |tracks| ==> tracks[n] == MakeTrack(tracks[n].path, tagTitle, duration))
  }

  /** Handling one more sorted file keeps the catalog built from a prefix. */
  lemma BuildStep(tracks: seq<Track>, ordered: seq<string>, k: nat,
                  tagTitle: string -> Option<string>, duration: string -> Option<real>)
    requires Increasing(ordered) && k < |ordered|
    requires BuiltFrom(tracks, ordered, k, tagTitle, duration)
    ensures BuiltFrom(tracks + Kept(ordered[k], tagTitle, duration), ordered, k + 1, tagTitle, duration)
  {
    var p := ordered[k];
    var tracks' := tracks + Kept(p, tagTitle, duration);
    assert ordered[..k + 1] == ordered[..k] + [p];
    if IsSupported(p) {
      var t := MakeTrack(p, tagTitle, duration);
      assert tracks' == tracks + [t];
      StepPaths(tracks, t);
      StepIncreasing(tracks, p, t);
      StepBefore(tracks, ordered, k, t);
    } else {
      assert tracks' == tracks;
    }
  }

  /** Appending a record appends its path. */
  lemma StepPaths(tracks: seq<Track>, t: Track)
    ensures PathsOf(tracks + [t]) == PathsOf(tracks) + [t.path]
  {
  }

  /** A record whose path follows every earlier path keeps the paths increasing. */
  lemma StepIncreasing(tracks: seq<Track>, p: string, t: Track)
    requires Increasing(PathsOf(tracks)) && t.path == p
    requires forall n :: 0 <= n < |tracks| ==> LexLess(tracks[n].path, p)
    ensures Increasing(PathsOf(tracks + [t]))
  {
    StepPaths(tracks, t);
  }

  /** The new record's path, like every earlier one, precedes the files still to come. */
  lemma StepBefore(tracks: seq<Track>, ordered: seq<string>, k: nat, t: Track)
    requires Increasing(ordered) && k < |ordered| && t.path == ordered[k]
    requires forall n, m :: 0 <= n < |tracks| && k <= m < |ordered| ==> LexLess(tracks[n].path, ordered[m])
    ensures forall n, m :: 0 <= n < |tracks + [t]| && k + 1 <= m < |ordered| ==> LexLess((tracks + [t])[n].path, ordered[m])
  {
  }

  /** The second half of `collect_tracks`: walk the sorted files, skip the
      unsupported ones and build a record for each of the others. */
  method BuildTracks(ordered: seq<string>, tagTitle: string -> Option<string>, duration: string -> Option<real>)
    returns (tracks: seq<Track>)
    requires Increasing(ordered)
    ensures Increasing(PathsOf(tracks))
    ensures forall f :: f in PathsOf(tracks) <==> f in ordered && IsSupported(f)
    ensures forall n :: 0 <= n < |tracks| ==> tracks[n] == MakeTrack(tracks[n].path, tagTitle, duration)
  {
    tracks := [];
    var k := 0;
    while k < |ordered|
      invariant 0 <= k <= |ordered|
      invariant BuiltFrom(tracks, ordered, k, tagTitle, duration)
    {
      BuildStep(tracks, ordered, k, tagTitle, duration);
      tracks := tracks + Kept(ordered[k], tagTitle, duration);
      k := k + 1;
    }
    assert ordered[..k] == ordered;
  }

  /** `collect_tracks(paths)`: the catalog holds exactly the candidate files
      with a supported extension, each once, in increasing path order, each
      titled and timed by the tag reader with the file-name fallback. */
  method CollectTracks(args: seq<PathArg>, tagTitle: string -> Option<string>, duration: string -> Option<real>)
    returns (tracks: seq<Track>)
    ensures Increasing(PathsOf(tracks))
    ensures forall f :: f in PathsOf(tracks) <==> f in Candidates(args) && IsSupported(f)
    ensures forall i :: 0 <= i < |tracks| ==> tracks[i] == MakeTrack(tracks[i].path, tagTitle, duration)
  {
    var files := GatherFiles(args);
    var ordered := SortedUnique(set f | f in files);
    tracks := BuildTracks(ordered, tagTitle, duration);
  }

  /** A file named explicitly on the command line is catalogued exactly when
      its extension is supported; a non-audio file given by name is dropped. */
  lemma {:induction false} ExplicitFileKeptIffSupported(args: seq<PathArg>, i: int)
    requires 0 <= i < |args| && !args[i].isDir
    ensures (args[i].path in Candidates(args) && IsSupported(args[i].path)) <==> IsSupported(args[i].path)
    decreases |args|
  {
    if i < |args| - 1 {
      ExplicitFileKeptIffSupported(args[..|args| - 1], i);
    }
  }

  /** No arguments, or only directories without audio files, give an empty catalog. */
  lemma {:induction false} NoAudioNoCandidates(args: seq<PathArg>)
    requires forall a :: a in args ==> a.isDir && forall w :: w in a.walk ==> !IsSupported(w.name)
    ensures Candidates(args) == []
    decreases |args|
  {
    if args != [] {
      var a := args[|args| - 1];
      NoAudioNoCandidates(args[..|args| - 1]);
      NoHits(a.walk);
    }
  }

  lemma {:induction false} NoHits(walk: seq<WalkedFile>)
    requires forall w :: w in walk ==> !IsSupported(w.name)
    ensures WalkHits(walk) == []
    decreases |walk|
  {
    if walk != [] {
      NoHits(walk[..|walk| - 1]);
    }
  }
}
