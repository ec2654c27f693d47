/** The `/etc/os-release` reader of the installer (`detect_linux_distro`,
    install.py): split the file into lines, strip each one, and remember the
    value of the last `ID=` line and of the last `ID_LIKE=` line. The file
    itself is an input: its text, or nothing when it is missing or cannot
    be read. */
module OsRelease {
  import opened Wrappers
  import opened Text
  import opened Seqs

  /** The characters at which Python's `str.splitlines()` ends a line. */
  predicate IsLineBreak(c: char) {
    || c == '\n' || c == '\r'
    || c == '\U{0b}' || c == '\U{0c}'
    || ('\U{1c}' <= c <= '\U{1e}')
    || c == '\U{85}' || c == '\U{2028}' || c == '\U{2029}'
  }

  /** The length of the first line of `s`, without its line break. */
  function LineLength(s: string): (n: nat)
    ensures n <= |s|
    ensures forall k :: 0 <= k < n ==> !IsLineBreak(s[k])
    ensures n < |s| ==> IsLineBreak(s[n])
  {
    if s == [] || IsLineBreak(s[0]) then 0 else 1 + LineLength(s[1..])
  }

  /** `s.splitlines()`: the lines of `s` without their breaks, where "\r\n"
      counts as one break and a final break does not start an empty line. */
  function SplitLines(s: string): (r: seq<string>)
    ensures s == [] <==> r == []
    decreases |s|
  {
    if s == [] then []
    else
      var n := LineLength(s);
      if n == |s| then [s]
      else
        var skip := if s[n] == '\r' && n + 1 < |s| && s[n + 1] == '\n' then 2 else 1;
        [s[..n]] + SplitLines(s[n + skip..])
  }

  /** Each line followed by "\n": the usual layout of the file. */
  function Terminated(lines: seq<string>): string {
    if lines == [] then [] else lines[0] + "\n" + Terminated(lines[1..])
  }

  /** A line without line breaks. */
  predicate IsLine(l: string) {
    forall k :: 0 <= k < |l| ==> !IsLineBreak(l[k])
  }

  /** Splitting a file whose lines each end in "\n" gives back those lines. */
  lemma {:induction false} SplitLinesTerminated(lines: seq<string>)
    requires forall i :: 0 <= i < |lines| ==> IsLine(lines[i])
    ensures SplitLines(Terminated(lines)) == lines
  {
    if lines != [] {
      SplitFirstLine(lines[0], Terminated(lines[1..]));
      SplitLinesTerminated(lines[1..]);
      assert lines == [lines[0]] + lines[1..];
    }
  }

  /** A line ended by "\n" is split off the front of the text. */
  lemma SplitFirstLine(l: string, rest: string)
    requires IsLine(l)
    ensures SplitLines(l + "\n" + rest) == [l] + SplitLines(rest)
  {
    var s := l + "\n" + rest;
    assert s == l + ("\n" + rest);
    FirstLineLength(l, "\n" + rest);
    assert s[|l|] == '\n';
    assert s[..|l|] == l;
    assert s[|l| + 1..] == rest;
  }

  /** The first line of `l + rest` is `l` when `rest` starts with a break. */
  lemma {:induction false} FirstLineLength(l: string, rest: string)
    requires IsLine(l) && rest != [] && IsLineBreak(rest[0])
    ensures LineLength(l + rest) == |l|
    decreases |l|
  {
    if l == [] {
      assert l + rest == rest;
    } else {
      assert (l + rest)[1..] == l[1..] + rest;
      FirstLineLength(l[1..], rest);
    }
  }

  /** `s.split(c, 1)[1]`: the text after the first `c`. */
  function AfterFirst(s: string, c: char): (r: string)
    requires c in s
    ensures |r| < |s| && r == s[|s| - |r|..]
    ensures s[|s| - |r| - 1] == c && c !in s[..|s| - |r| - 1]
  {
    if s[0] == c then s[1..] else AfterFirst(s[1..], c)
  }

  /** After a key that ends in its only '=', the value is what follows the key. */
  lemma {:induction false} AfterKey(l: string, key: string)
    requires StartsWith(l, key) && |key| >= 1 && key[|key| - 1] == '='
    requires '=' !in key[..|key| - 1]
    ensures '=' in l && AfterFirst(l, '=') == l[|key|..]
    decreases |key|
  {
    assert l[0] == key[0];
    if |key| > 1 {
      assert key[..|key| - 1][0] == key[0];
      assert key[1..][..|key| - 2] == key[..|key| - 1][1..];
      AfterKey(l[1..], key[1..]);
    }
  }

  /** `x.split("=", 1)[1].strip().strip('"').strip("'")` */
  function FieldValue(l: string): (r: string)
    requires '=' in l
    ensures |r| < |l|
    ensures r == [] || (r[0] != '\'' && r[|r| - 1] != '\'')
  {
    StripChar(StripChar(Strip(AfterFirst(l, '=')), '"'), '\'')
  }

  /** The two values the installer reads. */
  datatype Release = Release(id: Option<string>, idLike: Option<string>)

  const IdKey := "ID="
  const IdLikeKey := "ID_LIKE="

  /** One pass of the loop body on an already stripped line: an `ID=` line
      sets the id, otherwise an `ID_LIKE=` line sets the family. */
  function ReadLine(acc: Release, line: string): Release {
    if StartsWith(line, IdKey) then
      assert line[2] == '=';
      acc.(id := Some(FieldValue(line)))
    else if StartsWith(line, IdLikeKey) then
      assert line[7] == '=';
      acc.(idLike := Some(FieldValue(line)))
    else acc
  }

  /** Every line stripped of surrounding white space, as the loop does first. */
  function StripAll(lines: seq<string>): seq<string> {
    Map(Strip, lines)
  }

  /** The loop of `detect_linux_distro` over stripped lines, from no values. */
  function ReadLines(lines: seq<string>): Release {
    if lines == [] then Release(None, None)
    else ReadLine(ReadLines(lines[..|lines| - 1]), lines[|lines| - 1])
  }

  /** The reference reading: the value of the last line that starts with
      `key`, and nothing when there is no such line. */
  function LastField(lines: seq<string>, key: string): (r: Option<string>)
    requires key in {IdKey, IdLikeKey}
    ensures r.None? <==> forall i :: 0 <= i < |lines| ==> !StartsWith(lines[i], key)
  {
    if lines == [] then None
    else
      var l := lines[|lines| - 1];
      if StartsWith(l, key) then
        assert l[|key| - 1] == '=';
        Some(FieldValue(l))
      else
        var r := LastField(lines[..|lines| - 1], key);
        assert forall i :: 0 <= i < |lines| - 1 ==> lines[..|lines| - 1][i] == lines[i];
        r
  }

  /** An `ID_LIKE=` line never starts with `ID=`, so the two keys never compete. */
  lemma KeysDisjoint(l: string)
    ensures !(StartsWith(l, IdKey) && StartsWith(l, IdLikeKey))
  {
    if StartsWith(l, IdKey) {
      assert l[2] == '=';
    }
  }

  /** The parser keeps, for each key, the value of its last line. */
  lemma {:induction false} ReadLinesIsLastField(lines: seq<string>)
    ensures ReadLines(lines).id == LastField(lines, IdKey)
    ensures ReadLines(lines).idLike == LastField(lines, IdLikeKey)
  {
    if lines != [] {
      ReadLinesIsLastField(lines[..|lines| - 1]);
      KeysDisjoint(lines[|lines| - 1]);
    }
  }

  /** One more line at the end decides when it has the key, and is
      passed over when it has not. */
  lemma LastFieldSnoc(init: seq<string>, x: string, key: string)
    requires key in {IdKey, IdLikeKey}
    ensures StartsWith(x, key) ==> '=' in x && LastField(init + [x], key) == Some(FieldValue(x))
    ensures !StartsWith(x, key) ==> LastField(init + [x], key) == LastField(init, key)
  {
    assert (init + [x])[..|init|] == init;
    KeyShape(key);
    if StartsWith(x, key) {
      assert x[|key| - 1] == '=';
    }
  }

  /** A later line for a key overrides every earlier one. */
  lemma {:induction false} LaterLineOverrides(before: seq<string>, line: string, after: seq<string>, key: string)
    requires key in {IdKey, IdLikeKey}
    requires StartsWith(line, key)
    requires forall i :: 0 <= i < |after| ==> !StartsWith(after[i], key)
    ensures '=' in line
    ensures LastField(before + [line] + after, key) == Some(FieldValue(line))
    decreases |after|
  {
    if after == [] {
      LastFieldSnoc(before, line, key);
      assert before + [line] + after == before + [line];
    } else {
      var init, x := after[..|after| - 1], after[|after| - 1];
      assert before + [line] + after == (before + [line] + init) + [x];
      LastFieldSnoc(before + [line] + init, x, key);
      LaterLineOverrides(before, line, init, key);
    }
  }

  /** An `ID_LIKE=` line leaves the id as it was, and an `ID=` line the family. */
  lemma KeysIndependent(lines: seq<string>, line: string)
    ensures StartsWith(line, IdLikeKey) ==> ReadLines(lines + [line]).id == ReadLines(lines).id
    ensures StartsWith(line, IdKey) ==> ReadLines(lines + [line]).idLike == ReadLines(lines).idLike
  {
    assert (lines + [line])[..|lines|] == lines;
    KeysDisjoint(line);
  }

  /** `detect_linux_distro()`: nothing when the file is missing or
      unreadable, otherwise the reading of its stripped lines. */
  function DetectDistro(data: Option<string>): Release {
    if data.None? then Release(None, None) else ReadLines(StripAll(SplitLines(data.value)))
  }

  /** What the installer learns from a readable file: the id and the
      family are those of the last `ID=` and the last `ID_LIKE=` line. */
  lemma DetectDistroIsLastField(data: string)
    ensures DetectDistro(Some(data)).id == LastField(StripAll(SplitLines(data)), IdKey)
    ensures DetectDistro(Some(data)).idLike == LastField(StripAll(SplitLines(data)), IdLikeKey)
  {
    ReadLinesIsLastField(StripAll(SplitLines(data)));
  }

  /** Reading one more line of the file is one more step of `ReadLine`. */
  lemma ReadNextLine(lines: seq<string>, i: nat)
    requires i < |lines|
    ensures ReadLines(StripAll(lines[..i + 1])) == ReadLine(ReadLines(StripAll(lines[..i])), Strip(lines[i]))
  {
    MapSnoc(Strip, lines, i);
    ReadLinesSnoc(StripAll(lines[..i]), Strip(lines[i]));
  }

  /** Reading one more stripped line applies `ReadLine` once more. */
  lemma ReadLinesSnoc(init: seq<string>, x: string)
    ensures ReadLines(init + [x]) == ReadLine(ReadLines(init), x)
  {
    assert (init + [x])[..|init|] == init;
  }

  /** The body of the loop on a stripped line: an `ID=` line sets the id,
      otherwise an `ID_LIKE=` line sets the family, and any other line
      changes nothing. */
  method ReadKeyLine(id: Option<string>, idLike: Option<string>, line: string)
    returns (id': Option<string>, idLike': Option<string>)
    ensures Release(id', idLike') == ReadLine(Release(id, idLike), line)
    ensures StartsWith(line, IdKey) ==> id' == Some(FieldValue(line)) && idLike' == idLike
    ensures StartsWith(line, IdLikeKey) ==> id' == id && idLike' == Some(FieldValue(line))
    ensures !StartsWith(line, IdKey) && !StartsWith(line, IdLikeKey) ==> id' == id && idLike' == idLike
  {
    KeysDisjoint(line);
    id', idLike' := id, idLike;
    if StartsWith(line, IdKey) {
      assert line[2] == '=';
      id' := Some(FieldValue(line));
    } else if StartsWith(line, IdLikeKey) {
      assert line[7] == '=';
      idLike' := Some(FieldValue(line));
    }
  }

  /** The loop itself, over the text of the file. */
  method DetectLinuxDistro(data: Option<string>) returns (id: Option<string>, idLike: Option<string>)
    ensures data.None? ==> id.None? && idLike.None?
    ensures Release(id, idLike) == DetectDistro(data)
  {
    if data.None? {
      return None, None;
    }
    var lines := SplitLines(data.value);
    id, idLike := None, None;
    var i := 0;
    while i < |lines|
      invariant 0 <= i <= |lines|
      invariant Release(id, idLike) == ReadLines(StripAll(lines[..i]))
    {
      ReadNextLine(lines, i);
      id, idLike := ReadKeyLine(id, idLike, Strip(lines[i]));
      i := i + 1;
    }
    assert lines[..i] == lines;
  }

  /** Trimming from the start removes a dropped prefix and stops at the
      first character kept. */
  lemma {:induction false} TrimIndent(w: string, x: string, drop: char -> bool)
    requires forall k :: 0 <= k < |w| ==> drop(w[k])
    requires x != [] && !drop(x[0])
    ensures TrimStart(w + x, drop) == x
    decreases |w|
  {
    if w == [] {
      assert w + x == x;
    } else {
      assert (w + x)[1..] == w[1..] + x;
      TrimIndent(w[1..], x, drop);
    }
  }

  /** Both keys end in their only '='. */
  lemma KeyShape(key: string)
    requires key in {IdKey, IdLikeKey}
    ensures |key| >= 1 && key[|key| - 1] == '=' && '=' !in key[..|key| - 1]
  {
    if key == IdKey {
      assert key[..|key| - 1] == "ID";
    } else {
      assert key[..|key| - 1] == "ID_LIKE";
    }
  }


  lemma KeyEndsInEquals(x: string, key: string)
    requires key in {IdKey, IdLikeKey} && StartsWith(x, key)
    ensures x[|key| - 1] == '=' && !IsSpace(x[|key| - 1]) && x[0] == 'I'
  {
    assert x[..|key|][|key| - 1] == key[|key| - 1];
  }

  /** Indentation does not hide a key: a line indented by white space
      strips to the same text as the unindented line, and still starts
      with its key. */
  lemma IndentedKeyRecognised(w: string, x: string, key: string)
    requires key in {IdKey, IdLikeKey}
    requires forall k :: 0 <= k < |w| ==> IsSpace(w[k])
    requires StartsWith(x, key)
    ensures Strip(w + x) == Strip(x)
    ensures StartsWith(Strip(w + x), key)
  {
    KeyEndsInEquals(x, key);
    StripIndent(w, x);
    StripKeepsKey(x, key);
  }

  /** White space in front of a line that starts with something else is
      stripped away. */
  lemma StripIndent(w: string, x: string)
    requires forall k :: 0 <= k < |w| ==> IsSpace(w[k])
    requires x != [] && !IsSpace(x[0])
    ensures Strip(w + x) == Strip(x)
  {
    TrimIndent(w, x, IsSpace);
    TrimIndent([], x, IsSpace);
    assert [] + x == x;
  }

  /** Stripping a line that starts with a key leaves the key in place. */
  lemma StripKeepsKey(x: string, key: string)
    requires key in {IdKey, IdLikeKey} && StartsWith(x, key)
    ensures StartsWith(Strip(x), key)
  {
    KeyEndsInEquals(x, key);
    TrimIndent([], x, IsSpace);
    assert [] + x == x;
    TrimEndKeeps(x, IsSpace, |key| - 1);
    var r := TrimEnd(x, IsSpace);
    assert r[..|key|] == x[..|key|];
  }

  /** Quotes around a value do not hide it: `KEY="value"` reads as the value. */
  lemma QuotedValue(key: string, v: string)
    requires key in {IdKey, IdLikeKey}
    requires v != [] && !IsSpace(v[0]) && !IsSpace(v[|v| - 1])
    requires v[0] != '"' && v[|v| - 1] != '"' && v[0] != '\'' && v[|v| - 1] != '\''
    ensures '=' in key + "\"" + v + "\""
    ensures FieldValue(key + "\"" + v + "\"") == v
  {
    var l := key + "\"" + v + "\"";
    var q := "\"" + v + "\"";
    assert l == key + q;
    assert StartsWith(l, key) by {
      assert l[..|key|] == key;
    }
    KeyShape(key);
    AfterKey(l, key);
    assert l[|key|..] == q;
    StripFixed(q);
    StripCharEnclosed(v, '"');
    assert ['"'] + v + ['"'] == q;
    StripCharFixed(v, '\'');
  }

  /** A bare value reads as itself. */
  lemma UnquotedValue(key: string, v: string)
    requires key in {IdKey, IdLikeKey}
    requires v != [] && !IsSpace(v[0]) && !IsSpace(v[|v| - 1])
    requires v[0] != '"' && v[|v| - 1] != '"' && v[0] != '\'' && v[|v| - 1] != '\''
    ensures '=' in key + v
    ensures FieldValue(key + v) == v
  {
    var l := key + v;
    assert StartsWith(l, key) by {
      assert l[..|key|] == key;
    }
    KeyShape(key);
    AfterKey(l, key);
    assert l[|key|..] == v;
    StripFixed(v);
    StripCharFixed(v, '"');
    StripCharFixed(v, '\'');
  }

  /** Stripping a file's lines one by one, around a chosen line. */
  lemma StripAllAround(before: seq<string>, line: string, after: seq<string>)
    ensures StripAll(before + [line] + after) == StripAll(before) + [Strip(line)] + StripAll(after)
  {
    MapAround(Strip, before, line, after);
  }

  /** Over a whole file: the last line that strips to a `key=` line decides
      the value, whatever lines come before it. */
  lemma LastKeyLineWins(before: seq<string>, line: string, after: seq<string>, key: string)
    requires key in {IdKey, IdLikeKey}
    requires forall i :: 0 <= i < |before| ==> IsLine(before[i])
    requires IsLine(line)
    requires forall i :: 0 <= i < |after| ==> IsLine(after[i])
    requires StartsWith(Strip(line), key)
    requires forall i :: 0 <= i < |after| ==> !StartsWith(Strip(after[i]), key)
    ensures '=' in Strip(line)
    ensures LastField(StripAll(SplitLines(Terminated(before + [line] + after))), key) == Some(FieldValue(Strip(line)))
  {
    var lines := before + [line] + after;
    forall i | 0 <= i < |lines|
      ensures IsLine(lines[i])
    {
      if i < |before| {
        assert lines[i] == before[i];
      } else if i > |before| {
        assert lines[i] == after[i - |before| - 1];
      }
    }
    SplitLinesTerminated(lines);
    StripAllAround(before, line, after);
    LaterLineOverrides(StripAll(before), Strip(line), StripAll(after), key);
  }
}
