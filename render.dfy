/** The arithmetic and text composition inside `draw_ui` (ascii_player.py):
    the clock readout, the progress bar, the scrolling track-list window, the
    padding of the bordered boxes, the status and footer lines, and the tag
    helper `_first_tag_value`. The terminal itself (curses) is not modelled;
    these functions compute the strings that `draw_ui` hands to it. */
module Render {
  import opened Wrappers
  import opened Text
  import opened Catalog
  import opened Numbers
  import opened Seqs

  // ---------------------------------------------------------------- clock

  /** `human_time(seconds)`: "--:--" when the time is unknown or negative,
      otherwise whole minutes and seconds, each at least two digits. */
  function HumanTime(seconds: Option<real>): (r: string)
    ensures (seconds.None? || seconds.value < 0.0) <==> r == "--:--"
    ensures seconds.Some? && 0.0 <= seconds.value < 6000.0 ==> |r| == 5 && r[2] == ':'
  {
    if seconds.None? || seconds.value < 0.0 then "--:--"
    else
      var whole := Trunc(seconds.value);
      var r := Pad2(whole / 60) + ":" + Pad2(whole % 60);
      assert r[0] == Pad2(whole / 60)[0] && IsDigit(r[0]);
      r
  }

  /** Reads a "MM:SS" clock back into a number of seconds; `None` for
      anything else, in particular for "--:--". */
  function ParseClock(t: string): Option<nat> {
    if |t| < 5 || t[|t| - 3] != ':' then None
    else
      var minutes, seconds := t[..|t| - 3], t[|t| - 2..];
      if AllDigits(minutes) && AllDigits(seconds) && DecimalValue(seconds) < 60
      then Some(60 * DecimalValue(minutes) + DecimalValue(seconds))
      else None
  }

  /** The readout of a known, non-negative time denotes its whole seconds:
      minutes are `floor(s) div 60` and seconds `floor(s) mod 60`. */
  lemma HumanTimeRoundTrip(s: real)
    requires s >= 0.0
    ensures ParseClock(HumanTime(Some(s))) == Some(s.Floor as nat)
  {
    var whole := s.Floor;
    HumanTimeFields(s);
    ClockRoundTrip(Pad2(whole / 60), Pad2(whole % 60));
  }

  /** The readout of a known, non-negative time is its minutes and seconds
      fields around a colon. */
  lemma HumanTimeFields(s: real)
    requires s >= 0.0
    ensures HumanTime(Some(s)) == Pad2(s.Floor / 60) + ":" + Pad2(s.Floor % 60)
    ensures |Pad2(s.Floor / 60)| >= 2 && |Pad2(s.Floor % 60)| == 2
    ensures 60 * (s.Floor / 60) + s.Floor % 60 == s.Floor
  {
  }

  /** A clock made of a minutes field, a colon and a two-digit seconds field
      below 60 reads back as the seconds it denotes. */
  lemma ClockRoundTrip(m: string, sec: string)
    requires AllDigits(m) && |m| >= 2 && AllDigits(sec) && |sec| == 2 && DecimalValue(sec) < 60
    ensures ParseClock(m + ":" + sec) == Some(60 * DecimalValue(m) + DecimalValue(sec))
  {
    var t := m + ":" + sec;
    assert t[..|t| - 3] == m;
    assert t[|t| - 2..] == sec;
    ParseClockFields(t, m, sec);
  }

  /** `ParseClock` reads the fields either side of the colon. */
  lemma ParseClockFields(t: string, m: string, sec: string)
    requires AllDigits(m) && AllDigits(sec) && DecimalValue(sec) < 60
    requires |t| >= 5 && t[|t| - 3] == ':' && t[..|t| - 3] == m && t[|t| - 2..] == sec
    ensures ParseClock(t) == Some(60 * DecimalValue(m) + DecimalValue(sec))
  {
  }

  /** An unknown or negative time shows no clock at all. */
  lemma UnknownTimeHasNoClock(seconds: Option<real>)
    requires seconds.None? || seconds.value < 0.0
    ensures ParseClock(HumanTime(seconds)) == None
  {
    assert !IsDigit('-');
  }

  // ---------------------------------------------------------- progress bar

  /** `bar_width = max(10, width - 6)` */
  function BarWidth(width: int): int {
    Max(10, width - 6)
  }

  /** The number of filled cells: `int(elapsed / duration * (bar_width - 2))`
      clamped to the bar, and none when the duration is unknown or not
      positive. For a known duration it is the largest number of cells whose
      share of the bar does not exceed the share of the track played. */
  function BarFill(elapsed: real, duration: Option<real>, barWidth: int): (filled: int)
    requires barWidth >= 10
    ensures 0 <= filled <= barWidth - 2
    ensures (duration.None? || duration.value <= 0.0) ==> filled == 0
  {
    if duration.Some? && duration.value > 0.0 then
      var cells := barWidth - 2;
      Max(0, Min(Trunc((elapsed / duration.value) * cells as real), cells))
    else 0
  }

  /** With a known duration the bar is full once the track is over, and
      before that its filled cells are the share `elapsed / duration` of the
      cells, rounded down. */
  lemma BarFillShare(elapsed: real, duration: real, barWidth: int)
    requires barWidth >= 10 && duration > 0.0
    ensures elapsed >= duration ==> BarFill(elapsed, Some(duration), barWidth) == barWidth - 2
    ensures 0.0 <= elapsed < duration ==>
              var filled := BarFill(elapsed, Some(duration), barWidth);
              filled as real * duration <= elapsed * (barWidth - 2) as real
              && elapsed * (barWidth - 2) as real < (filled + 1) as real * duration
  {
    var c := barWidth - 2;
    var q := elapsed / duration * c as real;
    FloorScaled(elapsed, duration, c);
    if elapsed >= duration {
      assert q >= 0.0;
      assert BarFill(elapsed, Some(duration), barWidth) == Max(0, Min(q.Floor, c));
    } else if 0.0 <= elapsed {
      assert q >= 0.0;
      assert BarFill(elapsed, Some(duration), barWidth) == q.Floor;
    }
  }

  /** Multiplying both sides by a positive number keeps the order. */
  lemma MulPositive(a: real, b: real, d: real)
    requires d > 0.0
    ensures a <= b ==> a * d <= b * d
    ensures a < b ==> a * d < b * d
  {
    assert b * d - a * d == (b - a) * d;
  }

  /** Dividing by a positive number and multiplying back gives the product. */
  lemma ScaledBack(e: real, d: real, c: real)
    requires d > 0.0
    ensures (e / d * c) * d == e * c
  {
    assert (e / d) * d == e;
    assert (e / d * c) * d == ((e / d) * d) * c;
  }

  /** `e / d` sits on the same side of 1 as `e` of `d`. */
  lemma RatioVersusOne(e: real, d: real)
    requires d > 0.0
    ensures e >= d ==> e / d >= 1.0
    ensures 0.0 <= e < d ==> 0.0 <= e / d < 1.0
  {
    assert (e / d) * d == e;
    MulPositive(e / d, 1.0, d);
    MulPositive(1.0, e / d, d);
    MulPositive(e / d, 0.0, d);
  }

  /** A value between two bounds stays between them once all three are
      multiplied by a positive `d`. */
  lemma BetweenTimes(lo: real, q: real, hi: real, d: real, p: real)
    requires d > 0.0 && lo <= q < hi && q * d == p
    ensures lo * d <= p < hi * d
  {
    MulPositive(lo, q, d);
    MulPositive(q, hi, d);
  }

  /** The floor bound of `q`, carried over to the product `p` that `q * d` equals. */
  lemma FloorBounds(q: real, d: real, p: real)
    requires d > 0.0 && q * d == p
    ensures q.Floor as real * d <= p < (q.Floor + 1) as real * d
  {
    BetweenTimes(q.Floor as real, q, (q.Floor + 1) as real, d, p);
  }

  /** A ratio scaled by a positive `c` sits on the same side of `c` as the ratio of 1. */
  lemma RatioScaled(r: real, c: real)
    requires c > 0.0
    ensures r >= 1.0 ==> r * c >= c
    ensures 0.0 <= r < 1.0 ==> 0.0 <= r * c < c
  {
    MulPositive(1.0, r, c);
    MulPositive(r, 1.0, c);
    MulPositive(0.0, r, c);
  }

  /** The floor of `e / d * c`, multiplied out. */
  lemma FloorScaled(e: real, d: real, c: int)
    requires d > 0.0 && c >= 0
    ensures var f := (e / d * c as real).Floor;
              f as real * d <= e * c as real < (f + 1) as real * d
    ensures e >= d ==> (e / d * c as real).Floor >= c
    ensures 0.0 <= e < d ==> 0 <= (e / d * c as real).Floor <= c
  {
    var q := e / d * c as real;
    ScaledBack(e, d, c as real);
    FloorBounds(q, d, e * c as real);
    RatioVersusOne(e, d);
    if c > 0 {
      RatioScaled(e / d, c as real);
    } else {
      assert q == 0.0;
    }
  }

  /** A later moment never shows less of the bar filled. */
  lemma BarFillMonotone(e1: real, e2: real, duration: Option<real>, barWidth: int)
    requires barWidth >= 10 && 0.0 <= e1 <= e2
    ensures BarFill(e1, duration, barWidth) <= BarFill(e2, duration, barWidth)
  {
    if duration.Some? && duration.value > 0.0 {
      ShareFloorMonotone(e1, e2, duration, barWidth);
      BarFillFloor(e1, duration, barWidth);
      BarFillFloor(e2, duration, barWidth);
      ClampMonotone(BarFill(e1, duration, barWidth), BarFill(e2, duration, barWidth),
                    ((e1 / duration.value) * ((barWidth - 2) as real)).Floor,
                    ((e2 / duration.value) * ((barWidth - 2) as real)).Floor, barWidth - 2);
    }
  }

  /** Clamping into `0..hi` keeps the order. */
  lemma ClampMonotone(x: int, y: int, a: int, b: int, hi: int)
    requires a <= b && x == Max(0, Min(a, hi)) && y == Max(0, Min(b, hi))
    ensures x <= y
  {
  }

  /** With a known duration and a non-negative share, `int()` is the floor. */
  lemma BarFillFloor(e: real, duration: Option<real>, barWidth: int)
    requires barWidth >= 10 && duration.Some? && duration.value > 0.0
    requires 0.0 <= (e / duration.value) * ((barWidth - 2) as real)
    ensures BarFill(e, duration, barWidth)
            == Max(0, Min(((e / duration.value) * ((barWidth - 2) as real)).Floor, barWidth - 2))
  {
  }

  /** The rounded-down share `e / d * c` grows with `e`. */
  lemma ShareFloorMonotone(e1: real, e2: real, duration: Option<real>, barWidth: int)
    requires barWidth >= 10 && duration.Some? && duration.value > 0.0 && 0.0 <= e1 <= e2
    ensures 0.0 <= (e1 / duration.value) * ((barWidth - 2) as real) <= (e2 / duration.value) * ((barWidth - 2) as real)
    ensures ((e1 / duration.value) * ((barWidth - 2) as real)).Floor
            <= ((e2 / duration.value) * ((barWidth - 2) as real)).Floor
  {
    var d, c := duration.value, (barWidth - 2) as real;
    var q1, q2 := e1 / d, e2 / d;
    RatioMonotone(e1, e2, d);
    MulPositive(q1, q2, c);
    MulPositive(0.0, q1, c);
    FloorMonotone(q1 * c, q2 * c);
  }

  /** Dividing by a positive `d` keeps the order and the sign. */
  lemma RatioMonotone(e1: real, e2: real, d: real)
    requires d > 0.0 && 0.0 <= e1 <= e2
    ensures 0.0 <= e1 / d <= e2 / d
  {
    assert (e1 / d) * d == e1 && (e2 / d) * d == e2;
    MulPositive(e2 / d, e1 / d, d);
    MulPositive(e1 / d, 0.0, d);
  }

  lemma FloorMonotone(x: real, y: real)
    requires x <= y
    ensures x.Floor <= y.Floor
  {
  }

  function Repeat(c: char, n: nat): (r: string)
    ensures |r| == n && forall i :: 0 <= i < n ==> r[i] == c
  {
    seq(n, _ => c)
  }

  /** The progress bar line: "[" + filled cells + empty cells + "]". */
  function ProgressBar(elapsed: real, duration: Option<real>, width: int): (bar: string)
    ensures |bar| == BarWidth(width)
    ensures bar[0] == '[' && bar[|bar| - 1] == ']'
    ensures forall i :: 0 < i < |bar| - 1 ==>
              (bar[i] == '█' <==> i <= BarFill(elapsed, duration, BarWidth(width)))
              && (bar[i] == '█' || bar[i] == '·')
  {
    var bw := BarWidth(width);
    var filled := BarFill(elapsed, duration, bw);
    "[" + Repeat('█', filled) + Repeat('·', bw - 2 - filled) + "]"
  }

  /** The time line of the "Now Playing" box. */
  function TimeLine(elapsed: real, duration: Option<real>): string {
    HumanTime(Some(elapsed)) + " / " + HumanTime(duration)
  }

  /** A 180-second track 45 seconds in: "00:45 / 03:00", and a quarter of a
      100-cell bar filled. */
  lemma ScenarioQuarterPlayed()
    ensures TimeLine(45.0, Some(180.0)) == "00:45 / 03:00"
    ensures BarFill(45.0, Some(180.0), 102) == 25
  {
    QuarterTimeLine();
    QuarterBar();
  }

  lemma QuarterTimeLine()
    ensures TimeLine(45.0, Some(180.0)) == "00:45 / 03:00"
  {
    HumanTimeExamples();
  }

  lemma QuarterBar()
    ensures BarFill(45.0, Some(180.0), 102) == 25
  {
    assert 45.0 / 180.0 * 100.0 == 25.0;
    assert (25.0 as real).Floor == 25;
  }

  /** 45 seconds read "00:45" and 180 seconds "03:00". */
  lemma HumanTimeExamples()
    ensures HumanTime(Some(45.0)) == "00:45"
    ensures HumanTime(Some(180.0)) == "03:00"
  {
    ClockExample(45.0, 0, 4, 5);
    ClockExample(180.0, 3, 0, 0);
  }

  /** A time under ten minutes reads "0m:ss". */
  lemma ClockExample(s: real, m: nat, tens: nat, units: nat)
    requires m < 10 && tens < 6 && units < 10 && s == (60 * m + 10 * tens + units) as real
    ensures HumanTime(Some(s)) == ['0', DigitChar(m), ':', DigitChar(tens), DigitChar(units)]
  {
    var sec := 10 * tens + units;
    assert s.Floor == 60 * m + sec;
    ClockDigits(m, tens, units);
    HumanTimeFields(s);
    Pad2Digits(m);
    Pad2Digits(sec);
    var a, b := Pad2(m), Pad2(sec);
    assert a == ['0', DigitChar(m)] && b == [DigitChar(tens), DigitChar(units)];
  }

  /** The minutes and the two second digits come back out of the total. */
  lemma ClockDigits(m: nat, tens: nat, units: nat)
    requires tens < 6 && units < 10
    ensures (60 * m + 10 * tens + units) / 60 == m && (60 * m + 10 * tens + units) % 60 == 10 * tens + units
    ensures (10 * tens + units) / 10 == tens && (10 * tens + units) % 10 == units
  {
  }

  /** Below 100, `Pad2` is the tens digit followed by the units digit. */
  lemma Pad2Digits(n: nat)
    requires n < 100
    ensures Pad2(n) == [DigitChar(n / 10), DigitChar(n % 10)]
  {
    if n >= 10 {
      assert Decimal(n / 10) == [DigitChar(n / 10)];
    }
  }

  // ------------------------------------------------------------ status line

  function OnOff(b: bool): string {
    if b then "ON" else "OFF"
  }

  /** The status line: play state, repeat and shuffle flags, volume percent. */
  function StatusLine(paused: bool, repeat: bool, shuffle: bool, volumePercent: nat): (r: string)
    ensures StartsWith(r, "Paused") <==> paused
    ensures StartsWith(r, "Playing") <==> !paused
  {
    var head := if paused then "Paused" else "Playing";
    var r := head + "  Repeat:" + OnOff(repeat) + "  Shuffle:" + OnOff(shuffle)
             + "  Vol:" + Decimal(volumePercent) + "%";
    assert r[..|head|] == head;
    assert r[1] == head[1] && "Paused"[1] == 'a' && "Playing"[1] == 'l';
    r
  }

  /** The four fields the status line shows. */
  datatype Status = Status(paused: bool, repeat: bool, shuffle: bool, volumePercent: nat)

  /** What follows `p` at the front of `s`, if `s` starts with it. */
  function After(s: string, p: string): (r: Option<string>)
    ensures r.Some? <==> StartsWith(s, p)
    ensures r.Some? ==> s == p + r.value
  {
    if StartsWith(s, p) then
      assert s == s[..|p|] + s[|p|..];
      Some(s[|p|..])
    else None
  }

  lemma AfterPrefix(p: string, t: string)
    ensures After(p + t, p) == Some(t)
  {
    assert (p + t)[..|p|] == p;
    assert (p + t)[|p|..] == t;
  }

  /** An `ON`/`OFF` flag at the front of `s`, and what follows it. */
  function ReadFlag(s: string): Option<(bool, string)> {
    if After(s, "ON").Some? then Some((true, After(s, "ON").value))
    else if After(s, "OFF").Some? then Some((false, After(s, "OFF").value))
    else None
  }

  lemma ReadFlagOnOff(b: bool, t: string)
    ensures ReadFlag(OnOff(b) + t) == Some((b, t))
  {
    AfterPrefix(OnOff(b), t);
    if !b {
      assert ("OFF" + t)[1] == 'F';
    }
  }

  /** The volume at the end of a status line: a run of digits and the `%`. */
  function ReadVolume(v: string): Option<nat> {
    if |v| >= 2 && v[|v| - 1] == '%' && AllDigits(v[..|v| - 1]) then Some(DecimalValue(v[..|v| - 1]))
    else None
  }

  /** The repeat flag, the shuffle flag and the volume after the play state. */
  function ReadSettings(s: string): Option<(bool, bool, nat)> {
    var s1 := After(s, "  Repeat:");
    if s1.None? || ReadFlag(s1.value).None? then None else
    var (repeat, s2) := ReadFlag(s1.value).value;
    var s3 := After(s2, "  Shuffle:");
    if s3.None? || ReadFlag(s3.value).None? then None else
    var (shuffle, s4) := ReadFlag(s3.value).value;
    var s5 := After(s4, "  Vol:");
    if s5.None? || ReadVolume(s5.value).None? then None
    else Some((repeat, shuffle, ReadVolume(s5.value).value))
  }

  /** Reads the four fields back out of a status line: the play state, the
      two flags and a run of digits before the closing `%`. */
  function ReadStatus(line: string): Option<Status> {
    var paused := StartsWith(line, "Paused");
    var rest := After(line, if paused then "Paused" else "Playing");
    if rest.None? || ReadSettings(rest.value).None? then None
    else
      var (repeat, shuffle, volume) := ReadSettings(rest.value).value;
      Some(Status(paused, repeat, shuffle, volume))
  }

  lemma ReadVolumeDecimal(n: nat)
    ensures ReadVolume(Decimal(n) + "%") == Some(n)
  {
    var v := Decimal(n) + "%";
    assert v[..|v| - 1] == Decimal(n);
    DecimalRoundTrip(n);
  }

  lemma ReadSettingsRoundTrip(repeat: bool, shuffle: bool, volumePercent: nat)
    ensures ReadSettings("  Repeat:" + (OnOff(repeat) + ("  Shuffle:" + (OnOff(shuffle) + ("  Vol:" + (Decimal(volumePercent) + "%"))))))
            == Some((repeat, shuffle, volumePercent))
  {
    var t6 := Decimal(volumePercent) + "%";
    var t5 := "  Vol:" + t6;
    var t4 := OnOff(shuffle) + t5;
    var t3 := "  Shuffle:" + t4;
    var t2 := OnOff(repeat) + t3;
    AfterPrefix("  Repeat:", t2);
    ReadFlagOnOff(repeat, t3);
    AfterPrefix("  Shuffle:", t4);
    ReadFlagOnOff(shuffle, t5);
    AfterPrefix("  Vol:", t6);
    ReadVolumeDecimal(volumePercent);
  }

  lemma StatusLineParts(a: string, b: string, c: string, d: string, e: string, f: string, g: string, h: string)
    ensures a + b + c + d + e + f + g + h == a + (b + (c + (d + (e + (f + (g + h))))))
  {
    AppendAssociative(a + b + c + d + e, f, g + h);
    AppendAssociative(a + b + c + d, e, f + (g + h));
    AppendAssociative(a + b + c, d, e + (f + (g + h)));
    AppendAssociative(a + b, c, d + (e + (f + (g + h))));
    AppendAssociative(a, b, c + (d + (e + (f + (g + h)))));
  }

  /** Every field of the status line can be read back from it. */
  lemma StatusLineRoundTrip(paused: bool, repeat: bool, shuffle: bool, volumePercent: nat)
    ensures ReadStatus(StatusLine(paused, repeat, shuffle, volumePercent))
            == Some(Status(paused, repeat, shuffle, volumePercent))
  {
    var head := if paused then "Paused" else "Playing";
    var t1 := "  Repeat:" + (OnOff(repeat) + ("  Shuffle:" + (OnOff(shuffle) + ("  Vol:" + (Decimal(volumePercent) + "%")))));
    StatusLineParts(head, "  Repeat:", OnOff(repeat), "  Shuffle:", OnOff(shuffle), "  Vol:", Decimal(volumePercent), "%");
    AfterPrefix(head, t1);
    ReadSettingsRoundTrip(repeat, shuffle, volumePercent);
  }

  // --------------------------------------------------------- track window

  /** `list_height = max(3, height - y - 3)`: the rows left for the track
      list below the boxes drawn so far, never fewer than three. */
  function ListHeight(height: int, y: int): (h: int)
    ensures h >= 3
  {
    Max(3, height - y - 3)
  }

  /** The slice of the catalog shown: it starts half a window above the
      selection (not before the first track) and ends a window later (not
      after the last). For a selection inside the catalog the selected row is
      always inside it and the window is never empty. */
  function TrackWindow(selection: int, count: nat, listHeight: int): (w: (int, int))
    requires listHeight >= 3
    ensures 0 <= w.0 && w.1 <= count
    ensures 0 <= selection < count ==>
              && w.0 <= selection < w.1
              && w.1 - w.0 == Min(listHeight, count - w.0)
              && (w.0 == 0 || selection - w.0 == listHeight / 2)
  {
    var start := Max(0, selection - listHeight / 2);
    (start, Min(count, start + listHeight))
  }

  /** One row of the track list: '*' for the selection, '>' for the track
      playing, then the 1-based number (two digits at least) and the title. */
  function TrackRow(idx: nat, current: int, selection: int, title: string): (r: string)
    ensures |r| == 5 + |Pad2(idx + 1)| + |title|
    ensures r[0] == '*' <==> idx == selection
    ensures r[1] == '>' <==> idx == current
    ensures AllDigits(r[3..3 + |Pad2(idx + 1)|]) && DecimalValue(r[3..3 + |Pad2(idx + 1)|]) == idx + 1
  {
    var row := [if idx == selection then '*' else ' ', if idx == current then '>' else ' ', ' ']
               + Pad2(idx + 1) + ". " + title;
    assert row[3..3 + |Pad2(idx + 1)|] == Pad2(idx + 1);
    row
  }

  /** The rows of the window, one per track in it. */
  function WindowRows(tracks: seq<Track>, current: int, selection: int, start: nat, end: int): (rows: seq<string>)
    requires end <= |tracks|
    ensures |rows| == Max(0, end - start)
    ensures forall k :: 0 <= k < |rows| ==> rows[k] == TrackRow(start + k, current, selection, tracks[start + k].title)
  {
    seq(Max(0, end - start), k requires 0 <= k < end - start => TrackRow(start + k, current, selection, tracks[start + k].title))
  }

  /** The lines of the "Tracklist" box: the rows of the window, or the single
      line "<empty>" when the window holds no track. */
  function PlaylistLines(tracks: seq<Track>, current: int, selection: int, listHeight: int): (lines: seq<string>)
    requires listHeight >= 3
    ensures var w := TrackWindow(selection, |tracks|, listHeight);
            (w.1 <= w.0 <==> lines == ["<empty>"])
            && (w.0 < w.1 ==> lines == WindowRows(tracks, current, selection, w.0, w.1))
  {
    var w := TrackWindow(selection, |tracks|, listHeight);
    var rows := WindowRows(tracks, current, selection, w.0, w.1);
    if rows == [] then ["<empty>"]
    else
      assert rows[0][0] != '<' by { assert rows[0] == TrackRow(w.0, current, selection, tracks[w.0].title); }
      rows
  }

  /** In the list drawn for a selection inside the catalog, the selected
      track's row, and no other, carries the '*' marker. */
  lemma SelectedRowMarked(tracks: seq<Track>, current: int, selection: int, listHeight: int)
    requires listHeight >= 3 && 0 <= selection < |tracks|
    ensures var lines := PlaylistLines(tracks, current, selection, listHeight);
            var start := TrackWindow(selection, |tracks|, listHeight).0;
            && 0 <= selection - start < |lines|
            && lines[selection - start][0] == '*'
            && (forall k :: 0 <= k < |lines| && k != selection - start ==> lines[k][0] != '*')
  {
    var w := TrackWindow(selection, |tracks|, listHeight);
    var lines := PlaylistLines(tracks, current, selection, listHeight);
    assert lines == WindowRows(tracks, current, selection, w.0, w.1);
    forall k | 0 <= k < |lines|
      ensures lines[k][0] == '*' <==> w.0 + k == selection
    {
      assert lines[k] == TrackRow(w.0 + k, current, selection, tracks[w.0 + k].title);
    }
  }

  // ------------------------------------------------------------------ boxes

  /** `s[:stop]` in Python: a negative stop counts from the end. */
  function SliceTo(s: string, stop: int): (r: string)
    ensures stop >= 0 ==> r == s[..Min(stop, |s|)]
    ensures stop < 0 ==> r == s[..Max(0, |s| + stop)]
  {
    if stop >= 0 then s[..Min(stop, |s|)] else s[..Max(0, |s| + stop)]
  }

  /** `s.ljust(w)`: padded with spaces on the right to `w` characters, or
      unchanged when already that long. */
  function LJust(s: string, w: int): (r: string)
    ensures |r| == Max(|s|, w) && r[..|s|] == s
    ensures forall i :: |s| <= i < |r| ==> r[i] == ' '
  {
    if |s| >= w then s else s + Repeat(' ', w - |s|)
  }

  /** Where `str.center` puts the text: half the margin on the left, the odd
      cell going left when both the margin and the width are odd. */
  function CenterLeft(len: nat, w: int): (left: int)
    requires len < w
    ensures 0 <= left <= w - len
    ensures var right := w - len - left; -1 <= left - right <= 1
  {
    var marg := w - len;
    marg / 2 + (if marg % 2 == 1 && w % 2 == 1 then 1 else 0)
  }

  /** `s.center(w, fill)` */
  function Center(s: string, w: int, fill: char): (r: string)
    ensures |r| == Max(|s|, w)
    ensures |s| >= w ==> r == s
    ensures |s| < w ==> r[CenterLeft(|s|, w)..CenterLeft(|s|, w) + |s|] == s
    ensures |s| < w ==> forall i :: 0 <= i < |r| && !(CenterLeft(|s|, w) <= i < CenterLeft(|s|, w) + |s|) ==> r[i] == fill
  {
    if |s| >= w then s
    else
      var left := CenterLeft(|s|, w);
      var r := Repeat(fill, left) + s + Repeat(fill, w - |s| - left);
      assert r[left..left + |s|] == s;
      r
  }

  /** `inner_width = max(10, width - 4)` */
  function InnerWidth(width: int): int {
    Max(10, width - 4)
  }

  /** The top border of a box, its title centred in the rule. */
  function BoxTop(width: int, title: string): (r: string)
    ensures width >= 2 ==> |r| == width - 2
    ensures width >= 3 ==> r[0] == '┌'
    ensures width >= 14 && |title| <= width - 4 ==> r == "┌" + Center(title, width - 4, '─') + "┐"
  {
    SliceTo("┌" + Center(title, InnerWidth(width), '─') + "┐", width - 2)
  }

  /** One line inside a box: padded to the inner width between two bars and
      cut to the terminal. For any width of at least 2 every row is exactly
      `width - 2` characters, so the box is rectangular; on a terminal of at
      least 14 columns a line that fits is shown whole, followed by spaces. */
  function BoxRow(width: int, line: string): (r: string)
    ensures width >= 2 ==> |r| == width - 2
    ensures width >= 3 ==> r[0] == '│'
    ensures width >= 14 && |line| <= width - 4 ==>
              r == "│" + line + Repeat(' ', width - 4 - |line|) + "│"
  {
    var full := "│" + LJust(line, InnerWidth(width)) + "│";
    assert width >= 14 && |line| <= width - 4 ==>
             LJust(line, InnerWidth(width)) == line + Repeat(' ', width - 4 - |line|);
    SliceTo(full, width - 2)
  }

  /** The bottom border of a box. */
  function BoxBottom(width: int): (r: string)
    ensures width >= 2 ==> |r| == width - 2
    ensures width >= 3 ==> r[0] == '└'
    ensures width >= 14 ==> r == "└" + Repeat('─', width - 4) + "┘"
  {
    SliceTo("└" + Repeat('─', InnerWidth(width)) + "┘", width - 2)
  }

  // ----------------------------------------------------------------- footer

  const KeyHint: string := "[Space]Play/Pause [n/p]Track [k]Keys [q]Quit"

  /** The footer: the key hint, then " | " and the status message when there
      is one, cut to `width - 1` characters. */
  function Footer(statusMessage: string, width: int): (r: string)
    ensures statusMessage == "" && width - 1 >= |KeyHint| ==> r == KeyHint
    ensures statusMessage != "" && width - 1 >= |KeyHint| + 3 + |statusMessage| ==>
              r == KeyHint + " | " + statusMessage
    ensures width >= 1 ==> |r| <= width - 1
  {
    var footer := if statusMessage != "" then KeyHint + " | " + statusMessage else KeyHint;
    SliceTo(footer, width - 1)
  }

  // ------------------------------------------------------------------- tags

  /** A tag value as the tag reader returns it: absent, a single value, or a
      list of values. */
  datatype TagValue = Absent | Single(text: string) | Many(items: seq<string>)

  /** `_first_tag_value(value)`: the value itself, or the first of a list;
      nothing for an absent value or an empty list. */
  function FirstTagValue(v: TagValue): (r: Option<string>)
    ensures r.None? <==> v.Absent? || (v.Many? && v.items == [])
    ensures v.Single? ==> r == Some(v.text)
    ensures v.Many? && v.items != [] ==> r == Some(v.items[0])
  {
    match v
    case Absent => None
    case Single(t) => Some(t)
    case Many(items) => if items == [] then None else Some(items[0])
  }

  /** `_first_tag_value(value) or "unknown"`: never empty. */
  function TagOrUnknown(v: TagValue): (r: string)
    ensures r != ""
    ensures r == "unknown" || Some(r) == FirstTagValue(v)
    ensures FirstTagValue(v).Some? && FirstTagValue(v).value != "" ==> r == FirstTagValue(v).value
    ensures FirstTagValue(v).None? || FirstTagValue(v).value == "" ==> r == "unknown"
  {
    match FirstTagValue(v)
    case Some(t) => if t != "" then t else "unknown"
    case None => "unknown"
  }
}
