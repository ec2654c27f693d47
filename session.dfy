/** The playback session (`main`, ascii_player.py): the state the main loop
    keeps between frames, what each key and each end-of-track event does to
    it, and the audio engine calls it makes on the way. The engine itself
    (pygame) is not modelled: its calls are recorded, in order, in a log of
    effects. Time, the random pick of the shuffle and the result of the
    folder browser are inputs. */
module Session {
  import opened Wrappers
  import opened Numbers
  import opened Keys
  import opened Catalog
  import opened Seqs

  // ------------------------------------------------------------------ keys

  /** What `get_wch` returns: a character, or the code of a function key. */
  datatype WideKey = Char(c: char) | Code(n: int)

  /** The player's commands. Each letter command also answers to its capital
      and to the Cyrillic letter on the same key of a Russian layout. */
  datatype Command =
    | Quit | TogglePause | NextTrack | PrevTrack | SelectUp | SelectDown | PlaySelected
    | StopPlayback | ToggleRepeat | ToggleShuffle | SeekBack | SeekForward | BrowseFolder
    | ToggleKeys | VolumeUp | VolumeDown | Ignored

  /** The keys of each command; the letter commands take the Latin letter in
      both cases and the Cyrillic letter on the same key of the Russian layout. */
  predicate QuitKey(k: WideKey) {
    k == Char('q') || k == Char('Q') || k == Char('й') || k == Char('Й')
  }

  predicate NextKey(k: WideKey) {
    k == Char('n') || k == Char('N') || k == Char('т') || k == Char('Т')
  }

  predicate PrevKey(k: WideKey) {
    k == Char('p') || k == Char('P') || k == Char('з') || k == Char('З')
  }

  predicate EnterKey(k: WideKey) {
    k == Code(KeyEnter) || k == Code(10) || k == Code(13) || k == Char('\n') || k == Char('\r')
  }

  predicate StopKey(k: WideKey) {
    k == Char('s') || k == Char('S') || k == Char('ы') || k == Char('Ы')
  }

  predicate RepeatKey(k: WideKey) {
    k == Char('r') || k == Char('R') || k == Char('к') || k == Char('К')
  }

  predicate ShuffleKey(k: WideKey) {
    k == Char('h') || k == Char('H') || k == Char('р') || k == Char('Р')
  }

  predicate BrowseKey(k: WideKey) {
    k == Char('b') || k == Char('B') || k == Char('и') || k == Char('И')
  }

  predicate HelpKey(k: WideKey) {
    k == Char('k') || k == Char('K') || k == Char('л') || k == Char('Л')
  }

  predicate LouderKey(k: WideKey) {
    k == Char('+') || k == Char('=')
  }

  predicate QuieterKey(k: WideKey) {
    k == Char('-') || k == Char('_')
  }

  /** Every key the dispatch reacts to. */
  predicate BoundKey(k: WideKey) {
    || QuitKey(k) || k == Char(' ') || NextKey(k) || PrevKey(k) || k == Code(KeyUp) || k == Code(KeyDown)
    || EnterKey(k) || StopKey(k) || RepeatKey(k) || ShuffleKey(k) || k == Code(KeyLeft) || k == Code(KeyRight)
    || BrowseKey(k) || HelpKey(k) || LouderKey(k) || QuieterKey(k)
  }

  /** The key dispatch of the main loop, tested in the order it is written. */
  function CommandOf(k: WideKey): (r: Command)
    ensures r == Quit <==> QuitKey(k)
    ensures r == PlaySelected <==> EnterKey(k)
    ensures r == Ignored <==> !BoundKey(k)
  {
    if QuitKey(k) then Quit
    else if k == Char(' ') then TogglePause
    else if NextKey(k) then NextTrack
    else if PrevKey(k) then PrevTrack
    else if k == Code(KeyUp) then SelectUp
    else if k == Code(KeyDown) then SelectDown
    else if EnterKey(k) then PlaySelected
    else if StopKey(k) then StopPlayback
    else if RepeatKey(k) then ToggleRepeat
    else if ShuffleKey(k) then ToggleShuffle
    else if k == Code(KeyLeft) then SeekBack
    else if k == Code(KeyRight) then SeekForward
    else if BrowseKey(k) then BrowseFolder
    else if HelpKey(k) then ToggleKeys
    else if LouderKey(k) then VolumeUp
    else if QuieterKey(k) then VolumeDown
    else Ignored
  }

  // ----------------------------------------------------------------- state

  /** A time span in seconds; the monotonic clock never goes back. */
  type Seconds = r: real | r >= 0.0

  /** The session variables of `main`. Volume is a whole percentage (the
      source keeps a float fraction stepped by 0.05); `elapsed` is seconds. */
  datatype PlayerState = PlayerState(
    tracks: seq<Track>,
    current: int,
    selection: int,
    paused: bool,
    repeat: bool,
    shuffle: bool,
    showKeys: bool,
    volume: int,
    elapsed: real)

  /** What holds between frames: a non-empty catalog, both indices on a
      track, the volume within 0..100 and a non-negative play time. */
  predicate Inv(s: PlayerState) {
    && |s.tracks| > 0
    && 0 <= s.current < |s.tracks|
    && 0 <= s.selection < |s.tracks|
    && 0 <= s.volume <= 100
    && s.elapsed >= 0.0
  }

  /** A call into the audio engine or the configuration file. */
  datatype Effect =
    | Load(path: string)        // `play_track`: load and start a file
    | PlayFrom(offset: real)    // `music.play(start=...)`
    | Pause
    | Unpause
    | StopMusic
    | SetVolume(percent: int)
    | SaveLastDir(path: string)

  /** The state after a step and the calls it made, in order. */
  datatype Outcome = Outcome(state: PlayerState, effects: seq<Effect>)

  /** What the folder browser and the catalog builder gave back for a browse
      command: the chosen path, if any, and the tracks found under it. */
  datatype BrowseResult = BrowseResult(chosen: Option<string>, found: seq<Track>)

  /** The state `main` starts in. */
  function Initial(tracks: seq<Track>): (s: PlayerState)
    requires |tracks| > 0
    ensures Inv(s)
  {
    PlayerState(tracks, 0, 0, false, false, false, false, 70, 0.0)
  }

  /** `set_volume(0.7)`, then the first track is loaded and started. */
  function InitialEffects(tracks: seq<Track>): seq<Effect>
    requires |tracks| > 0
  {
    [SetVolume(70), Load(tracks[0].path)]
  }

  // ------------------------------------------------------ index arithmetic

  /** `(i + 1) % n`: the following track, the first after the last. */
  function NextIndex(i: int, n: int): (r: int)
    requires n > 0
    ensures 0 <= r < n
    ensures 0 <= i < n ==> r == if i == n - 1 then 0 else i + 1
  {
    (i + 1) % n
  }

  /** `(i - 1) % n` with Python's floored modulo: the preceding track, the
      last before the first. */
  function PrevIndex(i: int, n: int): (r: int)
    requires n > 0
    ensures 0 <= r < n
    ensures 0 <= i < n ==> r == if i == 0 then n - 1 else i - 1
  {
    (i - 1) % n
  }

  /** Stepping forward and back, or back and forward, returns to the same track. */
  lemma NextPrevIndexInverse(i: int, n: int)
    requires 0 <= i < n
    ensures PrevIndex(NextIndex(i, n), n) == i
    ensures NextIndex(PrevIndex(i, n), n) == i
  {
  }

  // ----------------------------------------------------------- transitions

  /** The start of a frame: the clock advances the play time only while the
      engine is busy and the player is not paused. */
  function OnTick(s: PlayerState, delta: Seconds, busy: bool): (r: PlayerState)
    requires Inv(s)
    ensures Inv(r)
    ensures r.elapsed == if busy && !s.paused then s.elapsed + delta else s.elapsed
    ensures r.(elapsed := s.elapsed) == s
  {
    if busy && !s.paused then s.(elapsed := s.elapsed + delta) else s
  }

  /** The end-of-track event. With repeat the same track starts again; else
      the next one (or the random pick `r` under shuffle) starts and the
      selection follows it. Either way the play time restarts at zero. */
  function OnTrackEnd(s: PlayerState, r: int): (o: Outcome)
    requires Inv(s) && 0 <= r < |s.tracks|
    ensures Inv(o.state) && o.state.tracks == s.tracks
    ensures o.state.elapsed == 0.0 && o.effects == [Load(s.tracks[o.state.current].path)]
    ensures s.repeat ==> o.state == s.(elapsed := 0.0)
    ensures !s.repeat && s.shuffle ==> o.state.current == r
    ensures !s.repeat && !s.shuffle ==> o.state.current == NextIndex(s.current, |s.tracks|)
    ensures !s.repeat ==> o.state == s.(current := o.state.current, selection := o.state.current, elapsed := 0.0)
  {
    if s.repeat then
      Outcome(s.(elapsed := 0.0), [Load(s.tracks[s.current].path)])
    else
      var c := if s.shuffle then r else (s.current + 1) % |s.tracks|;
      Outcome(s.(current := c, selection := c, elapsed := 0.0), [Load(s.tracks[c].path)])
  }

  /** Space: pause a playing track or resume a paused one. */
  function OnTogglePause(s: PlayerState): (o: Outcome)
    requires Inv(s)
    ensures Inv(o.state) && o.state == s.(paused := !s.paused)
    ensures o.effects == if s.paused then [Unpause] else [Pause]
  {
    if s.paused then Outcome(s.(paused := false), [Unpause])
    else Outcome(s.(paused := true), [Pause])
  }

  /** n: the next track starts, the selection follows; pause, repeat and
      shuffle stay as they were. */
  function OnNext(s: PlayerState): (o: Outcome)
    requires Inv(s)
    ensures Inv(o.state)
    ensures o.state.current == NextIndex(s.current, |s.tracks|)
    ensures o.state == s.(current := o.state.current, selection := o.state.current, elapsed := 0.0)
    ensures o.effects == [Load(s.tracks[o.state.current].path)]
  {
    var c := (s.current + 1) % |s.tracks|;
    Outcome(s.(current := c, selection := c, elapsed := 0.0), [Load(s.tracks[c].path)])
  }

  /** p: the previous track starts, the selection follows; pause, repeat and
      shuffle stay as they were. */
  function OnPrev(s: PlayerState): (o: Outcome)
    requires Inv(s)
    ensures Inv(o.state)
    ensures o.state.current == PrevIndex(s.current, |s.tracks|)
    ensures o.state == s.(current := o.state.current, selection := o.state.current, elapsed := 0.0)
    ensures o.effects == [Load(s.tracks[o.state.current].path)]
  {
    var c := (s.current - 1) % |s.tracks|;
    Outcome(s.(current := c, selection := c, elapsed := 0.0), [Load(s.tracks[c].path)])
  }

  /** Up: the selection moves up one row, stopping at the first track. */
  function OnSelectUp(s: PlayerState): (o: Outcome)
    requires Inv(s)
    ensures Inv(o.state) && o.effects == []
    ensures o.state == s.(selection := if s.selection == 0 then 0 else s.selection - 1)
  {
    Outcome(s.(selection := Max(0, s.selection - 1)), [])
  }

  /** Down: the selection moves down one row, stopping at the last track. */
  function OnSelectDown(s: PlayerState): (o: Outcome)
    requires Inv(s)
    ensures Inv(o.state) && o.effects == []
    ensures o.state == s.(selection := if s.selection == |s.tracks| - 1 then s.selection else s.selection + 1)
  {
    Outcome(s.(selection := Min(|s.tracks| - 1, s.selection + 1)), [])
  }

  /** Enter: the selected track starts from the beginning and, unlike next
      and previous, the player is no longer paused. */
  function OnPlaySelected(s: PlayerState): (o: Outcome)
    requires Inv(s)
    ensures Inv(o.state)
    ensures o.state == s.(current := s.selection, elapsed := 0.0, paused := false)
    ensures o.effects == [Load(s.tracks[s.selection].path)]
  {
    Outcome(s.(current := s.selection, elapsed := 0.0, paused := false), [Load(s.tracks[s.selection].path)])
  }

  /** s: playback stops, the pause flag clears and the time returns to zero. */
  function OnStop(s: PlayerState): (o: Outcome)
    requires Inv(s)
    ensures Inv(o.state) && o.state == s.(paused := false, elapsed := 0.0) && o.effects == [StopMusic]
  {
    Outcome(s.(paused := false, elapsed := 0.0), [StopMusic])
  }

  /** The engine calls of a seek: restart at the new offset, and pause again
      if the player was paused. */
  function SeekEffects(offset: real, paused: bool): seq<Effect> {
    [PlayFrom(offset)] + (if paused then [Pause] else [])
  }

  /** Left: five seconds back, not before the start. */
  function OnSeekBack(s: PlayerState): (o: Outcome)
    requires Inv(s)
    ensures Inv(o.state)
    ensures o.state == s.(elapsed := if s.elapsed >= 5.0 then s.elapsed - 5.0 else 0.0)
    ensures o.effects == SeekEffects(o.state.elapsed, s.paused)
  {
    var e := if 0.0 >= s.elapsed - 5.0 then 0.0 else s.elapsed - 5.0;
    Outcome(s.(elapsed := e), SeekEffects(e, s.paused))
  }

  /** Right: five seconds forward, with no bound at the track's end. */
  function OnSeekForward(s: PlayerState): (o: Outcome)
    requires Inv(s)
    ensures Inv(o.state)
    ensures o.state == s.(elapsed := s.elapsed + 5.0)
    ensures o.effects == SeekEffects(s.elapsed + 5.0, s.paused)
  {
    Outcome(s.(elapsed := s.elapsed + 5.0), SeekEffects(s.elapsed + 5.0, s.paused))
  }

  /** `+`: five points louder, at most 100. The volume call is made even
      when the volume is already at the top. */
  function OnVolumeUp(s: PlayerState): (o: Outcome)
    requires Inv(s)
    ensures Inv(o.state) && o.effects == [SetVolume(o.state.volume)]
    ensures o.state == s.(volume := if s.volume <= 95 then s.volume + 5 else 100)
  {
    var v := Min(100, s.volume + 5);
    Outcome(s.(volume := v), [SetVolume(v)])
  }

  /** `-`: five points quieter, at least 0. */
  function OnVolumeDown(s: PlayerState): (o: Outcome)
    requires Inv(s)
    ensures Inv(o.state) && o.effects == [SetVolume(o.state.volume)]
    ensures o.state == s.(volume := if s.volume >= 5 then s.volume - 5 else 0)
  {
    var v := Max(0, s.volume - 5);
    Outcome(s.(volume := v), [SetVolume(v)])
  }

  /** b: after the browser returns, a chosen folder is remembered; if tracks
      were found under it they replace the catalog and the first one starts
      from the beginning, unpaused. A cancelled browse, or a folder without
      tracks, leaves the session as it was. */
  function OnBrowse(s: PlayerState, b: BrowseResult): (o: Outcome)
    requires Inv(s)
    ensures Inv(o.state)
    ensures b.chosen.None? || b.chosen.value == "" ==> o == Outcome(s, [])
    ensures b.chosen.Some? && b.chosen.value != "" && b.found == [] ==> o == Outcome(s, [SaveLastDir(b.chosen.value)])
    ensures b.chosen.Some? && b.chosen.value != "" && b.found != [] ==>
              && o.state == s.(tracks := b.found, current := 0, selection := 0, elapsed := 0.0, paused := false)
              && o.effects == [SaveLastDir(b.chosen.value), Load(b.found[0].path)]
  {
    if b.chosen.None? || b.chosen.value == "" then Outcome(s, [])
    else if b.found == [] then Outcome(s, [SaveLastDir(b.chosen.value)])
    else
      Outcome(s.(tracks := b.found, current := 0, selection := 0, elapsed := 0.0, paused := false),
              [SaveLastDir(b.chosen.value), Load(b.found[0].path)])
  }

  /** What one command does to the session. */
  function Apply(s: PlayerState, cmd: Command, b: BrowseResult): (o: Outcome)
    requires Inv(s)
    ensures Inv(o.state)
  {
    match cmd
    case Quit => Outcome(s, [])
    case Ignored => Outcome(s, [])
    case TogglePause => OnTogglePause(s)
    case NextTrack => OnNext(s)
    case PrevTrack => OnPrev(s)
    case SelectUp => OnSelectUp(s)
    case SelectDown => OnSelectDown(s)
    case PlaySelected => OnPlaySelected(s)
    case StopPlayback => OnStop(s)
    case ToggleRepeat => Outcome(s.(repeat := !s.repeat), [])
    case ToggleShuffle => Outcome(s.(shuffle := !s.shuffle), [])
    case SeekBack => OnSeekBack(s)
    case SeekForward => OnSeekForward(s)
    case BrowseFolder => OnBrowse(s, b)
    case ToggleKeys => Outcome(s.(showKeys := !s.showKeys), [])
    case VolumeUp => OnVolumeUp(s)
    case VolumeDown => OnVolumeDown(s)
  }

  // ------------------------------------------------------------- properties

  /** Only a browse that found tracks replaces the catalog; every other
      command keeps it. The catalog is therefore never empty. */
  lemma OnlyBrowseReplacesCatalog(s: PlayerState, cmd: Command, b: BrowseResult)
    requires Inv(s)
    ensures var t := Apply(s, cmd, b).state.tracks;
            && |t| > 0
            && (t != s.tracks ==> cmd == BrowseFolder && b.chosen.Some? && b.chosen.value != "" && t == b.found)
  {
  }

  /** Next then previous comes back to the track that was playing, now
      selected too and restarted; nothing else changes. */
  lemma NextThenPrev(s: PlayerState)
    requires Inv(s)
    ensures OnPrev(OnNext(s).state).state == s.(selection := s.current, elapsed := 0.0)
  {
    NextPrevIndexInverse(s.current, |s.tracks|);
  }

  /** Next from the last track wraps to the first; previous from the first
      wraps to the last. */
  lemma Wraparound(s: PlayerState)
    requires Inv(s)
    ensures s.current == |s.tracks| - 1 ==> OnNext(s).state.current == 0
    ensures s.current == 0 ==> OnPrev(s).state.current == |s.tracks| - 1
  {
  }

  /** Five seconds forward and five back returns to the same moment; the
      engine is told to play from each position in turn. */
  lemma SeekForwardThenBack(s: PlayerState)
    requires Inv(s)
    ensures OnSeekBack(OnSeekForward(s).state).state == s
    ensures OnSeekForward(s).effects + OnSeekBack(OnSeekForward(s).state).effects
            == SeekEffects(s.elapsed + 5.0, s.paused) + SeekEffects(s.elapsed, s.paused)
  {
  }

  /** Pausing twice returns to the same state, with one pause and one
      resume sent to the engine. */
  lemma TogglePauseTwice(s: PlayerState)
    requires Inv(s)
    ensures OnTogglePause(OnTogglePause(s).state).state == s
    ensures multiset(OnTogglePause(s).effects + OnTogglePause(OnTogglePause(s).state).effects) == multiset{Pause, Unpause}
  {
  }

  /** Below the top, louder then quieter restores the volume; at the top,
      louder changes nothing but the call to the engine. */
  lemma VolumeUpThenDown(s: PlayerState)
    requires Inv(s)
    ensures s.volume <= 95 ==> OnVolumeDown(OnVolumeUp(s).state).state == s
    ensures s.volume == 100 ==> OnVolumeUp(s) == Outcome(s, [SetVolume(100)])
  {
  }

  // ------------------------------------------------------------ the frames

  /** What happens during one pass of the main loop: how much time passed,
      whether the engine was playing, the end-of-track events with the
      natural number `random.randrange` would be reduced from, the key read
      (if any), and what a browse would return. */
  datatype Frame = Frame(delta: Seconds, busy: bool, picks: seq<nat>, key: Option<WideKey>, browse: BrowseResult)

  /** The end-of-track events of a frame, handled in order. */
  function OnTrackEnds(s: PlayerState, picks: seq<nat>): (o: Outcome)
    requires Inv(s)
    ensures Inv(o.state) && o.state.tracks == s.tracks
    decreases |picks|
  {
    if picks == [] then Outcome(s, [])
    else
      var first := OnTrackEnd(s, picks[0] % |s.tracks|);
      var rest := OnTrackEnds(first.state, picks[1..]);
      Outcome(rest.state, first.effects + rest.effects)
  }

  /** The key read in a frame, if any, and whether it quits the loop. */
  function OnKey(s: PlayerState, key: Option<WideKey>, b: BrowseResult): (r: (Outcome, bool))
    requires Inv(s)
    ensures Inv(r.0.state)
    ensures r.1 <==> key.Some? && CommandOf(key.value) == Quit
  {
    if key.None? then (Outcome(s, []), false)
    else (Apply(s, CommandOf(key.value), b), CommandOf(key.value) == Quit)
  }

  /** One frame: the clock, then the end-of-track events, then the key. The
      flag says whether the key was a quit. */
  function OnFrame(s: PlayerState, f: Frame): (r: (Outcome, bool))
    requires Inv(s)
    ensures Inv(r.0.state)
  {
    var ended := OnTrackEnds(OnTick(s, f.delta, f.busy), f.picks);
    var (after, quit) := OnKey(ended.state, f.key, f.browse);
    (Outcome(after.state, ended.effects + after.effects), quit)
  }

  /** The main loop over a script of frames: it stops at the first quit, or
      when the script runs out. */
  function Play(s: PlayerState, frames: seq<Frame>): (r: (Outcome, bool))
    requires Inv(s)
    decreases |frames|
  {
    if frames == [] then (Outcome(s, []), false)
    else
      var (first, quit) := OnFrame(s, frames[0]);
      if quit then (first, true)
      else
        var (rest, q) := Play(first.state, frames[1..]);
        (Outcome(rest.state, first.effects + rest.effects), q)
  }

  lemma TrackEndsUnfold(s: PlayerState, picks: seq<nat>)
    requires Inv(s) && picks != []
    ensures var first := OnTrackEnd(s, picks[0] % |s.tracks|);
            var rest := OnTrackEnds(first.state, picks[1..]);
            OnTrackEnds(s, picks) == Outcome(rest.state, first.effects + rest.effects)
  {
  }

  lemma PlayUnfold(s: PlayerState, frames: seq<Frame>)
    requires Inv(s) && frames != []
    ensures var first := OnFrame(s, frames[0]);
            first.1 ==> Play(s, frames) == (first.0, true)
    ensures var first := OnFrame(s, frames[0]);
            !first.1 ==>
              var rest := Play(first.0.state, frames[1..]);
              Play(s, frames) == (Outcome(rest.0.state, first.0.effects + rest.0.effects), rest.1)
  {
  }

  /** One frame of `Play` taken on its own: after the first remaining
      frame either the session has quit, or what is left to play is the
      rest of the script from the new state. */
  lemma PlayResume(s: PlayerState, frames: seq<Frame>, i: nat, e: seq<Effect>,
                   s': PlayerState, e': seq<Effect>, q: bool)
    requires Inv(s) && i < |frames|
    requires s' == OnFrame(s, frames[i]).0.state && q == OnFrame(s, frames[i]).1
    requires e' == e + OnFrame(s, frames[i]).0.effects
    ensures Inv(s')
    ensures q ==> Play(s, frames[i..]).0.state == s' && Play(s, frames[i..]).1
    ensures q ==> e + Play(s, frames[i..]).0.effects == e'
    ensures !q ==> Play(s', frames[i + 1..]).0.state == Play(s, frames[i..]).0.state
    ensures !q ==> Play(s', frames[i + 1..]).1 == Play(s, frames[i..]).1
    ensures !q ==> e' + Play(s', frames[i + 1..]).0.effects == e + Play(s, frames[i..]).0.effects
  {
    PlayUnfold(s, frames[i..]);
    assert frames[i..][0] == frames[i] && frames[i..][1..] == frames[i + 1..];
    if !q {
      var first := OnFrame(s, frames[i]).0;
      AppendAssociative(e, first.effects, Play(s', frames[i + 1..]).0.effects);
    }
  }

  /** Whatever keys are pressed and whatever the engine and the browser
      report, the session invariant holds after every frame: the catalog is
      never empty, so the unguarded `% len(tracks)` never divides by zero. */
  lemma {:induction false} PlayKeepsInvariant(s: PlayerState, frames: seq<Frame>)
    requires Inv(s)
    ensures Inv(Play(s, frames).0.state)
    decreases |frames|
  {
    if frames != [] {
      var (first, quit) := OnFrame(s, frames[0]);
      if !quit {
        PlayKeepsInvariant(first.state, frames[1..]);
      }
    }
  }

  /** A quit key stops the loop at once: the rest of the script is not
      looked at. */
  lemma {:induction false} QuitEndsSession(s: PlayerState, f: Frame, later: seq<Frame>)
    requires Inv(s)
    requires f.key == Some(Char('q'))
    ensures Play(s, [f] + later) == (OnFrame(s, f).0, true)
  {
    assert ([f] + later)[0] == f;
    assert CommandOf(Char('q')) == Quit;
  }

  // ------------------------------------------------------------ the player

  /** The session as `main` keeps it: local variables updated in place
      frame after frame, with the engine calls logged. */
  class Player {
    var tracks: seq<Track>
    var current: int
    var selection: int
    var paused: bool
    var repeat: bool
    var shuffle: bool
    var showKeys: bool
    var volume: int
    var elapsed: real
    ghost var effects: seq<Effect>

    function State(): PlayerState
      reads this
    {
      PlayerState(tracks, current, selection, paused, repeat, shuffle, showKeys, volume, elapsed)
    }

    predicate Valid()
      reads this
    {
      Inv(State())
    }

    /** The start of `main`: defaults set, volume sent, first track started. */
    constructor (catalog: seq<Track>)
      requires |catalog| > 0
      ensures Valid() && State() == Initial(catalog) && effects == InitialEffects(catalog)
    {
      tracks := catalog;
      current, selection := 0, 0;
      paused, repeat, shuffle, showKeys := false, false, false, false;
      volume := 70;
      elapsed := 0.0;
      effects := [SetVolume(70), Load(catalog[0].path)];
    }

    method Tick(delta: Seconds, busy: bool)
      requires Valid()
      modifies this
      ensures Valid() && State() == OnTick(old(State()), delta, busy) && effects == old(effects)
    {
      if busy && !paused {
        elapsed := elapsed + delta;
      }
    }

    method TrackFinished(r: int)
      requires Valid() && 0 <= r < |tracks|
      modifies this
      ensures Valid()
      ensures State() == OnTrackEnd(old(State()), r).state
      ensures effects == old(effects) + OnTrackEnd(old(State()), r).effects
    {
      if repeat {
        effects := effects + [Load(tracks[current].path)];
        elapsed := 0.0;
      } else {
        if shuffle {
          current := r;
        } else {
          current := (current + 1) % |tracks|;
        }
        selection := current;
        effects := effects + [Load(tracks[current].path)];
        elapsed := 0.0;
      }
    }

    method TogglePause()
      requires Valid()
      modifies this
      ensures Valid() && State() == OnTogglePause(old(State())).state
      ensures effects == old(effects) + OnTogglePause(old(State())).effects
    {
      if paused {
        effects := effects + [Unpause];
        paused := false;
      } else {
        effects := effects + [Pause];
        paused := true;
      }
    }

    method Next()
      requires Valid()
      modifies this
      ensures Valid() && State() == OnNext(old(State())).state
      ensures effects == old(effects) + OnNext(old(State())).effects
    {
      current := (current + 1) % |tracks|;
      selection := current;
      effects := effects + [Load(tracks[current].path)];
      elapsed := 0.0;
    }

    method Previous()
      requires Valid()
      modifies this
      ensures Valid() && State() == OnPrev(old(State())).state
      ensures effects == old(effects) + OnPrev(old(State())).effects
    {
      current := (current - 1) % |tracks|;
      selection := current;
      effects := effects + [Load(tracks[current].path)];
      elapsed := 0.0;
    }

    method SelectUp()
      requires Valid()
      modifies this
      ensures Valid() && State() == OnSelectUp(old(State())).state && effects == old(effects)
    {
      selection := Max(0, selection - 1);
    }

    method SelectDown()
      requires Valid()
      modifies this
      ensures Valid() && State() == OnSelectDown(old(State())).state && effects == old(effects)
    {
      selection := Min(|tracks| - 1, selection + 1);
    }

    method PlaySelected()
      requires Valid()
      modifies this
      ensures Valid() && State() == OnPlaySelected(old(State())).state
      ensures effects == old(effects) + OnPlaySelected(old(State())).effects
    {
      current := selection;
      effects := effects + [Load(tracks[current].path)];
      elapsed := 0.0;
      paused := false;
    }

    method Stop()
      requires Valid()
      modifies this
      ensures Valid() && State() == OnStop(old(State())).state
      ensures effects == old(effects) + OnStop(old(State())).effects
    {
      effects := effects + [StopMusic];
      paused := false;
      elapsed := 0.0;
    }

    method ToggleRepeat()
      requires Valid()
      modifies this
      ensures Valid() && State() == old(State()).(repeat := !old(repeat)) && effects == old(effects)
    {
      repeat := !repeat;
    }

    method ToggleShuffle()
      requires Valid()
      modifies this
      ensures Valid() && State() == old(State()).(shuffle := !old(shuffle)) && effects == old(effects)
    {
      shuffle := !shuffle;
    }

    /** k: show or hide the key help panel. */
    method ToggleKeys()
      requires Valid()
      modifies this
      ensures Valid() && State() == old(State()).(showKeys := !old(showKeys)) && effects == old(effects)
    {
      showKeys := !showKeys;
    }

    method SeekBack()
      requires Valid()
      modifies this
      ensures Valid() && State() == OnSeekBack(old(State())).state
      ensures effects == old(effects) + OnSeekBack(old(State())).effects
    {
      elapsed := if 0.0 >= elapsed - 5.0 then 0.0 else elapsed - 5.0;
      effects := effects + [PlayFrom(elapsed)];
      if paused {
        effects := effects + [Pause];
      }
    }

    method SeekForward()
      requires Valid()
      modifies this
      ensures Valid() && State() == OnSeekForward(old(State())).state
      ensures effects == old(effects) + OnSeekForward(old(State())).effects
    {
      elapsed := elapsed + 5.0;
      effects := effects + [PlayFrom(elapsed)];
      if paused {
        effects := effects + [Pause];
      }
    }

    method VolumeUp()
      requires Valid()
      modifies this
      ensures Valid() && State() == OnVolumeUp(old(State())).state
      ensures effects == old(effects) + OnVolumeUp(old(State())).effects
    {
      volume := Min(100, volume + 5);
      effects := effects + [SetVolume(volume)];
    }

    method VolumeDown()
      requires Valid()
      modifies this
      ensures Valid() && State() == OnVolumeDown(old(State())).state
      ensures effects == old(effects) + OnVolumeDown(old(State())).effects
    {
      volume := Max(0, volume - 5);
      effects := effects + [SetVolume(volume)];
    }

    /** The browse command once the browser and the catalog builder have
      returned; `tracks[:] = new_tracks` replaces the catalog in place. */
    method Browse(b: BrowseResult)
      requires Valid()
      modifies this
      ensures Valid() && State() == OnBrowse(old(State()), b).state
      ensures effects == old(effects) + OnBrowse(old(State()), b).effects
    {
      if b.chosen.Some? && b.chosen.value != "" {
        effects := effects + [SaveLastDir(b.chosen.value)];
        if b.found != [] {
          tracks := b.found;
          current := 0;
          selection := 0;
          elapsed := 0.0;
          paused := false;
          effects := effects + [Load(tracks[current].path)];
        }
      }
    }

    /** The key dispatch of one frame; `quit` reports the key that breaks
      the loop. */
    method HandleKey(key: Option<WideKey>, b: BrowseResult) returns (quit: bool)
      requires Valid()
      modifies this
      ensures Valid() && quit == OnKey(old(State()), key, b).1
      ensures State() == OnKey(old(State()), key, b).0.state
      ensures effects == old(effects) + OnKey(old(State()), key, b).0.effects
    {
      if key.None? {
        return false;
      }
      var command := CommandOf(key.value);
      Execute(command, b);
      quit := command == Quit;
    }

    /** What the main loop does for one command; quitting is left to the caller. */
    method Execute(command: Command, b: BrowseResult)
      requires Valid()
      modifies this
      ensures Valid() && State() == Apply(old(State()), command, b).state
      ensures effects == old(effects) + Apply(old(State()), command, b).effects
    {
      match command
      case Quit =>
      case Ignored =>
      case TogglePause => TogglePause();
      case NextTrack => Next();
      case PrevTrack => Previous();
      case SelectUp => SelectUp();
      case SelectDown => SelectDown();
      case PlaySelected => PlaySelected();
      case StopPlayback => Stop();
      case ToggleRepeat => ToggleRepeat();
      case ToggleShuffle => ToggleShuffle();
      case SeekBack => SeekBack();
      case SeekForward => SeekForward();
      case BrowseFolder => Browse(b);
      case ToggleKeys => ToggleKeys();
      case VolumeUp => VolumeUp();
      case VolumeDown => VolumeDown();
    }

    /** The `for event in pygame.event.get()` loop: the end-of-track events
      of one frame, handled in order. */
    method EndEvents(picks: seq<nat>)
      requires Valid()
      modifies this
      ensures Valid()
      ensures State() == OnTrackEnds(old(State()), picks).state
      ensures effects == old(effects) + OnTrackEnds(old(State()), picks).effects
    {
      ghost var s0 := State();
      ghost var e0 := effects;
      var i := 0;
      while i < |picks|
        invariant 0 <= i <= |picks| && Valid()
        invariant OnTrackEnds(State(), picks[i..]).state == OnTrackEnds(s0, picks).state
        invariant effects + OnTrackEnds(State(), picks[i..]).effects == e0 + OnTrackEnds(s0, picks).effects
      {
        ghost var s, e := State(), effects;
        TrackEndsUnfold(s, picks[i..]);
        assert picks[i..][0] == picks[i] && picks[i..][1..] == picks[i + 1..];
        TrackFinished(picks[i] % |tracks|);
        AppendAssociative(e, OnTrackEnd(s, picks[i] % |s.tracks|).effects, OnTrackEnds(State(), picks[i + 1..]).effects);
        i := i + 1;
      }
      assert picks[i..] == [];
    }

    /** One pass of the main loop: the clock, the events, then the key. */
    method RunFrame(f: Frame) returns (quit: bool)
      requires Valid()
      modifies this
      ensures Valid()
      ensures State() == OnFrame(old(State()), f).0.state && quit == OnFrame(old(State()), f).1
      ensures effects == old(effects) + OnFrame(old(State()), f).0.effects
    {
      ghost var s0, e0 := State(), effects;
      Tick(f.delta, f.busy);
      EndEvents(f.picks);
      ghost var s2, e2 := State(), effects;
      quit := HandleKey(f.key, f.browse);
      ghost var ended := OnTrackEnds(OnTick(s0, f.delta, f.busy), f.picks);
      assert s2 == ended.state;
      ghost var after := OnKey(ended.state, f.key, f.browse).0;
      assert State() == after.state;
      assert OnFrame(s0, f).0.state == after.state;
      assert quit == OnFrame(s0, f).1;
      assert e2 == e0 + ended.effects;
      assert effects == e2 + OnKey(ended.state, f.key, f.browse).0.effects;
      assert OnFrame(s0, f).0.effects == ended.effects + OnKey(ended.state, f.key, f.browse).0.effects;
      AppendAssociative(e0, ended.effects, after.effects);
    }

    /** `main`'s loop over a script of frames, until a quit or the end of
      the script. The catalog is never empty along the way. */
    method Run(frames: seq<Frame>) returns (quit: bool)
      requires Valid()
      modifies this
      ensures Valid() && |tracks| > 0
      ensures State() == Play(old(State()), frames).0.state && quit == Play(old(State()), frames).1
      ensures effects == old(effects) + Play(old(State()), frames).0.effects
    {
      ghost var e0 := effects;
      ghost var all := Play(State(), frames);
      var i := 0;
      quit := false;
      while i < |frames|
        invariant 0 <= i <= |frames| && Valid() && !quit
        invariant Play(State(), frames[i..]).0.state == all.0.state
        invariant Play(State(), frames[i..]).1 == all.1
        invariant effects + Play(State(), frames[i..]).0.effects == e0 + all.0.effects
      {
        ghost var s, e := State(), effects;
        quit := RunFrame(frames[i]);
        PlayResume(s, frames, i, e, State(), effects, quit);
        if quit {
          return;
        }
        i := i + 1;
      }
      assert frames[i..] == [];
    }
  }
}
