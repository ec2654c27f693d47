# cubeplayer in Dafny

A model of cubeplayer, a terminal music player drawn with curses, and of its
installer. The model covers:

- **Catalog**: how the command-line paths become the playlist. Folders are
  walked for `.mp3`/`.wav`/`.ogg`/`.flac` files. The candidates are
  de-duplicated and sorted, and each file is given a title and a duration.
- **Render**: the text the screen is made of. This is the `mm:ss` clock, the
  progress bar, the status line, the scrolling track list with its cursor and
  play markers, the boxes and the footer.
- **Session**: the playback session of `main`. It holds the state the loop
  keeps: the track list, the playing and selected indices, the pause, repeat,
  shuffle and keys-panel flags, the volume and the elapsed time. It also holds
  what every key and every end-of-track event does to that state, and the
  calls to the audio engine, kept in order in a log. `Session.Player` is the
  same loop written as a class whose methods update its fields in place.
- **Browser**: the folder browser. This is the filtered and sorted listing
  with its `..` entry, and what each key does: move, enter a folder, climb,
  choose or cancel.
- **LastDir**: the remembered folder, and how `run` decides where to start.
- **OsRelease** and **Installer**: the installer's decisions. This is how
  `/etc/os-release` is read, which package manager installs the dependencies
  and which commands it runs on each platform, how the Windows user PATH is
  edited, and how the Unix shell profiles are extended.

**What is abstracted.** The filesystem, the tag reader, the clock, the random
generator and the terminal are inputs to the model:

- a directory listing is a function from folder to entries;
- a tag or a duration is a function from path to value;
- the frame time is a number;
- the shuffle pick is an integer;
- a key is a value.

**Helper modules.** `Wrappers`, `Numbers`, `Text`, `Paths` and `Seqs` hold the
Python string and path operations the core relies on:

- `strip`, `lower`, `split`, `splitlines`;
- string ordering, `:02d` formatting;
- `os.path.splitext`, `basename`, `join` and the parent folder.

`Keys` holds the curses key codes.

## Model

Every member with a contract has a row. Functions without a contract that only define a reference value have no row of their own; they are stated through the rows of the members that use them. Examples are `Installer.ContinuesToLaunchers`, `Installer.PathEntries`, `Installer.SameDir`, `Catalog.Candidates` and `OsRelease.DetectDistro`.

| member | source | states |
|---|---|---|
| Catalog.WalkStep | ascii_player.py:137-141 | one more walked file extends the collected list by exactly that file's hit |
| Catalog.GatherWalk | ascii_player.py:137-141 | the loop over a walked folder appends, in walk order, exactly the joined paths of the supported files |
| Catalog.GatherFiles | ascii_player.py:134-143 | the first loop collects, argument by argument, the supported walked files of folders and every explicit file as given |
| Catalog.TitleFor | ascii_player.py:150 | the title is the tag title when it is non-empty, and otherwise the file name without folder or extension |
| Catalog.PathsOf | ascii_player.py:146-152 | the paths of a track list, position by position |
| Catalog.IncreasingIsDistinct | ascii_player.py:146 | a strictly increasing list of paths has no duplicates |
| Catalog.Least | ascii_player.py:146 | the chosen path is in the set and precedes every other member in Python string order |
| Catalog.SortedUnique | ascii_player.py:146 | `sorted(set(files))`: strictly increasing, and holds exactly the members of the set |
| Catalog.BuildStep | ascii_player.py:146-152 | one pass of the second loop keeps the list sorted, keeps its membership in step with the files seen, and keeps every track built from its path |
| Catalog.StepPaths | ascii_player.py:152 | appending a track appends its path |
| Catalog.StepIncreasing | ascii_player.py:152 | appending a path greater than all earlier ones keeps the paths strictly increasing |
| Catalog.StepBefore | ascii_player.py:146-152 | a track taken from the sorted files precedes every file still to come |
| Catalog.BuildTracks | ascii_player.py:145-153 | the tracks are strictly sorted by path; a path is a track exactly when it is one of the files and supported; each track carries its tag title (or stem) and its duration |
| Catalog.CollectTracks | ascii_player.py:133-153 | `collect_tracks`: sorted, duplicate-free, and a path is a track exactly when it was collected and is supported; each track is built from its own path |
| Catalog.ExplicitFileKeptIffSupported | ascii_player.py:142-149 | a file named on the command line is kept if and only if its extension is supported |
| Catalog.NoAudioNoCandidates | ascii_player.py:134-143 | folders with no supported files contribute no candidates |
| Catalog.NoHits | ascii_player.py:137-141 | a walk with no supported files yields nothing |
| Render.HumanTime | ascii_player.py:66-71 | `--:--` exactly for an unknown or negative time; under 100 minutes the clock is five characters with a colon in the middle |
| Render.HumanTimeRoundTrip | ascii_player.py:66-71 | reading the clock back as minutes and seconds gives the whole seconds of the input |
| Render.HumanTimeFields | ascii_player.py:69-71 | the clock is the two-digit whole minutes, a colon, and the two-digit remaining seconds |
| Render.ClockRoundTrip | ascii_player.py:69-71 | a clock written as minutes, colon, two-digit seconds reads back as 60 times the minutes plus the seconds |
| Render.ParseClockFields | ascii_player.py:71 | a string split at its colon reads back as its minutes and seconds |
| Render.UnknownTimeHasNoClock | ascii_player.py:67-68 | the placeholder for an unknown time is not a clock |
| Render.HumanTimeExamples | ascii_player.py:66-71 | 45 seconds read `00:45` and 180 seconds `03:00` |
| Render.ClockExample | ascii_player.py:66-71 | a time under ten minutes reads as its minute digit, colon, and two second digits |
| Render.Pad2Digits | ascii_player.py:71 | `:02d` of a number under 100 is its tens digit then its units digit |
| Render.BarFill | ascii_player.py:213-218 | the filled cells lie between 0 and the inner width; nothing is filled when the duration is unknown or not positive |
| Render.BarFillShare | ascii_player.py:214-216 | a finished track fills the bar; otherwise the filled cells are the played share of the inner width, rounded down |
| Render.BarFillMonotone | ascii_player.py:214-216 | as elapsed time grows the bar never shrinks |
| Render.Repeat | ascii_player.py:219 | `c * n`: n copies of the character |
| Render.ProgressBar | ascii_player.py:213-219 | the bar is the bar width long, bracketed, with a full cell exactly at the filled positions and a dot elsewhere |
| Render.ScenarioQuarterPlayed | ascii_player.py:211-219 | 45 s into a 180 s track on a 108-column screen the time line reads `00:45 / 03:00` and a quarter of the 100 cells is filled |
| Render.QuarterTimeLine | ascii_player.py:211 | the time line of 45 s out of 180 s |
| Render.QuarterBar | ascii_player.py:213-218 | 25 of 100 cells are filled at a quarter of the track |
| Render.StatusLine | ascii_player.py:204-209 | the status line starts with `Paused` exactly when paused and with `Playing` exactly when not |
| Render.StatusLineRoundTrip | ascii_player.py:204-209 | the line reads back as exactly the play state, the repeat and shuffle flags and the volume percent it was built from |
| Render.ListHeight | ascii_player.py:270 | the list is at least three rows high |
| Render.TrackWindow | ascii_player.py:271-272 | the visible rows lie within the list; a valid selection is visible, is centred once the list scrolls, and the window is as tall as the list allows |
| Render.TrackRow | ascii_player.py:274-279 | a row marks `*` exactly at the selection and `>` exactly at the playing track, and shows the one-based index in at least two digits |
| Render.WindowRows | ascii_player.py:273-279 | one row per visible index, each the row of that track |
| Render.PlaylistLines | ascii_player.py:270-281 | the track list box shows the window's rows, or `<empty>` when there are none |
| Render.SelectedRowMarked | ascii_player.py:270-281 | the selected track is on screen, and exactly one visible row carries the selection mark |
| Render.SliceTo | ascii_player.py:176 | Python slicing `s[:stop]` for non-negative and negative stops |
| Render.LJust | ascii_player.py:179 | `ljust` keeps the text and pads with spaces to the width |
| Render.CenterLeft | ascii_player.py:175 | `center` splits the padding so the two sides differ by at most one |
| Render.Center | ascii_player.py:175 | the centred text keeps the original in the middle, is never shorter than it, and every other cell is the fill character |
| Render.BoxTop | ascii_player.py:174-176 | the top border is cut to the screen width minus two and starts with its corner; on a screen of at least 14 columns a title that fits is centred in the rule, `str.center`-style, between `┌` and `┐` |
| Render.BoxRow | ascii_player.py:178-180 | a box row is cut to the screen width minus two, starts with its side, and on a wide screen is the padded line between two sides |
| Render.BoxBottom | ascii_player.py:182 | the bottom border is cut to the screen width minus two and starts with its corner; on a screen of at least 14 columns it is `└`, a rule of width − 4 cells and `┘` |
| Render.Footer | ascii_player.py:285-288 | the footer is the key hint, followed by the status message when there is one, cut to the width minus one |
| Render.FirstTagValue | ascii_player.py:86-91 | no value for a missing tag or an empty list; a single value as is; the first element of a list |
| Render.TagOrUnknown | ascii_player.py:120-121 | the shown tag is never empty: a non-empty first value is shown as it is, and a missing or empty one shows `unknown` |
| Session.Initial | ascii_player.py:405-421 | the start state satisfies the session invariant |
| Session.CommandOf | ascii_player.py:453-522 | quit exactly on `q`, `Q`, `й`, `Й`; play-selected exactly on the enter codes; a key in no row of the dispatch is ignored |
| Session.NextIndex | ascii_player.py:464 | `(i + 1) % n` on a valid index: the next track, wrapping to the first |
| Session.PrevIndex | ascii_player.py:469 | `(i - 1) % n` on a valid index: the previous track, wrapping to the last |
| Session.NextPrevIndexInverse | ascii_player.py:463-472 | next and previous undo each other |
| Session.OnTick | ascii_player.py:428-430 | the elapsed time grows by the frame time exactly while the engine is busy and not paused; nothing else changes |
| Session.OnTrackEnd | ascii_player.py:434-446 | repeat replays the track from zero; otherwise shuffle plays the random pick and normal play moves to the next track, and the selection follows; the finished track's successor is loaded |
| Session.OnTogglePause | ascii_player.py:456-462 | space flips the pause and pauses or unpauses the engine accordingly |
| Session.OnNext | ascii_player.py:463-467 | `n` plays the next track from zero and moves the selection to it |
| Session.OnPrev | ascii_player.py:468-472 | `p` plays the previous track from zero and moves the selection to it |
| Session.OnSelectUp | ascii_player.py:473-474 | up moves the selection one row up, stopping at the first |
| Session.OnSelectDown | ascii_player.py:475-476 | down moves the selection one row down, stopping at the last |
| Session.OnPlaySelected | ascii_player.py:477-481 | enter plays the selected track from zero and clears the pause |
| Session.OnStop | ascii_player.py:482-485 | `s` stops the engine, clears the pause and rewinds |
| Session.OnSeekBack | ascii_player.py:490-494 | left rewinds five seconds, not below zero, restarts there and pauses again when paused |
| Session.OnSeekForward | ascii_player.py:495-499 | right skips five seconds, restarts there and pauses again when paused |
| Session.OnVolumeUp | ascii_player.py:517-519 | `+` raises the volume five points, capped at 100, and sets it on the engine |
| Session.OnVolumeDown | ascii_player.py:520-522 | `-` lowers the volume five points, floored at 0, and sets it on the engine |
| Session.OnBrowse | ascii_player.py:500-514 | no choice changes nothing; a chosen folder is remembered, and replaces the list and plays its first track only when it holds tracks |
| Session.Apply | ascii_player.py:453-522 | every command keeps the session invariant |
| Session.OnlyBrowseReplacesCatalog | ascii_player.py:500-514 | the track list never becomes empty, and only a folder chosen in the browser replaces it |
| Session.NextThenPrev | ascii_player.py:463-472 | `n` then `p` comes back to the playing track, rewound and selected |
| Session.Wraparound | ascii_player.py:463-472 | next from the last track plays the first; previous from the first plays the last |
| Session.SeekForwardThenBack | ascii_player.py:490-499 | skipping forward then back returns to the same state, restarting the engine at both offsets |
| Session.TogglePauseTwice | ascii_player.py:456-462 | pressing space twice returns to the same state with one pause and one unpause |
| Session.VolumeUpThenDown | ascii_player.py:517-522 | below the cap, up then down restores the volume; at the cap, up changes nothing but re-sets 100 |
| Session.OnTrackEnds | ascii_player.py:434-446 | a batch of end-of-track events keeps the invariant and the track list |
| Session.OnKey | ascii_player.py:453-522 | a key keeps the invariant, and the loop ends exactly on a quit key |
| Session.OnFrame | ascii_player.py:425-522 | one frame (tick, end events, key) keeps the invariant |
| Session.TrackEndsUnfold | ascii_player.py:434-446 | the first end event is handled first and its effects come first |
| Session.PlayUnfold | ascii_player.py:423-522 | the loop stops at a quitting frame and otherwise continues with the next |
| Session.PlayResume | ascii_player.py:423-522 | the loop after frame i continues from the state that frame leaves, with the effects accumulated so far |
| Session.PlayKeepsInvariant | ascii_player.py:423-522 | any run of frames keeps the session invariant |
| Session.QuitEndsSession | ascii_player.py:454-455 | a frame whose key is `q` ends the session; later frames are not read |
| Session.Player.constructor | ascii_player.py:405-421 | the player starts in the initial state and starts the first track |
| Session.Player.Tick | ascii_player.py:428-430 | the fields change as OnTick says |
| Session.Player.TrackFinished | ascii_player.py:434-446 | the fields and engine log change as OnTrackEnd says |
| Session.Player.TogglePause | ascii_player.py:456-462 | as OnTogglePause |
| Session.Player.Next | ascii_player.py:463-467 | as OnNext |
| Session.Player.Previous | ascii_player.py:468-472 | as OnPrev |
| Session.Player.SelectUp | ascii_player.py:473-474 | as OnSelectUp |
| Session.Player.SelectDown | ascii_player.py:475-476 | as OnSelectDown |
| Session.Player.PlaySelected | ascii_player.py:477-481 | as OnPlaySelected |
| Session.Player.Stop | ascii_player.py:482-485 | as OnStop |
| Session.Player.ToggleRepeat | ascii_player.py:486-487 | flips repeat and nothing else |
| Session.Player.ToggleShuffle | ascii_player.py:488-489 | flips shuffle and nothing else |
| Session.Player.ToggleKeys | ascii_player.py:515-516 | flips the keys panel and nothing else |
| Session.Player.SeekBack | ascii_player.py:490-494 | as OnSeekBack |
| Session.Player.SeekForward | ascii_player.py:495-499 | as OnSeekForward |
| Session.Player.VolumeUp | ascii_player.py:517-519 | as OnVolumeUp |
| Session.Player.VolumeDown | ascii_player.py:520-522 | as OnVolumeDown |
| Session.Player.Browse | ascii_player.py:500-514 | as OnBrowse |
| Session.Player.HandleKey | ascii_player.py:453-522 | as OnKey, reporting a quit |
| Session.Player.Execute | ascii_player.py:455-522 | as Apply |
| Session.Player.EndEvents | ascii_player.py:434-446 | as OnTrackEnds |
| Session.Player.RunFrame | ascii_player.py:425-522 | as OnFrame |
| Session.Player.Run | ascii_player.py:423-522 | the loop leaves the fields and engine log as Play says, with the track list never empty |
| Browser.KeptChildren | ascii_player.py:332-342 | an unreadable folder lists nothing; otherwise an entry is kept exactly when it is a folder, or an allowed file passing the extension filter, and each kept entry appears as often as in the listing |
| Browser.Filter | ascii_player.py:333-340 | the kept entries are exactly the listed ones that pass, each as often as in the listing |
| Browser.FilterSnoc | ascii_player.py:333-340 | one more listed entry adds itself at the end of the kept entries when it passes, and nothing otherwise |
| Browser.FilterAppend | ascii_player.py:333-340 | filtering two listings one after the other keeps each one's survivors in order: the kept entries keep the listing order |
| Browser.KeyLessIrreflexive | ascii_player.py:344 | the sort key is a strict order: irreflexive |
| Browser.KeyLessTransitive | ascii_player.py:344 | the sort key is transitive |
| Browser.KeyLessAsymmetric | ascii_player.py:344 | the sort key is asymmetric |
| Browser.KeyLessSplits | ascii_player.py:344 | the sort key's incomparability is transitive, so the sort is well defined |
| Browser.Insert | ascii_player.py:344 | inserting into a sorted listing keeps it sorted and adds exactly the entry |
| Browser.SortByKey | ascii_player.py:344 | the sort returns a sorted permutation of the listing |
| Browser.SortByKeyStable | ascii_player.py:344 | the sort is stable: entries with the same key keep their listing order |
| Browser.InsertStable | ascii_player.py:344 | inserting an entry into a sorted list puts it after the entries with the same key |
| Browser.Entries | ascii_player.py:344-346 | below the root the first entry is `..`; the rest is a sorted permutation of the kept children in which entries with the same key keep their listing order |
| Browser.DirectoriesFirst | ascii_player.py:344 | no folder follows a file in the listing |
| Browser.StepOn | ascii_player.py:362-391 | `q` cancels; up moves the cursor up, not past the top; down moves it down, not past the last entry; entering a new folder resets the cursor; only space chooses; any other key changes nothing |
| Browser.StepOnKeepsCursor | ascii_player.py:365-391 | a key never indexes outside the listing and keeps the cursor valid within the same folder |
| Browser.StepKeepsCursor | ascii_player.py:362-391 | the cursor stays valid after any key, including in the folder a key moves to |
| Browser.EnterChildThenBack | ascii_player.py:369-381 | entering a subfolder and pressing backspace returns to the folder with the cursor at the top |
| Browser.BackspaceClimbs | ascii_player.py:369-371 | backspace goes to the parent folder with the cursor at the top |
| Browser.EnterOnEntry | ascii_player.py:371-381 | enter on `..` climbs to the parent, enter on a folder opens it, both with the cursor at the top; enter on a file does nothing |
| Browser.EnterOnNothing | ascii_player.py:371-373 | enter in an empty listing does nothing |
| Browser.SpaceOnEntry | ascii_player.py:382-391 | space ignores `..`, chooses a folder, chooses a file only when files are allowed, and otherwise stays |
| Browser.EntryIsChild | ascii_player.py:332-346 | every entry but `..` is a child of a readable folder |
| Browser.WalkNeverFaults | ascii_player.py:325-391 | no sequence of keys from a valid cursor indexes outside the listing |
| Browser.BrowseForFolder | ascii_player.py:314-391 | the loop ends in the outcome of its key sequence, which is never an out-of-range index |
| LastDir.LoadLastDir | ascii_player.py:297-303 | the stripped contents, and nothing exactly when the file is missing or blank; a result has no surrounding white space |
| LastDir.SaveLastDir | ascii_player.py:306-311 | a file that opens for writing holds the path afterwards; one that does not is left as it was |
| LastDir.SaveThenLoad | ascii_player.py:297-311 | a saved folder name without surrounding white space loads back unchanged |
| LastDir.LoadSaveLoad | ascii_player.py:297-311 | saving what was loaded and loading again gives the same folder |
| LastDir.BlankIsMissing | ascii_player.py:299-300 | a file of only white space reads like a missing one |
| LastDir.AllSpaceTrimmed | ascii_player.py:299 | white space strips to nothing |
| LastDir.StartPaths | ascii_player.py:550-575 | command-line paths win, then the remembered folder, then a non-empty browser choice, which is also saved; no paths exactly when all three are missing |
| LastDir.ChosenFolderIsRemembered | ascii_player.py:555-575 | a folder picked at one start is the folder the next start plays without asking |
| OsRelease.LineLength | install.py:332 | the first line ends at the first line break |
| OsRelease.SplitLines | install.py:332 | `splitlines` gives no lines exactly for empty text |
| OsRelease.SplitLinesTerminated | install.py:332 | lines each ending in a newline split back into the same lines |
| OsRelease.SplitFirstLine | install.py:332 | a line and its newline split off as the first line |
| OsRelease.FirstLineLength | install.py:332 | the first line ends where the break after it starts |
| OsRelease.AfterFirst | install.py:335 | `split("=", 1)[1]`: what follows the first `=` |
| OsRelease.FieldValue | install.py:335 | the value is shorter than its line and, once quotes are stripped, neither starts nor ends with `'` |
| OsRelease.AfterKey | install.py:334-335 | the value of a key line is what follows the key |
| OsRelease.LastField | install.py:330-337 | no value exactly when no line starts with the key |
| OsRelease.KeysDisjoint | install.py:334-336 | no line starts with both `ID=` and `ID_LIKE=` |
| OsRelease.ReadLinesIsLastField | install.py:330-337 | the loop's result is, for each key, the value of the last line with that key |
| OsRelease.LastFieldSnoc | install.py:332-337 | a later key line replaces the value; any other line keeps it |
| OsRelease.LaterLineOverrides | install.py:332-337 | the last line with a key decides, whatever came before |
| OsRelease.KeysIndependent | install.py:334-337 | an `ID_LIKE=` line leaves the id alone and an `ID=` line the family |
| OsRelease.DetectDistroIsLastField | install.py:319-338 | `detect_linux_distro` returns the last value of each key |
| OsRelease.ReadNextLine | install.py:332-337 | one more line of the file is one more step of the loop |
| OsRelease.ReadLinesSnoc | install.py:332-337 | reading one more line is one more step |
| OsRelease.ReadKeyLine | install.py:333-337 | one pass of the loop: an `ID=` line sets the id, an `ID_LIKE=` line the family, any other line neither |
| OsRelease.DetectLinuxDistro | install.py:319-338 | no file gives neither value; otherwise the loop's values equal the last-line-wins reading |
| OsRelease.TrimIndent | install.py:333 | leading white space is stripped off a line |
| OsRelease.KeyShape | install.py:334-336 | each key ends in its only `=` |
| OsRelease.KeyEndsInEquals | install.py:334-336 | a key line's key ends in `=` and starts with `I` |
| OsRelease.IndentedKeyRecognised | install.py:333-336 | an indented key line is still recognised after stripping |
| OsRelease.StripIndent | install.py:333 | stripping an indented line equals stripping the line itself |
| OsRelease.StripKeepsKey | install.py:333-334 | stripping a key line keeps its key |
| OsRelease.QuotedValue | install.py:335 | a double-quoted value loses its quotes |
| OsRelease.UnquotedValue | install.py:335 | a bare value is kept as is |
| OsRelease.StripAllAround | install.py:333 | stripping every line is done line by line |
| OsRelease.LastKeyLineWins | install.py:326-338 | in a real file, the last line with a key gives that key's value |
| Installer.ChoosePackageManager | install.py:386-508 | a known id decides by its row; only an unknown id falls back to a non-empty `ID_LIKE`; anything else is left to the user |
| Installer.ExactIdWins | install.py:389-444 | a known id decides whatever `ID_LIKE` says |
| Installer.DebianLikeFirst | install.py:447-466 | a family naming debian or ubuntu selects apt, even if it also names arch |
| Installer.ArchLikeBeforeFedora | install.py:468-485 | a family naming arch but not debian or ubuntu selects pacman, even if it names fedora |
| Installer.AptUpdatesFirst | install.py:389-444 | only apt runs two commands, `apt update` before `apt install`; the user is left with nothing run |
| Installer.InstallCommands | install.py:386-508 | nothing is run exactly when the user is left to install by hand; every command runs under `sudo`; the last one installs the pygame and mutagen packages |
| Installer.WindowsCommands | install.py:345-360 | one to three commands: winget first exactly when it is found, then pip, with the `--user` retry last exactly when the plain pip command reports failure; under `ignore_errors` a non-zero exit reports success, so only a pip that could not be started reports failure |
| Installer.RunCommand | install.py:288-316 | an empty command reports failure; otherwise a zero exit reports success, a non-zero exit reports success exactly when errors are ignored, and a program that cannot be run reports failure |
| Installer.PipRetryOnlyWhenNotStarted | install.py:352-358 | the `--user` retry follows exactly a pip that could not be started: a pip that runs and fails reports success under `ignore_errors` and is never retried |
| Installer.MacCommands | install.py:362-383 | nothing without Homebrew; otherwise three `brew install`s and then pip |
| Installer.InstallSystemPackages | install.py:341-508 | the answer is always yes; on Linux the manager is the table's choice for the detected release and its commands are run |
| Installer.PipIsTheLastResort | install.py:345-383 | off Linux pip installs pygame and mutagen last, except on macOS without Homebrew where nothing runs; on Windows winget runs exactly when found and the `--user` retry exactly when the plain pip command reports failure (it could not be started; a non-zero exit reports success under `ignore_errors`) |
| Installer.LauncherStepAlwaysReached | install.py:537-543 | the question after a failed installation is never asked, so the launchers are always installed |
| Installer.DebianFamilyFileUsesApt | install.py:319-407 | an os-release file whose last `ID=` names a Debian-family system is served by apt |
| Installer.LinuxFollowsTable | install.py:386-407 | on Linux an id in the apt row selects apt |
| Installer.NonEmpty | install.py:157 | the filter keeps exactly the non-empty entries, in order |
| Installer.WindowsPathEdit | install.py:151-173 | nothing is written exactly when some entry resolves to the target; otherwise the target is appended after `;`, or becomes the value when the PATH is empty |
| Installer.SplitWithoutSeparator | install.py:157 | text without `;` is one entry |
| Installer.TargetIsEntry | install.py:157-173 | the appended target is then one of the PATH entries |
| Installer.WindowsPathEditIdempotent | install.py:151-173 | after the edit a second run finds the target present and writes nothing |
| Installer.EditProfile | install.py:112-132 | a profile counts when it already has the marker or can be appended to; it is changed only by appending the block after a newline, and a counted profile then holds the marker |
| Installer.EditProfileIdempotent | install.py:119-128 | a second pass over a profile changes nothing and counts the same |
| Installer.EditProfiles | install.py:111-132 | each profile is edited on its own; success means some profile counts |
| Installer.EditProfilesIdempotent | install.py:106-134 | running `add_to_unix_path` twice is the same as running it once |
| Installer.AddToUnixPath | install.py:97-134 | the profile array is edited in place, each file as one pass says, and the answer is whether any counted |
| Paths.Basename | ascii_player.py:150 | the base name is the longest suffix of the path with no `/`: the character before it is `/` |
| Paths.SplitExt | ascii_player.py:139 | stem and extension make up the path; the extension is empty or a dot starting the last dot-free, slash-free part; there is an extension exactly when the last dot follows the last `/` and something other than dots precedes it in its component |
| Paths.SplitExtExamples | ascii_player.py:139 | `song.mp3` splits into `song` and `.mp3`; `.mp3` has no extension, and neither does a name whose only dot is in a folder name |
| Paths.Join | ascii_player.py:141 | joining with an absolute name gives that name; otherwise the name follows the first part directly when that is empty or ends in `/`, and after one `/` when not |
| Paths.BasenameOfJoin | ascii_player.py:141 | the base name of a joined path is the name that was joined |
| Paths.Parent | ascii_player.py:370 | the parent of an absolute folder is an absolute prefix of it, shorter than it unless it is the root |
| Numbers.Trunc | ascii_player.py:205 | `int()` of a non-negative number is its floor, and of a negative one is at most zero |
| Paths.ParentOfJoin | ascii_player.py:369-381 | the parent of a child folder is the folder itself |
| Text.Lower | ascii_player.py:139 | lower-casing keeps the length and maps each character |
| Text.Split | install.py:157 | `split(";")` gives at least one part and no part holds the separator |
| Text.SplitJoin | install.py:157 | joining the parts with the separator gives back the text |
| Text.StripIdempotent | ascii_player.py:299 | stripping twice is stripping once, and a stripped text has no surrounding white space |
| Text.LexLessTotal | ascii_player.py:146 | Python string order compares any two different strings |
| Text.LexLessTransitive | ascii_player.py:146 | Python string order is transitive |
| Text.Pad2 | ascii_player.py:71 | `:02d` writes the number in digits, at least two of them |
| Text.DecimalRoundTrip | ascii_player.py:71 | the decimal digits of a number read back as that number |

## Left out

- Drawing with curses is not modelled: screen positions, colours, the banner, the keys panel text, the visualizer and `refresh`. The model covers the strings that are drawn.
- The pygame engine is not modelled. Its calls (`load`/`play`, `play(start=)`, `pause`, `unpause`, `stop`, `set_volume`) are recorded in an effect log. Its `get_busy` answer and its end-of-track events are inputs to each frame.
- The clock is an input: the frame time `delta` is a non-negative number. `status_message` and `input_block_until` are never set by the code, so every key is handled and the footer shows only the key hint.
- Session.Player: a load failure of the audio engine is not modelled. `play_track` has no error handling, so a file that is missing or cannot be decoded (`cubeplayer missing.mp3`) raises `pygame.error` and ends the program without the teardown. The model treats every `load` as succeeding.
- Session.Initial: assumes the first track loads; the same load failure is not modelled.
- Session.OnTrackEnd: assumes the next track loads; the same load failure is not modelled.
- Session.OnNext: assumes the next track loads; the same load failure is not modelled.
- Session.OnPrev: assumes the previous track loads; the same load failure is not modelled.
- Session.OnPlaySelected: assumes the selected track loads; the same load failure is not modelled.
- Session.OnBrowse: assumes the first track of the new list loads; the same load failure is not modelled.
- Render.BarFill: uses exact real arithmetic, while the code computes `(elapsed / duration) * (bar_width - 2)` in double precision. Rounding can leave the code one cell short of the exact value: with 57 seconds of 100 and 100 cells, the double product is just below 57 and `int()` gives 56, while the model gives 57.
- Render.BarFillShare: states the exact-real share, so it shares the one-cell rounding difference of BarFill.
- Session.OnTick: the elapsed time is an exact sum of the frame times. The code adds doubles, so its rounding error grows over a long track and is not modelled.
- Session.OnTrackEnd: the shuffle pick `random.randrange` is an input (any valid index).
- Session.OnVolumeUp: volume is kept as an integer percentage that moves in steps of 5 from 70. The float `0.7 ± 0.05` and its `int(volume * 100)` display can differ by rounding, and that difference is not modelled.
- Session.OnVolumeDown: the same integer-percentage model as for volume up.
- The teardown after the loop (`music.stop`, `mixer.quit`, `pygame.quit`) and clearing the screen in `run` are not modelled. They happen only after a quit key, which `Session.QuitEndsSession` states.
- mutagen tag reading and duration lookup (`get_title_from_tags`, `get_duration`) are functions from path to an optional title and duration. `_first_tag_value`/`tag_or_unknown` are modelled on a tag value that is absent, single or a list.
- The filesystem is not modelled. `os.walk`, `os.path.isdir` and `os.listdir` appear as values: the walked files of each argument, and a listing function from folder to entries.
- Browser.BrowseForFolder: `os.path.abspath` normalisation of the start folder is not modelled. The folder is taken as given. The parent of a folder is computed on POSIX paths only, and the listing is the same whenever a folder is revisited.
- Catalog.CollectTracks: duplicates are removed by path string, as the code's `set(files)` does, not by resolved location.
- The configuration file of the remembered folder is a value: its text, or nothing when it cannot be read. Encoding errors are not modelled.
- Installer.InstallSystemPackages: the results of the commands are not modelled, except what the plain pip install on Windows reports, because the answer is yes whatever they report. Console messages are not modelled.
- OsRelease.DetectLinuxDistro: a missing file and an unreadable file are both "no file". Decoding with `errors="ignore"` is not modelled.
- Installer.WindowsPathEdit: the registry is not modelled. The current value is a string, "" when absent. `Path.resolve` is a function that may fail. The error path that returns False, `SetValueEx` and the `WM_SETTINGCHANGE` broadcast through ctypes are not modelled.
- Installer.AddToUnixPath: each profile file is a value (absent, unreadable, or its text and whether it can be appended to). The home folder and console messages are not modelled.
- The rest of install.py is not modelled: locating the player script, choosing the launcher folder (`first_writable_in_path`, `default_user_bin`, `ensure_dir`), writing the launchers, and argument parsing. These are file and process operations with no decision logic beyond the PATH edits above.
- Text.Lower: Python's `str.lower` is modelled on ASCII letters only. Extensions and names outside ASCII are compared without Unicode case folding.

## Code and design

Facts about the code that the model keeps:

- Candidate files are de-duplicated by their path strings (`set(files)`). Two paths that name the same file, such as a relative and an absolute one, both stay in the list.
- The audio engine is shut down only after a quit key ends the loop. Any other way out of the loop, such as an engine error, skips `music.stop`, `mixer.quit` and `pygame.quit`.
