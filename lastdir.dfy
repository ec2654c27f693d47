/** The remembered folder (`load_last_dir`, `save_last_dir` and the choice of
    starting paths in `run`, ascii_player.py). The configuration file is a
    value: its text, or nothing when it is missing or cannot be read. */
module LastDir {
  import opened Wrappers
  import opened Text

  /** `load_last_dir()`: the stripped contents of the file, and nothing when
      the file cannot be read or holds only white space. */
  function LoadLastDir(file: Option<string>): (r: Option<string>)
    ensures r.None? <==> file.None? || Strip(file.value) == []
    ensures r.Some? ==> r.value == Strip(file.value)
    ensures r.Some? ==> !IsSpace(r.value[0]) && !IsSpace(r.value[|r.value| - 1])
  {
    if file.None? then None
    else
      var path := Strip(file.value);
      StripIdempotent(file.value);
      if path != [] then Some(path) else None
  }

  /** `save_last_dir(path)`: the file afterwards. Opening it for writing may
      fail, and then the failure is swallowed and the file is as it was. */
  function SaveLastDir(file: Option<string>, path: string, writable: bool): (r: Option<string>)
    ensures writable ==> r == Some(path)
    ensures !writable ==> r == file
  {
    if writable then Some(path) else file
  }

  /** A folder name as the browser returns it comes back unchanged from the
      file it was saved to, and loading it again gives the same answer. */
  lemma SaveThenLoad(file: Option<string>, path: string)
    requires path != [] && !IsSpace(path[0]) && !IsSpace(path[|path| - 1])
    ensures LoadLastDir(SaveLastDir(file, path, true)) == Some(path)
  {
    StripFixed(path);
  }

  /** Loading is stable: saving what was loaded and loading it again gives
      the same folder. */
  lemma LoadSaveLoad(file: Option<string>)
    requires LoadLastDir(file).Some?
    ensures LoadLastDir(SaveLastDir(file, LoadLastDir(file).value, true)) == LoadLastDir(file)
  {
    StripIdempotent(file.value);
  }

  /** A file holding only white space reads like a missing one. */
  lemma BlankIsMissing(text: string)
    requires forall k :: 0 <= k < |text| ==> IsSpace(text[k])
    ensures LoadLastDir(Some(text)) == LoadLastDir(None)
  {
    AllSpaceTrimmed(text);
  }

  /** White space only trims to nothing. */
  lemma {:induction false} AllSpaceTrimmed(text: string)
    requires forall k :: 0 <= k < |text| ==> IsSpace(text[k])
    ensures TrimStart(text, IsSpace) == []
  {
    if text != [] {
      AllSpaceTrimmed(text[1..]);
    }
  }

  /** What `run` starts from: the command-line paths, the remembered
      folder, or the folder picked in the browser, and the file afterwards. */
  datatype Launch = Launch(paths: seq<string>, file: Option<string>)

  /** The start of `run`: paths given on the command line win; otherwise the
      remembered folder; otherwise the browser opens (at the home folder,
      since nothing is remembered) and a non-empty choice is both used and
      saved. `choose` is the browser as a function of its start folder. */
  function StartPaths(args: seq<string>, file: Option<string>, home: string,
                      choose: string -> Option<string>, writable: bool): (r: Launch)
    ensures args != [] ==> r == Launch(args, file)
    ensures args == [] && LoadLastDir(file).Some? ==> r == Launch([LoadLastDir(file).value], file)
    ensures args == [] && LoadLastDir(file).None? ==>
              var c := choose(home);
              if c.Some? && c.value != [] then r == Launch([c.value], SaveLastDir(file, c.value, writable))
              else r == Launch([], file)
    ensures r.paths == [] <==> args == [] && LoadLastDir(file).None? && (choose(home).None? || choose(home).value == [])
  {
    if args != [] then Launch(args, file)
    else
      var last := LoadLastDir(file);
      if last.Some? then Launch([last.value], file)
      else
        // The browser starts from the remembered folder or else from home;
        // the file was just found empty, so it starts from home.
        var choice := choose(home);
        if choice.Some? && choice.value != [] then Launch([choice.value], SaveLastDir(file, choice.value, writable))
        else Launch([], file)
  }

  /** A folder picked in the browser at one start is the folder the next
      start plays, without asking again. */
  lemma ChosenFolderIsRemembered(file: Option<string>, home: string, choose: string -> Option<string>,
                                 choose2: string -> Option<string>)
    requires LoadLastDir(file).None?
    requires choose(home).Some? && choose(home).value != []
    requires var p := choose(home).value; !IsSpace(p[0]) && !IsSpace(p[|p| - 1])
    ensures var first := StartPaths([], file, home, choose, true);
            StartPaths([], first.file, home, choose2, true).paths == first.paths
  {
    SaveThenLoad(file, choose(home).value);
  }
}
