/** File-name parsing and project-directory derivation (cmd/root.go):
    where a name's extension starts, whether it has one, and which
    "<ext>_projects" directory under the home directory holds it. */
module Root {
  import opened Outcomes
  import opened Strings
  import opened FilePath

  /** getExtensionIndex. It takes the first '.'; while the name holds more
      than one, it recurses into the text after that dot and adds the two
      offsets. A name without '.' makes Go index the string at -1, which
      panics.

      The contract is the closed form: for dots at p1 < ... < pk the index is
      pk - (k - 1), the last dot's position less one for every further dot. */
  function ExtensionIndex(path: string): (r: Result<int>)
    ensures Index(path, '.') < 0 ==> r == Panic(IndexOutOfRange)
    ensures 0 <= Index(path, '.') ==> r == Ok(LastIndex(path, '.') - (Count(path, '.') - 1))
    decreases |path|
  {
    var dot := Index(path, '.');
    if dot < 0 then
      Panic(IndexOutOfRange)
    // path[dot] is the '.' just found, so the count is of '.'
    else if Count(path, '.') > 1 then
      // the rest still holds a dot, so the recursive call does not panic
      ClosedFormStep(path);
      var next := ExtensionIndex(Suffix(path, dot + 1));
      if next.Ok? then Ok(dot + next.value) else next
    else
      ClosedFormBase(path);
      Ok(dot)
  }

  /** One more dot in front adds its position plus one to the closed form of
      the rest, and the rest still holds a dot. */
  lemma ClosedFormStep(path: string)
    requires 0 <= Index(path, '.') && Count(path, '.') > 1
    ensures var rest := Suffix(path, Index(path, '.') + 1);
      0 <= Index(rest, '.') &&
      LastIndex(path, '.') - (Count(path, '.') - 1) ==
        Index(path, '.') + (LastIndex(rest, '.') - (Count(rest, '.') - 1))
  {
    CountAfterFirst(path, '.');
    IndexFindsCounted(Suffix(path, Index(path, '.') + 1), '.');
    LastIndexAfterFirst(path, '.');
  }

  /** With a single dot the closed form is that dot's position. */
  lemma ClosedFormBase(path: string)
    requires 0 <= Index(path, '.') && Count(path, '.') <= 1
    ensures LastIndex(path, '.') - (Count(path, '.') - 1) == Index(path, '.')
  {
    CountWithinFirstAndLast(path, '.');
  }

  /** getExtensionIndex panics exactly on names without '.'. */
  lemma ExtensionIndexPanicsIff(path: string)
    ensures ExtensionIndex(path).Panic? <==> '.' !in path
    ensures ExtensionIndex(path).Panic? ==> ExtensionIndex(path).fault == IndexOutOfRange
  {
    IndexSpec(path, '.');
  }

  /** The index lies between the first and the last dot, so inside the name. */
  lemma ExtensionIndexBounds(path: string)
    requires '.' in path
    ensures ExtensionIndex(path).Ok?
    ensures Index(path, '.') <= ExtensionIndex(path).value <= LastIndex(path, '.') < |path|
  {
    IndexSpec(path, '.');
    CountWithinFirstAndLast(path, '.');
  }

  /** With exactly one dot, the index is that dot's position. */
  lemma ExtensionIndexOfSingleDot(path: string, k: int)
    requires 0 <= k < |path| && path[k] == '.'
    requires Count(path, '.') == 1
    ensures ExtensionIndex(path) == Ok(k)
  {
    IndexSpec(path, '.');
    LastIndexSpec(path, '.');
    CountWithinFirstAndLast(path, '.');
  }

  /** The extension token file[dot+1:] that getDirPath builds the directory
      name from. */
  function ExtensionToken(file: string): Result<string>
  {
    match ExtensionIndex(file)
    case Panic(f) => Panic(f)
    case Ok(dot) =>
      // the index is at most the last dot's position, so inside the name
      CountWithinFirstAndLast(file, '.');
      Ok(Suffix(file, dot + 1))
  }

  /** The token is a suffix of the name, one character longer than the text
      after the last dot for every dot beyond the first. With one dot it is
      the text after that dot; with k >= 2 dots it still holds the last dot,
      at position k - 2 (at its start when k = 2). A dot-free name panics. */
  lemma ExtensionTokenSpec(file: string)
    ensures var r := ExtensionToken(file);
      (Index(file, '.') < 0 ==> r == Panic(IndexOutOfRange)) &&
      (0 <= Index(file, '.') ==> r.Ok?) &&
      (r.Ok? ==> |r.value| == |file| - 1 - LastIndex(file, '.') + (Count(file, '.') - 1)) &&
      (r.Ok? ==> |r.value| < |file| && r.value == file[|file| - |r.value|..]) &&
      (r.Ok? && Count(file, '.') == 1 ==> r.value == file[LastIndex(file, '.') + 1..]) &&
      (r.Ok? && Count(file, '.') >= 2 ==> r.value[Count(file, '.') - 2] == '.')
  {
    if 0 <= Index(file, '.') {
      CountWithinFirstAndLast(file, '.');
      SuffixIsSlice(file, ExtensionIndex(file).value + 1);
    }
  }

  /** hasExtension. Its "false" branch is unreachable: a name without '.'
      panics inside getExtensionIndex before the comparison with -1. */
  function HasExtension(f: string): Result<bool>
  {
    match ExtensionIndex(f)
    case Panic(fault) => Panic(fault)
    case Ok(i) => if i == -1 then Ok(false) else Ok(true)
  }

  /** hasExtension answers true exactly for names holding '.', panics on the
      others, and never answers false. */
  lemma HasExtensionIff(f: string)
    ensures HasExtension(f) == Ok(true) <==> '.' in f
    ensures HasExtension(f) == Panic(IndexOutOfRange) <==> '.' !in f
    ensures HasExtension(f) != Ok(false)
  {
    IndexSpec(f, '.');
    if '.' in f {
      CountWithinFirstAndLast(f, '.');
    }
  }

  /** The project-directory layout: "<home>\<token>_projects\" on Windows,
      "<home>/Documents/<token>_projects/" elsewhere. */
  function ProjectDir(os: Os, home: string, token: string): string
  {
    if os == Windows then home + "\\" + token + "_projects\\"
    else home + "/Documents/" + token + "_projects/"
  }

  /** getDirPath, with the host OS and the home directory (None when
      os.UserHomeDir fails) as parameters. The extension index is computed
      first, so a dot-free name panics even when the home is unknown. */
  function DirPath(file: string, os: Os, home: Option<string>): Result<string>
  {
    match ExtensionToken(file)
    case Panic(f) => Panic(f)
    case Ok(token) =>
      if home.None? then Panic(HomeDirUnavailable)
      else if os == Windows then
        Ok(Join(os, home.value, token + "_projects") + "\\")
      else
        Ok(Join(os, Join(os, home.value, "Documents"), token + "_projects") + "/")
  }

  /** getDirPath panics on a dot-free name, then when the home directory is
      unknown; otherwise it is the project-directory layout for the token. */
  lemma DirPathSpec(file: string, os: Os, home: Option<string>)
    ensures Index(file, '.') < 0 ==> DirPath(file, os, home) == Panic(IndexOutOfRange)
    ensures 0 <= Index(file, '.') && home.None? ==> DirPath(file, os, home) == Panic(HomeDirUnavailable)
    ensures 0 <= Index(file, '.') && home.Some? ==>
      DirPath(file, os, home) == Ok(ProjectDir(os, home.value, ExtensionToken(file).value))
  {
    ExtensionTokenSpec(file);
    if 0 <= Index(file, '.') && home.Some? {
      JoinedLayout(os, home.value, ExtensionToken(file).value);
    }
  }

  /** The joins getDirPath performs spell out the project-directory layout. */
  lemma JoinedLayout(os: Os, home: string, token: string)
    ensures os == Windows ==> Join(os, home, token + "_projects") + "\\" == ProjectDir(os, home, token)
    ensures os != Windows ==>
      Join(os, Join(os, home, "Documents"), token + "_projects") + "/" == ProjectDir(os, home, token)
  {
    if os == Windows {
      assert Join(os, home, token + "_projects") + "\\" == home + "\\" + token + "_projects\\";
    } else {
      assert Join(os, home, "Documents") == home + "/Documents";
      assert Join(os, home + "/Documents", token + "_projects") + "/" == home + "/Documents/" + token + "_projects/";
    }
  }

  /** The layout lies under the home directory, right after a separator, and
      ends with the host separator. */
  lemma ProjectDirShape(os: Os, home: string, token: string)
    ensures var p := ProjectDir(os, home, token);
      |p| > |home| + 1 && p[..|home| + 1] == home + [Separator(os)] &&
      p[|p| - 1] == Separator(os)
  {
    var p := ProjectDir(os, home, token);
    if os == Windows {
      assert p == home + ['\\'] + (token + "_projects\\");
    } else {
      assert p == home + ['/'] + ("Documents/" + token + "_projects/");
    }
  }

  /** So every directory getDirPath returns lies under the home directory
      and ends with the host separator. */
  lemma DirPathShape(file: string, os: Os, home: Option<string>)
    requires DirPath(file, os, home).Ok?
    ensures home.Some?
    ensures var p := DirPath(file, os, home).value;
      |p| > |home.value| + 1 && p[..|home.value| + 1] == home.value + [Separator(os)] &&
      p[|p| - 1] == Separator(os)
  {
    DirPathSpec(file, os, home);
    ProjectDirShape(os, home.value, ExtensionToken(file).value);
  }

  /** getDirPath yields a path exactly when the name holds '.' and the home
      directory is known; otherwise it panics. */
  lemma DirPathOkIff(file: string, os: Os, home: Option<string>)
    ensures DirPath(file, os, home).Ok? <==> '.' in file && home.Some?
  {
    IndexSpec(file, '.');
    DirPathSpec(file, os, home);
  }
}
