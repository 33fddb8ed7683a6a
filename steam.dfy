/** Finding and checking the game's installation through Steam (src-tauri/src/steam.rs).
    The file system is an input: `present` says whether a path exists and `read` gives a
    file's text, or nothing when it cannot be read. Paths are lists of components, each
    `join` appending one. */
module Steam {
  import opened Types

  type Path = seq<string>

  datatype Result<T> = Ok(value: T) | Err(error: string)

  const LimbusSteamId: string := "1973530"
  const ManifestName: string := "appmanifest_" + LimbusSteamId + ".acf"
  const GameExe: string := "LimbusCompany.exe"
  const GameData: string := "LimbusCompany_Data"
  const ProcessPrefix: string := "LimbusCompany.e"
  const PathKey: string := "\"path\""
  const InstallDirKey: string := "\"installdir\""

  // ---------------------------------------------------------------------------
  // Text

  /** `s.split(c)`: the pieces between occurrences of `c`, including empty ones. */
  function Split(s: string, c: char): (r: seq<string>)
    ensures |r| >= 1
    ensures forall i :: 0 <= i < |r| ==> c !in r[i]
  {
    if |s| == 0 then [""]
    else
      var rest := Split(s[1..], c);
      if s[0] == c then [""] + rest else [[s[0]] + rest[0]] + rest[1..]
  }

  /** The pieces put back together with `c` between them. */
  function Joined(pieces: seq<string>, c: char): string
    requires |pieces| >= 1
  {
    if |pieces| == 1 then pieces[0] else pieces[0] + [c] + Joined(pieces[1..], c)
  }

  /** Splitting loses nothing: joining the pieces gives the text back. */
  lemma {:induction false} SplitJoined(s: string, c: char)
    ensures Joined(Split(s, c), c) == s
  {
    if |s| > 0 {
      var rest := Split(s[1..], c);
      SplitJoined(s[1..], c);
      if s[0] == c {
        assert Split(s, c)[1..] == rest;
      } else {
        if |rest| == 1 {
        } else {
          assert ([s[0]] + rest[0]) + [c] + Joined(rest[1..], c) == [s[0]] + (rest[0] + [c] + Joined(rest[1..], c));
        }
      }
    }
  }

  /** `line.split('"').nth(n)`. */
  function Field(line: string, n: nat): (r: Option<string>)
    ensures r.Some? <==> n < |Split(line, '"')|
    ensures r.Some? ==> '"' !in r.value
  {
    var pieces := Split(line, '"');
    if n < |pieces| then Some(pieces[n]) else None
  }

  /** `s.contains(pat)`. */
  predicate Contains(s: string, pat: string)
    decreases |s|
  {
    pat <= s || (|s| > 0 && Contains(s[1..], pat))
  }

  /** A text contains a pattern exactly when the pattern starts at one of its
      positions. */
  lemma {:induction false} ContainsAt(s: string, pat: string)
    ensures Contains(s, pat) <==> exists i :: 0 <= i <= |s| && pat <= s[i..]
  {
    if |s| > 0 {
      ContainsAt(s[1..], pat);
      if exists i :: 0 <= i <= |s| && pat <= s[i..] {
        var i :| 0 <= i <= |s| && pat <= s[i..];
        if i > 0 {
          assert s[1..][i - 1..] == s[i..];
        }
      }
      if pat <= s {
        assert s[0..] == s;
      }
      if Contains(s[1..], pat) {
        var i :| 0 <= i <= |s[1..]| && pat <= s[1..][i..];
        assert s[1..][i..] == s[i + 1..];
      }
    } else {
      assert forall i :: 0 <= i <= |s| ==> s[i..] == s;
    }
  }

  /** One trailing carriage return removed. */
  function StripCR(s: string): (r: string)
    ensures r == s || s == r + ['\r']
  {
    if |s| > 0 && s[|s| - 1] == '\r' then s[..|s| - 1] else s
  }

  /** `text.lines()`: the pieces between line feeds, a carriage return before a line
      feed removed, and no empty last line after a final line feed. */
  function Lines(text: string): (r: seq<string>)
    ensures forall i :: 0 <= i < |r| ==> '\n' !in r[i]
  {
    LinesOfPieces(Split(text, '\n'))
  }

  /** The lines that end in a line feed, from the pieces of a split. */
  function EndedLines(pieces: seq<string>): seq<string>
    requires |pieces| >= 1
  {
    seq(|pieces| - 1, i requires 0 <= i < |pieces| - 1 => StripCR(pieces[i]))
  }

  /** `text.lines()` on the pieces of its split. */
  function LinesOfPieces(pieces: seq<string>): seq<string>
    requires |pieces| >= 1
  {
    var last := pieces[|pieces| - 1];
    if last == "" then EndedLines(pieces) else EndedLines(pieces) + [last]
  }

  /** A text without the separator is one piece. */
  lemma {:induction false} SplitNoSeparator(s: string, c: char)
    requires c !in s
    ensures Split(s, c) == [s]
  {
    if |s| > 0 {
      SplitNoSeparator(s[1..], c);
      assert [s[0]] + s[1..] == s;
    }
  }

  /** Splitting at the first separator: its prefix is the first piece, and the pieces
      after it are those of the rest. */
  lemma {:induction false} SplitAtFirst(a: string, c: char, b: string)
    requires c !in a
    ensures Split(a + [c] + b, c) == [a] + Split(b, c)
  {
    if |a| > 0 {
      SplitAtFirst(a[1..], c, b);
      assert (a + [c] + b)[1..] == a[1..] + [c] + b;
      assert [a[0]] + a[1..] == a;
    } else {
      assert a + [c] + b == [c] + b;
      assert ([c] + b)[1..] == b;
    }
  }

  /** The last line of a text: a text without a line feed is one line, as it is,
      a carriage return included; the empty text has no line. */
  lemma LinesOfLast(a: string)
    requires '\n' !in a
    ensures Lines(a) == if a == "" then [] else [a]
  {
    SplitNoSeparator(a, '\n');
  }

  /** A piece in front adds its line in front. */
  lemma EndedLinesCons(a: string, rest: seq<string>)
    requires |rest| >= 1
    ensures EndedLines([a] + rest) == [StripCR(a)] + EndedLines(rest)
  {
    var pieces := [a] + rest;
    forall i | 0 <= i < |pieces| - 1
      ensures EndedLines(pieces)[i] == ([StripCR(a)] + EndedLines(rest))[i]
    {
      if i > 0 {
        assert pieces[i] == rest[i - 1];
      }
    }
  }

  /** A line ended by a line feed: the line is the text before it, less one carriage
      return, and the lines after it are the lines of the rest of the text. */
  lemma LinesCons(a: string, b: string)
    requires '\n' !in a
    ensures Lines(a + "\n" + b) == [StripCR(a)] + Lines(b)
  {
    SplitAtFirst(a, '\n', b);
    var rest := Split(b, '\n');
    EndedLinesCons(a, rest);
    assert Lines(b) == LinesOfPieces(rest);
    assert Lines(a + "\n" + b) == LinesOfPieces([a] + rest);
  }

  /** A line ended by carriage return and line feed loses exactly that carriage
      return. */
  lemma LinesCRLF(a: string, b: string)
    requires '\n' !in a
    ensures Lines(a + "\r\n" + b) == [a] + Lines(b)
  {
    assert a + "\r\n" + b == (a + "\r") + "\n" + b;
    LinesCons(a + "\r", b);
    assert (a + "\r")[..|a|] == a;
  }

  // ---------------------------------------------------------------------------
  // Libraries

  /** The library a line of libraryfolders.vdf names: a line holding `"path"` with a
      fourth quote-separated field names `<field>/steamapps/common`. */
  function LineLibrary(line: string): (r: Option<Path>)
    ensures r.Some? <==> Contains(line, PathKey) && Field(line, 3).Some?
    ensures r.Some? ==> r.value == [Field(line, 3).value, "steamapps", "common"]
  {
    if Contains(line, PathKey) && Field(line, 3).Some? then Some([Field(line, 3).value, "steamapps", "common"])
    else None
  }

  /** The libraries the lines name, in line order. */
  function LibrariesIn(lines: seq<string>): seq<Path>
  {
    if |lines| == 0 then []
    else
      var rest := LibrariesIn(lines[1..]);
      match LineLibrary(lines[0])
      case Some(p) => [p] + rest
      case None => rest
  }

  /** The libraries of two blocks of lines are those of the first, then those of the
      second. */
  lemma {:induction false} LibrariesInAppend(a: seq<string>, b: seq<string>)
    ensures LibrariesIn(a + b) == LibrariesIn(a) + LibrariesIn(b)
  {
    if |a| > 0 {
      assert (a + b)[1..] == a[1..] + b;
      LibrariesInAppend(a[1..], b);
    } else {
      assert a + b == b;
    }
  }

  /** A path is listed exactly when some line names it. */
  lemma {:induction false} LibrariesInMembers(lines: seq<string>, p: Path)
    ensures p in LibrariesIn(lines) <==> exists i :: 0 <= i < |lines| && LineLibrary(lines[i]) == Some(p)
  {
    if |lines| > 0 {
      LibrariesInMembers(lines[1..], p);
      if p in LibrariesIn(lines[1..]) {
        var i :| 0 <= i < |lines[1..]| && LineLibrary(lines[1..][i]) == Some(p);
        assert LineLibrary(lines[i + 1]) == Some(p);
      }
      if exists i :: 0 <= i < |lines| && LineLibrary(lines[i]) == Some(p) {
        var i :| 0 <= i < |lines| && LineLibrary(lines[i]) == Some(p);
        if i > 0 {
          assert LineLibrary(lines[1..][i - 1]) == Some(p);
        }
      }
    }
  }

  /** The library list of `get_game_directory`: the Steam folder's own library first,
      then those of libraryfolders.vdf. */
  method LibraryPaths(steam: Path, vdf: string) returns (libraries: seq<Path>)
    ensures libraries == [steam + ["steamapps", "common"]] + LibrariesIn(Lines(vdf))
  {
    var lines := Lines(vdf);
    libraries := [steam + ["steamapps", "common"]];
    for i := 0 to |lines|
      invariant libraries == [steam + ["steamapps", "common"]] + LibrariesIn(lines[..i])
    {
      LibrariesInAppend(lines[..i], [lines[i]]);
      assert lines[..i + 1] == lines[..i] + [lines[i]];
      if Contains(lines[i], PathKey) {
        var field := Field(lines[i], 3);
        if field.Some? {
          libraries := libraries + [[field.value, "steamapps", "common"]];
        }
      }
    }
    assert lines[..|lines|] == lines;
  }

  // ---------------------------------------------------------------------------
  // Manifests

  /** The install directory a manifest line gives: a line holding `"installdir"` with a
      fourth quote-separated field. */
  function LineInstallDir(line: string): Option<string>
  {
    if Contains(line, InstallDirKey) then Field(line, 3) else None
  }

  /** The first install directory the lines give. */
  function InstallDirIn(lines: seq<string>): Option<string>
  {
    if |lines| == 0 then None
    else if LineInstallDir(lines[0]).Some? then LineInstallDir(lines[0])
    else InstallDirIn(lines[1..])
  }

  /** The manifest's answer comes from its first usable line. */
  lemma {:induction false} InstallDirFirst(lines: seq<string>)
    ensures InstallDirIn(lines).Some? <==> exists i :: 0 <= i < |lines| && LineInstallDir(lines[i]).Some?
    ensures InstallDirIn(lines).Some? ==>
              exists i :: (0 <= i < |lines| && InstallDirIn(lines) == LineInstallDir(lines[i])
                           && forall j :: 0 <= j < i ==> LineInstallDir(lines[j]).None?)
  {
    if |lines| > 0 && LineInstallDir(lines[0]).None? {
      InstallDirFirst(lines[1..]);
      if exists i :: 0 <= i < |lines| && LineInstallDir(lines[i]).Some? {
        var i :| 0 <= i < |lines| && LineInstallDir(lines[i]).Some?;
        assert LineInstallDir(lines[1..][i - 1]).Some?;
      }
      if InstallDirIn(lines).Some? {
        var i :| 0 <= i < |lines[1..]| && InstallDirIn(lines[1..]) == LineInstallDir(lines[1..][i])
          && forall j :: 0 <= j < i ==> LineInstallDir(lines[1..][j]).None?;
        assert forall j :: 0 <= j < i + 1 ==> LineInstallDir(lines[j]).None? by {
          forall j | 0 <= j < i + 1
            ensures LineInstallDir(lines[j]).None?
          {
            if j > 0 {
              assert lines[j] == lines[1..][j - 1];
            }
          }
        }
        assert InstallDirIn(lines) == LineInstallDir(lines[i + 1]);
      }
    }
  }

  /** The scan of one manifest's lines, returning at the first usable one. */
  method FindInstallDir(lines: seq<string>) returns (dir: Option<string>)
    ensures dir == InstallDirIn(lines)
  {
    for i := 0 to |lines|
      invariant InstallDirIn(lines) == InstallDirIn(lines[i..])
    {
      assert lines[i..][1..] == lines[i + 1..];
      if Contains(lines[i], InstallDirKey) {
        var field := Field(lines[i], 3);
        if field.Some? {
          return field;
        }
      }
    }
    return None;
  }

  function Parent(p: Path): Option<Path>
  {
    if |p| == 0 then None else Some(p[..|p| - 1])
  }

  /** Where the manifest of a library lies: beside its `common` folder. */
  function ManifestOf(library: Path): Option<Path>
  {
    if |library| == 0 then None else Some(library[..|library| - 1] + [ManifestName])
  }

  /** What library `library` gives: the game's folder when its manifest exists, reads
      and names an install directory; nothing when the manifest is missing or names
      none; an error when it cannot be read. */
  function Probe(library: Path, present: Path -> bool, read: Path -> Option<string>): Option<Result<Path>>
  {
    match ManifestOf(library)
    case None => Some(Err("Invalid library path"))
    case Some(manifest) =>
      if !present(manifest) then None
      else match read(manifest)
        case None => Some(Err("Failed to read game manifest"))
        case Some(text) =>
          match InstallDirIn(Lines(text))
          case Some(dir) => Some(Ok(library + [dir]))
          case None => None
  }

  /** The libraries probed in order; the first answer is the result. */
  function Search(libraries: seq<Path>, present: Path -> bool, read: Path -> Option<string>): Result<Path>
  {
    if |libraries| == 0 then Err("Limbus not found in any Steam library")
    else match Probe(libraries[0], present, read)
      case Some(r) => r
      case None => Search(libraries[1..], present, read)
  }

  /** `get_game_directory` for the Steam folder `steam` (or the error of looking it
      up). */
  function GameDirectory(steam: Result<Path>, present: Path -> bool, read: Path -> Option<string>): Result<Path>
  {
    match steam
    case Err(e) => Err(e)
    case Ok(root) =>
      var vdf := root + ["steamapps", "libraryfolders.vdf"];
      if !present(vdf) then Err("Steam libraries file not found")
      else match read(vdf)
        case None => Err("Failed to read Steam libraries file")
        case Some(text) => Search([root + ["steamapps", "common"]] + LibrariesIn(Lines(text)), present, read)
  }

  /** When no library answers, the game is not found. */
  lemma {:induction false} SearchNotFound(libraries: seq<Path>, present: Path -> bool, read: Path -> Option<string>)
    requires forall j :: 0 <= j < |libraries| ==> Probe(libraries[j], present, read).None?
    ensures Search(libraries, present, read) == Err("Limbus not found in any Steam library")
  {
    if |libraries| > 0 {
      assert Probe(libraries[0], present, read).None?;
      assert forall j :: 0 <= j < |libraries[1..]| ==> libraries[1..][j] == libraries[j + 1];
      SearchNotFound(libraries[1..], present, read);
    }
  }

  /** A search's result is the answer of the first library that has one: every library
      before it has no manifest or one naming no install directory. */
  lemma {:induction false} SearchFirst(libraries: seq<Path>, present: Path -> bool, read: Path -> Option<string>)
    requires Search(libraries, present, read) != Err("Limbus not found in any Steam library")
    ensures exists j :: (0 <= j < |libraries|
                         && (forall k :: 0 <= k < j ==> Probe(libraries[k], present, read).None?)
                         && Probe(libraries[j], present, read) == Some(Search(libraries, present, read)))
  {
    if Probe(libraries[0], present, read).Some? {
      assert Probe(libraries[0], present, read) == Some(Search(libraries, present, read));
    } else {
      var rest := libraries[1..];
      SearchFirst(rest, present, read);
      var j :| 0 <= j < |rest|
        && (forall k :: 0 <= k < j ==> Probe(rest[k], present, read).None?)
        && Probe(rest[j], present, read) == Some(Search(rest, present, read));
      SearchShift(libraries, j, present, read);
    }
  }

  /** The step of `SearchFirst`: an answer at `j` after the first library is one at
      `j + 1` in the whole list. */
  lemma SearchShift(libraries: seq<Path>, j: nat, present: Path -> bool, read: Path -> Option<string>)
    requires 0 < |libraries| && j < |libraries| - 1
    requires Probe(libraries[0], present, read).None?
    requires forall k :: 0 <= k < j ==> Probe(libraries[1..][k], present, read).None?
    requires Probe(libraries[1..][j], present, read) == Some(Search(libraries[1..], present, read))
    ensures forall k :: 0 <= k < j + 1 ==> Probe(libraries[k], present, read).None?
    ensures Probe(libraries[j + 1], present, read) == Some(Search(libraries, present, read))
  {
    forall k | 0 < k < j + 1
      ensures Probe(libraries[k], present, read).None?
    {
      assert libraries[k] == libraries[1..][k - 1];
    }
    assert libraries[j + 1] == libraries[1..][j];
  }

  /** Every library named by libraryfolders.vdf has the three components
      `<path>/steamapps/common`. */
  lemma LibrariesInShape(lines: seq<string>)
    ensures forall p :: p in LibrariesIn(lines) ==> |p| == 3 && p[1..] == ["steamapps", "common"]
  {
    forall p | p in LibrariesIn(lines)
      ensures |p| == 3 && p[1..] == ["steamapps", "common"]
    {
      LibrariesInMembers(lines, p);
    }
  }

  /** A search over libraries that all have a parent folder never fails for want of one. */
  lemma {:induction false} SearchHasParents(libraries: seq<Path>, present: Path -> bool, read: Path -> Option<string>)
    requires forall j :: 0 <= j < |libraries| ==> |libraries[j]| > 0
    ensures Search(libraries, present, read) != Err("Invalid library path")
  {
    if |libraries| > 0 {
      assert forall j :: 0 <= j < |libraries[1..]| ==> libraries[1..][j] == libraries[j + 1];
      SearchHasParents(libraries[1..], present, read);
    }
  }

  /** Every library `get_game_directory` builds ends in `steamapps/common`, so the
      "Invalid library path" error it guards against never arises. */
  lemma NoInvalidLibrary(steam: Path, present: Path -> bool, read: Path -> Option<string>)
    ensures GameDirectory(Ok(steam), present, read) != Err("Invalid library path")
  {
    var vdf := steam + ["steamapps", "libraryfolders.vdf"];
    if present(vdf) && read(vdf).Some? {
      var named := LibrariesIn(Lines(read(vdf).value));
      var libraries := [steam + ["steamapps", "common"]] + named;
      LibrariesInShape(Lines(read(vdf).value));
      forall j | 0 <= j < |libraries|
        ensures |libraries[j]| > 0
      {
        if j > 0 {
          assert libraries[j] in named;
        }
      }
      SearchHasParents(libraries, present, read);
    }
  }

  /** A found folder is one of the listed libraries with one more component. */
  lemma FoundInLibrary(library: Path, present: Path -> bool, read: Path -> Option<string>)
    requires Probe(library, present, read).Some? && Probe(library, present, read).value.Ok?
    ensures var p := Probe(library, present, read).value.value;
      |p| == |library| + 1 && p[..|library|] == library
  {
  }

  /** `get_game_directory`: the libraries read from libraryfolders.vdf, then each
      library's manifest scanned in turn. */
  method GetGameDirectory(steam: Result<Path>, present: Path -> bool, read: Path -> Option<string>) returns (r: Result<Path>)
    ensures r == GameDirectory(steam, present, read)
  {
    if steam.Err? {
      return Err(steam.error);
    }
    var root := steam.value;
    var vdf := root + ["steamapps", "libraryfolders.vdf"];
    if !present(vdf) {
      return Err("Steam libraries file not found");
    }
    var content := read(vdf);
    if content.None? {
      return Err("Failed to read Steam libraries file");
    }
    var libraries := LibraryPaths(root, content.value);
    r := SearchLibraries(libraries, present, read);
  }

  /** The loop over the libraries of `get_game_directory`. */
  method SearchLibraries(libraries: seq<Path>, present: Path -> bool, read: Path -> Option<string>) returns (r: Result<Path>)
    ensures r == Search(libraries, present, read)
  {
    for i := 0 to |libraries|
      invariant Search(libraries, present, read) == Search(libraries[i..], present, read)
    {
      assert libraries[i..][1..] == libraries[i + 1..];
      var library := libraries[i];
      var parent := Parent(library);
      if parent.None? {
        return Err("Invalid library path");
      }
      var manifest := parent.value + [ManifestName];
      if present(manifest) {
        var text := read(manifest);
        if text.None? {
          return Err("Failed to read game manifest");
        }
        var dir := FindInstallDir(Lines(text.value));
        if dir.Some? {
          return Ok(library + [dir.value]);
        }
      }
    }
    return Err("Limbus not found in any Steam library");
  }

  // ---------------------------------------------------------------------------
  // The game's files and process

  /** `validate_game_directory`: the folder must hold the executable and the data
      folder. */
  function ValidateGameDirectory(directory: string, present: Path -> bool): (r: Result<()>)
    ensures r.Ok? <==> present([directory, GameExe]) && present([directory, GameData])
    ensures r.Err? ==> r.error == "Invalid game directory"
  {
    var gamePath := [directory, GameExe];
    if !present(gamePath) then Err("Invalid game directory")
    else
      var dataPath := gamePath[..1] + [GameData];
      assert dataPath == [directory, GameData];
      if !present(dataPath) then Err("Invalid game directory") else Ok(())
  }

  /** `is_game_running` over the names of the running processes (a name that is not
      valid text is absent): whether one starts with the prefix of the executable's
      name. */
  function IsGameRunning(names: seq<Option<string>>): (r: bool)
    ensures r <==> exists i :: 0 <= i < |names| && names[i].Some? && ProcessPrefix <= names[i].value
  {
    if |names| == 0 then false
    else
      var rest := IsGameRunning(names[1..]);
      assert forall i :: 1 <= i < |names| ==> names[i] == names[1..][i - 1];
      (names[0].Some? && ProcessPrefix <= names[0].value) || rest
  }

  /** The game's own executable counts as the game; a name cut before ".e" does not. */
  lemma RunningNames()
    ensures IsGameRunning([Some(GameExe)])
    ensures !IsGameRunning([Some("LimbusCompany"), None])
  {
    assert ProcessPrefix <= GameExe;
    assert !(ProcessPrefix <= "LimbusCompany");
  }
}
