/** The console's virtual file catalog, its clearance rules, the console line record
    and the command table (`ls`, `cd`, `help`, `run`, `info`). */
module ConsoleApplications {
  import opened Wrappers
  import opened Text
  import opened Sequences
  import opened ItemDisplayModel

  // ---------------------------------------------------------------------------
  // Catalog and caller

  datatype FileType = File | Folder

  /** A catalog entry; `path` is the directory it is listed in. */
  datatype ConsoleFile = ConsoleFile(
    name: string,
    fileType: FileType,
    content: string,
    path: string,
    fullPath: string,
    clearanceLock: Option<int>)

  /** The signed-in user as the handlers read it; `None` is an absent (`undefined`) field. */
  datatype UserProfile = UserProfile(id: Option<string>, clearanceLevel: Option<int>)

  /** JavaScript truthiness of an optional number: present and non-zero. */
  predicate Truthy(n: Option<int>)
  {
    n.Some? && n.value != 0
  }

  predicate HasId(user: UserProfile)
  {
    user.id.Some? && user.id.value != ""
  }

  function Min(a: int, b: int): int
  {
    if a <= b then a else b
  }

  /** The level shown in a CLASSIFIED message: 1 for a caller without a (non-zero) clearance,
      otherwise one above the caller's level, but never above the real requirement. */
  function GetClassifiedLevel(hasToBe: int, user: UserProfile): (level: int)
    ensures !Truthy(user.clearanceLevel) ==> level == 1
    ensures Truthy(user.clearanceLevel) ==> level == Min(user.clearanceLevel.value + 1, hasToBe)
  {
    if !Truthy(user.clearanceLevel) then 1
    else if user.clearanceLevel.value < hasToBe then user.clearanceLevel.value + 1
    else hasToBe
  }

  /** `ls` puts the lock glyph before an entry that is locked and either the caller is
      anonymous or has a lower level. An absent level compares as `undefined`: never lower. */
  predicate LockedFor(f: ConsoleFile, user: UserProfile)
  {
    Truthy(f.clearanceLock) &&
    (!HasId(user) || (user.clearanceLevel.Some? && user.clearanceLevel.value < f.clearanceLock.value))
  }

  /** `cd` and `run` let the caller through: the entry is unlocked or the caller's level reaches
      the lock. Unlike `ls`, the caller's id is not consulted. */
  predicate MayEnter(f: ConsoleFile, user: UserProfile)
  {
    !Truthy(f.clearanceLock) ||
    (user.clearanceLevel.Some? && user.clearanceLevel.value >= f.clearanceLock.value)
  }

  /** For a signed-in caller with a level, the lock glyph is shown exactly on the entries
      `cd`/`run` refuse. */
  lemma LockMarkMatchesAccess(f: ConsoleFile, user: UserProfile)
    requires HasId(user) && user.clearanceLevel.Some?
    ensures LockedFor(f, user) <==> !MayEnter(f, user)
  {
  }

  function InDirectory(dir: string): ConsoleFile -> bool
  {
    (f: ConsoleFile) => f.path == dir
  }

  /** The entries listed in directory `dir`, in catalog order. */
  function FilesIn(files: seq<ConsoleFile>, dir: string): seq<ConsoleFile>
  {
    Filter(files, InDirectory(dir))
  }

  /** After `ls` has narrowed the catalog to `dir`, every other directory looks empty and
      listing `dir` again shows the same entries. */
  lemma {:induction false} FilesInNarrows(files: seq<ConsoleFile>, dir: string, other: string)
    ensures forall f :: f in FilesIn(files, dir) ==> f in files && f.path == dir
    ensures FilesIn(FilesIn(files, dir), dir) == FilesIn(files, dir)
    ensures other != dir ==> FilesIn(FilesIn(files, dir), other) == []
  {
    FilterIdempotent(files, InDirectory(dir));
    var r := FilesIn(files, dir);
    if other != dir {
      forall k | 0 <= k < |r| ensures !InDirectory(other)(r[k]) {
        assert r[k] in r;
      }
      FilterKeepsNone(r, InDirectory(other));
    }
  }

  // ---------------------------------------------------------------------------
  // Console lines

  datatype LineKind = Input | Output

  /** The `functionData` bag: empty, or a loading bar's counters. */
  datatype FunctionData = NoData | Bar(progress: nat, progressNeeded: nat)

  /** What `onDraw` does on each frame: nothing, or advance a loading bar. */
  datatype DrawHook = StaticDraw | LoadingBarDraw

  /** What `onEmit` does when fired: nothing, or re-emit the text one line per `'\n'` segment. */
  datatype EmitHook = NoEmit | SplitOnEmit

  datatype ConsoleLine = ConsoleLine(
    displayText: string,
    originalText: string,
    kind: LineKind,
    functionData: FunctionData,
    onDraw: DrawHook,
    onEmit: EmitHook)
  {
    /** A loading bar carries its counters, with a positive goal. */
    predicate WellFormed()
    {
      onDraw.LoadingBarDraw? ==> functionData.Bar? && functionData.progressNeeded > 0
    }

    /** `duplicate()`: a fresh line from the original text that keeps the data and the draw hook
        but not the emit hook. */
    function Duplicate(): (d: ConsoleLine)
      ensures d.displayText == originalText && d.originalText == originalText && d.kind == kind
      ensures d.functionData == functionData && d.onDraw == onDraw && d.onEmit == NoEmit
      ensures d.WellFormed() <==> WellFormed()
    {
      ConsoleLine(originalText, originalText, kind, functionData, onDraw, NoEmit)
    }
  }

  /** `new ConsoleLine(text, kind)`. */
  function NewLine(text: string, kind: LineKind): ConsoleLine
  {
    ConsoleLine(text, text, kind, NoData, StaticDraw, NoEmit)
  }

  /** Duplicating undoes whatever drawing did to the text and is stable under repetition;
      a line that was never drawn and has no hooks duplicates to itself. */
  lemma DuplicateResets(l: ConsoleLine, text: string, kind: LineKind)
    ensures l.Duplicate().Duplicate() == l.Duplicate()
    ensures l.(displayText := text).Duplicate() == l.Duplicate()
    ensures NewLine(text, kind).Duplicate() == NewLine(text, kind)
  {
  }

  /** The lines an `onEmit` call appends when the hook is invoked on the line itself. */
  function Emission(l: ConsoleLine): seq<ConsoleLine>
  {
    match l.onEmit
    case NoEmit => []
    case SplitOnEmit =>
      var segments := Split(l.displayText, '\n');
      seq(|segments|, k requires 0 <= k < |segments| => NewLine(segments[k], Output))
  }

  function Texts(ls: seq<ConsoleLine>): seq<string>
  {
    seq(|ls|, k requires 0 <= k < |ls| => ls[k].originalText)
  }

  /** A split emission appends at least one output line, none holding a line break, and the
      lines joined with `'\n'` are exactly the emitting line's text. */
  lemma SplitEmissionRebuildsText(l: ConsoleLine)
    requires l.onEmit == SplitOnEmit
    ensures |Emission(l)| >= 1
    ensures forall k :: 0 <= k < |Emission(l)| ==>
      Emission(l)[k].kind == Output && '\n' !in Emission(l)[k].originalText
    ensures Join(Texts(Emission(l)), '\n') == l.displayText
  {
    JoinSplit(l.displayText, '\n');
    SplitPartsLackSep(l.displayText, '\n');
    assert Texts(Emission(l)) == Split(l.displayText, '\n');
  }

  // ---------------------------------------------------------------------------
  // ls

  /** Tree and lock glyphs. The source file holds these as mis-decoded UTF-8; the model keeps
      them as three distinct constants. */
  const TreeMiddle: string := "\U{251C}\U{2500}\U{2500}"
  const TreeLast: string := "\U{2514}\U{2500}\U{2500}"
  const LockMark: string := "\U{1F5DD} "

  /** One row of a listing, without its leading line break. */
  function RowText(f: ConsoleFile, last: bool, user: UserProfile): string
  {
    (if last then TreeLast else TreeMiddle) + " " +
    (if LockedFor(f, user) then LockMark else "") + f.name +
    (if f.fileType == Folder then "/" else "")
  }

  /** A row holds no line break when the file name holds none. */
  lemma RowHasNoBreak(f: ConsoleFile, last: bool, user: UserProfile)
    requires '\n' !in f.name
    ensures '\n' !in RowText(f, last, user)
  {
    assert '\n' !in TreeLast && '\n' !in TreeMiddle && '\n' !in LockMark;
  }

  /** The first `k` rows of the listing of `fs`, each introduced by a line break. */
  function Listing(fs: seq<ConsoleFile>, k: nat, user: UserProfile): string
    requires k <= |fs|
  {
    if k == 0 then ""
    else Listing(fs, k - 1, user) + "\n" + RowText(fs[k - 1], k - 1 == |fs| - 1, user)
  }

  function Rows(fs: seq<ConsoleFile>, k: nat, user: UserProfile): seq<string>
    requires k <= |fs|
  {
    seq(k, i requires 0 <= i < k => RowText(fs[i], i == |fs| - 1, user))
  }

  /** The text `ls` prints reads, line by line, as the directory followed by one row per entry,
      in catalog order; only the final row carries the "last" glyph. */
  lemma {:induction false} ListingLines(dir: string, fs: seq<ConsoleFile>, k: nat, user: UserProfile)
    requires k <= |fs|
    requires '\n' !in dir
    requires forall f :: f in fs ==> '\n' !in f.name
    ensures Split(dir + Listing(fs, k, user), '\n') == [dir] + Rows(fs, k, user)
  {
    if k == 0 {
      assert dir + Listing(fs, 0, user) == dir;
      SplitWithoutSep(dir, '\n');
    } else {
      ListingLines(dir, fs, k - 1, user);
      var row := RowText(fs[k - 1], k - 1 == |fs| - 1, user);
      assert fs[k - 1] in fs;
      RowHasNoBreak(fs[k - 1], k - 1 == |fs| - 1, user);
      assert Listing(fs, k, user) == Listing(fs, k - 1, user) + ['\n'] + row;
      AppendAfter(dir, Listing(fs, k - 1, user), '\n', row);
      SplitSnoc(dir + Listing(fs, k - 1, user), row, '\n');
      RowsSnoc(fs, k, user);
    }
  }

  /** One more entry adds one row. */
  lemma RowsSnoc(fs: seq<ConsoleFile>, k: nat, user: UserProfile)
    requires 0 < k <= |fs|
    ensures Rows(fs, k, user) == Rows(fs, k - 1, user) + [RowText(fs[k - 1], k - 1 == |fs| - 1, user)]
  {
    var r := Rows(fs, k - 1, user) + [RowText(fs[k - 1], k - 1 == |fs| - 1, user)];
    forall i | 0 <= i < k ensures Rows(fs, k, user)[i] == r[i] {
    }
  }

  // ---------------------------------------------------------------------------
  // cd

  /** `cd ..`: split at `'/'`, drop the last piece, join, and append `'/'`. */
  function ParentPath(path: string): string
  {
    var parts := Split(path, '/');
    Join(parts[..|parts| - 1], '/') + "/"
  }

  /** `cd ..` keeps the current path up to and including its last `'/'`, and yields `"/"` for a
      path without one; the result always ends in `'/'`. */
  lemma ParentPathShape(path: string)
    ensures var r := ParentPath(path); |r| >= 1 && r[|r| - 1] == '/'
    ensures '/' !in path ==> ParentPath(path) == "/"
    ensures '/' in path ==>
      (exists i :: 0 <= i < |path| && path[i] == '/' && '/' !in path[i + 1..] && ParentPath(path) == path[..i + 1])
  {
    if '/' in path {
      var i := LastIndex(path, '/');
      assert path == path[..i] + ['/'] + path[i + 1..];
      SplitConcat(path[..i], path[i + 1..], '/');
      SplitWithoutSep(path[i + 1..], '/');
      var parts := Split(path, '/');
      assert parts[..|parts| - 1] == Split(path[..i], '/');
      JoinSplit(path[..i], '/');
      assert path[..i + 1] == path[..i] + "/";
    } else {
      SplitWithoutSep(path, '/');
    }
  }

  /** `cd ..` from a path with one `'/'` drops the piece after it. */
  lemma ParentOfTwoPieces(a: string, piece: string)
    requires '/' !in a && '/' !in piece
    ensures ParentPath(a + "/" + piece) == a + "/"
  {
    assert a + "/" + piece == a + ['/'] + piece;
    SplitConcat(a, piece, '/');
    SplitWithoutSep(a, '/');
    SplitWithoutSep(piece, '/');
    var parts := Split(a + "/" + piece, '/');
    assert parts == [a, piece];
    assert parts[..|parts| - 1] == [a];
  }

  /** Leaving the desktop reaches the drive root, and the drive root is its own parent. */
  lemma ParentPathExamples()
    ensures ParentPath("C:/desktop") == "C:/"
    ensures ParentPath("C:/") == "C:/"
  {
    assert '/' !in "C:" && '/' !in "desktop";
    ParentOfTwoPieces("C:", "desktop");
    assert "C:" + "/" + "desktop" == "C:/desktop";
    ParentOfTwoPieces("C:", "");
    assert "C:" + "/" + "" == "C:/";
  }

  const DriveRoot: string := "C:/"

  /** The directory `cd param` tries to enter. */
  function CdTarget(currentPath: string, param: string): string
  {
    if currentPath != DriveRoot then currentPath + "/" + param else DriveRoot + param
  }

  /** All but the last character (`slice(0, length - 1)`; empty for an empty text). */
  function DropLastChar(s: string): string
  {
    if |s| == 0 then "" else s[..|s| - 1]
  }

  function IsFolderAt(target: string): ConsoleFile -> bool
  {
    (f: ConsoleFile) => (f.fullPath == target || DropLastChar(f.fullPath) == target) && f.fileType == Folder
  }

  /** The folders whose full path is `target`, with or without one trailing character. */
  function FoldersAt(files: seq<ConsoleFile>, target: string): seq<ConsoleFile>
  {
    Filter(files, IsFolderAt(target))
  }

  function CdClassified(param: string, level: int): string
  {
    "cd " + param + ": CLASSIFIED. Level " + IntToString(level) + " needed."
  }

  function CdNoSuchDirectory(param: string): string
  {
    "cd: " + param + ": No such directory"
  }

  // ---------------------------------------------------------------------------
  // run

  /** `find`: the first entry named `name`. */
  function FindByName(fs: seq<ConsoleFile>, name: string): (r: Option<ConsoleFile>)
    ensures r.None? <==> forall k :: 0 <= k < |fs| ==> fs[k].name != name
    ensures r.Some? ==>
      (exists k :: 0 <= k < |fs| && fs[k] == r.value && r.value.name == name &&
        forall j :: 0 <= j < k ==> fs[j].name != name)
  {
    if |fs| == 0 then None
    else if fs[0].name == name then Some(fs[0])
    else
      var r := FindByName(fs[1..], name);
      assert r.Some? ==>
        (exists k :: 1 <= k < |fs| && fs[k] == r.value && r.value.name == name &&
          forall j :: 0 <= j < k ==> fs[j].name != name) by {
        if r.Some? {
          var k :| 0 <= k < |fs[1..]| && fs[1..][k] == r.value && r.value.name == name &&
            forall j :: 0 <= j < k ==> fs[1..][j].name != name;
          assert fs[k + 1] == r.value;
          assert forall j :: 0 <= j < k + 1 ==> fs[j].name != name by {
            forall j | 0 <= j < k + 1 ensures fs[j].name != name {
              if j > 0 { assert fs[j] == fs[1..][j - 1]; }
            }
          }
        }
      }
      r
  }

  function RunClassified(param: string, level: int): string
  {
    "run " + param + ": CLASSIFIED, Level " + IntToString(level) + " needed."
  }

  function RunNoSuchFile(param: string): string
  {
    "run: " + param + ": No such file or directory"
  }

  /** The line `run` prints for a readable file: its content, re-emitted line by line if fired. */
  function ContentLine(content: string): ConsoleLine
  {
    NewLine(content, Output).(onEmit := SplitOnEmit)
  }

  // ---------------------------------------------------------------------------
  // help and info

  /** The command table's keys in declaration order. */
  const CommandNames: seq<string> := ["ls", "cd", "help", "run", "info"]

  function HelpList(names: seq<string>): string
  {
    if |names| == 0 then "" else HelpList(names[..|names| - 1]) + "\n - " + names[|names| - 1]
  }

  const HelpHeader: string := "Available commands:"

  function HelpRows(names: seq<string>): seq<string>
  {
    seq(|names|, k requires 0 <= k < |names| => " - " + names[k])
  }

  /** The `help` text reads, line by line, as the header followed by one " - name" row per
      command, in table order. */
  lemma {:induction false} HelpLines(names: seq<string>)
    requires forall k :: 0 <= k < |names| ==> '\n' !in names[k]
    ensures Split(HelpHeader + HelpList(names), '\n') == [HelpHeader] + HelpRows(names)
  {
    if |names| == 0 {
      assert HelpHeader + HelpList(names) == HelpHeader;
      SplitWithoutSep(HelpHeader, '\n');
    } else {
      var front := names[..|names| - 1];
      HelpLines(front);
      var row := " - " + names[|names| - 1];
      HelpStep(names);
      HelpRowsSnoc(names);
      AppendAfter(HelpHeader, HelpList(front), '\n', row);
      SplitSnoc(HelpHeader + HelpList(front), row, '\n');
    }
  }

  /** One more command adds a line break and its row, which holds no line break of its own. */
  lemma HelpStep(names: seq<string>)
    requires |names| > 0 && '\n' !in names[|names| - 1]
    ensures var row := " - " + names[|names| - 1];
      '\n' !in row && HelpList(names) == HelpList(names[..|names| - 1]) + ['\n'] + row
  {
    var last := names[|names| - 1];
    assert '\n' !in " - " + last by {
      assert '\n' !in " - ";
    }
    Regroup(HelpList(names[..|names| - 1]), '\n', " - ", last);
  }

  /** One more command adds one row. */
  lemma HelpRowsSnoc(names: seq<string>)
    requires |names| > 0
    ensures HelpRows(names) == HelpRows(names[..|names| - 1]) + [" - " + names[|names| - 1]]
  {
    var front := names[..|names| - 1];
    var r := HelpRows(front) + [" - " + names[|names| - 1]];
    forall k | 0 <= k < |names| ensures HelpRows(names)[k] == r[k] {
      if k < |front| {
        assert names[k] == front[k];
      }
    }
  }

  /** The table's five commands each get a row. */
  lemma HelpListsEveryCommand()
    ensures Split(HelpHeader + HelpList(CommandNames), '\n') ==
      [HelpHeader, " - ls", " - cd", " - help", " - run", " - info"]
  {
    HelpLines(CommandNames);
    var rows := HelpRows(CommandNames);
    assert rows[0] == " - ls" && rows[1] == " - cd" && rows[2] == " - help";
    assert rows[3] == " - run" && rows[4] == " - info";
  }

  /** The three fixed lines of `info`; the banner art and the blurb stand for the source's long texts. */
  const InfoBanner: string := "M.A.R.A. OS banner"
  const InfoAuthor: string := "Made by OldMartijntje."
  const InfoBlurb: string := "M.A.R.A. OS description"

  // ---------------------------------------------------------------------------
  // The console object the handlers receive

  class ConsoleHost {
    /** The catalog as the handlers see it (`consoleApp.loadedFiles`); `ls` narrows it. */
    var loadedFiles: seq<ConsoleFile>
    /** `consoleApp.state.currentPath`. */
    var currentPath: string
    /** The `lines` array the handlers push onto. */
    var lines: seq<ConsoleLine>
    /** `consoleApp.overlayFakeProject.infoPages`. */
    var overlayPages: seq<InfoPage>
    var showModal: bool

    constructor(files: seq<ConsoleFile>, path: string)
      ensures loadedFiles == files && currentPath == path && lines == []
      ensures overlayPages == [] && !showModal
    {
      loadedFiles := files;
      currentPath := path;
      lines := [];
      overlayPages := [];
      showModal := false;
    }

    /** `ls`: keep only the current directory's entries and print them as a tree. */
    method Ls(user: UserProfile)
      modifies this
      ensures loadedFiles == FilesIn(old(loadedFiles), currentPath)
      ensures lines == old(lines) + [NewLine(currentPath + Listing(loadedFiles, |loadedFiles|, user), Output)]
      ensures currentPath == old(currentPath)
      ensures overlayPages == old(overlayPages) && showModal == old(showModal)
    {
      var filteredFiles := FilesIn(loadedFiles, currentPath);
      var list := "";
      loadedFiles := filteredFiles;
      for index := 0 to |filteredFiles|
        invariant list == Listing(filteredFiles, index, user)
      {
        var locked := if LockedFor(filteredFiles[index], user) then LockMark else "";
        var glyph := if index == |filteredFiles| - 1 then TreeLast else TreeMiddle;
        var row := glyph + " " + locked + filteredFiles[index].name;
        if filteredFiles[index].fileType == Folder {
          row := row + "/";
        }
        assert row == RowText(filteredFiles[index], index == |filteredFiles| - 1, user);
        list := list + "\n" + row;
      }
      lines := lines + [NewLine(currentPath + list, Output)];
    }

    /** `cd ..` goes to the parent; `cd p` enters the first matching folder if the caller may,
        and otherwise prints one CLASSIFIED or "No such directory" line. */
    method Cd(user: UserProfile, param: string)
      modifies this
      ensures loadedFiles == old(loadedFiles)
      ensures overlayPages == old(overlayPages) && showModal == old(showModal)
      ensures param == ".." ==> currentPath == ParentPath(old(currentPath)) && lines == old(lines)
      ensures param != ".." ==>
        var target := CdTarget(old(currentPath), param);
        var found := FoldersAt(loadedFiles, target);
        if |found| > 0 && MayEnter(found[0], user) then
          currentPath == target && lines == old(lines)
        else if |found| > 0 then
          currentPath == old(currentPath) &&
          lines == old(lines) + [NewLine(CdClassified(param, GetClassifiedLevel(found[0].clearanceLock.value, user)), Output)]
        else
          currentPath == old(currentPath) && lines == old(lines) + [NewLine(CdNoSuchDirectory(param), Output)]
    {
      if param == ".." {
        var splitPath := Split(currentPath, '/');
        splitPath := splitPath[..|splitPath| - 1];
        currentPath := Join(splitPath, '/') + "/";
      } else {
        var newPath := if currentPath != DriveRoot then currentPath + "/" + param else DriveRoot + param;
        var filteredFiles := FoldersAt(loadedFiles, newPath);
        if |filteredFiles| > 0 && MayEnter(filteredFiles[0], user) {
          currentPath := newPath;
        } else if |filteredFiles| > 0 {
          var level := GetClassifiedLevel(filteredFiles[0].clearanceLock.value, user);
          lines := lines + [NewLine(CdClassified(param, level), Output)];
        } else {
          lines := lines + [NewLine(CdNoSuchDirectory(param), Output)];
        }
      }
    }

    /** `help`: one line listing every command name. */
    method Help()
      modifies this
      ensures lines == old(lines) + [NewLine(HelpHeader + HelpList(CommandNames), Output)]
      ensures loadedFiles == old(loadedFiles) && currentPath == old(currentPath)
      ensures overlayPages == old(overlayPages) && showModal == old(showModal)
    {
      var list := "";
      for i := 0 to |CommandNames|
        invariant list == HelpList(CommandNames[..i])
      {
        assert CommandNames[..i + 1][..i] == CommandNames[..i];
        list := list + "\n - " + CommandNames[i];
      }
      assert CommandNames[..|CommandNames|] == CommandNames;
      lines := lines + [NewLine(HelpHeader + list, Output)];
    }

    /** `run p`: show an executable in the overlay, print a readable file, or refuse. */
    method Run(user: UserProfile, param: string)
      modifies this
      ensures loadedFiles == old(loadedFiles) && currentPath == old(currentPath)
      ensures
        var file := FindByName(FilesIn(loadedFiles, currentPath), param);
        if file.None? || file.value.fileType == Folder then
          lines == old(lines) + [NewLine(RunNoSuchFile(param), Output)] &&
          overlayPages == old(overlayPages) && showModal == old(showModal)
        else if !MayEnter(file.value, user) then
          lines == old(lines) + [NewLine(RunClassified(param, GetClassifiedLevel(file.value.clearanceLock.value, user)), Output)] &&
          overlayPages == old(overlayPages) && showModal == old(showModal)
        else if EndsWith(file.value.name, "exe") then
          lines == old(lines) && overlayPages == [InfoPage(file.value.name, file.value.content)] && showModal
        else
          lines == old(lines) + [ContentLine(file.value.content)] &&
          overlayPages == old(overlayPages) && showModal == old(showModal)
    {
      var filteredFiles := FilesIn(loadedFiles, currentPath);
      var file := FindByName(filteredFiles, param);
      if file.Some? && file.value.fileType == File {
        if !MayEnter(file.value, user) {
          var level := GetClassifiedLevel(file.value.clearanceLock.value, user);
          lines := lines + [NewLine(RunClassified(param, level), Output)];
          return;
        }
        if EndsWith(file.value.name, "exe") {
          overlayPages := [InfoPage(file.value.name, file.value.content)];
          showModal := true;
        } else {
          var newLine := NewLine(file.value.content, Output);
          newLine := newLine.(onEmit := SplitOnEmit);
          lines := lines + [newLine];
        }
      } else {
        lines := lines + [NewLine(RunNoSuchFile(param), Output)];
      }
    }

    /** `info`: three fixed output lines. */
    method Info()
      modifies this
      ensures lines == old(lines) + [NewLine(InfoBanner, Output), NewLine(InfoAuthor, Output), NewLine(InfoBlurb, Output)]
      ensures loadedFiles == old(loadedFiles) && currentPath == old(currentPath)
      ensures overlayPages == old(overlayPages) && showModal == old(showModal)
    {
      lines := lines + [NewLine(InfoBanner, Output)];
      lines := lines + [NewLine(InfoAuthor, Output)];
      lines := lines + [NewLine(InfoBlurb, Output)];
    }
  }
}
