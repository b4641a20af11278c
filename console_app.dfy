/** The M.A.R.A. console screen: its start-up state, the key handler that edits the input line,
    the snapshot kept in local storage, greedy word wrapping and the loading-bar draw step. */
module ConsoleEditor {
  import opened Wrappers
  import opened Text
  import opened ConsoleApplications

  const StartPath: string := "C:/desktop"
  const WelcomeText: string := "Welcome to M.A.R.A."
  const HelpHintText: string := "Type 'help' for a list of commands."
  const EchoPrefix: string := "Command entered: "

  // ---------------------------------------------------------------------------
  // Loading bar

  const BarWidth: nat := 10
  const EmptyCell: char := '\U{00B7}'
  const CompleteText: string := "[==========] Complete!"

  /** Whole-number division, rounding down, spelled out so that it stays cheap to reason about. */
  function FloorDiv(a: nat, b: nat): nat
    requires b > 0
    decreases a
  {
    if a < b then 0 else 1 + FloorDiv(a - b, b)
  }

  /** The quotient reaches `k` exactly when the dividend reaches `k` times the divisor. */
  lemma {:induction false} FloorDivAtLeast(a: nat, b: nat, k: nat)
    requires b > 0
    ensures FloorDiv(a, b) >= k <==> a >= k * b
    decreases a
  {
    if a < b {
      if k >= 1 {
        assert k * b == (k - 1) * b + b;
      }
    } else if k >= 1 {
      FloorDivAtLeast(a - b, b, k - 1);
      assert k * b == (k - 1) * b + b;
    }
  }

  /** Filled cells of a running bar: the progress share of ten, rounded down, at most ten. */
  function Cells(progress: nat, needed: nat): (c: nat)
    requires needed > 0
    ensures c <= BarWidth
    ensures c == BarWidth <==> progress >= needed
  {
    var scaled := FloorDiv(progress * 10, needed);
    FloorDivAtLeast(progress * 10, needed, 10);
    if scaled > 10 then 10 else scaled
  }

  /** The text of a running bar: ten cells in brackets, then the whole percentage. */
  function BarText(progress: nat, needed: nat): string
    requires needed > 0
  {
    "[" + Repeat('=', Cells(progress, needed)) + Repeat(EmptyCell, BarWidth - Cells(progress, needed)) +
    "] " + IntToString(FloorDiv(progress * 100, needed)) + "%"
  }

  /** A running bar always shows exactly ten cells: `Cells` filled ones, then empty ones. */
  lemma BarTextHasTenCells(progress: nat, needed: nat)
    requires needed > 0
    ensures var t := BarText(progress, needed);
      |t| > 12 && t[0] == '[' && t[11] == ']' &&
      forall k :: 1 <= k <= 10 ==>
        (t[k] == '=' || t[k] == EmptyCell) && (t[k] == '=' <==> k <= Cells(progress, needed))
  {
    var c := Cells(progress, needed);
    var cells := Repeat('=', c) + Repeat(EmptyCell, BarWidth - c);
    CellRow(c);
    var rest := "] " + IntToString(FloorDiv(progress * 100, needed)) + "%";
    var t := BarText(progress, needed);
    assert t == "[" + cells + rest;
    assert t[11] == rest[0];
    forall k | 1 <= k <= 10
      ensures (t[k] == '=' || t[k] == EmptyCell) && (t[k] == '=' <==> k <= c)
    {
      assert t[k] == cells[k - 1];
    }
  }

  /** The ten cells: `c` filled ones, then empty ones. */
  lemma CellRow(c: nat)
    requires c <= BarWidth
    ensures var cells := Repeat('=', c) + Repeat(EmptyCell, BarWidth - c);
      |cells| == 10 &&
      forall k :: 0 <= k < 10 ==> (cells[k] == '=' || cells[k] == EmptyCell) && (cells[k] == '=' <==> k < c)
  {
  }

  datatype DrawResult = DrawResult(line: ConsoleLine, fired: bool)

  /** One `onDraw` call. A loading bar shows its current progress and advances it; once the
      advanced progress passes the goal it shows the completion text, fires its emit hook and
      becomes static. Any other line is left as it is. */
  function DrawStep(l: ConsoleLine): (r: DrawResult)
    requires l.WellFormed()
    ensures r.line.WellFormed()
    ensures r.line.originalText == l.originalText && r.line.kind == l.kind && r.line.onEmit == l.onEmit
    ensures r.fired ==> l.onDraw == LoadingBarDraw && r.line.onDraw == StaticDraw
  {
    match l.onDraw
    case StaticDraw => DrawResult(l, false)
    case LoadingBarDraw =>
      var p := l.functionData.progress;
      var n := l.functionData.progressNeeded;
      var drawn := l.(displayText := BarText(p, n), functionData := Bar(p + 1, n));
      if p + 1 > n then DrawResult(drawn.(displayText := CompleteText, onDraw := StaticDraw), true)
      else DrawResult(drawn, false)
  }

  datatype Drawn = Drawn(line: ConsoleLine, fires: nat)

  /** `k` consecutive frames: the final line and how often the emit hook fired. */
  function DrawTimes(l: ConsoleLine, k: nat): Drawn
    requires l.WellFormed()
    decreases k
  {
    if k == 0 then Drawn(l, 0)
    else
      var r := DrawStep(l);
      var rest := DrawTimes(r.line, k - 1);
      Drawn(rest.line, rest.fires + if r.fired then 1 else 0)
  }

  /** A static line never changes and never fires. */
  lemma {:induction false} StaticLineStays(l: ConsoleLine, k: nat)
    requires l.WellFormed() && l.onDraw == StaticDraw
    ensures DrawTimes(l, k) == Drawn(l, 0)
  {
    if k > 0 {
      StaticLineStays(l, k - 1);
    }
  }

  /** One frame of a bar below its goal: the bar for the current progress, progress advanced,
      nothing fired. */
  lemma LoadingBarStep(l: ConsoleLine)
    requires l.WellFormed() && l.onDraw == LoadingBarDraw
    requires l.functionData.progress + 1 <= l.functionData.progressNeeded
    ensures DrawStep(l) == DrawResult(l.(displayText := BarText(l.functionData.progress, l.functionData.progressNeeded),
                                          functionData := Bar(l.functionData.progress + 1, l.functionData.progressNeeded)), false)
  {
  }

  /** While the goal is not passed, each frame shows the bar for the progress before it. */
  lemma {:induction false} LoadingBarRuns(l: ConsoleLine, j: nat)
    requires l.WellFormed() && l.onDraw == LoadingBarDraw
    requires 1 <= j && l.functionData.progress + j <= l.functionData.progressNeeded
    decreases j
    ensures var p := l.functionData.progress; var n := l.functionData.progressNeeded;
      DrawTimes(l, j) == Drawn(l.(displayText := BarText(p + j - 1, n), functionData := Bar(p + j, n)), 0)
  {
    var p := l.functionData.progress;
    var n := l.functionData.progressNeeded;
    var next := l.(displayText := BarText(p, n), functionData := Bar(p + 1, n));
    LoadingBarStep(l);
    var rest := DrawTimes(next, j - 1);
    assert DrawTimes(l, j) == Drawn(rest.line, rest.fires);
    var text := BarText(p + j - 1, n);
    if j == 1 {
      assert rest == Drawn(next, 0);
    } else {
      LoadingBarRuns(next, j - 1);
      assert next.functionData == Bar(p + 1, n);
      assert BarText(p + 1 + (j - 1) - 1, n) == text;
      assert next.(displayText := text, functionData := Bar(p + j, n)) ==
        l.(displayText := text, functionData := Bar(p + j, n));
    }
  }

  /** A bar that has not passed its goal completes on frame `needed - progress + 1`, having fired
      exactly once, and stays complete on every later frame. */
  lemma {:induction false} LoadingBarCompletes(l: ConsoleLine, extra: nat)
    requires l.WellFormed() && l.onDraw == LoadingBarDraw
    requires l.functionData.progress <= l.functionData.progressNeeded
    ensures var d := DrawTimes(l, l.functionData.progressNeeded - l.functionData.progress + 1 + extra);
      d.line.displayText == CompleteText && d.line.onDraw == StaticDraw && d.fires == 1
    decreases l.functionData.progressNeeded - l.functionData.progress
  {
    var p := l.functionData.progress;
    var n := l.functionData.progressNeeded;
    var r := DrawStep(l);
    if p == n {
      StaticLineStays(r.line, extra);
    } else {
      assert !r.fired && r.line.functionData == Bar(p + 1, n);
      LoadingBarCompletes(r.line, extra);
    }
  }

  /** A fresh bar (progress 0, goal n): n silent frames, then completion with one emit on frame
      n + 1, and nothing more afterwards. */
  lemma LoadingBarLifecycle(l: ConsoleLine, extra: nat)
    requires l.onDraw == LoadingBarDraw && l.functionData.Bar?
    requires l.functionData.progress == 0 && l.functionData.progressNeeded > 0
    ensures var n := l.functionData.progressNeeded;
      DrawTimes(l, n).fires == 0 && DrawTimes(l, n).line.onDraw == LoadingBarDraw &&
      DrawTimes(l, n + 1 + extra).fires == 1 && DrawTimes(l, n + 1 + extra).line.displayText == CompleteText
  {
    LoadingBarRuns(l, l.functionData.progressNeeded);
    LoadingBarCompletes(l, extra);
  }

  // ---------------------------------------------------------------------------
  // Word wrapping

  /** The greedy fold of `wrapText`, as written: `current` doubles as the "line started" flag,
      so it is treated as not started while it is empty. */
  function WrapFold(words: seq<string>, measure: string -> real, maxWidth: real,
                    done: seq<string>, current: string): seq<string>
  {
    if |words| == 0 then done + [current]
    else
      var test := if current != "" then current + " " + words[0] else words[0];
      if measure(test) > maxWidth && current != "" then
        WrapFold(words[1..], measure, maxWidth, done + [current], words[0])
      else
        WrapFold(words[1..], measure, maxWidth, done, test)
  }

  function Wrapped(text: string, measure: string -> real, maxWidth: real): seq<string>
  {
    WrapFold(Split(text, ' '), measure, maxWidth, [], "")
  }

  /** A line fits: it measures within the width, or it is one word that cannot be broken. */
  predicate Fits(line: string, measure: string -> real, maxWidth: real)
  {
    measure(line) <= maxWidth || ' ' !in line
  }

  /** `wrapText`: split at single spaces and pack words greedily into lines. */
  method WrapText(text: string, maxWidth: real, measure: string -> real) returns (lines: seq<string>)
    ensures lines == Wrapped(text, measure, maxWidth)
  {
    var words := Split(text, ' ');
    lines := [];
    var currentLine := "";
    for i := 0 to |words|
      invariant WrapFold(words[i..], measure, maxWidth, lines, currentLine) == Wrapped(text, measure, maxWidth)
    {
      assert words[i..][1..] == words[i + 1..];
      var word := words[i];
      var testLine := if currentLine != "" then currentLine + " " + word else word;
      if measure(testLine) > maxWidth && currentLine != "" {
        lines := lines + [currentLine];
        currentLine := word;
      } else {
        currentLine := testLine;
      }
    }
    lines := lines + [currentLine];
  }

  lemma {:induction false} WrapFoldFits(words: seq<string>, measure: string -> real, maxWidth: real,
                                        done: seq<string>, current: string)
    requires forall k :: 0 <= k < |words| ==> ' ' !in words[k]
    requires forall k :: 0 <= k < |done| ==> Fits(done[k], measure, maxWidth)
    requires Fits(current, measure, maxWidth)
    ensures var r := WrapFold(words, measure, maxWidth, done, current);
      |r| >= |done| + 1 && forall k :: 0 <= k < |r| ==> Fits(r[k], measure, maxWidth)
  {
    if |words| > 0 {
      var test := if current != "" then current + " " + words[0] else words[0];
      if measure(test) > maxWidth && current != "" {
        WrapFoldFits(words[1..], measure, maxWidth, done + [current], words[0]);
      } else {
        WrapFoldFits(words[1..], measure, maxWidth, done, test);
      }
    }
  }

  /** `wrapText` yields at least one line, and every line fits or is a single word. */
  lemma WrappedLinesFit(text: string, measure: string -> real, maxWidth: real)
    ensures |Wrapped(text, measure, maxWidth)| >= 1
    ensures forall line :: line in Wrapped(text, measure, maxWidth) ==> Fits(line, measure, maxWidth)
  {
    SplitPartsLackSep(text, ' ');
    WrapFoldFits(Split(text, ' '), measure, maxWidth, [], "");
  }

  /** The text with `prefix` in front of the remaining words, each after one space. */
  function Glued(prefix: string, words: seq<string>): string
  {
    if |words| == 0 then prefix else prefix + " " + Join(words, ' ')
  }

  lemma GluedStep(prefix: string, x: string, rest: seq<string>)
    ensures Glued(prefix + " " + x, rest) == Glued(prefix, [x] + rest)
  {
    if |rest| > 0 {
      assert ([x] + rest)[1..] == rest;
    }
  }

  /** Joining `done + [current + " " + x]` equals joining `done + [current]` and then `" " + x`. */
  lemma JoinExtendLast(done: seq<string>, current: string, x: string)
    ensures Join(done + [current + " " + x], ' ') == Join(done + [current], ' ') + " " + x
  {
    if |done| == 0 {
    } else {
      JoinSnoc(done, current + " " + x, ' ');
      JoinSnoc(done, current, ' ');
    }
  }

  lemma {:induction false} WrapFoldJoin(words: seq<string>, measure: string -> real, maxWidth: real,
                                        done: seq<string>, current: string)
    requires forall k :: 0 <= k < |words| ==> words[k] != ""
    requires current != ""
    ensures Join(WrapFold(words, measure, maxWidth, done, current), ' ') == Glued(Join(done + [current], ' '), words)
  {
    if |words| > 0 {
      var x := words[0];
      var test := current + " " + x;
      if measure(test) > maxWidth {
        WrapFoldJoin(words[1..], measure, maxWidth, done + [current], x);
        JoinSnoc(done + [current], x, ' ');
      } else {
        WrapFoldJoin(words[1..], measure, maxWidth, done, test);
        JoinExtendLast(done, current, x);
      }
      GluedStep(Join(done + [current], ' '), x, words[1..]);
      assert [x] + words[1..] == words;
    }
  }

  /** No leading, trailing or doubled space: every single-space piece is a word. */
  predicate SingleSpaced(text: string)
  {
    forall k :: 0 <= k < |Split(text, ' ')| ==> Split(text, ' ')[k] != ""
  }

  /** For single-spaced text, the wrapped lines joined with spaces give the text back. */
  lemma WrappedRejoins(text: string, measure: string -> real, maxWidth: real)
    requires SingleSpaced(text)
    ensures Join(Wrapped(text, measure, maxWidth), ' ') == text
  {
    var words := Split(text, ' ');
    assert WrapFold(words, measure, maxWidth, [], "") == WrapFold(words[1..], measure, maxWidth, [], words[0]);
    WrapFoldJoin(words[1..], measure, maxWidth, [], words[0]);
    GluedStep(words[0], words[0], []);
    if |words| > 1 {
      assert words == [words[0]] + words[1..];
    }
    JoinSplit(text, ' ');
  }

  /** As written, an empty piece (from a leading or doubled space) is swallowed while the line is
      still empty, so the rejoined lines lose that space: " a" wraps to ["a"]. */
  lemma WrapDropsLeadingSpace(measure: string -> real, maxWidth: real)
    ensures Wrapped(" a", measure, maxWidth) == ["a"]
    ensures Join(Wrapped(" a", measure, maxWidth), ' ') != " a"
  {
    assert " a" == "" + [' '] + "a";
    SplitConcat("", "a", ' ');
    SplitWithoutSep("a", ' ');
    assert Split(" a", ' ') == ["", "a"];
    assert ["", "a"][1..] == ["a"];
    assert WrapFold(["", "a"], measure, maxWidth, [], "") == WrapFold(["a"], measure, maxWidth, [], "");
    assert WrapFold(["a"], measure, maxWidth, [], "") == WrapFold([], measure, maxWidth, [], "a");
  }

  /** The fold with an explicit "line started" flag, so empty words are kept. */
  function WrapFoldKeepingSpaces(words: seq<string>, measure: string -> real, maxWidth: real,
                                 done: seq<string>, current: string, started: bool): seq<string>
  {
    if |words| == 0 then done + [current]
    else
      var test := if started then current + " " + words[0] else words[0];
      if measure(test) > maxWidth && started then
        WrapFoldKeepingSpaces(words[1..], measure, maxWidth, done + [current], words[0], true)
      else
        WrapFoldKeepingSpaces(words[1..], measure, maxWidth, done, test, true)
  }

  function WrappedKeepingSpaces(text: string, measure: string -> real, maxWidth: real): seq<string>
  {
    WrapFoldKeepingSpaces(Split(text, ' '), measure, maxWidth, [], "", false)
  }

  /** Word wrapping that keeps every space: lines joined with spaces give the text back. */
  method WrapTextKeepingSpaces(text: string, maxWidth: real, measure: string -> real) returns (lines: seq<string>)
    ensures lines == WrappedKeepingSpaces(text, measure, maxWidth)
  {
    var words := Split(text, ' ');
    lines := [];
    var currentLine := "";
    var started := false;
    for i := 0 to |words|
      invariant WrapFoldKeepingSpaces(words[i..], measure, maxWidth, lines, currentLine, started) ==
        WrappedKeepingSpaces(text, measure, maxWidth)
    {
      assert words[i..][1..] == words[i + 1..];
      var word := words[i];
      var testLine := if started then currentLine + " " + word else word;
      if measure(testLine) > maxWidth && started {
        lines := lines + [currentLine];
        currentLine := word;
      } else {
        currentLine := testLine;
      }
      started := true;
    }
    lines := lines + [currentLine];
  }

  lemma {:induction false} KeepingSpacesJoin(words: seq<string>, measure: string -> real, maxWidth: real,
                                             done: seq<string>, current: string)
    ensures Join(WrapFoldKeepingSpaces(words, measure, maxWidth, done, current, true), ' ') ==
      Glued(Join(done + [current], ' '), words)
  {
    if |words| > 0 {
      var x := words[0];
      var test := current + " " + x;
      if measure(test) > maxWidth {
        KeepingSpacesJoin(words[1..], measure, maxWidth, done + [current], x);
        JoinSnoc(done + [current], x, ' ');
      } else {
        KeepingSpacesJoin(words[1..], measure, maxWidth, done, test);
        JoinExtendLast(done, current, x);
      }
      GluedStep(Join(done + [current], ' '), x, words[1..]);
      assert [x] + words[1..] == words;
    }
  }

  lemma {:induction false} KeepingSpacesFits(words: seq<string>, measure: string -> real, maxWidth: real,
                                             done: seq<string>, current: string, started: bool)
    requires forall k :: 0 <= k < |words| ==> ' ' !in words[k]
    requires forall k :: 0 <= k < |done| ==> Fits(done[k], measure, maxWidth)
    requires Fits(current, measure, maxWidth)
    ensures var r := WrapFoldKeepingSpaces(words, measure, maxWidth, done, current, started);
      |r| >= |done| + 1 && forall k :: 0 <= k < |r| ==> Fits(r[k], measure, maxWidth)
  {
    if |words| > 0 {
      var test := if started then current + " " + words[0] else words[0];
      if measure(test) > maxWidth && started {
        KeepingSpacesFits(words[1..], measure, maxWidth, done + [current], words[0], true);
      } else {
        KeepingSpacesFits(words[1..], measure, maxWidth, done, test, true);
      }
    }
  }

  /** The corrected wrap keeps the promise for every text: at least one line, every line fits or
      is one word, and the lines joined with spaces are the text. */
  lemma WrappedKeepingSpacesRejoins(text: string, measure: string -> real, maxWidth: real)
    ensures |WrappedKeepingSpaces(text, measure, maxWidth)| >= 1
    ensures forall line :: line in WrappedKeepingSpaces(text, measure, maxWidth) ==> Fits(line, measure, maxWidth)
    ensures Join(WrappedKeepingSpaces(text, measure, maxWidth), ' ') == text
  {
    var words := Split(text, ' ');
    SplitPartsLackSep(text, ' ');
    KeepingSpacesFits(words, measure, maxWidth, [], "", false);
    assert WrapFoldKeepingSpaces(words, measure, maxWidth, [], "", false) ==
      WrapFoldKeepingSpaces(words[1..], measure, maxWidth, [], words[0], true);
    KeepingSpacesJoin(words[1..], measure, maxWidth, [], words[0]);
    if |words| > 1 {
      assert words == [words[0]] + words[1..];
    }
    JoinSplit(text, ' ');
  }

  // ---------------------------------------------------------------------------
  // Snapshot kept under the 'console' storage key

  /** What serialising a line keeps: its texts, type and data, not its hooks. */
  datatype SavedLine = SavedLine(displayText: string, originalText: string, kind: LineKind, functionData: FunctionData)

  datatype Snapshot = Snapshot(currentLine: string, cursorPosition: int, lines: seq<SavedLine>, currentPath: string)

  function Saved(l: ConsoleLine): SavedLine
  {
    SavedLine(l.displayText, l.originalText, l.kind, l.functionData)
  }

  /** A restored line: a new line from the saved text and type, with the saved data and display
      text put back and the default (static, silent) hooks. */
  function Restored(s: SavedLine): (l: ConsoleLine)
    ensures Saved(l) == s
    ensures l.onDraw == StaticDraw && l.onEmit == NoEmit && l.WellFormed()
  {
    NewLine(s.originalText, s.kind).(functionData := s.functionData, displayText := s.displayText)
  }

  function SaveAll(ls: seq<ConsoleLine>): seq<SavedLine>
  {
    seq(|ls|, k requires 0 <= k < |ls| => Saved(ls[k]))
  }

  function RestoreAll(saved: seq<SavedLine>): seq<ConsoleLine>
  {
    seq(|saved|, k requires 0 <= k < |saved| => Restored(saved[k]))
  }

  /** The restore loop: one new line per saved line, in order. */
  method RestoreLines(saved: seq<SavedLine>) returns (lines: seq<ConsoleLine>)
    ensures |lines| == |saved|
    ensures forall k :: 0 <= k < |lines| ==> Saved(lines[k]) == saved[k] && lines[k].onDraw == StaticDraw && lines[k].onEmit == NoEmit
    ensures lines == RestoreAll(saved)
  {
    lines := [];
    for index := 0 to |saved|
      invariant lines == RestoreAll(saved[..index])
    {
      var line := NewLine(saved[index].originalText, saved[index].kind);
      lines := lines + [line];
      lines := lines[index := lines[index].(functionData := saved[index].functionData)];
      lines := lines[index := lines[index].(displayText := saved[index].displayText)];
    }
    assert saved[..|saved|] == saved;
  }

  // ---------------------------------------------------------------------------
  // The input line and its key handler

  predicate CursorInLine(line: string, cursor: int)
  {
    0 <= cursor <= |line|
  }

  predicate SnapshotValid(s: Snapshot)
  {
    CursorInLine(s.currentLine, s.cursorPosition)
  }

  /** Everything a key press can change. `stored` is the 'console' storage entry and
      `clipboard` the text last written to the system clipboard. */
  datatype Editor = Editor(
    lines: seq<ConsoleLine>,
    currentLine: string,
    cursorPosition: int,
    currentPath: string,
    stored: Option<Snapshot>,
    clipboard: Option<string>)
  {
    predicate Valid()
    {
      CursorInLine(currentLine, cursorPosition) &&
      (stored.Some? ==> SnapshotValid(stored.value)) &&
      forall k :: 0 <= k < |lines| ==> lines[k].WellFormed()
    }
  }

  /** A key press either completes or throws (restore with nothing saved fails reading `.length`). */
  datatype KeyOutcome = Handled(editor: Editor) | Threw

  /** The lines `onEnter` appends: nothing for an empty line, else the command and its echo. */
  function Echo(command: string): seq<ConsoleLine>
  {
    if command == "" then [] else [NewLine(command, Input), NewLine(EchoPrefix + command, Output)]
  }

  /** The keys `handleKeyDown` handles before it looks at Control. */
  predicate IsEditingKey(key: string)
  {
    key == "Enter" || key == "Backspace" || key == "ArrowLeft" || key == "ArrowRight" || key == "Delete"
  }

  /** `handleKeyDown` once input is allowed; `held` already contains `key`. */
  function KeyDown(e: Editor, key: string, held: set<string>): (r: KeyOutcome)
    requires e.Valid()
    ensures r.Handled? ==> r.editor.Valid()
    ensures r.Threw? <==> key == "r" && "Control" in held && e.stored.None?
    ensures r.Handled? && key != "r" ==> r.editor.currentPath == e.currentPath
  {
    var line := e.currentLine;
    var cursor := e.cursorPosition;
    if key == "Enter" then
      if "Shift" in held then Handled(e.(currentLine := line + "\n", cursorPosition := cursor + 1))
      else Handled(e.(currentLine := "", cursorPosition := 0, lines := e.lines + Echo(line)))
    else if key == "Backspace" then
      if cursor > 0 then Handled(e.(currentLine := line[..cursor - 1] + line[cursor..], cursorPosition := cursor - 1))
      else Handled(e)
    else if key == "ArrowLeft" then
      if cursor > 0 then Handled(e.(cursorPosition := cursor - 1)) else Handled(e)
    else if key == "ArrowRight" then
      if cursor < |line| then Handled(e.(cursorPosition := cursor + 1)) else Handled(e)
    else if key == "Delete" then
      if cursor < |line| then Handled(e.(currentLine := line[..cursor] + line[cursor + 1..])) else Handled(e)
    else if "Control" in held then
      if key == "c" then
        Handled(e.(lines := e.lines + [NewLine(line, Input)], clipboard := Some(line), currentLine := "", cursorPosition := 0))
      else if key == "s" then
        Handled(e.(stored := Some(Snapshot(line, cursor, SaveAll(e.lines), e.currentPath))))
      else if key == "r" then
        if e.stored.None? then Threw
        else
          var s := e.stored.value;
          Handled(e.(currentLine := s.currentLine, cursorPosition := s.cursorPosition, lines := RestoreAll(s.lines),
                     currentPath := if s.currentPath == "" then StartPath else s.currentPath))
      else Handled(e)
    else if |key| == 1 then
      Handled(e.(currentLine := line[..cursor] + key + line[cursor..], cursorPosition := cursor + 1))
    else Handled(e)
  }

  /** Typing a character and then Backspace leaves the line and cursor as they were. */
  /** A one-character key typed without Control goes into the line at the cursor: the text before
      the cursor stays, the key follows it, the rest of the line comes after, the cursor moves
      past the key, and nothing else in the editor changes. */
  lemma TypeInserts(e: Editor, c: string, held: set<string>)
    requires e.Valid() && |c| == 1 && "Control" !in held
    ensures KeyDown(e, c, held).Handled?
    ensures var e1 := KeyDown(e, c, held).editor;
      |e1.currentLine| == |e.currentLine| + 1 &&
      e1.cursorPosition == e.cursorPosition + 1 &&
      e1.currentLine[..e.cursorPosition] == e.currentLine[..e.cursorPosition] &&
      e1.currentLine[e.cursorPosition] == c[0] &&
      e1.currentLine[e.cursorPosition + 1..] == e.currentLine[e.cursorPosition..] &&
      e1.(currentLine := e.currentLine, cursorPosition := e.cursorPosition) == e
  {
  }

  lemma TypeThenBackspace(e: Editor, c: string, held1: set<string>, held2: set<string>)
    requires e.Valid() && |c| == 1 && "Control" !in held1
    ensures KeyDown(e, c, held1).Handled?
    ensures var e1 := KeyDown(e, c, held1).editor;
      KeyDown(e1, "Backspace", held2).Handled? &&
      KeyDown(e1, "Backspace", held2).editor == e
  {
    var line := e.currentLine;
    var cursor := e.cursorPosition;
    var typed := line[..cursor] + c + line[cursor..];
    assert typed[..cursor] == line[..cursor];
    assert typed[cursor + 1..] == line[cursor..];
    assert typed[..cursor] + typed[cursor + 1..] == line;
  }

  /** Typing a character, moving left and pressing Delete also leaves the line as it was. */
  lemma TypeLeftDelete(e: Editor, c: string, held1: set<string>, held2: set<string>, held3: set<string>)
    requires e.Valid() && |c| == 1 && "Control" !in held1
    ensures var e1 := KeyDown(e, c, held1).editor;
      var e2 := KeyDown(e1, "ArrowLeft", held2).editor;
      KeyDown(e2, "Delete", held3).editor == e
  {
    var line := e.currentLine;
    var cursor := e.cursorPosition;
    var typed := line[..cursor] + c + line[cursor..];
    assert typed[..cursor] == line[..cursor];
    assert typed[cursor + 1..] == line[cursor..];
    assert typed[..cursor] + typed[cursor + 1..] == line;
  }

  /** The arrows move the cursor one step within the line and never touch the text. */
  lemma ArrowsMoveCursor(e: Editor, held: set<string>)
    requires e.Valid()
    ensures KeyDown(e, "ArrowLeft", held).editor.currentLine == e.currentLine
    ensures KeyDown(e, "ArrowRight", held).editor.currentLine == e.currentLine
    ensures KeyDown(e, "ArrowLeft", held).editor.cursorPosition == if e.cursorPosition > 0 then e.cursorPosition - 1 else 0
    ensures KeyDown(e, "ArrowRight", held).editor.cursorPosition ==
      if e.cursorPosition < |e.currentLine| then e.cursorPosition + 1 else e.cursorPosition
  {
  }

  /** Enter always empties the line; pressing it again appends nothing more. */
  lemma EnterTwice(e: Editor, held1: set<string>, held2: set<string>)
    requires e.Valid() && "Shift" !in held1 && "Shift" !in held2
    ensures var e1 := KeyDown(e, "Enter", held1).editor;
      e1.currentLine == "" && e1.cursorPosition == 0 &&
      KeyDown(e1, "Enter", held2).editor == e1 &&
      |e1.lines| == |e.lines| + (if e.currentLine == "" then 0 else 2)
  {
  }

  /** Shift+Enter adds a line break at the end, whatever the cursor: the text gains one more
      `'\n'`-separated piece, an empty last one. */
  lemma ShiftEnterBreaksAtEnd(e: Editor, held: set<string>)
    requires e.Valid() && "Shift" in held
    ensures var e1 := KeyDown(e, "Enter", held).editor;
      Split(e1.currentLine, '\n') == Split(e.currentLine, '\n') + [""] &&
      e1.cursorPosition == e.cursorPosition + 1
  {
    assert e.currentLine + "\n" == e.currentLine + ['\n'] + "";
    SplitConcat(e.currentLine, "", '\n');
  }

  /** Ctrl+c cuts the line: it goes to the clipboard and into the history as one input line. */
  lemma CopyCutsLine(e: Editor, held: set<string>)
    requires e.Valid() && "Control" in held
    ensures var e1 := KeyDown(e, "c", held).editor;
      e1.clipboard == Some(e.currentLine) && e1.lines == e.lines + [NewLine(e.currentLine, Input)] &&
      e1.currentLine == "" && e1.cursorPosition == 0
  {
  }

  /** Ctrl+s then Ctrl+r gives back the line, the cursor, the path (the start path for an empty
      one) and each line's texts, type and data, with default hooks. */
  lemma SaveThenRestore(e: Editor, held1: set<string>, held2: set<string>)
    requires e.Valid() && "Control" in held1 && "Control" in held2
    ensures KeyDown(e, "s", held1).Handled?
    ensures var e1 := KeyDown(e, "s", held1).editor;
      var r := KeyDown(e1, "r", held2);
      r.Handled? &&
      r.editor.currentLine == e.currentLine && r.editor.cursorPosition == e.cursorPosition &&
      r.editor.currentPath == (if e.currentPath == "" then StartPath else e.currentPath) &&
      |r.editor.lines| == |e.lines| &&
      forall k :: 0 <= k < |e.lines| ==>
        Saved(r.editor.lines[k]) == Saved(e.lines[k]) &&
        r.editor.lines[k].onDraw == StaticDraw && r.editor.lines[k].onEmit == NoEmit
  {
  }

  /** Restoring twice in a row gives the same screen: a restore is idempotent. */
  lemma RestoreIdempotent(e: Editor, held1: set<string>, held2: set<string>)
    requires e.Valid() && "Control" in held1 && "Control" in held2 && e.stored.Some?
    ensures var e1 := KeyDown(e, "r", held1).editor;
      KeyDown(e1, "r", held2) == Handled(e1)
  {
  }

  // ---------------------------------------------------------------------------
  // The component

  class ConsoleApp {
    var lines: seq<ConsoleLine>
    var currentLine: string
    var cursorPosition: int
    var cursorVisible: bool
    var currentPath: string
    var activeKeys: set<string>
    var recentKeys: seq<string>
    var allowInput: bool
    /** The 'console' entry of local storage. */
    var stored: Option<Snapshot>
    /** The text last written to the system clipboard. */
    var clipboard: Option<string>

    function State(): Editor
      reads this
    {
      Editor(lines, currentLine, cursorPosition, currentPath, stored, clipboard)
    }

    predicate Valid()
      reads this
    {
      State().Valid()
    }

    constructor(storedConsole: Option<Snapshot>)
      requires storedConsole.Some? ==> SnapshotValid(storedConsole.value)
      ensures Valid()
      ensures lines == [] && currentLine == "" && cursorPosition == 0 && cursorVisible
      ensures currentPath == StartPath && activeKeys == {} && recentKeys == [] && !allowInput
      ensures stored == storedConsole && clipboard == None
    {
      lines := [];
      currentLine := "";
      cursorPosition := 0;
      cursorVisible := true;
      currentPath := StartPath;
      activeKeys := {};
      recentKeys := [];
      allowInput := false;
      stored := storedConsole;
      clipboard := None;
    }

    /** `onInit` with the start-up animation skipped: exactly the two welcome lines, input on. */
    method OnInit()
      requires Valid()
      modifies this
      ensures Valid()
      ensures lines == [NewLine(WelcomeText, Output), NewLine(HelpHintText, Output)] && allowInput
      ensures currentLine == old(currentLine) && cursorPosition == old(cursorPosition)
      ensures cursorVisible == old(cursorVisible) && currentPath == old(currentPath)
      ensures activeKeys == old(activeKeys) && recentKeys == old(recentKeys)
      ensures stored == old(stored) && clipboard == old(clipboard)
    {
      lines := [];
      allowInput := true;
      lines := lines + [NewLine(WelcomeText, Output)];
      lines := lines + [NewLine(HelpHintText, Output)];
    }

    /** `handleKeyUp`: the key is no longer held. */
    method HandleKeyUp(key: string)
      modifies this
      ensures activeKeys == old(activeKeys) - {key}
      ensures State() == old(State()) && recentKeys == old(recentKeys)
      ensures allowInput == old(allowInput) && cursorVisible == old(cursorVisible)
    {
      activeKeys := activeKeys - {key};
    }

    /** `handleKeyDown`: ignored until input is allowed; otherwise the key is recorded as held
        and recent, and the editor state moves as `KeyDown` says (unchanged when it throws). */
    method HandleKeyDown(key: string) returns (threw: bool)
      requires Valid()
      modifies this
      ensures Valid()
      ensures !old(allowInput) ==>
        !threw && State() == old(State()) && activeKeys == old(activeKeys) && recentKeys == old(recentKeys)
      ensures old(allowInput) ==>
        activeKeys == old(activeKeys) + {key} && recentKeys == old(recentKeys) + [key] &&
        var r := KeyDown(old(State()), key, old(activeKeys) + {key});
        threw == r.Threw? && State() == (if r.Threw? then old(State()) else r.editor)
      ensures allowInput == old(allowInput) && cursorVisible == old(cursorVisible)
    {
      if !allowInput {
        return false;
      }
      activeKeys := activeKeys + {key};
      recentKeys := recentKeys + [key];
      if IsEditingKey(key) || "Control" !in activeKeys {
        EditKey(key);
        threw := false;
      } else {
        threw := ControlKey(key);
      }
    }

    /** The cases of `handleKeyDown` that edit the input line: the named editing keys, and any
        key while Control is not held. */
    method EditKey(key: string)
      requires Valid() && (IsEditingKey(key) || "Control" !in activeKeys)
      modifies this
      ensures Valid()
      ensures KeyDown(old(State()), key, activeKeys).Handled?
      ensures State() == KeyDown(old(State()), key, activeKeys).editor
      ensures activeKeys == old(activeKeys) && recentKeys == old(recentKeys)
      ensures allowInput == old(allowInput) && cursorVisible == old(cursorVisible)
    {
      var line := currentLine;
      var cursor := cursorPosition;
      var runProgram := "";
      if key == "Enter" {
        if "Shift" in activeKeys {
          line := line + "\n";
          cursor := cursor + 1;
        } else {
          runProgram := line;
          line := "";
          cursor := 0;
        }
      } else if key == "Backspace" {
        if cursor > 0 {
          line := line[..cursor - 1] + line[cursor..];
          cursor := cursor - 1;
        }
      } else if key == "ArrowLeft" {
        if cursor > 0 {
          cursor := cursor - 1;
        }
      } else if key == "ArrowRight" {
        if cursor < |line| {
          cursor := cursor + 1;
        }
      } else if key == "Delete" {
        if cursor < |line| {
          line := line[..cursor] + line[cursor + 1..];
        }
      } else if |key| == 1 {
        line := line[..cursor] + key + line[cursor..];
        cursor := cursor + 1;
      }
      currentLine, cursorPosition := line, cursor;
      if runProgram != "" {
        OnEnter(runProgram);
      }
    }

    /** The Control chords of `handleKeyDown`: cut, paste (asynchronous, so nothing happens
        now), save and restore. Restore throws when nothing was saved. */
    method ControlKey(key: string) returns (threw: bool)
      requires Valid() && !IsEditingKey(key) && "Control" in activeKeys
      modifies this
      ensures Valid()
      ensures threw == KeyDown(old(State()), key, activeKeys).Threw?
      ensures State() == if threw then old(State()) else KeyDown(old(State()), key, activeKeys).editor
      ensures activeKeys == old(activeKeys) && recentKeys == old(recentKeys)
      ensures allowInput == old(allowInput) && cursorVisible == old(cursorVisible)
    {
      threw := false;
      if key == "c" {
        lines := lines + [NewLine(currentLine, Input)];
        clipboard := Some(currentLine);
        currentLine := "";
        cursorPosition := 0;
      } else if key == "v" {
        return;
      } else if key == "s" {
        stored := Some(Snapshot(currentLine, cursorPosition, SaveAll(lines), currentPath));
      } else if key == "r" {
        if stored.None? {
          return true;
        }
        var savedData := stored.value;
        currentLine := savedData.currentLine;
        cursorPosition := savedData.cursorPosition;
        lines := RestoreLines(savedData.lines);
        currentPath := if savedData.currentPath != "" then savedData.currentPath else StartPath;
      }
    }

    /** `onEnter`: echo the command and clear the line. */
    method OnEnter(command: string)
      requires command != "" && Valid() && cursorPosition == 0
      modifies this
      ensures Valid()
      ensures lines == old(lines) + Echo(command) && currentLine == ""
      ensures cursorPosition == old(cursorPosition) && currentPath == old(currentPath)
      ensures stored == old(stored) && clipboard == old(clipboard)
      ensures activeKeys == old(activeKeys) && recentKeys == old(recentKeys)
      ensures allowInput == old(allowInput) && cursorVisible == old(cursorVisible)
    {
      lines := lines + [NewLine(command, Input)];
      lines := lines + [NewLine(EchoPrefix + command, Output)];
      currentLine := "";
    }

    /** One frame of line `i`'s draw hook, applied in place. */
    method DrawLine(i: int) returns (fired: bool)
      requires Valid() && 0 <= i < |lines|
      modifies this
      ensures Valid()
      ensures lines == old(lines)[i := DrawStep(old(lines)[i]).line] && fired == DrawStep(old(lines)[i]).fired
      ensures currentLine == old(currentLine) && cursorPosition == old(cursorPosition)
      ensures currentPath == old(currentPath) && stored == old(stored) && clipboard == old(clipboard)
      ensures activeKeys == old(activeKeys) && recentKeys == old(recentKeys)
      ensures allowInput == old(allowInput) && cursorVisible == old(cursorVisible)
    {
      var r := DrawStep(lines[i]);
      lines := lines[i := r.line];
      fired := r.fired;
      assert forall k :: 0 <= k < |lines| ==> lines[k].WellFormed() by {
        forall k | 0 <= k < |lines| ensures lines[k].WellFormed() {
          if k != i {
            assert lines[k] == old(lines)[k];
          }
        }
      }
    }
  }
}
