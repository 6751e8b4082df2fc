/** Unified diffs: `parsePatch` (webview/src/changeLog.tsx) against a printer. */
module PatchParser {
  import opened Sequences
  import opened Wrappers
  import opened Text

  // -------------------------------------------------------------------- parsing

  datatype RowKind = Context | Add | Del

  /** A row of the change log; hunk headers are rows too. */
  datatype DiffLine =
    | HunkLine(header: string)
    | RowLine(kind: RowKind, oldLine: Option<nat>, newLine: Option<nat>, text: string)

  type Files = map<string, seq<DiffLine>>

  predicate Starts(line: string, prefix: string) {
    |prefix| <= |line| && line[..|prefix|] == prefix
  }

  const MARKER := "diff --git "
  const OLD_NAME := "--- "
  const NEW_NAME := "+++ "
  const NOWHERE := "/dev/null"

  /** What an `[ab]/` name, quoted or not and possibly with a timestamp behind a
      tab, refers to. `unquote` is `JSON.parse` of a quoted name. */
  function Filename(unquote: string -> Option<string>, value: string): string {
    var name := if '\t' in value then value[..IndexOf(value, '\t')] else value;
    var decoded := if name != "" && name[0] == '"' && unquote(name).Some? then unquote(name).value else name;
    if |decoded| >= 2 && decoded[0] in "ab" && decoded[1] == '/' then decoded[2..] else decoded
  }

  predicate DigitFirst(s: string) {
    s != "" && IsDigit(s[0])
  }

  /** `\d*`: the number read on from `sofar`, and what follows. */
  function Numeral(s: string, sofar: nat): (nat, string) {
    if DigitFirst(s) then Numeral(s[1..], 10 * sofar + (s[0] as int - '0' as int)) else (sofar, s)
  }

  /** `(\d+)(?:,\d+)?`: the first number, and what follows. */
  function Range(s: string): Option<(nat, string)> {
    if !DigitFirst(s) then None else
      var (v, rest) := Numeral(s, 0);
      Some((v, if rest != "" && rest[0] == ',' && DigitFirst(rest[1..]) then Numeral(rest[1..], 0).1 else rest))
  }

  /** The line numbers of a hunk header. */
  function HunkStart(line: string): Option<(nat, nat)> {
    if !Starts(line, "@@ -") then None else
      var oldLine := Range(line[4..]);
      if oldLine.None? || !Starts(oldLine.value.1, " +") then None else
        var newLine := Range(oldLine.value.1[2..]);
        if newLine.None? || !Starts(newLine.value.1, " @@") then None
        else Some((oldLine.value.0, newLine.value.0))
  }

  datatype Item = Marker | OldName(name: string) | NewName(name: string) | Hunk(oldLine: nat, newLine: nat)
    | Row(kind: RowKind, text: string) | Ignored

  /** What a line is, outside or inside a hunk. */
  function Classify(line: string, inHunk: bool): Item {
    if Starts(line, MARKER) then Marker
    else if !inHunk && Starts(line, OLD_NAME) then OldName(line[4..])
    else if !inHunk && Starts(line, NEW_NAME) then NewName(line[4..])
    else if HunkStart(line).Some? then Hunk(HunkStart(line).value.0, HunkStart(line).value.1)
    else if !inHunk then Ignored
    else if Starts(line, "+") then Row(Add, line[1..])
    else if Starts(line, "-") then Row(Del, line[1..])
    else if Starts(line, " ") then Row(Context, line[1..])
    else Ignored
  }

  datatype State = State(files: Files, path: string, previous: string, oldLine: nat, newLine: nat, inHunk: bool)

  function NumberedRow(kind: RowKind, oldLine: nat, newLine: nat, text: string): DiffLine {
    RowLine(kind, if kind == Add then None else Some(oldLine), if kind == Del then None else Some(newLine), text)
  }

  function Push(files: Files, path: string, row: DiffLine): Files {
    files[path := (if path in files then files[path] else []) + [row]]
  }

  /** How lines are told apart: `Classify`. */
  type Classifier = (string, bool) -> Item

  function Step(read: Classifier, unquote: string -> Option<string>, s: State, line: string): State {
    match read(line, s.inHunk)
    case Marker => s.(inHunk := false, path := "", previous := "")
    case OldName(name) => s.(previous := Filename(unquote, name))
    case NewName(name) =>
      var named := Filename(unquote, name);
      var path := if named == NOWHERE then s.previous else named;
      s.(path := path, files := s.files[path := []])
    case Hunk(oldLine, newLine) =>
      if s.path == "" then s
      else s.(oldLine := oldLine, newLine := newLine, inHunk := true, files := Push(s.files, s.path, HunkLine(line)))
    case Row(kind, text) =>
      if s.path == "" then s
      else
        s.(files := Push(s.files, s.path, NumberedRow(kind, s.oldLine, s.newLine, text)),
           oldLine := if kind == Add then s.oldLine else s.oldLine + 1,
           newLine := if kind == Del then s.newLine else s.newLine + 1)
    case Ignored => s
  }

  function Feed(read: Classifier, unquote: string -> Option<string>, s: State, lines: seq<string>): State
    decreases |lines|
  {
    if lines == [] then s else Feed(read, unquote, Step(read, unquote, s, lines[0]), lines[1..])
  }

  const START := State(map[], "", "", 0, 0, false)

  function StripCr(line: string): string {
    if line != "" && line[|line| - 1] == '\r' then line[..|line| - 1] else line
  }

  function StripAll(lines: seq<string>): seq<string> {
    if lines == [] then [] else [StripCr(lines[0])] + StripAll(lines[1..])
  }

  /** `split(/\r?\n/)`. */
  function SplitLines(s: string): seq<string> {
    StripAll(CompleteLines(s)) + [Remainder(s)]
  }

  /** The loop of `parsePatch`. */
  method ParseLines(read: Classifier, unquote: string -> Option<string>, lines: seq<string>) returns (files: Files)
    ensures files == Feed(read, unquote, START, lines).files
  {
    files := map[];
    var path, previous, oldLine: nat, newLine: nat, inHunk := "", "", 0, 0, false;
    for i := 0 to |lines|
      invariant Feed(read, unquote, State(files, path, previous, oldLine, newLine, inHunk), lines[i..])
                == Feed(read, unquote, START, lines)
    {
      assert lines[i..][1..] == lines[i + 1..];
      match read(lines[i], inHunk) {
        case Marker =>
          inHunk, path, previous := false, "", "";
        case OldName(name) =>
          previous := Filename(unquote, name);
        case NewName(name) =>
          path := Filename(unquote, name);
          if path == NOWHERE { path := previous; }
          files := files[path := []];
        case Hunk(from, to) =>
          if path != "" {
            oldLine, newLine, inHunk := from, to, true;
            files := Push(files, path, HunkLine(lines[i]));
          }
        case Row(kind, text) =>
          if path != "" {
            files := Push(files, path, NumberedRow(kind, oldLine, newLine, text));
            if kind != Add { oldLine := oldLine + 1; }
            if kind != Del { newLine := newLine + 1; }
          }
        case Ignored =>
      }
    }
  }

  /** `parsePatch`. */
  method ParsePatch(unquote: string -> Option<string>, patch: string) returns (files: Files)
    ensures files == Parsed(unquote, patch)
  {
    files := ParseLines(Classify, unquote, SplitLines(patch));
  }

  function Parsed(unquote: string -> Option<string>, patch: string): Files {
    Feed(Classify, unquote, START, SplitLines(patch)).files
  }

  // ------------------------------------------------------------------- printing

  datatype PatchRow = PatchRow(kind: RowKind, text: string, noNewline: bool)

  datatype PatchHunk = PatchHunk(oldLine: nat, newLine: nat, heading: string, rows: seq<PatchRow>)

  datatype Change = Added | Deleted | Modified

  /** The change of one file. `stamp` is a timestamp behind the names, `extended`
      are header lines such as `index` or `new file mode`. */
  datatype FilePatch = FilePatch(path: string, change: Change, quoted: bool, stamp: Option<string>,
                                 extended: seq<string>, hunks: seq<PatchHunk>)

  function Sign(kind: RowKind): char {
    match kind case Add => '+' case Del => '-' case Context => ' '
  }

  const NO_NEWLINE := "\\ No newline at end of file"

  function RowLines(r: PatchRow): seq<string> {
    [[Sign(r.kind)] + r.text] + (if r.noNewline then [NO_NEWLINE] else [])
  }

  function RowsLines(rows: seq<PatchRow>): seq<string> {
    if rows == [] then [] else RowLines(rows[0]) + RowsLines(rows[1..])
  }

  /** Rows of a hunk that are not of kind `not`. */
  function Count(rows: seq<PatchRow>, not: RowKind): nat {
    if rows == [] then 0 else (if rows[0].kind == not then 0 else 1) + Count(rows[1..], not)
  }

  /** A count of one is not printed. */
  function Span(start: nat, count: nat): string {
    Decimal(start) + (if count == 1 then "" else "," + Decimal(count))
  }

  function HunkHeader(h: PatchHunk): string {
    "@@ -" + (Span(h.oldLine, Count(h.rows, Add)) + (" +" + (Span(h.newLine, Count(h.rows, Del)) + (" @@" + h.heading))))
  }

  function HunkLines(h: PatchHunk): seq<string> {
    [HunkHeader(h)] + RowsLines(h.rows)
  }

  function HunksLines(hunks: seq<PatchHunk>): seq<string> {
    if hunks == [] then [] else HunkLines(hunks[0]) + HunksLines(hunks[1..])
  }

  function Stamped(name: string, stamp: Option<string>): string {
    if stamp.Some? then name + "\t" + stamp.value else name
  }

  function Shown(quote: string -> string, f: FilePatch, prefix: string): string {
    if f.quoted then quote(prefix + f.path) else prefix + f.path
  }

  function OldShown(quote: string -> string, f: FilePatch): string {
    if f.change == Added then NOWHERE else Shown(quote, f, "a/")
  }

  function NewShown(quote: string -> string, f: FilePatch): string {
    if f.change == Deleted then NOWHERE else Shown(quote, f, "b/")
  }

  function FileLines(quote: string -> string, f: FilePatch): seq<string> {
    [MARKER + (Shown(quote, f, "a/") + " " + Shown(quote, f, "b/"))] + f.extended
    + [OLD_NAME + Stamped(OldShown(quote, f), f.stamp), NEW_NAME + Stamped(NewShown(quote, f), f.stamp)]
    + HunksLines(f.hunks)
  }

  function PatchLines(quote: string -> string, patch: seq<FilePatch>): seq<string> {
    if patch == [] then [] else FileLines(quote, patch[0]) + PatchLines(quote, patch[1..])
  }

  /** The patch as `git diff` prints it. */
  function Print(quote: string -> string, patch: seq<FilePatch>): string {
    Unlines(PatchLines(quote, patch))
  }

  // ------------------------------------------------------- what a patch may hold

  predicate OneLine(s: string) {
    '\n' !in s
  }

  /** A name that reads back as itself. */
  predicate NameLine(name: string) {
    name != "" && OneLine(name) && '\t' !in name && name[|name| - 1] != '\r'
  }

  /** Quoted names start with a quote, are on one line and are undone by `unquote`. */
  ghost predicate Faithful(quote: string -> string, unquote: string -> Option<string>) {
    forall name :: NameLine(quote(name)) && quote(name)[0] == '"' && unquote(quote(name)) == Some(name)
  }

  predicate PlainHeader(line: string) {
    OneLine(line) && !Starts(line, MARKER) && !Starts(line, OLD_NAME) && !Starts(line, NEW_NAME)
  }

  ghost predicate ValidHunk(h: PatchHunk) {
    OneLine(h.heading) && forall r :: r in h.rows ==> OneLine(r.text)
  }

  ghost predicate ValidFile(f: FilePatch) {
    && f.path != "" && (!f.quoted ==> NameLine(f.path))
    && (f.stamp.Some? ==> OneLine(f.stamp.value))
    && (forall l :: l in f.extended ==> PlainHeader(l))
    && (forall h :: h in f.hunks ==> ValidHunk(h))
  }

  ghost predicate ValidPatch(patch: seq<FilePatch>) {
    forall f :: f in patch ==> ValidFile(f)
  }

  // ----------------------------------------------------------- what is read back

  /** Rows numbered on from the two line numbers of their hunk. */
  function Numbered(rows: seq<PatchRow>, oldLine: nat, newLine: nat): seq<DiffLine>
    decreases |rows|
  {
    if rows == [] then [] else
      [NumberedRow(rows[0].kind, oldLine, newLine, rows[0].text)]
      + Numbered(rows[1..], oldLine + (if rows[0].kind == Add then 0 else 1), newLine + (if rows[0].kind == Del then 0 else 1))
  }

  function HunkRows(h: PatchHunk): seq<DiffLine> {
    [HunkLine(HunkHeader(h))] + Numbered(h.rows, h.oldLine, h.newLine)
  }

  function HunksRows(hunks: seq<PatchHunk>): seq<DiffLine> {
    if hunks == [] then [] else HunkRows(hunks[0]) + HunksRows(hunks[1..])
  }

  /** The rows of every path; a path printed twice keeps its last rows. */
  function RowsByPath(patch: seq<FilePatch>, before: Files): Files
    decreases |patch|
  {
    if patch == [] then before
    else RowsByPath(patch[1..], before[patch[0].path := HunksRows(patch[0].hunks)])
  }

  /** The patch without one carriage return at the end of each row and heading. */
  function CleanRows(rows: seq<PatchRow>): seq<PatchRow> {
    if rows == [] then [] else [rows[0].(text := StripCr(rows[0].text))] + CleanRows(rows[1..])
  }

  function CleanHunk(h: PatchHunk): PatchHunk {
    h.(heading := StripCr(h.heading), rows := CleanRows(h.rows))
  }

  function CleanHunks(hunks: seq<PatchHunk>): seq<PatchHunk> {
    if hunks == [] then [] else [CleanHunk(hunks[0])] + CleanHunks(hunks[1..])
  }

  function Clean(patch: seq<FilePatch>): seq<FilePatch> {
    if patch == [] then [] else [patch[0].(hunks := CleanHunks(patch[0].hunks))] + Clean(patch[1..])
  }

  // ------------------------------------------------------------- reading numerals

  lemma {:induction false} NumeralOfDigits(digits: string, rest: string)
    requires forall c :: c in digits ==> IsDigit(c)
    ensures Numeral(digits + rest, 0) == Numeral(rest, Value(digits))
    decreases |digits|
  {
    if digits == "" {
      assert digits + rest == rest;
    } else {
      var n := |digits| - 1;
      var last := digits[n];
      assert last in digits;
      var more := [last] + rest;
      assert digits[..n] + more == digits + rest;
      NumeralOfDigits(digits[..n], more);
      assert more[1..] == rest;
    }
  }

  lemma ReadDecimal(n: nat, rest: string)
    requires !DigitFirst(rest)
    ensures DigitFirst(Decimal(n) + rest) && Numeral(Decimal(n) + rest, 0) == (n, rest)
  {
    NumeralOfDigits(Decimal(n), rest);
    ValueOfDecimal(n);
  }

  lemma ReadSpan(start: nat, count: nat, rest: string)
    requires rest != "" && rest[0] == ' '
    ensures Range(Span(start, count) + rest) == Some((start, rest))
  {
    if count == 1 {
      assert Span(start, count) + rest == Decimal(start) + rest;
      ReadDecimal(start, rest);
    } else {
      var tail := "," + (Decimal(count) + rest);
      assert Span(start, count) + rest == Decimal(start) + tail;
      ReadDecimal(start, tail);
      assert tail[1..] == Decimal(count) + rest;
      ReadDecimal(count, rest);
    }
  }

  lemma StartsWithPrefix(prefix: string, rest: string)
    ensures Starts(prefix + rest, prefix) && (prefix + rest)[|prefix|..] == rest
  {}

  lemma ReadHunkHeader(h: PatchHunk)
    ensures HunkStart(HunkHeader(h)) == Some((h.oldLine, h.newLine))
  {
    var end := " @@" + h.heading;
    var second := Span(h.newLine, Count(h.rows, Del)) + end;
    var middle := " +" + second;
    var first := Span(h.oldLine, Count(h.rows, Add)) + middle;
    StartsWithPrefix("@@ -", first);
    ReadSpan(h.oldLine, Count(h.rows, Add), middle);
    StartsWithPrefix(" +", second);
    ReadSpan(h.newLine, Count(h.rows, Del), end);
    StartsWithPrefix(" @@", h.heading);
  }

  // ---------------------------------------------------------- reading one line back

  lemma StartsFirst(line: string, prefix: string)
    requires Starts(line, prefix) && prefix != ""
    ensures line != "" && line[0] == prefix[0]
  {
    assert line[0] == line[..|prefix|][0];
  }

  lemma ClassifyMarker(rest: string, inHunk: bool)
    ensures Classify(MARKER + rest, inHunk) == Marker
  {
    StartsWithPrefix(MARKER, rest);
  }

  lemma ClassifyOldName(name: string)
    ensures Classify(OLD_NAME + name, false) == OldName(name)
  {
    StartsWithPrefix(OLD_NAME, name);
    if Starts(OLD_NAME + name, MARKER) { StartsFirst(OLD_NAME + name, MARKER); }
  }

  lemma ClassifyNewName(name: string)
    ensures Classify(NEW_NAME + name, false) == NewName(name)
  {
    StartsWithPrefix(NEW_NAME, name);
    if Starts(NEW_NAME + name, MARKER) { StartsFirst(NEW_NAME + name, MARKER); }
    if Starts(NEW_NAME + name, OLD_NAME) { StartsFirst(NEW_NAME + name, OLD_NAME); }
  }

  lemma ClassifyHunk(h: PatchHunk, inHunk: bool)
    ensures Classify(HunkHeader(h), inHunk) == Hunk(h.oldLine, h.newLine)
  {
    ReadHunkHeader(h);
    var line := HunkHeader(h);
    if Starts(line, MARKER) { StartsFirst(line, MARKER); }
    if Starts(line, OLD_NAME) { StartsFirst(line, OLD_NAME); }
    if Starts(line, NEW_NAME) { StartsFirst(line, NEW_NAME); }
  }

  /** Inside a hunk a row is a row, also when it reads like a file header. */
  lemma ClassifyRow(kind: RowKind, text: string)
    ensures Classify([Sign(kind)] + text, true) == Row(kind, text)
  {
    var line := [Sign(kind)] + text;
    StartsWithPrefix([Sign(kind)], text);
    if Starts(line, MARKER) { StartsFirst(line, MARKER); }
    if Starts(line, "@@ -") { StartsFirst(line, "@@ -"); }
    if Starts(line, "+") { StartsFirst(line, "+"); }
    if Starts(line, "-") { StartsFirst(line, "-"); }
    assert "+"[0] == '+' && "-"[0] == '-';
  }

  lemma ClassifyNoNewline()
    ensures Classify(NO_NEWLINE, true) == Ignored
  {
    var line := NO_NEWLINE;
    if Starts(line, MARKER) { StartsFirst(line, MARKER); }
    if Starts(line, "@@ -") { StartsFirst(line, "@@ -"); }
    if Starts(line, "+") { StartsFirst(line, "+"); }
    if Starts(line, "-") { StartsFirst(line, "-"); }
    if Starts(line, " ") { StartsFirst(line, " "); }
  }

  lemma ClassifyEmpty()
    ensures forall inHunk :: Classify("", inHunk) == Ignored
  {}

  lemma StartsOfPart(line: string, part: string, prefix: string)
    requires part <= line && Starts(part, prefix)
    ensures Starts(line, prefix)
  {
    assert line[..|prefix|] == part[..|prefix|];
  }

  lemma ClassifyPlain(line: string)
    requires PlainHeader(line)
    ensures Classify(StripCr(line), false).Hunk? || Classify(StripCr(line), false).Ignored?
  {
    var part := StripCr(line);
    if Starts(part, MARKER) { StartsOfPart(line, part, MARKER); }
    if Starts(part, OLD_NAME) { StartsOfPart(line, part, OLD_NAME); }
    if Starts(part, NEW_NAME) { StartsOfPart(line, part, NEW_NAME); }
  }

  lemma StripOfSum(a: string, b: string)
    ensures b != "" ==> StripCr(a + b) == a + StripCr(b)
    ensures a != "" && a[|a| - 1] != '\r' ==> StripCr(a + b) == a + StripCr(b)
  {
    if b == "" {
      assert a + b == a;
    } else {
      assert (a + b)[..|a + b| - 1] == a + b[..|b| - 1];
    }
  }

  lemma BeforeTab(name: string, stamp: string)
    requires '\t' !in name
    ensures '\t' in name + "\t" + stamp && (name + "\t" + stamp)[..IndexOf(name + "\t" + stamp, '\t')] == name
  {
    var s := name + "\t" + stamp;
    assert s[|name|] == '\t' && s[..|name|] == name;
    FirstIs(s, '\t', |name|);
  }

  /** A printed name reads back as what it stands for, with one `a/` or `b/` off. */
  lemma ReadName(unquote: string -> Option<string>, name: string, stamp: Option<string>)
    requires NameLine(name)
    ensures Filename(unquote, StripCr(Stamped(name, stamp))) == Filename(unquote, name)
  {
    if stamp.Some? {
      StripOfSum(name + "\t", stamp.value);
      BeforeTab(name, StripCr(stamp.value));
    }
  }

  // ------------------------------------------------------ reading a patch back

  /** What the reading of a printed patch asks of a classifier. */
  ghost predicate TellsApart(read: Classifier) {
    && (forall rest, inHunk :: read(MARKER + rest, inHunk) == Marker)
    && (forall name :: read(OLD_NAME + name, false) == OldName(name))
    && (forall name :: read(NEW_NAME + name, false) == NewName(name))
    && (forall h, inHunk :: read(HunkHeader(h), inHunk) == Hunk(h.oldLine, h.newLine))
    && (forall kind, text :: read([Sign(kind)] + text, true) == Row(kind, text))
    && read(NO_NEWLINE, true) == Ignored
    && (forall inHunk :: read("", inHunk) == Ignored)
    && (forall line :: PlainHeader(line) ==> read(StripCr(line), false).Hunk? || read(StripCr(line), false).Ignored?)
  }

  lemma ClassifyTellsApart()
    ensures TellsApart(Classify)
  {
    forall rest, inHunk ensures Classify(MARKER + rest, inHunk) == Marker { ClassifyMarker(rest, inHunk); }
    forall name ensures Classify(OLD_NAME + name, false) == OldName(name) { ClassifyOldName(name); }
    forall name ensures Classify(NEW_NAME + name, false) == NewName(name) { ClassifyNewName(name); }
    forall h, inHunk ensures Classify(HunkHeader(h), inHunk) == Hunk(h.oldLine, h.newLine) { ClassifyHunk(h, inHunk); }
    forall kind, text ensures Classify([Sign(kind)] + text, true) == Row(kind, text) { ClassifyRow(kind, text); }
    ClassifyNoNewline();
    ClassifyEmpty();
    forall line | PlainHeader(line)
      ensures Classify(StripCr(line), false).Hunk? || Classify(StripCr(line), false).Ignored?
    {
      ClassifyPlain(line);
    }
  }

  lemma {:induction false} FeedAppend(read: Classifier, unquote: string -> Option<string>, s: State,
                                      a: seq<string>, b: seq<string>)
    ensures Feed(read, unquote, s, a + b) == Feed(read, unquote, Feed(read, unquote, s, a), b)
    decreases |a|
  {
    if a == [] {
      assert a + b == b;
    } else {
      assert (a + b)[1..] == a[1..] + b;
      FeedAppend(read, unquote, Step(read, unquote, s, a[0]), a[1..], b);
    }
  }

  lemma {:induction false} StripAppend(a: seq<string>, b: seq<string>)
    ensures StripAll(a + b) == StripAll(a) + StripAll(b)
  {
    if a == [] {
      assert a + b == b;
    } else {
      assert (a + b)[1..] == a[1..] + b;
      StripAppend(a[1..], b);
    }
  }

  /** Feeding printed lines in two parts. */
  lemma FeedParts(read: Classifier, unquote: string -> Option<string>, s: State, a: seq<string>, b: seq<string>)
    ensures Feed(read, unquote, s, StripAll(a + b)) == Feed(read, unquote, Feed(read, unquote, s, StripAll(a)), StripAll(b))
  {
    StripAppend(a, b);
    FeedAppend(read, unquote, s, StripAll(a), StripAll(b));
  }

  lemma FeedOne(read: Classifier, unquote: string -> Option<string>, s: State, line: string)
    ensures Feed(read, unquote, s, StripAll([line])) == Step(read, unquote, s, StripCr(line))
  {
    assert StripAll([line]) == [StripCr(line)] + [];
  }

  /** The state while the hunks of `path` are read, with `rows` read so far. */
  function Reading(files: Files, path: string, previous: string, rows: seq<DiffLine>, oldLine: nat, newLine: nat,
                   inHunk: bool): State {
    State(files[path := rows], path, previous, oldLine, newLine, inHunk)
  }

  lemma FeedRowLine(read: Classifier, unquote: string -> Option<string>, files: Files, path: string, previous: string,
                    rows: seq<DiffLine>, oldLine: nat, newLine: nat, kind: RowKind, text: string)
    requires TellsApart(read) && path != ""
    ensures Feed(read, unquote, Reading(files, path, previous, rows, oldLine, newLine, true), StripAll([[Sign(kind)] + text]))
            == Reading(files, path, previous, rows + [NumberedRow(kind, oldLine, newLine, StripCr(text))],
                       oldLine + (if kind == Add then 0 else 1), newLine + (if kind == Del then 0 else 1), true)
  {
    StripOfSum([Sign(kind)], text);
    FeedOne(read, unquote, Reading(files, path, previous, rows, oldLine, newLine, true), [Sign(kind)] + text);
    ReadsRow(read, kind, StripCr(text));
  }

  lemma ReadsRow(read: Classifier, kind: RowKind, text: string)
    requires TellsApart(read)
    ensures read([Sign(kind)] + text, true) == Row(kind, text)
  {}

  lemma FeedNoNewline(read: Classifier, unquote: string -> Option<string>, s: State)
    requires TellsApart(read) && s.inHunk
    ensures Feed(read, unquote, s, StripAll([NO_NEWLINE])) == s
  {
    FeedOne(read, unquote, s, NO_NEWLINE);
    assert StripCr(NO_NEWLINE) == NO_NEWLINE;
  }

  lemma FeedRow(read: Classifier, unquote: string -> Option<string>, files: Files, path: string, previous: string,
                rows: seq<DiffLine>, oldLine: nat, newLine: nat, r: PatchRow)
    requires TellsApart(read) && path != ""
    ensures Feed(read, unquote, Reading(files, path, previous, rows, oldLine, newLine, true), StripAll(RowLines(r)))
            == Reading(files, path, previous, rows + [NumberedRow(r.kind, oldLine, newLine, StripCr(r.text))],
                       oldLine + (if r.kind == Add then 0 else 1), newLine + (if r.kind == Del then 0 else 1), true)
  {
    var s := Reading(files, path, previous, rows, oldLine, newLine, true);
    var line := [Sign(r.kind)] + r.text;
    FeedRowLine(read, unquote, files, path, previous, rows, oldLine, newLine, r.kind, r.text);
    if r.noNewline {
      FeedParts(read, unquote, s, [line], [NO_NEWLINE]);
      FeedNoNewline(read, unquote, Feed(read, unquote, s, StripAll([line])));
    } else {
      assert RowLines(r) == [line];
    }
  }

  lemma {:induction false} FeedRows(read: Classifier, unquote: string -> Option<string>, files: Files, path: string,
                                    previous: string, before: seq<DiffLine>, oldLine: nat, newLine: nat, rows: seq<PatchRow>)
    returns (last: nat, lastNew: nat)
    requires TellsApart(read) && path != ""
    ensures Feed(read, unquote, Reading(files, path, previous, before, oldLine, newLine, true), StripAll(RowsLines(rows)))
            == Reading(files, path, previous, before + Numbered(CleanRows(rows), oldLine, newLine), last, lastNew, true)
    decreases |rows|
  {
    if rows == [] {
      assert before + [] == before;
      return oldLine, newLine;
    }
    var row := NumberedRow(rows[0].kind, oldLine, newLine, StripCr(rows[0].text));
    var nextOld := oldLine + (if rows[0].kind == Add then 0 else 1);
    var nextNew := newLine + (if rows[0].kind == Del then 0 else 1);
    FeedRow(read, unquote, files, path, previous, before, oldLine, newLine, rows[0]);
    FeedParts(read, unquote, Reading(files, path, previous, before, oldLine, newLine, true), RowLines(rows[0]), RowsLines(rows[1..]));
    last, lastNew := FeedRows(read, unquote, files, path, previous, before + [row], nextOld, nextNew, rows[1..]);
    var rest := Numbered(CleanRows(rows[1..]), nextOld, nextNew);
    assert before + [row] + rest == before + ([row] + rest);
    CleanRowsCons(rows, oldLine, newLine);
  }

  lemma CleanRowsCons(rows: seq<PatchRow>, oldLine: nat, newLine: nat)
    requires rows != []
    ensures Numbered(CleanRows(rows), oldLine, newLine)
            == [NumberedRow(rows[0].kind, oldLine, newLine, StripCr(rows[0].text))]
               + Numbered(CleanRows(rows[1..]), oldLine + (if rows[0].kind == Add then 0 else 1),
                          newLine + (if rows[0].kind == Del then 0 else 1))
  {
    assert CleanRows(rows)[1..] == CleanRows(rows[1..]);
  }

  lemma {:induction false} CleanKeepsCount(rows: seq<PatchRow>, not: RowKind)
    ensures Count(CleanRows(rows), not) == Count(rows, not)
  {
    if rows != [] {
      assert CleanRows(rows)[1..] == CleanRows(rows[1..]);
      CleanKeepsCount(rows[1..], not);
    }
  }

  lemma StripHeader(h: PatchHunk)
    ensures StripCr(HunkHeader(h)) == HunkHeader(CleanHunk(h))
  {
    CleanKeepsCount(h.rows, Add);
    CleanKeepsCount(h.rows, Del);
    var newSpan, oldSpan := Span(h.newLine, Count(h.rows, Del)), Span(h.oldLine, Count(h.rows, Add));
    StripOfSum(" @@", h.heading);
    StripOfSum(newSpan, " @@" + h.heading);
    StripOfSum(" +", newSpan + (" @@" + h.heading));
    StripOfSum(oldSpan, " +" + (newSpan + (" @@" + h.heading)));
    StripOfSum("@@ -", oldSpan + (" +" + (newSpan + (" @@" + h.heading))));
  }

  lemma FeedHunk(read: Classifier, unquote: string -> Option<string>, files: Files, path: string, previous: string,
                 before: seq<DiffLine>, oldLine: nat, newLine: nat, inHunk: bool, h: PatchHunk)
    returns (last: nat, lastNew: nat)
    requires TellsApart(read) && path != ""
    ensures Feed(read, unquote, Reading(files, path, previous, before, oldLine, newLine, inHunk), StripAll(HunkLines(h)))
            == Reading(files, path, previous, before + HunkRows(CleanHunk(h)), last, lastNew, true)
  {
    var s := Reading(files, path, previous, before, oldLine, newLine, inHunk);
    var header := HunkLine(HunkHeader(CleanHunk(h)));
    FeedParts(read, unquote, s, [HunkHeader(h)], RowsLines(h.rows));
    FeedOne(read, unquote, s, HunkHeader(h));
    StripHeader(h);
    ReadsHeader(read, CleanHunk(h), inHunk);
    assert Step(read, unquote, s, HunkHeader(CleanHunk(h)))
        == Reading(files, path, previous, before + [header], h.oldLine, h.newLine, true);
    last, lastNew := FeedRows(read, unquote, files, path, previous, before + [header], h.oldLine, h.newLine, h.rows);
    Regroup(before, [header], Numbered(CleanRows(h.rows), h.oldLine, h.newLine));
  }

  lemma ReadsHeader(read: Classifier, h: PatchHunk, inHunk: bool)
    requires TellsApart(read)
    ensures read(HunkHeader(h), inHunk) == Hunk(h.oldLine, h.newLine)
  {}

  lemma {:induction false} FeedHunks(read: Classifier, unquote: string -> Option<string>, files: Files, path: string,
                                     previous: string, before: seq<DiffLine>, oldLine: nat, newLine: nat, inHunk: bool,
                                     hunks: seq<PatchHunk>)
    returns (end: State)
    requires TellsApart(read) && path != ""
    ensures Feed(read, unquote, Reading(files, path, previous, before, oldLine, newLine, inHunk), StripAll(HunksLines(hunks)))
            == end
    ensures end.files == files[path := before + HunksRows(CleanHunks(hunks))]
    decreases |hunks|
  {
    if hunks == [] {
      assert before + [] == before;
      return Reading(files, path, previous, before, oldLine, newLine, inHunk);
    }
    FeedParts(read, unquote, Reading(files, path, previous, before, oldLine, newLine, inHunk), HunkLines(hunks[0]), HunksLines(hunks[1..]));
    var last, lastNew := FeedHunk(read, unquote, files, path, previous, before, oldLine, newLine, inHunk, hunks[0]);
    var rows := HunkRows(CleanHunk(hunks[0]));
    end := FeedHunks(read, unquote, files, path, previous, before + rows, last, lastNew, true, hunks[1..]);
    assert CleanHunks(hunks)[1..] == CleanHunks(hunks[1..]);
    Regroup(before, rows, HunksRows(CleanHunks(hunks[1..])));
  }

  /** Header lines between the marker and the names change nothing. */
  lemma {:induction false} FeedExtended(read: Classifier, unquote: string -> Option<string>, s: State, lines: seq<string>)
    requires TellsApart(read) && !s.inHunk && s.path == ""
    requires forall l :: l in lines ==> PlainHeader(l)
    ensures Feed(read, unquote, s, StripAll(lines)) == s
    decreases |lines|
  {
    if lines != [] {
      assert PlainHeader(lines[0]);
      assert StripAll(lines)[1..] == StripAll(lines[1..]);
      FeedExtended(read, unquote, s, lines[1..]);
    }
  }

  /** What a name in a header stands for. */
  lemma ShownReadsBack(quote: string -> string, unquote: string -> Option<string>, f: FilePatch, prefix: string)
    requires Faithful(quote, unquote) && ValidFile(f) && (prefix == "a/" || prefix == "b/")
    ensures NameLine(Shown(quote, f, prefix))
    ensures Filename(unquote, Shown(quote, f, prefix)) == f.path
  {
    var name := prefix + f.path;
    assert name[0] == prefix[0] && name[1] == prefix[1] == '/' && name[2..] == f.path;
    if f.quoted {
      assert NameLine(quote(name));
    }
  }

  lemma NowhereReadsBack(unquote: string -> Option<string>)
    ensures NameLine(NOWHERE) && Filename(unquote, NOWHERE) == NOWHERE
  {
    assert NOWHERE[0] == '/';
  }

  lemma FeedOldName(read: Classifier, unquote: string -> Option<string>, s: State, name: string, stamp: Option<string>)
    requires TellsApart(read) && NameLine(name) && !s.inHunk
    ensures Feed(read, unquote, s, StripAll([OLD_NAME + Stamped(name, stamp)])) == s.(previous := Filename(unquote, name))
  {
    ReadName(unquote, name, stamp);
    StripOfSum(OLD_NAME, Stamped(name, stamp));
    FeedOne(read, unquote, s, OLD_NAME + Stamped(name, stamp));
    ReadsNames(read, StripCr(Stamped(name, stamp)), "");
  }

  lemma FeedNewName(read: Classifier, unquote: string -> Option<string>, s: State, name: string, stamp: Option<string>)
    requires TellsApart(read) && NameLine(name) && !s.inHunk
    ensures var named := Filename(unquote, name); var path := if named == NOWHERE then s.previous else named;
            Feed(read, unquote, s, StripAll([NEW_NAME + Stamped(name, stamp)]))
            == Reading(s.files, path, s.previous, [], s.oldLine, s.newLine, false)
  {
    ReadName(unquote, name, stamp);
    StripOfSum(NEW_NAME, Stamped(name, stamp));
    FeedOne(read, unquote, s, NEW_NAME + Stamped(name, stamp));
    ReadsNames(read, "", StripCr(Stamped(name, stamp)));
  }

  /** The two names of a header: the file is the one that is somewhere. */
  lemma FeedNames(read: Classifier, quote: string -> string, unquote: string -> Option<string>, s: State, f: FilePatch)
    requires TellsApart(read) && Faithful(quote, unquote) && ValidFile(f)
    requires s.path == "" && !s.inHunk
    ensures var names := [OLD_NAME + Stamped(OldShown(quote, f), f.stamp), NEW_NAME + Stamped(NewShown(quote, f), f.stamp)];
            var now := Feed(read, unquote, s, StripAll(names));
            now == Reading(s.files, f.path, now.previous, [], s.oldLine, s.newLine, false)
  {
    var oldName, newName := OLD_NAME + Stamped(OldShown(quote, f), f.stamp), NEW_NAME + Stamped(NewShown(quote, f), f.stamp);
    ShownReadsBack(quote, unquote, f, "a/");
    ShownReadsBack(quote, unquote, f, "b/");
    NowhereReadsBack(unquote);
    assert [oldName] + [newName] == [oldName, newName];
    FeedParts(read, unquote, s, [oldName], [newName]);
    FeedOldName(read, unquote, s, OldShown(quote, f), f.stamp);
    FeedNewName(read, unquote, s.(previous := Filename(unquote, OldShown(quote, f))), NewShown(quote, f), f.stamp);
  }

  lemma ReadsNames(read: Classifier, oldName: string, newName: string)
    requires TellsApart(read)
    ensures read(OLD_NAME + oldName, false) == OldName(oldName)
    ensures read(NEW_NAME + newName, false) == NewName(newName)
  {}

  lemma FeedMarker(read: Classifier, unquote: string -> Option<string>, s: State, rest: string)
    requires TellsApart(read)
    ensures Feed(read, unquote, s, StripAll([MARKER + rest])) == s.(inHunk := false, path := "", previous := "")
  {
    StripOfSum(MARKER, rest);
    FeedOne(read, unquote, s, MARKER + rest);
    assert read(MARKER + StripCr(rest), s.inHunk) == Marker;
  }

  /** Whatever was read before, a printed file adds its rows and nothing else. */
  lemma FeedFile(read: Classifier, quote: string -> string, unquote: string -> Option<string>, s: State, f: FilePatch)
    requires TellsApart(read) && Faithful(quote, unquote) && ValidFile(f)
    ensures Feed(read, unquote, s, StripAll(FileLines(quote, f))).files
            == s.files[f.path := HunksRows(CleanHunks(f.hunks))]
  {
    var rest := Shown(quote, f, "a/") + " " + Shown(quote, f, "b/");
    var names := [OLD_NAME + Stamped(OldShown(quote, f), f.stamp), NEW_NAME + Stamped(NewShown(quote, f), f.stamp)];
    var clear := s.(inHunk := false, path := "", previous := "");
    FeedParts(read, unquote, s, [MARKER + rest] + f.extended + names, HunksLines(f.hunks));
    FeedParts(read, unquote, s, [MARKER + rest] + f.extended, names);
    FeedParts(read, unquote, s, [MARKER + rest], f.extended);
    FeedMarker(read, unquote, s, rest);
    FeedExtended(read, unquote, clear, f.extended);
    FeedNames(read, quote, unquote, clear, f);
    var named := Feed(read, unquote, clear, StripAll(names));
    var end := FeedHunks(read, unquote, s.files, f.path, named.previous, [], s.oldLine, s.newLine, false, f.hunks);
    assert [] + HunksRows(CleanHunks(f.hunks)) == HunksRows(CleanHunks(f.hunks));
  }

  lemma {:induction false} FeedPatch(read: Classifier, quote: string -> string, unquote: string -> Option<string>,
                                     s: State, patch: seq<FilePatch>)
    requires TellsApart(read) && Faithful(quote, unquote) && ValidPatch(patch)
    ensures Feed(read, unquote, s, StripAll(PatchLines(quote, patch))).files == RowsByPath(Clean(patch), s.files)
    decreases |patch|
  {
    if patch != [] {
      FeedParts(read, unquote, s, FileLines(quote, patch[0]), PatchLines(quote, patch[1..]));
      FeedFile(read, quote, unquote, s, patch[0]);
      FeedPatch(read, quote, unquote, Feed(read, unquote, s, StripAll(FileLines(quote, patch[0]))), patch[1..]);
      assert Clean(patch)[1..] == Clean(patch[1..]);
    }
  }

  // ---------------------------------------------------- printed lines are lines

  predicate AllOneLine(lines: seq<string>) {
    forall l :: l in lines ==> OneLine(l)
  }

  lemma {:induction false} RowsAreLines(rows: seq<PatchRow>)
    requires forall r :: r in rows ==> OneLine(r.text)
    ensures AllOneLine(RowsLines(rows))
  {
    if rows != [] {
      RowsAreLines(rows[1..]);
      assert OneLine(rows[0].text);
      assert AllOneLine(RowLines(rows[0]));
    }
  }

  lemma HeaderIsLine(h: PatchHunk)
    requires OneLine(h.heading)
    ensures OneLine(HunkHeader(h))
  {
    assert OneLine(Span(h.oldLine, Count(h.rows, Add))) && OneLine(Span(h.newLine, Count(h.rows, Del)));
  }

  lemma {:induction false} HunksAreLines(hunks: seq<PatchHunk>)
    requires forall h :: h in hunks ==> ValidHunk(h)
    ensures AllOneLine(HunksLines(hunks))
  {
    if hunks != [] {
      HunksAreLines(hunks[1..]);
      assert ValidHunk(hunks[0]);
      HeaderIsLine(hunks[0]);
      RowsAreLines(hunks[0].rows);
    }
  }

  lemma FileIsLines(quote: string -> string, unquote: string -> Option<string>, f: FilePatch)
    requires Faithful(quote, unquote) && ValidFile(f)
    ensures AllOneLine(FileLines(quote, f))
  {
    ShownReadsBack(quote, unquote, f, "a/");
    ShownReadsBack(quote, unquote, f, "b/");
    NowhereReadsBack(unquote);
    HunksAreLines(f.hunks);
    assert OneLine(MARKER + (Shown(quote, f, "a/") + " " + Shown(quote, f, "b/")));
    assert OneLine(OLD_NAME + Stamped(OldShown(quote, f), f.stamp));
    assert OneLine(NEW_NAME + Stamped(NewShown(quote, f), f.stamp));
    assert forall l :: l in f.extended ==> PlainHeader(l);
  }

  lemma {:induction false} PatchIsLines(quote: string -> string, unquote: string -> Option<string>, patch: seq<FilePatch>)
    requires Faithful(quote, unquote) && ValidPatch(patch)
    ensures AllOneLine(PatchLines(quote, patch))
  {
    if patch != [] {
      FileIsLines(quote, unquote, patch[0]);
      PatchIsLines(quote, unquote, patch[1..]);
    }
  }

  // --------------------------------------------------------------- main results

  lemma SplitPrinted(lines: seq<string>)
    requires AllOneLine(lines)
    ensures SplitLines(Unlines(lines)) == StripAll(lines) + [""]
  {
    assert forall l :: l in lines ==> OneLine(l);
    var k := LinesOfPrefix(lines, Unlines(lines));
    assert lines[..k] == lines;
  }

  lemma FeedPrinted(read: Classifier, quote: string -> string, unquote: string -> Option<string>, patch: seq<FilePatch>)
    requires TellsApart(read) && Faithful(quote, unquote) && ValidPatch(patch)
    ensures Feed(read, unquote, START, SplitLines(Print(quote, patch))).files == RowsByPath(Clean(patch), map[])
  {
    var lines := PatchLines(quote, patch);
    PatchIsLines(quote, unquote, patch);
    SplitPrinted(lines);
    FeedAppend(read, unquote, START, StripAll(lines), [""]);
    FeedPatch(read, quote, unquote, START, patch);
    LastIsIgnored(read, unquote, Feed(read, unquote, START, StripAll(lines)));
  }

  /** Parsing undoes printing up to one carriage return at the end of a row. */
  lemma ParseUndoesPrint(quote: string -> string, unquote: string -> Option<string>, patch: seq<FilePatch>)
    requires Faithful(quote, unquote) && ValidPatch(patch)
    ensures Parsed(unquote, Print(quote, patch)) == RowsByPath(Clean(patch), map[])
  {
    ClassifyTellsApart();
    FeedPrinted(Classify, quote, unquote, patch);
  }

  lemma LastIsIgnored(read: Classifier, unquote: string -> Option<string>, s: State)
    requires TellsApart(read)
    ensures Feed(read, unquote, s, [""]) == s
  {
    assert [""][1..] == [];
  }

  ghost predicate DistinctPaths(patch: seq<FilePatch>) {
    forall i, j :: 0 <= i < j < |patch| ==> patch[i].path != patch[j].path
  }

  lemma {:induction false} RowsOfEachFile(patch: seq<FilePatch>, before: Files)
    requires DistinctPaths(patch)
    ensures forall f :: f in patch ==>
              f.path in RowsByPath(patch, before) && RowsByPath(patch, before)[f.path] == HunksRows(f.hunks)
    ensures forall p :: p in RowsByPath(patch, before) <==> p in before || exists f :: f in patch && f.path == p
    ensures forall p :: p in before && (forall f :: f in patch ==> f.path != p) ==>
              p in RowsByPath(patch, before) && RowsByPath(patch, before)[p] == before[p]
    decreases |patch|
  {
    if patch != [] {
      RowsOfEachFile(patch[1..], before[patch[0].path := HunksRows(patch[0].hunks)]);
      assert forall f :: f in patch <==> f == patch[0] || f in patch[1..];
    }
  }

  /** For distinct paths the parse has exactly the printed files. */
  lemma ParseReturnsEveryFile(quote: string -> string, unquote: string -> Option<string>, patch: seq<FilePatch>)
    requires Faithful(quote, unquote) && ValidPatch(patch) && DistinctPaths(patch)
    ensures var files := Parsed(unquote, Print(quote, patch));
            && (forall p :: p in files <==> exists f :: f in patch && f.path == p)
            && (forall f :: f in patch ==> f.path in files && files[f.path] == HunksRows(CleanHunks(f.hunks)))
  {
    ParseUndoesPrint(quote, unquote, patch);
    CleanFiles(patch, RowsByPath(Clean(patch), map[]));
  }

  lemma CleanFiles(patch: seq<FilePatch>, files: Files)
    requires DistinctPaths(patch) && files == RowsByPath(Clean(patch), map[])
    ensures forall p :: p in files <==> exists f :: f in patch && f.path == p
    ensures forall f :: f in patch ==> f.path in files && files[f.path] == HunksRows(CleanHunks(f.hunks))
  {
    CleanAt(patch);
    RowsOfEachFile(Clean(patch), map[]);
    forall f | f in patch ensures f.(hunks := CleanHunks(f.hunks)) in Clean(patch) {}
    forall p | p in files ensures exists f :: f in patch && f.path == p {
      var g :| g in Clean(patch) && g.path == p;
      var i :| 0 <= i < |patch| && Clean(patch)[i] == g;
      assert patch[i] in patch;
    }
  }

  lemma {:induction false} CleanAt(patch: seq<FilePatch>)
    ensures |Clean(patch)| == |patch|
    ensures forall i :: 0 <= i < |patch| ==> Clean(patch)[i] == patch[i].(hunks := CleanHunks(patch[i].hunks))
  {
    if patch != [] {
      CleanAt(patch[1..]);
    }
  }

  /** The old-file line a row has is the hunk's first line plus the rows before it
      that are in the old file, and likewise for the new file. */
  lemma {:induction false} NumberingIsConsecutive(rows: seq<PatchRow>, oldLine: nat, newLine: nat, k: nat)
    requires k < |rows|
    ensures |Numbered(rows, oldLine, newLine)| == |rows|
    ensures Numbered(rows, oldLine, newLine)[k]
            == NumberedRow(rows[k].kind, oldLine + Count(rows[..k], Add), newLine + Count(rows[..k], Del), rows[k].text)
    decreases |rows|
  {
    if k == 0 {
      NumberedLength(rows, oldLine, newLine);
    } else {
      var nextOld := oldLine + (if rows[0].kind == Add then 0 else 1);
      var nextNew := newLine + (if rows[0].kind == Del then 0 else 1);
      NumberingIsConsecutive(rows[1..], nextOld, nextNew, k - 1);
      assert rows[..k][1..] == rows[1..][..k - 1];
    }
  }

  lemma {:induction false} NumberedLength(rows: seq<PatchRow>, oldLine: nat, newLine: nat)
    ensures |Numbered(rows, oldLine, newLine)| == |rows|
    decreases |rows|
  {
    if rows != [] {
      NumberedLength(rows[1..], oldLine + (if rows[0].kind == Add then 0 else 1), newLine + (if rows[0].kind == Del then 0 else 1));
    }
  }

  // -------------------------------------------------- when a parse is exact

  predicate EndsInCr(s: string) {
    s != "" && s[|s| - 1] == '\r'
  }

  ghost predicate HasCr(h: PatchHunk) {
    EndsInCr(h.heading) || exists r :: r in h.rows && EndsInCr(r.text)
  }

  lemma {:induction false} CleanRowsExact(rows: seq<PatchRow>, oldLine: nat, newLine: nat)
    ensures Numbered(CleanRows(rows), oldLine, newLine) == Numbered(rows, oldLine, newLine)
            <==> forall r :: r in rows ==> !EndsInCr(r.text)
    decreases |rows|
  {
    if rows != [] {
      var nextOld := oldLine + (if rows[0].kind == Add then 0 else 1);
      var nextNew := newLine + (if rows[0].kind == Del then 0 else 1);
      CleanRowsExact(rows[1..], nextOld, nextNew);
      CleanRowsCons(rows, oldLine, newLine);
      var head, cleanHead := NumberedRow(rows[0].kind, oldLine, newLine, rows[0].text), NumberedRow(rows[0].kind, oldLine, newLine, StripCr(rows[0].text));
      SameHeadAndTail(cleanHead, Numbered(CleanRows(rows[1..]), nextOld, nextNew), head, Numbered(rows[1..], nextOld, nextNew));
    }
  }

  lemma SameHeadAndTail<T>(a: T, s: seq<T>, b: T, t: seq<T>)
    ensures [a] + s == [b] + t <==> a == b && s == t
  {
    if [a] + s == [b] + t {
      assert a == ([a] + s)[0] == ([b] + t)[0] == b;
      assert s == ([a] + s)[1..] == ([b] + t)[1..] == t;
    }
  }

  lemma CleanHunkExact(h: PatchHunk)
    ensures HunkRows(CleanHunk(h)) == HunkRows(h) <==> !HasCr(h)
  {
    CleanRowsExact(h.rows, h.oldLine, h.newLine);
    StripHeader(h);
    StripHeader(h.(rows := []));
    var header := HunkHeader(h);
    HeaderEnd(h);
    SameHeadAndTail(HunkLine(StripCr(header)), Numbered(CleanRows(h.rows), h.oldLine, h.newLine),
                    HunkLine(header), Numbered(h.rows, h.oldLine, h.newLine));
  }

  lemma HeaderEnd(h: PatchHunk)
    ensures EndsInCr(HunkHeader(h)) <==> EndsInCr(h.heading)
  {
    var start := HunkHeader(h.(heading := ""));
    assert HunkHeader(h) == start + h.heading;
    assert start[|start| - 1] == '@';
  }

  lemma {:induction false} CleanHunksExact(hunks: seq<PatchHunk>)
    ensures HunksRows(CleanHunks(hunks)) == HunksRows(hunks) <==> forall h :: h in hunks ==> !HasCr(h)
  {
    if hunks != [] {
      CleanHunksExact(hunks[1..]);
      CleanHunkExact(hunks[0]);
      NumberedLength(hunks[0].rows, hunks[0].oldLine, hunks[0].newLine);
      NumberedLength(CleanRows(hunks[0].rows), hunks[0].oldLine, hunks[0].newLine);
      CleanRowsLength(hunks[0].rows);
      assert CleanHunks(hunks)[1..] == CleanHunks(hunks[1..]);
      SameParts(HunkRows(CleanHunk(hunks[0])), HunksRows(CleanHunks(hunks[1..])), HunkRows(hunks[0]), HunksRows(hunks[1..]));
    }
  }

  lemma {:induction false} CleanRowsLength(rows: seq<PatchRow>)
    ensures |CleanRows(rows)| == |rows|
  {
    if rows != [] {
      CleanRowsLength(rows[1..]);
    }
  }

  lemma SameParts<T>(a: seq<T>, s: seq<T>, b: seq<T>, t: seq<T>)
    requires |a| == |b|
    ensures a + s == b + t <==> a == b && s == t
  {
    if a + s == b + t {
      assert a == (a + s)[..|a|] == (b + t)[..|b|] == b;
      assert s == (a + s)[|a|..] == (b + t)[|b|..] == t;
    }
  }

  /** A file reads back exactly when no row and no heading of it ends in a
      carriage return. */
  lemma ParseIsExact(quote: string -> string, unquote: string -> Option<string>, patch: seq<FilePatch>, f: FilePatch)
    requires Faithful(quote, unquote) && ValidPatch(patch) && DistinctPaths(patch) && f in patch
    ensures var files := Parsed(unquote, Print(quote, patch));
            f.path in files && (files[f.path] == HunksRows(f.hunks) <==> forall h :: h in f.hunks ==> !HasCr(h))
  {
    ParseReturnsEveryFile(quote, unquote, patch);
    CleanHunksExact(f.hunks);
  }

  /** A quoted name that is no JSON text, such as one with the octal escapes git
      prints for bytes outside ASCII, is kept with its quotes and escapes; one that
      is read loses its prefix. */
  lemma UnreadableNameIsKept(unquote: string -> Option<string>, quoted: string, name: string)
    requires NameLine(quoted) && quoted[0] == '"'
    ensures unquote(quoted).None? ==> Filename(unquote, quoted) == quoted
    ensures unquote(quoted) == Some("a/" + name) || unquote(quoted) == Some("b/" + name) ==> Filename(unquote, quoted) == name
  {
    assert ("a/" + name)[2..] == name && ("b/" + name)[2..] == name;
  }

  /** The path two header lines name: the old one if the file is gone. */
  function HeaderPath(unquote: string -> Option<string>, oldName: string, newName: string): string {
    if Filename(unquote, newName) == NOWHERE then Filename(unquote, oldName) else Filename(unquote, newName)
  }

  /** The rows of a new file are collected from here on. */
  predicate BeginsFile(now: State, path: string) {
    now.path == path && path in now.files && now.files[path] == []
  }

  predicate HunksHavePaths(s: State) {
    s.inHunk ==> s.path != ""
  }

  /** File names are read outside hunks only. */
  ghost predicate NamesOutside(read: Classifier) {
    forall line :: !read(line, true).NewName?
  }

  lemma ClassifyNamesOutside()
    ensures NamesOutside(Classify)
  {}

  /** The loop is in a hunk only behind a file header. */
  lemma {:induction false} FeedKeepsPaths(read: Classifier, unquote: string -> Option<string>, s: State, lines: seq<string>)
    requires NamesOutside(read) && HunksHavePaths(s)
    ensures HunksHavePaths(Feed(read, unquote, s, lines))
    decreases |lines|
  {
    if lines != [] {
      FeedKeepsPaths(read, unquote, Step(read, unquote, s, lines[0]), lines[1..]);
    }
  }

  /** Wherever the loop has got to: the two header lines of a file begin that file
      exactly if it is not in a hunk. Behind a hunk, as plain `diff -u` prints them
      for a second file, they are a deleted and an added row of the first. The two
      demands on `read` are met by `Classify`. */
  lemma HeadersBeginAFileOutsideHunksOnly(read: Classifier, unquote: string -> Option<string>, lines: seq<string>,
                                          oldName: string, newName: string)
    requires TellsApart(read) && NamesOutside(read)
    ensures var s := Feed(read, unquote, START, lines);
            var now := Feed(read, unquote, START, lines + [OLD_NAME + oldName, NEW_NAME + newName]);
            && (BeginsFile(now, HeaderPath(unquote, oldName, newName)) <==> !s.inHunk)
            && (s.inHunk ==>
                  && now.path == s.path
                  && now.files == Push(Push(s.files, s.path, NumberedRow(Del, s.oldLine, s.newLine, "-- " + oldName)),
                                       s.path, NumberedRow(Add, s.oldLine + 1, s.newLine, "++ " + newName)))
  {
    FeedKeepsPaths(read, unquote, START, lines);
    FeedAppend(read, unquote, START, lines, [OLD_NAME + oldName, NEW_NAME + newName]);
    HeadersOfAFile(read, unquote, Feed(read, unquote, START, lines), oldName, newName);
  }

  lemma ClassifyReadsHeaders()
    ensures TellsApart(Classify) && NamesOutside(Classify)
  {
    ClassifyTellsApart();
    ClassifyNamesOutside();
  }

  lemma HeadersOfAFile(read: Classifier, unquote: string -> Option<string>, s: State, oldName: string, newName: string)
    requires TellsApart(read) && HunksHavePaths(s)
    ensures var now := Feed(read, unquote, s, [OLD_NAME + oldName, NEW_NAME + newName]);
            && (BeginsFile(now, HeaderPath(unquote, oldName, newName)) <==> !s.inHunk)
            && (s.inHunk ==>
                  && now.path == s.path
                  && now.files == Push(Push(s.files, s.path, NumberedRow(Del, s.oldLine, s.newLine, "-- " + oldName)),
                                       s.path, NumberedRow(Add, s.oldLine + 1, s.newLine, "++ " + newName)))
  {
    assert [OLD_NAME + oldName] + [NEW_NAME + newName] == [OLD_NAME + oldName, NEW_NAME + newName];
    FeedAppend(read, unquote, s, [OLD_NAME + oldName], [NEW_NAME + newName]);
    if s.inHunk {
      HeadersInsideHunksAreRows(read, unquote, s, oldName, newName);
    } else {
      HeadersOutsideHunks(read, unquote, s, oldName, newName);
    }
  }

  lemma HeadersOutsideHunks(read: Classifier, unquote: string -> Option<string>, s: State, oldName: string, newName: string)
    requires TellsApart(read) && !s.inHunk
    ensures var now := Feed(read, unquote, Feed(read, unquote, s, [OLD_NAME + oldName]), [NEW_NAME + newName]);
            BeginsFile(now, HeaderPath(unquote, oldName, newName))
  {
    ReadsNames(read, oldName, newName);
  }

  lemma HeadersInsideHunksAreRows(read: Classifier, unquote: string -> Option<string>, s: State, oldName: string, newName: string)
    requires TellsApart(read) && s.inHunk && s.path != ""
    ensures var now := Feed(read, unquote, Feed(read, unquote, s, [OLD_NAME + oldName]), [NEW_NAME + newName]);
            && now.path == s.path && !BeginsFile(now, s.path)
            && now.files == Push(Push(s.files, s.path, NumberedRow(Del, s.oldLine, s.newLine, "-- " + oldName)),
                                 s.path, NumberedRow(Add, s.oldLine + 1, s.newLine, "++ " + newName))
  {
    ReadsRow(read, Del, "-- " + oldName);
    ReadsRow(read, Add, "++ " + newName);
    assert [Sign(Del)] + ("-- " + oldName) == OLD_NAME + oldName;
    assert [Sign(Add)] + ("++ " + newName) == NEW_NAME + newName;
  }
}
