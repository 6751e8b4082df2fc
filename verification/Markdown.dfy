/** The block structure of a message: `renderBlocks` (webview/src/markdown.tsx). */
module Markdown {
  import opened Sequences
  import opened Wrappers
  import opened Text

  // ------------------------------------------------------------- kinds of lines

  /** Leading characters that `\s` matches. */
  function SpaceRun(s: string): (n: nat)
    ensures n <= |s|
  {
    if s != "" && IsSpace(s[0]) then 1 + SpaceRun(s[1..]) else 0
  }

  function Body(line: string): string {
    line[SpaceRun(line)..]
  }

  predicate Blank(line: string) {
    Body(line) == ""
  }

  /** What `.` does not match, besides the newline that lines do not hold. */
  predicate IsTerminator(c: char) {
    c == '\r' || c == '\U{2028}' || c == '\U{2029}'
  }

  predicate HasTerminator(s: string) {
    exists c :: c in s && IsTerminator(c)
  }

  /** The number of leading characters `c`. */
  function Run(s: string, c: char): (n: nat)
    ensures n <= |s|
  {
    if s != "" && s[0] == c then 1 + Run(s[1..], c) else 0
  }

  /** A line that closes a fence and ends a paragraph. */
  predicate FenceStart(line: string) {
    Run(Body(line), '`') >= 3
  }

  /** A line that opens a fence. */
  predicate Fence(line: string) {
    FenceStart(line) && !HasTerminator(Body(line)[3..])
  }

  /** A line that ends a paragraph as a heading would. */
  predicate HeadingStart(line: string) {
    var n := Run(line, '#');
    1 <= n <= 6 && n < |line| && IsSpace(line[n])
  }

  /** A line that is a heading. */
  predicate Heading(line: string) {
    HeadingStart(line) && !HasTerminator(Body(line[Run(line, '#')..]))
  }

  predicate QuoteLine(line: string) {
    Body(line) != "" && Body(line)[0] == '>'
  }

  /** The line without its mark, as `replace` leaves it. */
  function Unquoted(line: string): string {
    if !QuoteLine(line) then line
    else
      var rest := Body(line)[1..];
      if rest != "" && IsSpace(rest[0]) then rest[1..] else rest
  }

  function Digits(s: string): (n: nat)
    ensures n <= |s|
  {
    if s != "" && IsDigit(s[0]) then 1 + Digits(s[1..]) else 0
  }

  /** The length of a list marker: a bullet, or a number with its dot or bracket. */
  function Marker(s: string): (n: nat)
    ensures n <= |s|
  {
    var d := Digits(s);
    if s != "" && s[0] in "-*+" then 1
    else if d > 0 && d < |s| && s[d] in ".)" then d + 1
    else 0
  }

  predicate ListLine(line: string) {
    var n := Marker(Body(line));
    n > 0 && n < |Body(line)| && IsSpace(Body(line)[n])
  }

  predicate OrderedLine(line: string) {
    ListLine(line) && Digits(Body(line)) > 0
  }

  function Unmarked(line: string): string {
    if !ListLine(line) then line else Body(Body(line)[Marker(Body(line))..])
  }

  predicate RuleLine(line: string) {
    var s := Body(line);
    s != "" && s[0] in "-*_" && Run(s, s[0]) >= 3 && Blank(s[Run(s, s[0])..])
  }

  /** What a paragraph goes on over. */
  predicate Plain(line: string) {
    !Blank(line) && !FenceStart(line) && !HeadingStart(line) && !QuoteLine(line) && !ListLine(line)
  }

  /** A line that ends a paragraph but starts no block. */
  predicate Stuck(line: string) {
    (FenceStart(line) && !Fence(line)) || (HeadingStart(line) && !Heading(line))
  }

  // ----------------------------------------------------------------- the blocks

  /** Index of the first line from `i` on for which `p` fails. */
  function While(lines: seq<string>, i: nat, p: string -> bool): (j: nat)
    requires i <= |lines|
    ensures i <= j <= |lines|
    ensures forall k :: i <= k < j ==> p(lines[k])
    ensures j < |lines| ==> !p(lines[j])
    decreases |lines| - i
  {
    if i == |lines| || !p(lines[i]) then i else While(lines, i + 1, p)
  }

  /** Lines `i` to `j`, each changed by `f`. */
  function Changed(lines: seq<string>, i: nat, j: nat, f: string -> string): seq<string>
    requires i <= j <= |lines|
    decreases j - i
  {
    if i == j then [] else [f(lines[i])] + Changed(lines, i + 1, j, f)
  }

  /** A block and the lines it was made of. */
  datatype Placed = Placed(from: nat, to: nat, block: Block)

  datatype Block =
    | Code(language: string, body: seq<string>)
    | Title(level: nat, text: string)
    | Quote(blocks: seq<Placed>)
    | List(ordered: bool, items: seq<string>)
    | Rule
    | Paragraph(lines: seq<string>)

  /** Characters and lines of a text: what recursion into quotes uses up. */
  function Size(lines: seq<string>): nat {
    if lines == [] then 0 else |lines[0]| + 1 + Size(lines[1..])
  }

  lemma UnquotedIsShorter(line: string)
    requires QuoteLine(line)
    ensures |Unquoted(line)| < |line|
  {}

  lemma {:induction false} UnquotingShrinks(lines: seq<string>, i: nat, j: nat)
    requires i <= j <= |lines| && forall k :: i <= k < j ==> QuoteLine(lines[k])
    ensures Size(Changed(lines, i, j, Unquoted)) + (j - i) <= Size(lines[i..])
    decreases j - i
  {
    if i < j {
      UnquotedIsShorter(lines[i]);
      UnquotingShrinks(lines, i + 1, j);
      assert lines[i..][1..] == lines[i + 1..];
      var rest := Changed(lines, i + 1, j, Unquoted);
      assert ([Unquoted(lines[i])] + rest)[1..] == rest;
    }
  }

  lemma {:induction false} SizeOfRest(lines: seq<string>, i: nat)
    requires i <= |lines|
    ensures Size(lines[i..]) <= Size(lines)
  {
    if i > 0 {
      SizeOfRest(lines[1..], i - 1);
      assert lines[1..][i - 1..] == lines[i..];
    }
  }

  /** The lines of the quote at `i`, without their marks: a smaller text. */
  function QuotedAt(lines: seq<string>, i: nat): (quoted: seq<string>)
    requires i < |lines| && QuoteLine(lines[i])
    ensures Size(quoted) < Size(lines)
  {
    UnquotingShrinks(lines, i, While(lines, i, QuoteLine));
    SizeOfRest(lines, i);
    Changed(lines, i, While(lines, i, QuoteLine), Unquoted)
  }

  predicate NoFence(line: string) {
    !FenceStart(line)
  }

  /** Index behind the block that starts at line `i`, which is not blank: a fence
      takes its closing line, if there is one. */
  function BlockEnd(lines: seq<string>, i: nat): (j: nat)
    requires i < |lines|
    ensures i <= j <= |lines|
  {
    var line := lines[i];
    if Fence(line) then
      var close := While(lines, i + 1, NoFence);
      if close < |lines| then close + 1 else close
    else if Heading(line) then i + 1
    else if QuoteLine(line) then While(lines, i, QuoteLine)
    else if ListLine(line) then While(lines, i, ListLine)
    else if RuleLine(line) then i + 1
    else While(lines, i, Plain)
  }

  /** The blocks from line `i` on, or none if the loop never gets to the end. */
  function Blocks(lines: seq<string>, i: nat): Option<seq<Placed>>
    requires i <= |lines|
    decreases Size(lines), |lines| - i
  {
    if i == |lines| then Some([])
    else if Blank(lines[i]) then Blocks(lines, i + 1)
    else
      var end := BlockEnd(lines, i);
      if end == i then None
      else
        var block := BlockAt(lines, i);
        if block.None? then None
        else
          var rest := Blocks(lines, end);
          if rest.None? then None else Some([Placed(i, end, block.value)] + rest.value)
  }

  function BlockAt(lines: seq<string>, i: nat): Option<Block>
    requires i < |lines|
    decreases Size(lines), |lines| - i, 0
  {
    var line := lines[i];
    var end := BlockEnd(lines, i);
    if Fence(line) then Some(Code(Trim(Body(line)[3..]), lines[i + 1..While(lines, i + 1, NoFence)]))
    else if Heading(line) then Some(Title(Run(line, '#'), Body(line[Run(line, '#')..])))
    else if QuoteLine(line) then
      var quoted := Blocks(QuotedAt(lines, i), 0);
      if quoted.None? then None else Some(Quote(quoted.value))
    else if ListLine(line) then
      Some(List(OrderedLine(line), Changed(lines, i, end, Unmarked)))
    else if RuleLine(line) then Some(Rule)
    else Some(Paragraph(lines[i..end]))
  }

  // ---------------------------------------------------------------- the renderer

  /** The inner loops: an index moves on while its line satisfies `p`. */
  method Advance(lines: seq<string>, from: nat, p: string -> bool) returns (i: nat)
    requires from <= |lines|
    ensures i == While(lines, from, p)
  {
    i := from;
    while i < |lines| && p(lines[i])
      invariant from <= i <= |lines|
      invariant While(lines, i, p) == While(lines, from, p)
    {
      i := i + 1;
    }
  }

  /** Pushing lines without their marks. */
  method Collect(lines: seq<string>, from: nat, to: nat, f: string -> string) returns (out: seq<string>)
    requires from <= to <= |lines|
    ensures out == Changed(lines, from, to, f)
  {
    out := [];
    for i := from to to
      invariant out + Changed(lines, i, to, f) == Changed(lines, from, to, f)
    {
      Regroup(out, [f(lines[i])], Changed(lines, i + 1, to, f));
      out := out + [f(lines[i])];
    }
  }

  /** `renderBlocks`. Where its loop would go round for ever at a line, this
      returns none. */
  method RenderBlocks(lines: seq<string>) returns (blocks: Option<seq<Placed>>)
    ensures blocks == Blocks(lines, 0)
    decreases Size(lines), 1
  {
    var placed: seq<Placed> := [];
    var i := 0;
    JoinNone(Blocks(lines, 0));
    while i < |lines|
      invariant i <= |lines|
      invariant Blocks(lines, 0) == Joined(placed, Blocks(lines, i))
      decreases |lines| - i
    {
      if Blank(lines[i]) {
        i := i + 1;
        continue;
      }
      var end, block := RenderBlock(lines, i);
      if end == i || block.None? {
        return None;
      }
      JoinOne(placed, Placed(i, end, block.value), Blocks(lines, end));
      placed := placed + [Placed(i, end, block.value)];
      i := end;
    }
    assert placed + [] == placed;
    return Some(placed);
  }

  function Joined(front: seq<Placed>, rest: Option<seq<Placed>>): Option<seq<Placed>> {
    if rest.None? then None else Some(front + rest.value)
  }

  lemma JoinNone(rest: Option<seq<Placed>>)
    ensures Joined([], rest) == rest
  {
    if rest.Some? {
      assert [] + rest.value == rest.value;
    }
  }

  lemma JoinOne(front: seq<Placed>, p: Placed, rest: Option<seq<Placed>>)
    ensures Joined(front, Joined([p], rest)) == Joined(front + [p], rest)
  {
    if rest.Some? {
      assert front + ([p] + rest.value) == front + [p] + rest.value;
    }
  }

  /** One round of the loop at a line that is not blank. */
  method RenderBlock(lines: seq<string>, i: nat) returns (end: nat, block: Option<Block>)
    requires i < |lines|
    ensures end == BlockEnd(lines, i) && block == BlockAt(lines, i)
    decreases Size(lines), 0
  {
    var line := lines[i];
    if Fence(line) {
      end := Advance(lines, i + 1, NoFence);
      block := Some(Code(Trim(Body(line)[3..]), lines[i + 1..end]));
      if end < |lines| { end := end + 1; }
    } else if Heading(line) {
      end, block := i + 1, Some(Title(Run(line, '#'), Body(line[Run(line, '#')..])));
    } else if QuoteLine(line) {
      end := Advance(lines, i, QuoteLine);
      var quote := Collect(lines, i, end, Unquoted);
      assert quote == QuotedAt(lines, i);
      var inner := RenderBlocks(quote);
      block := if inner.None? then None else Some(Quote(inner.value));
    } else if ListLine(line) {
      end := Advance(lines, i, ListLine);
      var items := Collect(lines, i, end, Unmarked);
      block := Some(List(OrderedLine(line), items));
    } else if RuleLine(line) {
      end, block := i + 1, Some(Rule);
    } else {
      end := Advance(lines, i, Plain);
      block := Some(Paragraph(lines[i..end]));
    }
  }

  // --------------------------------------------------------------- main results

  lemma FirstOfFence(line: string)
    requires FenceStart(line)
    ensures Body(line) != "" && Body(line)[0] == '`'
  {}

  lemma FirstOfHeading(line: string)
    requires HeadingStart(line)
    ensures Body(line) != "" && Body(line)[0] == '#'
  {
    assert line[0] == '#';
  }

  lemma FirstOfList(line: string)
    requires ListLine(line)
    ensures Body(line) != "" && (Body(line)[0] in "-*+" || IsDigit(Body(line)[0]))
  {}

  lemma FirstOfRule(line: string)
    requires RuleLine(line)
    ensures Body(line) != "" && Body(line)[0] in "-*_"
  {}

  /** No block starts at a stuck line, and at every other line one does. */
  lemma StuckIsNoBlock(line: string)
    requires !Blank(line)
    ensures Stuck(line) <==> !Fence(line) && !Heading(line) && !QuoteLine(line) && !ListLine(line) && !RuleLine(line) && !Plain(line)
  {
    if FenceStart(line) { FirstOfFence(line); }
    if HeadingStart(line) { FirstOfHeading(line); }
    if ListLine(line) { FirstOfList(line); }
    if RuleLine(line) { FirstOfRule(line); }
  }

  /** A round of the loop stays where it is exactly at a stuck line. */
  lemma OnlyStuckLinesStop(lines: seq<string>, i: nat)
    requires i < |lines| && !Blank(lines[i])
    ensures BlockEnd(lines, i) == i <==> Stuck(lines[i])
  {
    StuckIsNoBlock(lines[i]);
    WhileMoves(lines, i, QuoteLine);
    WhileMoves(lines, i, ListLine);
    WhileMoves(lines, i, Plain);
  }

  lemma WhileMoves(lines: seq<string>, i: nat, p: string -> bool)
    requires i < |lines|
    ensures While(lines, i, p) > i <==> p(lines[i])
  {}

  /** Whether the loop from line `i` on, or the one in a quote it meets, comes to a
      stuck line. */
  predicate MeetsStuck(lines: seq<string>, i: nat)
    requires i <= |lines|
    decreases Size(lines), |lines| - i
  {
    && i < |lines|
    && if Blank(lines[i]) then MeetsStuck(lines, i + 1)
       else
         || Stuck(lines[i])
         || (QuoteLine(lines[i]) && MeetsStuck(QuotedAt(lines, i), 0))
         || (BlockEnd(lines, i) > i && MeetsStuck(lines, BlockEnd(lines, i)))
  }

  /** Rendering comes to an end exactly if it meets no stuck line. */
  lemma {:induction false} EndsUnlessStuck(lines: seq<string>, i: nat)
    requires i <= |lines|
    ensures Blocks(lines, i).None? <==> MeetsStuck(lines, i)
    decreases Size(lines), |lines| - i
  {
    if i < |lines| {
      if Blank(lines[i]) {
        EndsUnlessStuck(lines, i + 1);
      } else {
        OnlyStuckLinesStop(lines, i);
        if QuoteLine(lines[i]) {
          QuoteIsNoOther(lines[i]);
          EndsUnlessStuck(QuotedAt(lines, i), 0);
        }
        if BlockEnd(lines, i) > i {
          EndsUnlessStuck(lines, BlockEnd(lines, i));
        }
      }
    }
  }

  lemma QuoteIsNoOther(line: string)
    requires QuoteLine(line)
    ensures !FenceStart(line) && !HeadingStart(line)
  {
    if FenceStart(line) { FirstOfFence(line); }
    if HeadingStart(line) { FirstOfHeading(line); }
  }

  predicate Clean(lines: seq<string>) {
    forall l :: l in lines ==> !HasTerminator(l)
  }

  lemma PartHasNoTerminator(s: string, i: nat)
    requires i <= |s| && !HasTerminator(s)
    ensures !HasTerminator(s[i..])
  {}

  lemma CleanLineIsNotStuck(line: string)
    requires !HasTerminator(line)
    ensures !Stuck(line)
  {
    PartHasNoTerminator(line, SpaceRun(line));
    if FenceStart(line) {
      PartHasNoTerminator(Body(line), 3);
    }
    var rest := line[Run(line, '#')..];
    PartHasNoTerminator(line, Run(line, '#'));
    PartHasNoTerminator(rest, SpaceRun(rest));
  }

  lemma UnquotedIsClean(line: string)
    requires !HasTerminator(line)
    ensures !HasTerminator(Unquoted(line))
  {
    if QuoteLine(line) {
      var body := Body(line);
      PartHasNoTerminator(line, SpaceRun(line));
      PartHasNoTerminator(body, 1);
      if body[1..] != "" {
        PartHasNoTerminator(body[1..], 1);
      }
    }
  }

  lemma {:induction false} UnquotedAreClean(lines: seq<string>, i: nat, j: nat)
    requires Clean(lines) && i <= j <= |lines|
    ensures Clean(Changed(lines, i, j, Unquoted))
    decreases j - i
  {
    if i < j {
      UnquotedIsClean(lines[i]);
      UnquotedAreClean(lines, i + 1, j);
    }
  }

  lemma {:induction false} CleanMeetsNoStuck(lines: seq<string>, i: nat)
    requires Clean(lines) && i <= |lines|
    ensures !MeetsStuck(lines, i)
    decreases Size(lines), |lines| - i
  {
    if i < |lines| {
      CleanLineIsNotStuck(lines[i]);
      if Blank(lines[i]) {
        CleanMeetsNoStuck(lines, i + 1);
      } else {
        if QuoteLine(lines[i]) {
          UnquotedAreClean(lines, i, While(lines, i, QuoteLine));
          CleanMeetsNoStuck(QuotedAt(lines, i), 0);
        }
        if BlockEnd(lines, i) > i {
          CleanMeetsNoStuck(lines, BlockEnd(lines, i));
        }
      }
    }
  }

  /** A text without lone carriage returns and Unicode line separators is always
      rendered. */
  lemma CleanTextIsRendered(lines: seq<string>)
    requires Clean(lines)
    ensures Blocks(lines, 0).Some?
  {
    CleanMeetsNoStuck(lines, 0);
    EndsUnlessStuck(lines, 0);
  }

  /** A fence or heading with such a character behind its mark, under any number of
      quote marks. */
  predicate StuckInQuotes(line: string)
    decreases |line|
  {
    Stuck(line) || (QuoteLine(line) && StuckInQuotes(Unquoted(line)))
  }

  lemma FirstQuoted(lines: seq<string>, i: nat)
    requires i < |lines| && QuoteLine(lines[i])
    ensures QuotedAt(lines, i) != [] && QuotedAt(lines, i)[0] == Unquoted(lines[i])
  {}

  lemma StuckStops(lines: seq<string>, k: nat)
    requires k < |lines| && Stuck(lines[k])
    ensures Blocks(lines, k).None?
  {
    if FenceStart(lines[k]) { FirstOfFence(lines[k]); } else { FirstOfHeading(lines[k]); }
    OnlyStuckLinesStop(lines, k);
  }

  lemma StuckQuoteStops(lines: seq<string>, k: nat)
    requires k < |lines| && QuoteLine(lines[k]) && Blocks(QuotedAt(lines, k), 0).None?
    ensures Blocks(lines, k).None?
  {
    QuoteIsNoOther(lines[k]);
  }

  lemma BlankIsPassed(lines: seq<string>, i: nat)
    requires i < |lines| && Blank(lines[i])
    ensures Blocks(lines, i) == Blocks(lines, i + 1)
  {}

  /** One such line behind blank ones is enough for a text that is never rendered,
      whatever follows. */
  lemma {:induction false} LoneTerminatorStopsRendering(lines: seq<string>, i: nat, k: nat)
    requires i <= k < |lines| && StuckInQuotes(lines[k]) && forall j :: i <= j < k ==> Blank(lines[j])
    ensures Blocks(lines, i).None?
    decreases |lines[k]|, k - i
  {
    if i < k {
      LoneTerminatorStopsRendering(lines, i + 1, k);
      BlankIsPassed(lines, i);
    } else if Stuck(lines[k]) {
      StuckStops(lines, k);
    } else {
      FirstQuoted(lines, k);
      LoneTerminatorStopsRendering(QuotedAt(lines, k), 0, 0);
      StuckQuoteStops(lines, k);
    }
  }

  /** There are such lines. */
  lemma LoneReturnIsStuck()
    ensures StuckInQuotes("```\r")
  {
    var line := "```\r";
    assert line[1..] == "``\r" && line[1..][1..] == "`\r";
    assert Run(line, '`') == 3 && Body(line) == line;
    assert line[3..] == "\r" && '\r' in line[3..];
    assert Stuck(line);
  }

  // ------------------------------------------------------- nothing gets lost

  /** A block shows the lines it was made of, all that belong to it. */
  predicate Shows(lines: seq<string>, p: Placed)
    requires p.from < p.to <= |lines|
  {
    match p.block
    case Code(language, body) => Fence(lines[p.from]) && language == Trim(Body(lines[p.from])[3..]) && IsBody(lines, p, body)
    case Title(level, text) =>
      && p.to == p.from + 1 && Heading(lines[p.from])
      && level == Run(lines[p.from], '#') && text == Body(lines[p.from][level..])
    case Quote(blocks) =>
      && WholeRun(lines, p, QuoteLine)
      && QuoteLine(lines[p.from]) && Some(blocks) == Blocks(QuotedAt(lines, p.from), 0)
    case List(ordered, items) =>
      && WholeRun(lines, p, ListLine)
      && ordered == OrderedLine(lines[p.from]) && IsItems(lines, p, items)
    case Rule => p.to == p.from + 1 && RuleLine(lines[p.from])
    case Paragraph(shown) => WholeRun(lines, p, Plain) && shown == lines[p.from..p.to]
  }

  /** The lines up to a closing fence, or to the end. */
  predicate IsBody(lines: seq<string>, p: Placed, body: seq<string>)
    requires p.from < p.to <= |lines|
  {
    && p.from + 1 + |body| <= p.to && body == lines[p.from + 1..p.from + 1 + |body|]
    && (forall k :: p.from < k <= p.from + |body| ==> !FenceStart(lines[k]))
    && (if p.to == p.from + 1 + |body| then p.to == |lines| else p.to == p.from + 2 + |body| && FenceStart(lines[p.to - 1]))
  }

  /** One item a line, in order: the line without its mark. */
  predicate IsItems(lines: seq<string>, p: Placed, items: seq<string>)
    requires p.from < p.to <= |lines|
  {
    |items| == p.to - p.from && forall k :: p.from <= k < p.to ==> items[k - p.from] == Unmarked(lines[k])
  }

  /** All its lines are of this kind, and the next one is not. */
  predicate WholeRun(lines: seq<string>, p: Placed, kind: string -> bool)
    requires p.from < p.to <= |lines|
  {
    (forall k :: p.from <= k < p.to ==> kind(lines[k])) && (p.to < |lines| ==> !kind(lines[p.to]))
  }

  lemma {:induction false} ChangedLength(lines: seq<string>, i: nat, j: nat, f: string -> string)
    requires i <= j <= |lines|
    ensures |Changed(lines, i, j, f)| == j - i
    decreases j - i
  {
    if i < j {
      ChangedLength(lines, i + 1, j, f);
    }
  }

  lemma {:induction false} ChangedAt(lines: seq<string>, i: nat, j: nat, f: string -> string, k: nat)
    requires i <= k < j <= |lines|
    ensures |Changed(lines, i, j, f)| == j - i && Changed(lines, i, j, f)[k - i] == f(lines[k])
    decreases j - i
  {
    ChangedLength(lines, i, j, f);
    if i < k {
      ChangedAt(lines, i + 1, j, f, k);
    }
  }

  lemma ListShows(lines: seq<string>, i: nat)
    requires i < |lines| && ListLine(lines[i])
    ensures var end := While(lines, i, ListLine);
            i < end && Shows(lines, Placed(i, end, List(OrderedLine(lines[i]), Changed(lines, i, end, Unmarked))))
  {
    var end := While(lines, i, ListLine);
    WhileMoves(lines, i, ListLine);
    ItemsAreShown(lines, Placed(i, end, Rule), Changed(lines, i, end, Unmarked));
  }

  lemma ItemsAreShown(lines: seq<string>, p: Placed, items: seq<string>)
    requires p.from < p.to <= |lines| && items == Changed(lines, p.from, p.to, Unmarked)
    ensures IsItems(lines, p, items)
  {
    ChangedLength(lines, p.from, p.to, Unmarked);
    forall k | p.from <= k < p.to ensures items[k - p.from] == Unmarked(lines[k]) {
      ChangedAt(lines, p.from, p.to, Unmarked, k);
    }
  }

  lemma QuoteShows(lines: seq<string>, i: nat, blocks: seq<Placed>)
    requires i < |lines| && QuoteLine(lines[i]) && Some(blocks) == Blocks(QuotedAt(lines, i), 0)
    ensures var end := While(lines, i, QuoteLine); i < end && Shows(lines, Placed(i, end, Quote(blocks)))
  {}

  lemma CodeShows(lines: seq<string>, i: nat)
    requires i < |lines| && Fence(lines[i])
    ensures var close := While(lines, i + 1, NoFence);
            Shows(lines, Placed(i, if close < |lines| then close + 1 else close,
                                Code(Trim(Body(lines[i])[3..]), lines[i + 1..close])))
  {
    BodyIsShown(lines, i, Code(Trim(Body(lines[i])[3..]), lines[i + 1..While(lines, i + 1, NoFence)]));
  }

  lemma BodyIsShown(lines: seq<string>, i: nat, block: Block)
    requires i < |lines|
    ensures var close := While(lines, i + 1, NoFence);
            IsBody(lines, Placed(i, if close < |lines| then close + 1 else close, block), lines[i + 1..close])
  {
    var close := While(lines, i + 1, NoFence);
    assert forall k :: i < k < close ==> NoFence(lines[k]);
  }

  lemma OthersShow(lines: seq<string>, i: nat)
    requires i < |lines| && BlockEnd(lines, i) > i && !Fence(lines[i]) && (Heading(lines[i]) || !QuoteLine(lines[i]))
    requires Heading(lines[i]) || !ListLine(lines[i])
    ensures BlockAt(lines, i).Some? && Shows(lines, Placed(i, BlockEnd(lines, i), BlockAt(lines, i).value))
  {}

  lemma BlockShowsItsLines(lines: seq<string>, i: nat)
    requires i < |lines| && BlockEnd(lines, i) > i && BlockAt(lines, i).Some?
    ensures Shows(lines, Placed(i, BlockEnd(lines, i), BlockAt(lines, i).value))
  {
    var line := lines[i];
    if Fence(line) {
      CodeShows(lines, i);
    } else if !Heading(line) && QuoteLine(line) {
      QuoteShows(lines, i, BlockAt(lines, i).value.blocks);
    } else if !Heading(line) && ListLine(line) {
      ListShows(lines, i);
    } else {
      OthersShow(lines, i);
    }
  }

  /** Blocks in order, without overlap, that leave out only blank lines and show all
      others. */
  ghost predicate Covers(lines: seq<string>, i: nat, placed: seq<Placed>)
    requires i <= |lines|
    decreases |placed|
  {
    if placed == [] then forall k :: i <= k < |lines| ==> Blank(lines[k])
    else
      var p := placed[0];
      && i <= p.from < p.to <= |lines| && Shows(lines, p)
      && (forall k :: i <= k < p.from ==> Blank(lines[k]))
      && Covers(lines, p.to, placed[1..])
  }

  lemma CoversBlank(lines: seq<string>, i: nat, placed: seq<Placed>)
    requires i < |lines| && Blank(lines[i]) && Covers(lines, i + 1, placed)
    ensures Covers(lines, i, placed)
  {}

  lemma CoversBlock(lines: seq<string>, p: Placed, rest: seq<Placed>)
    requires p.from < p.to <= |lines| && Shows(lines, p) && Covers(lines, p.to, rest)
    ensures Covers(lines, p.from, [p] + rest)
  {
    assert ([p] + rest)[1..] == rest;
  }

  lemma BlocksStep(lines: seq<string>, i: nat)
    requires i < |lines| && !Blank(lines[i]) && Blocks(lines, i).Some?
    ensures var end := BlockEnd(lines, i);
            && end > i && BlockAt(lines, i).Some? && Blocks(lines, end).Some?
            && Blocks(lines, i).value == [Placed(i, end, BlockAt(lines, i).value)] + Blocks(lines, end).value
  {}

  /** Every line that is not blank is in exactly one block, in order. */
  lemma {:induction false} EveryLineIsShown(lines: seq<string>, i: nat)
    requires i <= |lines| && Blocks(lines, i).Some?
    ensures Covers(lines, i, Blocks(lines, i).value)
    decreases |lines| - i
  {
    if i < |lines| {
      if Blank(lines[i]) {
        EveryLineIsShown(lines, i + 1);
        CoversBlank(lines, i, Blocks(lines, i + 1).value);
      } else {
        BlocksStep(lines, i);
        BlockShowsItsLines(lines, i);
        EveryLineIsShown(lines, BlockEnd(lines, i));
        CoversBlock(lines, Placed(i, BlockEnd(lines, i), BlockAt(lines, i).value), Blocks(lines, BlockEnd(lines, i)).value);
      }
    }
  }
}
