/** Strings as the JavaScript sources use them: trimming, newline framing over a
    growing buffer, and decimal numerals. */
module Text {
  // ------------------------------------------------------------------ trimming

  /** The characters `String.prototype.trim` removes and `\s` matches. */
  predicate IsSpace(c: char) {
    || c in " \t\n\r"
    || c == '\U{000B}' || c == '\U{000C}' || c == '\U{00A0}' || c == '\U{1680}'
    || '\U{2000}' <= c <= '\U{200A}'
    || c in {'\U{2028}', '\U{2029}', '\U{202F}', '\U{205F}', '\U{3000}', '\U{FEFF}'}
  }

  function TrimStart(s: string): string {
    if s != "" && IsSpace(s[0]) then TrimStart(s[1..]) else s
  }

  function TrimEnd(s: string): string {
    if s != "" && IsSpace(s[|s| - 1]) then TrimEnd(s[..|s| - 1]) else s
  }

  function Trim(s: string): string {
    TrimEnd(TrimStart(s))
  }

  /** Text with no space at either end, as every JSON object or array has. */
  predicate Trimmed(s: string) {
    s != "" && !IsSpace(s[0]) && !IsSpace(s[|s| - 1])
  }

  // --------------------------------------------------------- newline framing

  /** Position of the first `c` in `s`. */
  function IndexOf(s: string, c: char): (i: nat)
    requires c in s
    ensures i < |s| && s[i] == c && c !in s[..i]
  {
    if s[0] == c then 0 else 1 + IndexOf(s[1..], c)
  }

  lemma {:induction false} FirstIs(s: string, c: char, k: nat)
    requires k < |s| && s[k] == c && c !in s[..k]
    ensures IndexOf(s, c) == k
  {
    if k > 0 {
      assert s[0] == s[..k][0];
      assert s[1..][..k - 1] == s[..k][1..];
      FirstIs(s[1..], c, k - 1);
    }
  }

  function Concat(chunks: seq<string>): string {
    if chunks == [] then "" else chunks[0] + Concat(chunks[1..])
  }

  /** The newline-terminated lines of `s`, without their newlines. */
  function CompleteLines(s: string): seq<string>
    decreases |s|
  {
    if '\n' !in s then [] else
      var i := IndexOf(s, '\n');
      [s[..i]] + CompleteLines(s[i + 1..])
  }

  /** What follows the last newline of `s`. */
  function Remainder(s: string): string
    decreases |s|
  {
    if '\n' !in s then s else Remainder(s[IndexOf(s, '\n') + 1..])
  }

  function Unlines(lines: seq<string>): string {
    if lines == [] then "" else lines[0] + "\n" + Unlines(lines[1..])
  }

  lemma IndexOfAppend(line: string, tail: string)
    requires '\n' !in line
    ensures '\n' in line + "\n" + tail
    ensures IndexOf(line + "\n" + tail, '\n') == |line|
    ensures (line + "\n" + tail)[..|line|] == line
    ensures (line + "\n" + tail)[|line| + 1..] == tail
  {
    var s := line + "\n" + tail;
    assert s[|line|] == '\n';
    assert s[..|line|] == line;
    FirstIs(s, '\n', |line|);
  }

  /** The two framing functions on text whose first line is known. */
  lemma UnfoldLines(line: string, tail: string)
    requires '\n' !in line
    ensures CompleteLines(line + "\n" + tail) == [line] + CompleteLines(tail)
    ensures Remainder(line + "\n" + tail) == Remainder(tail)
  {
    IndexOfAppend(line, tail);
  }

  lemma FirstLine(s: string)
    requires '\n' in s
    ensures var i := IndexOf(s, '\n');
            && s == s[..i] + "\n" + s[i + 1..] && '\n' !in s[..i]
            && CompleteLines(s) == [s[..i]] + CompleteLines(s[i + 1..])
            && Remainder(s) == Remainder(s[i + 1..])
  {
    CutAt(s, IndexOf(s, '\n'));
  }

  lemma CutAt(s: string, i: nat)
    requires i < |s| && s[i] == '\n'
    ensures s == s[..i] + "\n" + s[i + 1..]
  {}

  /** A string is its complete lines followed by its remainder, and nothing in
      either contains a newline: this determines both. */
  lemma {:induction false} LinesPartition(s: string)
    ensures s == Unlines(CompleteLines(s)) + Remainder(s)
    ensures '\n' !in Remainder(s)
    ensures forall l :: l in CompleteLines(s) ==> '\n' !in l
    decreases |s|
  {
    if '\n' in s {
      var i := IndexOf(s, '\n');
      FirstLine(s);
      LinesPartition(s[i + 1..]);
      UnlinesCons(s[..i], CompleteLines(s[i + 1..]), Remainder(s));
    }
  }

  lemma UnlinesCons(line: string, lines: seq<string>, rest: string)
    ensures Unlines([line] + lines) + rest == line + "\n" + (Unlines(lines) + rest)
  {
    assert ([line] + lines)[1..] == lines;
  }

  lemma {:induction false} LinesAppend(a: string, b: string)
    ensures CompleteLines(a + b) == CompleteLines(a) + CompleteLines(Remainder(a) + b)
    ensures Remainder(a + b) == Remainder(Remainder(a) + b)
    decreases |a|
  {
    if '\n' in a {
      var i := IndexOf(a, '\n');
      var line, rest := a[..i], a[i + 1..];
      LinesAppend(rest, b);
      FirstLineAppend(a, b);
      FirstAndMore(line, CompleteLines(rest), CompleteLines(Remainder(rest) + b));
    }
  }

  lemma FirstAndMore<T>(x: T, a: seq<T>, b: seq<T>)
    ensures [x] + (a + b) == [x] + a + b
  {}

  /** The first line of `a` is that of `a + b`; the rest goes on. */
  lemma FirstLineAppend(a: string, b: string)
    requires '\n' in a
    ensures var i := IndexOf(a, '\n');
            && CompleteLines(a) == [a[..i]] + CompleteLines(a[i + 1..]) && Remainder(a) == Remainder(a[i + 1..])
            && CompleteLines(a + b) == [a[..i]] + CompleteLines(a[i + 1..] + b) && Remainder(a + b) == Remainder(a[i + 1..] + b)
  {
    var i := IndexOf(a, '\n');
    FirstLine(a);
    AppendAssociates(a[..i], a[i + 1..], b);
    UnfoldLines(a[..i], a[i + 1..] + b);
  }

  lemma AppendAssociates(line: string, tail: string, more: string)
    ensures line + "\n" + tail + more == line + "\n" + (tail + more)
  {}

  lemma PrefixWithinFirst(l: string, tail: string, got: string)
    requires got <= l + "\n" + tail && |got| <= |l|
    ensures got <= l
  {
    assert l == (l + "\n" + tail)[..|l|];
  }

  lemma PrefixPastFirst(l: string, tail: string, got: string)
    requires got <= l + "\n" + tail && |got| > |l|
    ensures got == l + "\n" + got[|l| + 1..] && got[|l| + 1..] <= tail
  {
    assert forall i :: 0 <= i < |got| ==> got[i] == (l + "\n" + tail)[i];
  }

  /** Framing undoes unframing, also when only part of the text has arrived:
      what is complete is a prefix of the lines, the rest starts the next one. */
  lemma {:induction false} LinesOfPrefix(lines: seq<string>, got: string) returns (k: nat)
    requires forall l :: l in lines ==> '\n' !in l
    requires got <= Unlines(lines)
    ensures k <= |lines| && CompleteLines(got) == lines[..k]
    ensures k < |lines| ==> Remainder(got) <= lines[k]
    ensures k == |lines| ==> got == Unlines(lines) && Remainder(got) == ""
    ensures got == Unlines(lines) ==> k == |lines|
  {
    if lines == [] {
      return 0;
    }
    var l, tail := lines[0], Unlines(lines[1..]);
    if |got| <= |l| {
      PrefixWithinFirst(l, tail, got);
      assert forall c :: c in got ==> c in l;
      return 0;
    }
    var gotTail := got[|l| + 1..];
    PrefixPastFirst(l, tail, got);
    UnfoldLines(l, gotTail);
    var later := LinesOfPrefix(lines[1..], gotTail);
    k := later + 1;
    LineMore(lines, later, gotTail);
  }

  lemma LineMore(lines: seq<string>, k: nat, gotTail: string)
    requires lines != [] && k < |lines|
    ensures lines[..k + 1] == [lines[0]] + lines[1..][..k]
    ensures k + 1 < |lines| ==> lines[1..][k] == lines[k + 1]
    ensures lines[0] + "\n" + gotTail == Unlines(lines) <==> gotTail == Unlines(lines[1..])
  {
    OneMore(lines, k);
    UnlinesMore(lines, gotTail);
  }

  lemma OneMore<T>(lines: seq<T>, k: nat)
    requires k < |lines|
    ensures lines[..k + 1] == [lines[0]] + lines[1..][..k]
    ensures k + 1 < |lines| ==> lines[1..][k] == lines[k + 1]
  {}

  lemma UnlinesMore(lines: seq<string>, gotTail: string)
    requires lines != []
    ensures lines[0] + "\n" + gotTail == Unlines(lines) <==> gotTail == Unlines(lines[1..])
  {
    HeadCancels(lines[0] + "\n", gotTail, Unlines(lines[1..]));
  }

  lemma HeadCancels<T>(head: seq<T>, a: seq<T>, b: seq<T>)
    ensures head + a == head + b <==> a == b
  {
    assert (head + a)[|head|..] == a && (head + b)[|head|..] == b;
  }

  lemma ConcatCons(before: string, chunks: seq<string>)
    requires chunks != []
    ensures before + Concat(chunks) == before + chunks[0] + Concat(chunks[1..])
  {}

  // ----------------------------------------------------------------- numerals

  predicate IsDigit(c: char) {
    '0' <= c <= '9'
  }

  function Digit(d: nat): (c: char)
    requires d < 10
    ensures IsDigit(c)
  {
    '0' + d as char
  }

  /** `Number.prototype.toString` and `BigInt.prototype.toString` on a natural. */
  function Decimal(n: nat): (s: string)
    ensures s != "" && forall c :: c in s ==> IsDigit(c)
  {
    if n < 10 then [Digit(n)] else Decimal(n / 10) + [Digit(n % 10)]
  }

  /** `Number(text)` for a text of digits. */
  function Value(s: string): nat
    requires forall c :: c in s ==> IsDigit(c)
  {
    if s == "" then 0
    else
      var c := s[|s| - 1];
      assert IsDigit(c);
      10 * Value(s[..|s| - 1]) + (c as int - '0' as int)
  }

  lemma {:induction false} ValueOfDecimal(n: nat)
    ensures Value(Decimal(n)) == n
  {
    if n >= 10 {
      ValueOfDecimal(n / 10);
      assert Decimal(n)[..|Decimal(n)| - 1] == Decimal(n / 10);
    }
  }

  lemma DecimalInjective(m: nat, n: nat)
    requires Decimal(m) == Decimal(n)
    ensures m == n
  {
    ValueOfDecimal(m);
    ValueOfDecimal(n);
  }

  function Pow10(k: nat): nat {
    if k == 0 then 1 else 10 * Pow10(k - 1)
  }

  lemma {:induction false} DecimalLength(n: nat, k: nat)
    requires 1 <= k && n < Pow10(k)
    ensures |Decimal(n)| <= k
  {
    if n >= 10 {
      DecimalLength(n / 10, k - 1);
    }
  }
}
