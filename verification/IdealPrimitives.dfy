/** The assumptions of `Primitives.Ideal` hold together: primitives that meet all
    of them. They protect nothing; they only show that the results about the link
    are not about an impossible link. */
module IdealPrimitives {
  import opened Wrappers
  import opened Text
  import opened Primitives

  // ----------------------------------------------------------------- encoding

  function Letter(d: nat): char
    requires d < 64
  {
    (48 + d) as char
  }

  /** Three bytes in four letters, two in three, one in two. */
  function Encoded(b: Bytes): string {
    if |b| == 0 then ""
    else if |b| == 1 then [Letter(b[0] as int / 16), Letter(b[0] as int % 16)]
    else if |b| == 2 then [Letter(b[0] as int / 4), Letter(b[0] as int % 4 * 16 + b[1] as int / 16), Letter(b[1] as int % 16)]
    else
      [Letter(b[0] as int / 4), Letter(b[0] as int % 4 * 16 + b[1] as int / 16),
       Letter(b[1] as int % 16 * 4 + b[2] as int / 64), Letter(b[2] as int % 64)] + Encoded(b[3..])
  }

  predicate IsLetter(c: char) {
    '0' <= c <= 'o'
  }

  lemma {:induction false} EncodedShape(b: Bytes)
    ensures |Encoded(b)| == (4 * |b| + 2) / 3
    ensures forall c :: c in Encoded(b) ==> IsLetter(c)
    decreases |b|
  {
    if |b| > 2 {
      EncodedShape(b[3..]);
    }
  }

  lemma SplitAgree(a: nat, b: nat, c: nat, d: nat)
    requires b < 16 && d < 16 && a * 16 + b == c * 16 + d
    ensures a == c && b == d
  {}

  lemma SplitAgree4(a: nat, b: nat, c: nat, d: nat)
    requires b < 4 && d < 4 && a * 4 + b == c * 4 + d
    ensures a == c && b == d
  {}

  /** Three bytes are told apart by their four digits. */
  lemma BytesAgree(x0: nat, x1: nat, x2: nat, y0: nat, y1: nat, y2: nat)
    requires x0 < 256 && x1 < 256 && x2 < 256 && y0 < 256 && y1 < 256 && y2 < 256
    requires x0 / 4 == y0 / 4 && x0 % 4 * 16 + x1 / 16 == y0 % 4 * 16 + y1 / 16
    requires x1 % 16 * 4 + x2 / 64 == y1 % 16 * 4 + y2 / 64 && x2 % 64 == y2 % 64
    ensures x0 == y0 && x1 == y1 && x2 == y2
  {
    SplitAgree(x0 % 4, x1 / 16, y0 % 4, y1 / 16);
    SplitAgree4(x1 % 16, x2 / 64, y1 % 16, y2 / 64);
  }

  lemma {:induction false} EncodedInjective(b: Bytes, c: Bytes)
    requires Encoded(b) == Encoded(c)
    ensures b == c
    decreases |b|
  {
    EncodedShape(b);
    EncodedShape(c);
    assert |b| == |c|;
    var s, t := Encoded(b), Encoded(c);
    if |b| == 1 {
      assert s[0] == t[0] && s[1] == t[1];
    } else if |b| == 2 {
      assert s[0] == t[0] && s[1] == t[1] && s[2] == t[2];
      SplitAgree(b[0] as int % 4, b[1] as int / 16, c[0] as int % 4, c[1] as int / 16);
    } else if |b| > 2 {
      assert s[0] == t[0] && s[1] == t[1] && s[2] == t[2] && s[3] == t[3];
      assert s[4..] == Encoded(b[3..]) && t[4..] == Encoded(c[3..]);
      BytesAgree(b[0] as int, b[1] as int, b[2] as int, c[0] as int, c[1] as int, c[2] as int);
      EncodedInjective(b[3..], c[3..]);
      assert b == [b[0], b[1], b[2]] + b[3..] && c == [c[0], c[1], c[2]] + c[3..];
    }
  }

  // ----------------------------------------------------------------- printing

  /** Letters stand for themselves, other characters are spelt out. */
  function Escaped(s: string): string {
    if s == "" then "" else (if IsLetter(s[0]) then [s[0]] else "!" + Decimal(s[0] as int) + "~") + Escaped(s[1..])
  }

  predicate IsEscape(c: char) {
    IsLetter(c) || c == '!' || c == '~'
  }

  lemma {:induction false} EscapedShape(s: string)
    ensures forall c :: c in Escaped(s) ==> IsEscape(c)
    ensures (forall c :: c in s ==> IsLetter(c)) ==> Escaped(s) == s
  {
    if s != "" {
      EscapedShape(s[1..]);
      assert forall c :: c in Decimal(s[0] as int) ==> IsDigit(c);
    }
  }

  /** Equal texts of the form a, mark, rest, where no a has the mark. */
  lemma CutAtMark(a: string, b: string, c: string, d: string, mark: char)
    requires a + [mark] + b == c + [mark] + d && mark !in a && mark !in c
    ensures a == c && b == d
  {
    var s := a + [mark] + b;
    assert s[..|a|] == a && s[|a|] == mark;
    FirstIs(s, mark, |a|);
    assert s[..|c|] == c && s[|c|] == mark;
    FirstIs(s, mark, |c|);
    assert b == s[|a| + 1..] == d;
  }

  lemma {:induction false} EscapedInjective(s: string, t: string)
    requires Escaped(s) == Escaped(t)
    ensures s == t
    decreases |s|
  {
    if s == "" || t == "" {
    } else if IsLetter(s[0]) || IsLetter(t[0]) {
      assert Escaped(s)[0] == Escaped(t)[0];
      assert s[0] == t[0];
      assert Escaped(s)[1..] == Escaped(s[1..]) && Escaped(t)[1..] == Escaped(t[1..]);
      EscapedInjective(s[1..], t[1..]);
    } else {
      var m, n := Decimal(s[0] as int), Decimal(t[0] as int);
      assert Escaped(s)[1..] == m + "~" + Escaped(s[1..]) && Escaped(t)[1..] == n + "~" + Escaped(t[1..]);
      CutAtMark(m, Escaped(s[1..]), n, Escaped(t[1..]), '~');
      DecimalInjective(s[0] as int, t[0] as int);
      EscapedInjective(s[1..], t[1..]);
    }
  }

  function Fields(fields: seq<string>): string {
    if fields == [] then "" else Escaped(fields[0]) + "|" + Fields(fields[1..])
  }

  lemma {:induction false} FieldsShape(fields: seq<string>)
    ensures forall c :: c in Fields(fields) ==> IsEscape(c) || c == '|'
  {
    if fields != [] {
      EscapedShape(fields[0]);
      FieldsShape(fields[1..]);
    }
  }

  lemma {:induction false} FieldsInjective(a: seq<string>, b: seq<string>)
    requires |a| == |b| && Fields(a) == Fields(b)
    ensures a == b
  {
    if a != [] {
      EscapedShape(a[0]);
      EscapedShape(b[0]);
      CutAtMark(Escaped(a[0]), Fields(a[1..]), Escaped(b[0]), Fields(b[1..]), '|');
      EscapedInjective(a[0], b[0]);
      FieldsInjective(a[1..], b[1..]);
      assert a == [a[0]] + a[1..] && b == [b[0]] + b[1..];
    }
  }

  function Tag(j: Json): char {
    match j
    case ClientHello(_, _, _, _, _) => 'C'
    case ServerHello(_, _, _) => 'S'
    case Frame(_, _) => 'F'
    case DeviceCredential(_) => 'D'
    case Unrecognised => 'U'
  }

  function Number(n: int): string {
    if n < 0 then "-" + Decimal(-n) else Decimal(n)
  }

  function FieldsOf(j: Json): seq<string> {
    match j
    case ClientHello(v, i, d, n, m) => [Number(v), i, d, n, m]
    case ServerHello(v, n, m) => [Number(v), n, m]
    case Frame(n, c) => [n, c]
    case DeviceCredential(c) => [c]
    case Unrecognised => []
  }

  /** Ten letters of padding bring a frame to the length of its JSON. */
  function Printed(j: Json): string {
    "{" + [Tag(j)] + ("0000000000" + Fields(FieldsOf(j)) + "}")
  }

  lemma NumberInjective(m: int, n: int)
    requires Number(m) == Number(n)
    ensures m == n
  {
    assert Decimal(if m < 0 then -m else m)[0] != '-' && Decimal(if n < 0 then -n else n)[0] != '-' by {
      assert Decimal(if m < 0 then -m else m)[0] in Decimal(if m < 0 then -m else m);
      assert Decimal(if n < 0 then -n else n)[0] in Decimal(if n < 0 then -n else n);
    }
    assert (m < 0) == (n < 0);
    if m < 0 {
      assert Number(m)[1..] == Decimal(-m) && Number(n)[1..] == Decimal(-n);
      DecimalInjective(-m, -n);
    } else {
      DecimalInjective(m, n);
    }
  }

  lemma PrintedInjective(j: Json, k: Json)
    requires Printed(j) == Printed(k)
    ensures j == k
  {
    PartsOfPrinted(j);
    PartsOfPrinted(k);
    SameTagSameArity(j, k);
    FieldsInjective(FieldsOf(j), FieldsOf(k));
    SameFields(j, k);
  }

  lemma PartsOfPrinted(j: Json)
    ensures var s := Printed(j);
            |s| >= 13 && s[1] == Tag(j) && s[12..|s| - 1] == Fields(FieldsOf(j))
  {}

  lemma SameTagSameArity(j: Json, k: Json)
    requires Tag(j) == Tag(k)
    ensures |FieldsOf(j)| == |FieldsOf(k)|
  {}

  lemma SameFields(j: Json, k: Json)
    requires Tag(j) == Tag(k) && FieldsOf(j) == FieldsOf(k)
    ensures j == k
  {
    var a, b := FieldsOf(j), FieldsOf(k);
    assert forall i :: 0 <= i < |a| ==> a[i] == b[i];
    if j.ClientHello? || j.ServerHello? {
      assert a[0] == b[0];
      NumberInjective(j.version, k.version);
    }
  }

  // ------------------------------------------------------------------ sealing

  function SealedText(t: string): Bytes {
    if t == "" then seq(16, i => 0 as byte) else [if t[0] < '\U{0080}' then t[0] as byte else 0] + SealedText(t[1..])
  }

  function Opened(c: Bytes): Option<string> {
    if |c| < 16 then None
    else if |c| == 16 then if c == SealedText("") then Some("") else None
    else
      var rest := Opened(c[1..]);
      if rest.None? || c[0] >= 128 then None else Some([c[0] as char] + rest.value)
  }

  lemma {:induction false} OpensItself(t: string)
    requires Ascii(t)
    ensures |SealedText(t)| == |t| + 16 && Opened(SealedText(t)) == Some(t)
  {
    if t != "" {
      assert t[0] in t && forall c :: c in t[1..] ==> c in t;
      OpensItself(t[1..]);
      var first := t[0] as byte;
      assert first as char == t[0] && first < 128;
      assert SealedText(t) == [first] + SealedText(t[1..]);
      assert SealedText(t)[1..] == SealedText(t[1..]);
      assert t == [t[0]] + t[1..];
    }
  }

  lemma {:induction false} OpensOnlySealed(c: Bytes)
    requires Opened(c).Some?
    ensures Ascii(Opened(c).value) && c == SealedText(Opened(c).value)
  {
    if |c| > 16 {
      OpensOnlySealed(c[1..]);
      var rest := Opened(c[1..]).value;
      var t := [c[0] as char] + rest;
      assert t[1..] == rest && t[0] < '\U{0080}' && t[0] as byte == c[0];
      assert c == [c[0]] + c[1..];
    }
  }

  // ------------------------------------------------------------- all of them

  ghost function Unprinted(s: string): Option<Json> {
    if j: Json :| Printed(j) == s then Some(j) else None
  }

  ghost function Undecoded(s: string): Bytes {
    if b: Bytes :| Encoded(b) == s then b else []
  }

  ghost function Witness(): Primitives {
    Primitives(
      (k: Bytes, n: Bytes, a: string, t: string) => SealedText(t),
      (k: Bytes, n: Bytes, a: string, c: Bytes) => Opened(c),
      (s: Bytes, salt: Bytes, info: string) => seq(64, i => 0 as byte),
      (k: Bytes, m: string) => k,
      (b: Bytes) => Encoded(b),
      (s: string) => Undecoded(s),
      (j: Json) => Printed(j),
      (s: string) => Unprinted(s))
  }

  lemma WitnessEncodes()
    ensures Witness().EncodingIsIdeal()
  {
    forall b ensures Undecoded(Encoded(b)) == b && |Encoded(b)| == (4 * |b| + 2) / 3 && Ascii(Encoded(b)) {
      EncodedShape(b);
      EncodedInjective(b, Undecoded(Encoded(b)));
    }
  }

  lemma PrintsOnOneLine(j: Json)
    ensures '\n' !in Printed(j) && Trimmed(Printed(j))
    ensures Ascii(Printed(j))
  {
    var s, body := Printed(j), "0000000000" + Fields(FieldsOf(j)) + "}";
    BodyIsPlain(FieldsOf(j));
    assert s == "{" + [Tag(j)] + body;
    assert s[0] == '{' && s[|s| - 1] == body[|body| - 1] == '}';
  }

  lemma BodyIsPlain(fields: seq<string>)
    ensures var body := "0000000000" + Fields(fields) + "}"; Ascii(body) && '\n' !in body
  {
    FieldsShape(fields);
    assert forall c :: c in Fields(fields) ==> c < '\U{0080}' && c != '\n';
  }

  lemma PrintsFrames(n: nat, b: Bytes)
    ensures |Printed(Frame(Decimal(n), Encoded(b)))| == 15 + |Decimal(n)| + |Encoded(b)|
  {
    EncodedShape(b);
    EscapedShape(Decimal(n));
    EscapedShape(Encoded(b));
    var fields := [Decimal(n), Encoded(b)];
    assert [Encoded(b)][1..] == [];
    assert Fields([Encoded(b)]) == Escaped(Encoded(b)) + "|" + Fields([]);
    assert fields[1..] == [Encoded(b)];
    assert Fields(fields) == Escaped(Decimal(n)) + "|" + Fields([Encoded(b)]);
  }

  lemma WitnessPrints()
    ensures Witness().JsonIsIdeal()
  {
    forall j ensures Unprinted(Printed(j)) == Some(j) && '\n' !in Printed(j) && Trimmed(Printed(j)) && Ascii(Printed(j)) {
      PrintsOnOneLine(j);
      PrintedInjective(j, Unprinted(Printed(j)).value);
    }
    forall n: nat, b: Bytes ensures |Printed(Frame(Decimal(n), Encoded(b)))| == 15 + |Decimal(n)| + |Encoded(b)| {
      PrintsFrames(n, b);
    }
  }

  /** There are primitives with every property the link relies on. */
  lemma IdealPrimitivesExist()
    ensures exists p: Primitives :: p.Ideal()
  {
    WitnessEncodes();
    WitnessPrints();
    forall t | Ascii(t) ensures |SealedText(t)| == |t| + 16 && Opened(SealedText(t)) == Some(t) {
      OpensItself(t);
    }
    forall c | Opened(c).Some? ensures Ascii(Opened(c).value) && c == SealedText(Opened(c).value) {
      OpensOnlySealed(c);
    }
    assert Witness().SealingIsIdeal();
    assert Witness().DerivationIsIdeal();
    assert Witness().Ideal();
  }
}
