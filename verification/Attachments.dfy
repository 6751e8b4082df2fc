/** Files that travel inside a message: packing in the view, unpacking and its size
    checks in the daemon (webview/src/attachments.ts,
    crates/am-agents/src/attachments.rs). */
module Attachments {
  import opened Wrappers
  import Text

  // ----------------------------------------------------- base64, section 4 of RFC 4648

  type Octet = n: nat | n < 256

  type Six = n: nat | n < 64

  /** The alphabet: the character of each of the 64 digits, and back. */
  datatype Alphabet = Alphabet(letter: Six -> char, digit: char -> Option<Six>) {
    ghost predicate Valid() {
      && (forall d: Six :: letter(d) != '=' && digit(letter(d)) == Some(d))
      && digit('=').None?
    }
  }

  /** The four digits of three octets. */
  datatype Quad = Quad(d0: Six, d1: Six, d2: Six, d3: Six)

  function Digits(b0: Octet, b1: Octet, b2: Octet): Quad {
    Quad(b0 / 4, b0 % 4 * 16 + b1 / 16, b1 % 16 * 4 + b2 / 64, b2 % 64)
  }

  function Octets(q: Quad): seq<Octet> {
    [q.d0 * 4 + q.d1 / 16, q.d1 % 16 * 16 + q.d2 / 4, q.d2 % 4 * 64 + q.d3]
  }

  lemma Mixed16(high: nat, low: nat)
    requires low < 16
    ensures (high * 16 + low) / 16 == high && (high * 16 + low) % 16 == low
  {}

  lemma Mixed4(high: nat, low: nat)
    requires low < 4
    ensures (high * 4 + low) / 4 == high && (high * 4 + low) % 4 == low
  {}

  lemma OctetsUndoDigits(b0: Octet, b1: Octet, b2: Octet)
    ensures Octets(Digits(b0, b1, b2)) == [b0, b1, b2]
    ensures b1 == 0 ==> Digits(b0, b1, b2).d1 % 16 == 0
    ensures b2 == 0 ==> Digits(b0, b1, b2).d2 % 4 == 0 && Digits(b0, b1, b2).d3 == 0
    ensures b1 == 0 && b2 == 0 ==> Digits(b0, b1, b2).d2 == 0
  {
    Mixed16(b0 % 4, b1 / 16);
    Mixed4(b1 % 16, b2 / 64);
  }

  function Encode(a: Alphabet, data: seq<Octet>): string {
    if |data| == 0 then ""
    else if |data| == 1 then
      var q := Digits(data[0], 0, 0);
      [a.letter(q.d0), a.letter(q.d1), '=', '=']
    else if |data| == 2 then
      var q := Digits(data[0], data[1], 0);
      [a.letter(q.d0), a.letter(q.d1), a.letter(q.d2), '=']
    else
      var q := Digits(data[0], data[1], data[2]);
      [a.letter(q.d0), a.letter(q.d1), a.letter(q.d2), a.letter(q.d3)] + Encode(a, data[3..])
  }

  /** A strict decoder: whole groups, padding only in the last, no stray bits. */
  function Decode(a: Alphabet, text: string): Option<seq<Octet>>
    decreases |text|
  {
    if |text| == 0 then Some([])
    else if |text| < 4 then None
    else
      var d0, d1, d2, d3 := a.digit(text[0]), a.digit(text[1]), a.digit(text[2]), a.digit(text[3]);
      if d0.None? || d1.None? then None
      else if |text| == 4 && text[2] == '=' && text[3] == '=' then
        if d1.value % 16 == 0 then Some(Octets(Quad(d0.value, d1.value, 0, 0))[..1]) else None
      else if d2.None? then None
      else if |text| == 4 && text[3] == '=' then
        if d2.value % 4 == 0 then Some(Octets(Quad(d0.value, d1.value, d2.value, 0))[..2]) else None
      else if d3.None? then None
      else
        var rest := Decode(a, text[4..]);
        if rest.None? then None else Some(Octets(Quad(d0.value, d1.value, d2.value, d3.value)) + rest.value)
  }

  lemma {:induction false} DecodeUndoesEncode(a: Alphabet, data: seq<Octet>)
    requires a.Valid()
    ensures Decode(a, Encode(a, data)) == Some(data)
    decreases |data|
  {
    if |data| == 1 {
      DecodeOne(a, data[0]);
      assert data == [data[0]];
    } else if |data| == 2 {
      DecodeTwo(a, data[0], data[1]);
      assert data == [data[0], data[1]];
    } else if |data| > 2 {
      DecodeUndoesEncode(a, data[3..]);
      OctetsUndoDigits(data[0], data[1], data[2]);
      DecodeGroup(a, Digits(data[0], data[1], data[2]), Encode(a, data[3..]));
      assert data == [data[0], data[1], data[2]] + data[3..];
    }
  }

  lemma DecodeOne(a: Alphabet, b0: Octet)
    requires a.Valid()
    ensures Decode(a, Encode(a, [b0])) == Some([b0])
  {
    OctetsUndoDigits(b0, 0, 0);
    var q := Digits(b0, 0, 0);
    assert Octets(Quad(q.d0, q.d1, 0, 0))[..1] == [b0];
  }

  lemma DecodeTwo(a: Alphabet, b0: Octet, b1: Octet)
    requires a.Valid()
    ensures Decode(a, Encode(a, [b0, b1])) == Some([b0, b1])
  {
    OctetsUndoDigits(b0, b1, 0);
    var q := Digits(b0, b1, 0);
    assert Octets(Quad(q.d0, q.d1, q.d2, 0))[..2] == [b0, b1];
  }

  lemma DecodeGroup(a: Alphabet, q: Quad, rest: string)
    requires a.Valid() && Decode(a, rest).Some?
    ensures Decode(a, [a.letter(q.d0), a.letter(q.d1), a.letter(q.d2), a.letter(q.d3)] + rest)
            == Some(Octets(q) + Decode(a, rest).value)
  {
    var text := [a.letter(q.d0), a.letter(q.d1), a.letter(q.d2), a.letter(q.d3)] + rest;
    assert text[4..] == rest;
  }

  // ---------------------------------------------------------------- sizes

  const MAX_BYTES := 20 * 1024 * 1024
  const MAX_IMAGE := 5 * 1024 * 1024
  const MAX_ENCODED := MAX_BYTES * 4 / 3 + 4

  predicate EndsWith(s: string, suffix: string) {
    |suffix| <= |s| && s[|s| - |suffix|..] == suffix
  }

  function DataBytes(data: string): int {
    |data| * 3 / 4 - (if EndsWith(data, "==") then 2 else if EndsWith(data, "=") then 1 else 0)
  }

  /** `attachmentBytes`. */
  method AttachmentBytes(files: seq<Attachment>) returns (n: int)
    ensures n == TotalBytes(files)
  {
    n := 0;
    for i := 0 to |files|
      invariant n + TotalBytes(files[i..]) == TotalBytes(files)
    {
      assert files[i..][1..] == files[i + 1..];
      n := n + DataBytes(files[i].data);
    }
  }

  function TotalBytes(files: seq<Attachment>): int {
    if files == [] then 0 else DataBytes(files[0].data) + TotalBytes(files[1..])
  }

  lemma {:induction false} EncodedLength(a: Alphabet, data: seq<Octet>)
    ensures |Encode(a, data)| == (|data| + 2) / 3 * 4
    decreases |data|
  {
    if |data| > 2 {
      EncodedLength(a, data[3..]);
      ThreeLess(|data|);
    }
  }

  lemma ThreeLess(n: nat)
    requires n >= 3
    ensures (n - 3 + 2) / 3 * 4 + 4 == (n + 2) / 3 * 4 && (n - 3) % 3 == n % 3
  {}

  /** An encoding ends in as many pads as its last group lacks octets. */
  lemma {:induction false} EncodedPadding(a: Alphabet, data: seq<Octet>)
    requires a.Valid() && data != []
    ensures var text := Encode(a, data);
            && |text| >= 4
            && (text[|text| - 1] == '=' <==> |data| % 3 != 0)
            && (text[|text| - 2] == '=' <==> |data| % 3 == 1)
    decreases |data|
  {
    if |data| > 3 {
      EncodedPadding(a, data[3..]);
      ThreeLess(|data|);
    }
  }

  /** The view's size formula is the decoded size. */
  lemma BytesAreDecodedBytes(a: Alphabet, data: seq<Octet>)
    requires a.Valid()
    ensures DataBytes(Encode(a, data)) == |data|
  {
    EncodedLength(a, data);
    if data != [] {
      EncodedPadding(a, data);
      Endings(Encode(a, data));
      WholeGroups(|data|);
    }
  }

  lemma WholeGroups(n: nat)
    ensures (n + 2) / 3 * 4 * 3 / 4 == n + (if n % 3 == 1 then 2 else if n % 3 == 2 then 1 else 0)
  {
    assert (n + 2) / 3 * 4 * 3 / 4 == (n + 2) / 3 * 3;
  }

  lemma Endings(text: string)
    requires |text| >= 2
    ensures EndsWith(text, "=") <==> text[|text| - 1] == '='
    ensures EndsWith(text, "==") <==> text[|text| - 1] == '=' && text[|text| - 2] == '='
  {
    assert text[|text| - 2..] == [text[|text| - 2], text[|text| - 1]];
    assert text[|text| - 1..] == [text[|text| - 1]];
  }

  /** The daemon's check of the encoded length never turns away a file that the
      check of the decoded length lets pass. */
  lemma PreCheckNeverRejects(a: Alphabet, data: seq<Octet>)
    requires a.Valid() && |data| <= MAX_BYTES
    ensures |Encode(a, data)| <= MAX_ENCODED
  {
    EncodedLength(a, data);
  }

  // ------------------------------------------------------------------ messages

  datatype Attachment = Attachment(name: string, mime: string, data: string, path: Option<string>)

  /** JSON, base64 and the image test of the two sides. */
  datatype Codec = Codec(alphabet: Alphabet, stringify: seq<Attachment> -> string, parse: string -> Option<seq<Attachment>>,
                         nativeImage: string -> bool)
  {
    ghost predicate Ideal() {
      alphabet.Valid() && forall files :: parse(stringify(files)) == Some(files)
    }
  }

  const START := "<perpetual-attachments>"
  const END := "</perpetual-attachments>"

  predicate At(s: string, i: nat, what: string) {
    i + |what| <= |s| && s[i..i + |what|] == what
  }

  /** Position of the first occurrence of `what` from `i` on. */
  function Find(s: string, what: string, i: nat := 0): (p: Option<nat>)
    requires i <= |s|
    ensures p.Some? ==> i <= p.value && At(s, p.value, what)
    decreases |s| - i
  {
    if At(s, i, what) then Some(i) else if i == |s| then None else Find(s, what, i + 1)
  }

  /** Position of the last occurrence of `what` up to `i`. */
  function FindLast(s: string, what: string, i: nat): (p: Option<nat>)
    requires i <= |s|
    ensures p.Some? ==> p.value <= i && At(s, p.value, what)
    decreases i
  {
    if At(s, i, what) then Some(i) else if i == 0 then None else FindLast(s, what, i - 1)
  }

  predicate Contains(s: string, what: string) {
    exists i :: 0 <= i <= |s| && At(s, i, what)
  }

  lemma {:induction false} FindIs(s: string, what: string, i: nat, p: nat)
    requires i <= p <= |s| && At(s, p, what) && forall k :: i <= k < p ==> !At(s, k, what)
    ensures Find(s, what, i) == Some(p)
    decreases p - i
  {
    if i < p {
      FindIs(s, what, i + 1, p);
    }
  }

  lemma {:induction false} FindLastIs(s: string, what: string, i: nat, p: nat)
    requires p <= i <= |s| && At(s, p, what) && forall k :: p < k <= i ==> !At(s, k, what)
    ensures FindLast(s, what, i) == Some(p)
    decreases i
  {
    if p < i {
      FindLastIs(s, what, i - 1, p);
    }
  }

  /** A mark whose first character does not come again cannot overlap itself. */
  predicate Unbordered(mark: string) {
    mark != "" && forall k :: 0 < k < |mark| ==> mark[k] != mark[0]
  }

  /** Where a mark can be in a text that has one behind `prefix`. */
  lemma Occurrence(prefix: string, mark: string, rest: string, k: nat)
    requires mark != "" && At(prefix + mark + rest, k, mark)
    ensures k + |mark| <= |prefix| ==> At(prefix, k, mark)
    ensures k < |prefix| < k + |mark| ==> mark[|prefix| - k] == mark[0]
    ensures |prefix| < k < |prefix| + |mark| ==> mark[k - |prefix|] == mark[0]
    ensures k >= |prefix| + |mark| ==> At(rest, k - |prefix| - |mark|, mark)
  {
    var s := prefix + mark + rest;
    var here := s[k..k + |mark|];
    assert forall i :: 0 <= i < |mark| ==> here[i] == s[k + i];
    if k + |mark| <= |prefix| {
      assert prefix[k..k + |mark|] == here;
    } else if k < |prefix| {
      assert here[|prefix| - k] == s[|prefix|] == mark[0];
    } else if k >= |prefix| + |mark| {
      assert rest[k - |prefix| - |mark|..k - |prefix|] == here;
    } else {
      assert here[0] == s[k];
    }
  }

  /** The mark behind `prefix` is the first one exactly if `prefix` has none. */
  lemma FirstMark(prefix: string, mark: string, rest: string)
    requires Unbordered(mark)
    ensures Find(prefix + mark + rest, mark) == Some(|prefix|) <==> !Contains(prefix, mark)
  {
    var s := prefix + mark + rest;
    assert s[|prefix|..|prefix| + |mark|] == mark;
    if Contains(prefix, mark) {
      var i :| 0 <= i <= |prefix| && At(prefix, i, mark);
      assert s[i..i + |mark|] == prefix[i..i + |mark|];
      FindAtMost(s, mark, 0, i);
    } else {
      forall k | 0 <= k < |prefix| ensures !At(s, k, mark) {
        if At(s, k, mark) { Occurrence(prefix, mark, rest, k); }
      }
      FindIs(s, mark, 0, |prefix|);
    }
  }

  lemma {:induction false} FindAtMost(s: string, what: string, i: nat, p: nat)
    requires i <= p <= |s| && At(s, p, what)
    ensures Find(s, what, i).Some? && Find(s, what, i).value <= p
    decreases p - i
  {
    if i < p && !At(s, i, what) {
      FindAtMost(s, what, i + 1, p);
    }
  }

  lemma {:induction false} FindLastAtLeast(s: string, what: string, i: nat, p: nat)
    requires p <= i <= |s| && At(s, p, what)
    ensures FindLast(s, what, i).Some? && p <= FindLast(s, what, i).value
    decreases i
  {
    if p < i && !At(s, i, what) {
      FindLastAtLeast(s, what, i - 1, p);
    }
  }

  lemma MarkInSuffix(payload: string, mark: string, suffix: string, i: nat)
    requires At(suffix, i, mark)
    ensures At(payload + mark + suffix, |payload| + |mark| + i, mark)
  {
    var s := payload + mark + suffix;
    assert s[|payload| + |mark|..] == suffix;
    assert s[|payload| + |mark| + i..|payload| + |mark| + i + |mark|] == suffix[i..i + |mark|];
  }

  /** The mark before `suffix` is the last one exactly if `suffix` has none. */
  lemma LastMark(payload: string, mark: string, suffix: string)
    requires Unbordered(mark)
    ensures var s := payload + mark + suffix; FindLast(s, mark, |s|) == Some(|payload|) <==> !Contains(suffix, mark)
  {
    var s := payload + mark + suffix;
    assert s[|payload|..|payload| + |mark|] == mark;
    if Contains(suffix, mark) {
      var i :| 0 <= i <= |suffix| && At(suffix, i, mark);
      MarkInSuffix(payload, mark, suffix, i);
      FindLastAtLeast(s, mark, |s|, |payload| + |mark| + i);
    } else {
      forall k | |payload| < k <= |s| ensures !At(s, k, mark) {
        if At(s, k, mark) { Occurrence(payload, mark, suffix, k); }
      }
      FindLastIs(s, mark, |s|, |payload|);
    }
  }

  lemma MarksAreUnbordered()
    ensures Unbordered(START) && Unbordered(END)
  {}

  datatype UnpackError = InvalidMessage | InvalidData | TooManyFiles | TooLarge | InvalidEncoding | ImageTooLarge | InvalidMetadata

  /** The checks on one file after `total` octets, as `unpack` makes them. */
  function CheckFile(c: Codec, file: Attachment, total: nat): Result<nat, UnpackError> {
    if |file.data| > MAX_ENCODED then Err(TooLarge)
    else
      var data := Decode(c.alphabet, file.data);
      if data.None? then Err(InvalidEncoding)
      else if c.nativeImage(file.mime) && |data.value| > MAX_IMAGE then Err(ImageTooLarge)
      else if total + |data.value| > MAX_BYTES then Err(TooLarge)
      else if |file.name| > 255 || |file.mime| > 100 then Err(InvalidMetadata)
      else Ok(total + |data.value|)
  }

  function CheckFiles(c: Codec, files: seq<Attachment>, total: nat): Result<nat, UnpackError>
    decreases |files|
  {
    if files == [] then Ok(total)
    else
      var one := CheckFile(c, files[0], total);
      if one.Err? then one else CheckFiles(c, files[1..], one.value)
  }

  /** The text around the attachments, and the attachments. */
  function Unpacked(c: Codec, text: string): Result<(string, seq<Attachment>), UnpackError> {
    var start := Find(text, START);
    if start.None? then Ok((text, []))
    else
      var rest := text[start.value + |START|..];
      var end := FindLast(rest, END, |rest|);
      if end.None? then Err(InvalidMessage)
      else
        var files := c.parse(rest[..end.value]);
        if files.None? then Err(InvalidData)
        else if |files.value| > 10 then Err(TooManyFiles)
        else
          var checked := CheckFiles(c, files.value, 0);
          if checked.Err? then Err(checked.error)
          else Ok((text[..start.value] + rest[end.value + |END|..], files.value))
  }

  /** `unpack`. */
  method Unpack(c: Codec, text: string) returns (r: Result<(string, seq<Attachment>), UnpackError>)
    ensures r == Unpacked(c, text)
  {
    var start := Find(text, START);
    if start.None? {
      return Ok((text, []));
    }
    var rest := text[start.value + |START|..];
    var end := FindLast(rest, END, |rest|);
    if end.None? {
      return Err(InvalidMessage);
    }
    var parsed := c.parse(rest[..end.value]);
    if parsed.None? {
      return Err(InvalidData);
    }
    var files := parsed.value;
    if |files| > 10 {
      return Err(TooManyFiles);
    }
    var total := 0;
    for i := 0 to |files|
      invariant CheckFiles(c, files[i..], total) == CheckFiles(c, files, 0)
    {
      assert files[i..][1..] == files[i + 1..];
      var one := CheckFile(c, files[i], total);
      if one.Err? {
        return Err(one.error);
      }
      total := one.value;
    }
    r := Ok((text[..start.value] + rest[end.value + |END|..], files));
  }

  /** A file the view hands over, within the limits the user sees for one. */
  ghost predicate Fits(c: Codec, file: Attachment, data: seq<Octet>) {
    && file.data == Encode(c.alphabet, data)
    && (c.nativeImage(file.mime) ==> |data| <= MAX_IMAGE)
    && |file.name| <= 255 && |file.mime| <= 100
  }

  function Lengths(contents: seq<seq<Octet>>): nat {
    if contents == [] then 0 else |contents[0]| + Lengths(contents[1..])
  }

  /** 10 files and 20 MiB in all. */
  ghost predicate WithinLimits(c: Codec, files: seq<Attachment>, contents: seq<seq<Octet>>) {
    && |files| == |contents| <= 10 && Lengths(contents) <= MAX_BYTES
    && forall i :: 0 <= i < |files| ==> Fits(c, files[i], contents[i])
  }

  lemma FilePasses(c: Codec, file: Attachment, data: seq<Octet>, total: nat)
    requires c.alphabet.Valid() && Fits(c, file, data) && total + |data| <= MAX_BYTES
    ensures CheckFile(c, file, total) == Ok(total + |data|)
  {
    DecodeUndoesEncode(c.alphabet, data);
    PreCheckNeverRejects(c.alphabet, data);
  }

  lemma {:induction false} FilesPass(c: Codec, files: seq<Attachment>, contents: seq<seq<Octet>>, total: nat)
    requires c.alphabet.Valid() && |files| == |contents| && total + Lengths(contents) <= MAX_BYTES
    requires forall i :: 0 <= i < |files| ==> Fits(c, files[i], contents[i])
    ensures CheckFiles(c, files, total) == Ok(total + Lengths(contents))
    decreases |files|
  {
    if files != [] {
      FilePasses(c, files[0], contents[0], total);
      forall i | 0 <= i < |files| - 1 ensures Fits(c, files[1..][i], contents[1..][i]) {
        assert Fits(c, files[i + 1], contents[i + 1]);
      }
      FilesPass(c, files[1..], contents[1..], total + |contents[0]|);
    }
  }

  /** A message with one packet. */
  function Packed(c: Codec, prefix: string, files: seq<Attachment>, suffix: string): string {
    prefix + START + (c.stringify(files) + END + suffix)
  }

  /** Unpacking undoes packing exactly when the text before has no opening mark and
      the text after no closing one: the text comes back without the packet, and
      the files with it. */
  lemma UnpackUndoesPack(c: Codec, prefix: string, files: seq<Attachment>, contents: seq<seq<Octet>>, suffix: string)
    requires c.Ideal() && WithinLimits(c, files, contents)
    ensures Unpacked(c, Packed(c, prefix, files, suffix)) == Ok((prefix + suffix, files)) <==>
            !Contains(prefix, START) && !Contains(suffix, END)
  {
    var payload := c.stringify(files);
    var rest := payload + END + suffix;
    if Contains(prefix, START) || Contains(suffix, END) {
      MarkInTextIsTakenForThePacket(c, prefix, payload, suffix);
    } else {
      MarksAreUnbordered();
      FirstMark(prefix, START, rest);
      LastMark(payload, END, suffix);
      Slices(prefix, START, rest);
      Slices(payload, END, suffix);
      FilesPass(c, files, contents, 0);
    }
  }

  /** A text that itself has one of these marks is never read back: what is between
      it and the packet's own mark, and whatever that holds, is dropped or makes the
      message invalid. */
  lemma MarkInTextIsTakenForThePacket(c: Codec, prefix: string, payload: string, suffix: string)
    requires Contains(prefix, START) || Contains(suffix, END)
    ensures var r := Unpacked(c, prefix + START + (payload + END + suffix));
            r.Ok? ==> |r.value.0| < |prefix + suffix|
  {
    var text := prefix + START + (payload + END + suffix);
    var start := StartIsEarly(prefix, payload + END + suffix);
    var rest := text[start + |START|..];
    var before := (prefix + START + payload)[start + |START|..];
    assert rest == before + END + suffix;
    EndIsLate(before, suffix);
  }

  lemma StartIsEarly(prefix: string, rest: string) returns (start: nat)
    ensures Find(prefix + START + rest, START) == Some(start) && start <= |prefix|
    ensures Contains(prefix, START) ==> start < |prefix|
  {
    var text := prefix + START + rest;
    assert text[|prefix|..|prefix| + |START|] == START;
    FindAtMost(text, START, 0, |prefix|);
    start := Find(text, START).value;
    if Contains(prefix, START) {
      var i :| 0 <= i <= |prefix| && At(prefix, i, START);
      assert text[i..i + |START|] == prefix[i..i + |START|];
      FindAtMost(text, START, 0, i);
    }
  }

  lemma EndIsLate(before: string, suffix: string)
    ensures var rest := before + END + suffix; var end := FindLast(rest, END, |rest|);
            end.Some? && end.value >= |before| && (Contains(suffix, END) ==> end.value > |before|)
  {
    var rest := before + END + suffix;
    assert rest[|before|..|before| + |END|] == END;
    FindLastAtLeast(rest, END, |rest|, |before|);
    if Contains(suffix, END) {
      var i :| 0 <= i <= |suffix| && At(suffix, i, END);
      MarkInSuffix(before, END, suffix, i);
      FindLastAtLeast(rest, END, |rest|, |before| + |END| + i);
    }
  }

  lemma Slices(a: string, mark: string, b: string)
    ensures (a + mark + b)[..|a|] == a && (a + mark + b)[|a| + |mark|..] == b
  {}

  /** `packMessage`. */
  function PackMessage(c: Codec, text: string, files: seq<Attachment>): string {
    if files == [] then text else Packed(c, Text.Trim(text) + "\n\n", files, "")
  }

  lemma MarkBeforeNewlines(text: string, mark: string)
    requires mark != "" && '\n' !in mark
    ensures Contains(text + "\n\n", mark) ==> Contains(text, mark)
  {
    var s := text + "\n\n";
    if Contains(s, mark) {
      var i :| 0 <= i <= |s| && At(s, i, mark);
      var last := |mark| - 1;
      assert s[i..i + |mark|][last] == s[i + last];
      assert mark[last] in mark;
      assert i + |mark| <= |text|;
      assert text[i..i + |mark|] == mark;
      assert At(text, i, mark);
    }
  }

  lemma MarkStaysInText(text: string, tail: string, mark: string)
    requires Contains(text, mark)
    ensures Contains(text + tail, mark)
  {
    var i :| 0 <= i <= |text| && At(text, i, mark);
    assert (text + tail)[i..i + |mark|] == text[i..i + |mark|];
    assert At(text + tail, i, mark);
  }

  /** What the view packs, the daemon unpacks, exactly if the text has no opening
      mark: the trimmed text and every file. */
  lemma DaemonReadsWhatTheViewPacks(c: Codec, text: string, files: seq<Attachment>, contents: seq<seq<Octet>>)
    requires c.Ideal() && WithinLimits(c, files, contents) && files != []
    ensures Unpacked(c, PackMessage(c, text, files)) == Ok((Text.Trim(text) + "\n\n", files)) <==> !Contains(Text.Trim(text), START)
    ensures TotalBytes(files) == Lengths(contents)
  {
    var prefix := Text.Trim(text) + "\n\n";
    if Contains(prefix, START) {
      MarkBeforeNewlines(Text.Trim(text), START);
    } else if Contains(Text.Trim(text), START) {
      MarkStaysInText(Text.Trim(text), "\n\n", START);
    }
    UnpackUndoesPack(c, prefix, files, contents, "");
    assert prefix + "" == prefix;
    TotalIsSum(c, files, contents);
  }

  lemma SizeFits(c: Codec, file: Attachment, data: seq<Octet>)
    requires c.alphabet.Valid() && Fits(c, file, data)
    ensures DataBytes(file.data) == |data|
  {
    BytesAreDecodedBytes(c.alphabet, data);
  }

  lemma {:induction false} TotalIsSum(c: Codec, files: seq<Attachment>, contents: seq<seq<Octet>>)
    requires c.alphabet.Valid() && |files| == |contents|
    requires forall i :: 0 <= i < |files| ==> Fits(c, files[i], contents[i])
    ensures TotalBytes(files) == Lengths(contents)
  {
    if files != [] {
      SizeFits(c, files[0], contents[0]);
      forall i | 0 <= i < |files| - 1 ensures Fits(c, files[1..][i], contents[1..][i]) {
        assert Fits(c, files[i + 1], contents[i + 1]);
      }
      TotalIsSum(c, files[1..], contents[1..]);
    }
  }
}
