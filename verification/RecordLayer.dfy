/** The encrypted record layer: `EncryptedDaemonSocket` with `encryptFrame`,
    `decryptFrame` and `counterNonce` (src/node/collaborationTransport.ts). */
module RecordLayer {
  import opened Wrappers
  import opened Text
  import opened Primitives

  const MAX_WIRE_LINE_BYTES: nat := 24 * 1024 * 1024
  const TWO_TO_THE_64: nat := 0x1_0000_0000_0000_0000
  const PROTOCOL_LABEL := "perpetual-collaboration-v1"

  datatype Direction = ClientToServer | ServerToClient

  function AssociatedData(dir: Direction): string {
    PROTOCOL_LABEL + (if dir == ClientToServer then ":c2s" else ":s2c")
  }

  // ------------------------------------------------------------------- nonces

  function BigEndian(n: nat, width: nat): (b: Bytes)
    ensures |b| == width
  {
    if width == 0 then [] else BigEndian(n / 256, width - 1) + [(n % 256) as byte]
  }

  /** Four zero bytes and the counter; `None` where the source throws. */
  function CounterNonce(counter: nat): Option<Bytes> {
    if 0 < counter < TWO_TO_THE_64 then Some([0, 0, 0, 0] + BigEndian(counter, 8)) else None
  }

  function Pow256(k: nat): nat {
    if k == 0 then 1 else 256 * Pow256(k - 1)
  }

  lemma {:induction false} BigEndianInjective(m: nat, n: nat, width: nat)
    requires m < Pow256(width) && n < Pow256(width)
    requires BigEndian(m, width) == BigEndian(n, width)
    ensures m == n
  {
    if width > 0 {
      var bm, bn := BigEndian(m, width), BigEndian(n, width);
      assert bm[..width - 1] == BigEndian(m / 256, width - 1);
      assert bn[..width - 1] == BigEndian(n / 256, width - 1);
      assert bm[width - 1] == bn[width - 1];
      BigEndianInjective(m / 256, n / 256, width - 1);
    }
  }

  lemma CounterNonceInjective(m: nat, n: nat)
    requires CounterNonce(m).Some? && CounterNonce(m) == CounterNonce(n)
    ensures m == n
  {
    assert Pow256(8) == TWO_TO_THE_64 by {
      assert Pow256(4) == 0x1_0000_0000;
    }
    var bm, bn := CounterNonce(m).value, CounterNonce(n).value;
    assert bm[4..] == BigEndian(m, 8) && bn[4..] == BigEndian(n, 8);
    BigEndianInjective(m, n, 8);
  }

  // ------------------------------------------------------------------- frames

  /** The receiver takes a line only if its sealed form is within the limit. */
  predicate Fits(line: string) {
    |line| + 16 <= MAX_WIRE_LINE_BYTES
  }

  /** One direction of a link: the primitives, the key and the direction label. */
  datatype Channel = Channel(p: Primitives, key: Bytes, dir: Direction) {

    /** `encryptFrame`, printed; `None` where the source throws. */
    function Encrypt(counter: nat, plaintext: string): Option<Json> {
      match CounterNonce(counter)
      case None => None
      case Some(nonce) =>
        Some(Frame(Decimal(counter), p.encode(p.seal(key, nonce, AssociatedData(dir), plaintext))))
    }

    /** `decryptFrame`; `None` where the source throws. */
    function Decrypt(expected: nat, frame: Json): Option<string> {
      if !frame.Frame? || frame.n != Decimal(expected) then None else
        var payload := p.decode(frame.c);
        if |payload| < 16 || |payload| > MAX_WIRE_LINE_BYTES then None else
          match CounterNonce(expected)
          case None => None
          case Some(nonce) => p.unseal(key, nonce, AssociatedData(dir), payload)
    }

    /** Reading one trimmed wire line: parse it, then decrypt it. */
    function OpenLine(expected: nat, line: string): Option<string> {
      match p.parse(line)
      case None => None
      case Some(frame) => Decrypt(expected, frame)
    }

    /** Decrypting what was encrypted under the same key, counter and direction
        succeeds exactly for lines within the size limit. */
    lemma FrameRoundTrip(counter: nat, line: string)
      requires p.Ideal() && Ascii(line) && CounterNonce(counter).Some?
      ensures Encrypt(counter, line).Some?
      ensures Decrypt(counter, Encrypt(counter, line).value) == if Fits(line) then Some(line) else None
    {
      var sealed := p.seal(key, CounterNonce(counter).value, AssociatedData(dir), line);
      assert p.decode(p.encode(sealed)) == sealed;
    }
  }

  // ------------------------------------------------------------------- sender

  /** The writing half: unsent text, frame counter, the frame texts written to
      the socket (each followed by a newline there), and whether it has failed. */
  datatype Sender = Sender(plaintext: string, counter: nat, wire: seq<string>, failed: bool)

  /** Seal one line under the next counter; a counter the nonce cannot hold
      fails the sender. */
  function SealLine(ch: Channel, s: Sender, line: string): Sender {
    match ch.Encrypt(s.counter + 1, line)
    case None => s.(counter := s.counter + 1, failed := true)
    case Some(frame) => s.(counter := s.counter + 1, wire := s.wire + [ch.p.stringify(frame)])
  }

  function SealLines(ch: Channel, s: Sender, lines: seq<string>): Sender
    decreases |lines|
  {
    if lines == [] || s.failed then s else SealLines(ch, SealLine(ch, s, lines[0]), lines[1..])
  }

  /** Seal every complete line of `text` and keep the rest. */
  function SealText(ch: Channel, s: Sender, text: string): Sender {
    SealLines(ch, s, CompleteLines(text)).(plaintext := Remainder(text))
  }

  function Write(ch: Channel, s: Sender, chunk: string): Sender {
    if s.failed then s else
      var sealed := SealText(ch, s, s.plaintext + chunk);
      sealed.(failed := sealed.failed || |sealed.plaintext| > MAX_WIRE_LINE_BYTES)
  }

  function WriteAll(ch: Channel, s: Sender, chunks: seq<string>): Sender
    decreases |chunks|
  {
    if chunks == [] then s else WriteAll(ch, Write(ch, s, chunks[0]), chunks[1..])
  }

  // ----------------------------------------------------------------- receiver

  /** The reading half: unframed text, frame counter, the lines pushed on. */
  datatype Receiver = Receiver(incoming: string, counter: nat, pushed: seq<string>, open: bool)

  function ReadLine(ch: Channel, r: Receiver, raw: string): Receiver {
    var line := Trim(raw);
    if line == "" then r else
      match ch.OpenLine(r.counter + 1, line)
      case None => r.(open := false)
      case Some(plaintext) => r.(counter := r.counter + 1, pushed := r.pushed + [plaintext])
  }

  /** Lines after one that closed the stream are not looked at. */
  function ReadLines(ch: Channel, r: Receiver, lines: seq<string>): Receiver
    decreases |lines|
  {
    if lines == [] || !r.open then r else ReadLines(ch, ReadLine(ch, r, lines[0]), lines[1..])
  }

  /** Read every complete line of `text` and keep the rest. */
  function ReadText(ch: Channel, r: Receiver, text: string): Receiver {
    ReadLines(ch, r, CompleteLines(text)).(incoming := Remainder(text))
  }

  function OnData(ch: Channel, r: Receiver, chunk: string): Receiver {
    if !r.open then r else
      var text := r.incoming + chunk;
      if |text| > 2 * MAX_WIRE_LINE_BYTES then r.(incoming := text, open := false) else ReadText(ch, r, text)
  }

  function OnDataAll(ch: Channel, r: Receiver, chunks: seq<string>): Receiver
    decreases |chunks|
  {
    if chunks == [] then r else OnDataAll(ch, OnData(ch, r, chunks[0]), chunks[1..])
  }

  // ------------------------------------------------------- the socket object

  /** Equal up to the text a failed sender never sends. */
  predicate SameSender(s: Sender, t: Sender) {
    s.counter == t.counter && s.wire == t.wire && s.failed == t.failed && (!s.failed ==> s.plaintext == t.plaintext)
  }

  /** Equal up to the text a closed receiver never looks at. */
  predicate SameReceiver(r: Receiver, s: Receiver) {
    r.counter == s.counter && r.pushed == s.pushed && r.open == s.open && (r.open ==> r.incoming == s.incoming)
  }

  lemma SealCons(ch: Channel, s: Sender, line: string, more: seq<string>)
    requires !s.failed
    ensures SealLines(ch, s, [line] + more) == SealLines(ch, SealLine(ch, s, line), more)
    ensures SealLine(ch, s, line).failed ==> SealLines(ch, s, [line] + more) == SealLine(ch, s, line)
  {
    assert ([line] + more)[1..] == more;
  }

  lemma ReadCons(ch: Channel, r: Receiver, line: string, more: seq<string>)
    requires r.open
    ensures ReadLines(ch, r, [line] + more) == ReadLines(ch, ReadLine(ch, r, line), more)
    ensures !ReadLine(ch, r, line).open ==> ReadLines(ch, r, [line] + more) == ReadLine(ch, r, line)
  {
    assert ([line] + more)[1..] == more;
  }

  /** Sealing what is buffered one line at a time. */
  function SealOn(ch: Channel, s: Sender): Sender
    decreases |s.plaintext|
  {
    if '\n' !in s.plaintext then s
    else
      var i := IndexOf(s.plaintext, '\n');
      var next := SealLine(ch, s.(plaintext := s.plaintext[i + 1..]), s.plaintext[..i]);
      if next.failed then next else SealOn(ch, next)
  }

  lemma {:induction false} SealLinesKeepText(ch: Channel, s: Sender, lines: seq<string>, text: string)
    ensures SealLines(ch, s.(plaintext := text), lines) == SealLines(ch, s, lines).(plaintext := text)
    decreases |lines|
  {
    if lines != [] && !s.failed {
      SealLinesKeepText(ch, SealLine(ch, s, lines[0]), lines[1..], text);
    }
  }

  lemma SealListStep(ch: Channel, s: Sender, line: string, rest: string, more: seq<string>, end: string)
    requires !s.failed
    ensures var next := SealLine(ch, s.(plaintext := rest), line);
            var sealed := SealLines(ch, s, [line] + more).(plaintext := end);
            if next.failed then SameSender(next, sealed) else sealed == SealLines(ch, next, more).(plaintext := end)
  {
    SealCons(ch, s, line, more);
    SealLinesKeepText(ch, SealLine(ch, s, line), more, rest);
  }

  lemma {:induction false} SealOnIsSealText(ch: Channel, s: Sender)
    requires !s.failed
    ensures SameSender(SealOn(ch, s), SealText(ch, s, s.plaintext))
    decreases |s.plaintext|
  {
    if '\n' in s.plaintext {
      var i := IndexOf(s.plaintext, '\n');
      var line, rest := s.plaintext[..i], s.plaintext[i + 1..];
      FirstLine(s.plaintext);
      SealListStep(ch, s, line, rest, CompleteLines(rest), Remainder(rest));
      var next := SealLine(ch, s.(plaintext := rest), line);
      if !next.failed {
        SealOnIsSealText(ch, next);
      }
    }
  }

  /** Reading what is buffered one line at a time. */
  function ReadOn(ch: Channel, r: Receiver): Receiver
    decreases |r.incoming|
  {
    if '\n' !in r.incoming then r
    else
      var i := IndexOf(r.incoming, '\n');
      var next := ReadLine(ch, r.(incoming := r.incoming[i + 1..]), r.incoming[..i]);
      if next.open then ReadOn(ch, next) else next
  }

  lemma {:induction false} ReadLinesKeepText(ch: Channel, r: Receiver, lines: seq<string>, text: string)
    ensures ReadLines(ch, r.(incoming := text), lines) == ReadLines(ch, r, lines).(incoming := text)
    decreases |lines|
  {
    if lines != [] && r.open {
      ReadLinesKeepText(ch, ReadLine(ch, r, lines[0]), lines[1..], text);
    }
  }

  lemma ReadListStep(ch: Channel, r: Receiver, line: string, rest: string, more: seq<string>, end: string)
    requires r.open
    ensures var next := ReadLine(ch, r.(incoming := rest), line);
            var read := ReadLines(ch, r, [line] + more).(incoming := end);
            if next.open then read == ReadLines(ch, next, more).(incoming := end) else SameReceiver(next, read)
  {
    ReadCons(ch, r, line, more);
    ReadLinesKeepText(ch, ReadLine(ch, r, line), more, rest);
  }

  lemma ReadLineKeepsText(ch: Channel, r: Receiver, raw: string)
    ensures ReadLine(ch, r, raw).incoming == r.incoming
  {}

  lemma {:induction false} ReadOnIsReadText(ch: Channel, r: Receiver)
    requires r.open
    ensures SameReceiver(ReadOn(ch, r), ReadText(ch, r, r.incoming))
    decreases |r.incoming|
  {
    if '\n' in r.incoming {
      var i := IndexOf(r.incoming, '\n');
      var line, rest := r.incoming[..i], r.incoming[i + 1..];
      FirstLine(r.incoming);
      ReadListStep(ch, r, line, rest, CompleteLines(rest), Remainder(rest));
      var next := ReadLine(ch, r.(incoming := rest), line);
      ReadLineKeepsText(ch, r.(incoming := rest), line);
      if next.open {
        ReadOnIsReadText(ch, next);
        assert ReadText(ch, r, r.incoming) == ReadText(ch, next, next.incoming);
        assert ReadOn(ch, r) == ReadOn(ch, next);
      }
    }
  }

  /** `EncryptedDaemonSocket`. A destroyed socket neither reads nor writes. */
  class EncryptedDaemonSocket {
    const receiving: Channel
    const sending: Channel
    var incoming: string
    var plaintext: string
    var receiveCounter: nat
    var sendCounter: nat
    var wire: seq<string>     // everything written to the socket
    var pushed: seq<string>   // every line handed to the reader
    var destroyed: bool

    constructor (receiving: Channel, sending: Channel, initialReceiveCounter: nat, initialSendCounter: nat)
      ensures this.receiving == receiving && this.sending == sending
      ensures Sending() == Sender("", initialSendCounter, [], false)
      ensures Receiving() == Receiver("", initialReceiveCounter, [], true)
    {
      this.receiving, this.sending := receiving, sending;
      receiveCounter, sendCounter := initialReceiveCounter, initialSendCounter;
      incoming, plaintext, wire, pushed, destroyed := "", "", [], [], false;
    }

    function Sending(): Sender
      reads this
    {
      Sender(plaintext, sendCounter, wire, destroyed)
    }

    function Receiving(): Receiver
      reads this
    {
      Receiver(incoming, receiveCounter, pushed, !destroyed)
    }

    /** `_write`; `ok` is false where the source reports an error to the stream. */
    method WriteChunk(chunk: string) returns (ok: bool)
      requires !destroyed
      modifies `plaintext, `sendCounter, `wire, `destroyed
      ensures SameSender(Sending(), Write(sending, old(Sending()), chunk))
      ensures ok == !destroyed
    {
      ghost var s := Sending();
      plaintext := plaintext + chunk;
      SealOnIsSealText(sending, Sending());
      SealLinesKeepText(sending, s, CompleteLines(plaintext), plaintext);
      SealLinesOfText();
      if destroyed { return false; }
      destroyed := |plaintext| > MAX_WIRE_LINE_BYTES;
      return !destroyed;
    }

    /** The loop of `_write`: it seals the complete lines of the buffered text. */
    method SealLinesOfText()
      requires !destroyed
      modifies `plaintext, `sendCounter, `wire, `destroyed
      ensures Sending() == SealOn(sending, old(Sending()))
    {
      while '\n' in plaintext
        invariant !destroyed
        invariant SealOn(sending, Sending()) == SealOn(sending, old(Sending()))
        decreases |plaintext|
      {
        var idx := IndexOf(plaintext, '\n');
        var line := plaintext[..idx];
        plaintext := plaintext[idx + 1..];
        sendCounter := sendCounter + 1;
        var frame := sending.Encrypt(sendCounter, line);
        if frame.None? {
          destroyed := true;
          return;
        }
        wire := wire + [sending.p.stringify(frame.value)];
      }
    }

    /** `onWireData`. */
    method OnWireData(chunk: string)
      requires !destroyed
      modifies `incoming, `receiveCounter, `pushed, `destroyed
      ensures SameReceiver(Receiving(), OnData(receiving, old(Receiving()), chunk))
    {
      ghost var r := Receiving();
      incoming := incoming + chunk;
      if |incoming| > MAX_WIRE_LINE_BYTES * 2 {
        destroyed := true;
        return;
      }
      ReadOnIsReadText(receiving, Receiving());
      ReadLinesKeepText(receiving, r, CompleteLines(incoming), incoming);
      OpenLinesOfText();
    }

    /** The loop of `onWireData`: it opens the complete lines of the buffered text. */
    method OpenLinesOfText()
      requires !destroyed
      modifies `incoming, `receiveCounter, `pushed, `destroyed
      ensures Receiving() == ReadOn(receiving, old(Receiving()))
    {
      while '\n' in incoming
        invariant !destroyed
        invariant ReadOn(receiving, Receiving()) == ReadOn(receiving, old(Receiving()))
        decreases |incoming|
      {
        var idx := IndexOf(incoming, '\n');
        var raw := incoming[..idx];
        ghost var next := ReadLine(receiving, Receiving().(incoming := incoming[idx + 1..]), raw);
        assert ReadOn(receiving, Receiving()) == if next.open then ReadOn(receiving, next) else next;
        var line := Trim(raw);
        incoming := incoming[idx + 1..];
        if line != "" {
          var expected := receiveCounter + 1;
          var clear := receiving.OpenLine(expected, line);
          if clear.None? {
            destroyed := true;
            return;
          }
          receiveCounter := expected;
          pushed := pushed + [clear.value];
        }
        assert Receiving() == next;
      }
    }
  }

  // ---------------------------------------------------- what the sender sends

  /** The frame texts of `lines` sealed under consecutive counters. */
  function Frames(ch: Channel, counter: nat, lines: seq<string>): seq<string>
    decreases |lines|
  {
    if lines == [] then [] else
      match ch.Encrypt(counter + 1, lines[0])
      case None => []
      case Some(frame) => [ch.p.stringify(frame)] + Frames(ch, counter + 1, lines[1..])
  }

  lemma {:induction false} SealLinesSendsFrames(ch: Channel, s: Sender, lines: seq<string>)
    requires !s.failed
    ensures var t := SealLines(ch, s, lines);
            && t.wire == s.wire + Frames(ch, s.counter, lines)
            && t.plaintext == s.plaintext
            && (!t.failed ==> t.counter == s.counter + |lines| && (lines != [] ==> t.counter < TWO_TO_THE_64))
    decreases |lines|
  {
    if lines != [] && ch.Encrypt(s.counter + 1, lines[0]).Some? {
      SealLinesSendsFrames(ch, SealLine(ch, s, lines[0]), lines[1..]);
    }
  }

  lemma {:induction false} FramesAppend(ch: Channel, counter: nat, a: seq<string>, b: seq<string>)
    requires a != [] ==> counter + |a| < TWO_TO_THE_64
    ensures Frames(ch, counter, a + b) == Frames(ch, counter, a) + Frames(ch, counter + |a|, b)
    decreases |a|
  {
    if a == [] {
      assert a + b == b;
    } else {
      assert (a + b)[1..] == a[1..] + b;
      FramesAppend(ch, counter + 1, a[1..], b);
    }
  }

  /** The sender after accepting all of `text` since counter `start`. */
  ghost predicate Accepted(ch: Channel, start: nat, text: string, s: Sender) {
    && !s.failed
    && s.plaintext == Remainder(text)
    && s.counter == start + |CompleteLines(text)|
    && (CompleteLines(text) != [] ==> s.counter < TWO_TO_THE_64)
    && s.wire == Frames(ch, start, CompleteLines(text))
  }

  lemma WriteAccepts(ch: Channel, start: nat, text: string, s: Sender, chunk: string)
    requires Accepted(ch, start, text, s)
    ensures var t := Write(ch, s, chunk);
            && (!t.failed ==> Accepted(ch, start, text + chunk, t))
            && t.wire == Frames(ch, start, CompleteLines(text + chunk))
  {
    var more := CompleteLines(Remainder(text) + chunk);
    LinesAppend(text, chunk);
    SealLinesSendsFrames(ch, s, more);
    FramesAppend(ch, start, CompleteLines(text), more);
  }

  /** Whatever the split into writes, the wire holds the frames of the complete
      lines of the text accepted so far: all of it unless a write failed. */
  lemma {:induction false} WriteAllSendsFrames(ch: Channel, start: nat, text: string, s: Sender, chunks: seq<string>)
    returns (accepted: string)
    requires Accepted(ch, start, text, s)
    ensures var t := WriteAll(ch, s, chunks);
            && accepted <= text + Concat(chunks)
            && t.wire == Frames(ch, start, CompleteLines(accepted))
            && (!t.failed ==> accepted == text + Concat(chunks) && Accepted(ch, start, accepted, t))
    decreases |chunks|
  {
    accepted := text;
    if chunks == [] {
      assert text + Concat(chunks) == text;
      return;
    }
    WriteAccepts(ch, start, text, s, chunks[0]);
    accepted := text + chunks[0];
    var t := Write(ch, s, chunks[0]);
    ConcatCons(text, chunks);
    if t.failed {
      FailedWritesNothing(ch, t, chunks[1..]);
    } else {
      accepted := WriteAllSendsFrames(ch, start, accepted, t, chunks[1..]);
    }
  }

  lemma {:induction false} FailedWritesNothing(ch: Channel, s: Sender, chunks: seq<string>)
    requires s.failed
    ensures WriteAll(ch, s, chunks) == s
    decreases |chunks|
  {
    if chunks != [] {
      FailedWritesNothing(ch, s, chunks[1..]);
    }
  }

  lemma LinesOfTextPrefix(a: string, b: string)
    requires a <= b
    ensures CompleteLines(a) <= CompleteLines(b)
  {
    LinesAppend(a, b[|a|..]);
    assert a + b[|a|..] == b;
  }

  // ----------------------------------------- reading does not depend on chunks

  lemma {:induction false} ReadLinesAppend(ch: Channel, r: Receiver, a: seq<string>, b: seq<string>)
    ensures ReadLines(ch, r, a + b) == ReadLines(ch, ReadLines(ch, r, a), b)
    ensures r.pushed <= ReadLines(ch, r, a).pushed
    decreases |a|
  {
    if a == [] {
      assert a + b == b;
    } else if r.open {
      assert (a + b)[1..] == a[1..] + b;
      ReadLinesAppend(ch, ReadLine(ch, r, a[0]), a[1..], b);
    }
  }

  lemma {:induction false} IncomingIsIndependent(ch: Channel, r: Receiver, text: string, lines: seq<string>)
    ensures ReadLines(ch, r.(incoming := text), lines) == ReadLines(ch, r, lines).(incoming := text)
    decreases |lines|
  {
    if lines != [] && r.open {
      IncomingIsIndependent(ch, ReadLine(ch, r, lines[0]), text, lines[1..]);
    }
  }

  function Fresh(start: nat): Receiver {
    Receiver("", start, [], true)
  }

  /** The receiver after all of `text` has arrived, had there been no limit. */
  function Unlimited(ch: Channel, start: nat, text: string): Receiver {
    ReadText(ch, Fresh(start), text)
  }

  lemma UnlimitedGrows(ch: Channel, start: nat, text: string, chunk: string)
    ensures Unlimited(ch, start, text + chunk) == ReadText(ch, Unlimited(ch, start, text), Remainder(text) + chunk)
    ensures Unlimited(ch, start, text).pushed <= Unlimited(ch, start, text + chunk).pushed
  {
    var mid := ReadLines(ch, Fresh(start), CompleteLines(text));
    var more := CompleteLines(Remainder(text) + chunk);
    LinesAppend(text, chunk);
    ReadLinesAppend(ch, Fresh(start), CompleteLines(text), more);
    IncomingIsIndependent(ch, mid, Remainder(text), more);
    ReadLinesAppend(ch, mid, more, []);
  }

  /** One chunk: either the limit closes the stream, or it reads on as if the
      text had arrived in one piece. */
  lemma OnDataIsUnlimited(ch: Channel, start: nat, text: string, chunk: string)
    requires Unlimited(ch, start, text).open
    ensures var r := OnData(ch, Unlimited(ch, start, text), chunk);
            if |Remainder(text) + chunk| > 2 * MAX_WIRE_LINE_BYTES
            then !r.open && r.pushed == Unlimited(ch, start, text).pushed
            else r == Unlimited(ch, start, text + chunk)
  {
    UnlimitedGrows(ch, start, text, chunk);
  }

  /** The limit, and a frame that closes the stream, can only cut it short. */
  lemma {:induction false} ChunksOnlyTruncate(ch: Channel, start: nat, text: string, r: Receiver, chunks: seq<string>)
    requires r.pushed <= Unlimited(ch, start, text).pushed
    requires r.open ==> r == Unlimited(ch, start, text)
    ensures OnDataAll(ch, r, chunks).pushed <= Unlimited(ch, start, text + Concat(chunks)).pushed
    decreases |chunks|
  {
    if chunks == [] {
      assert text + Concat(chunks) == text;
    } else {
      UnlimitedGrows(ch, start, text, chunks[0]);
      if r.open {
        OnDataIsUnlimited(ch, start, text, chunks[0]);
      }
      assert text + Concat(chunks) == text + chunks[0] + Concat(chunks[1..]);
      ChunksOnlyTruncate(ch, start, text + chunks[0], OnData(ch, r, chunks[0]), chunks[1..]);
    }
  }

  // --------------------------------------------- reading what the sender sent

  ghost predicate Sendable(lines: seq<string>) {
    forall l :: l in lines ==> Ascii(l)
  }

  /** The lines a receiver at `counter` gets out of `lines`. */
  function Deliverable(counter: nat, lines: seq<string>): (d: seq<string>)
    ensures d <= lines
    ensures d == lines <==> (forall l :: l in lines ==> Fits(l)) && (lines != [] ==> counter + |lines| < TWO_TO_THE_64)
    decreases |lines|
  {
    if lines == [] || counter + 1 >= TWO_TO_THE_64 || !Fits(lines[0]) then
      assert lines != [] ==> lines[0] in lines;
      []
    else [lines[0]] + Deliverable(counter + 1, lines[1..])
  }

  lemma {:induction false} ReadFrames(ch: Channel, r: Receiver, lines: seq<string>)
    requires ch.p.Ideal() && Sendable(lines) && r.open
    ensures var t := ReadLines(ch, r, Frames(ch, r.counter, lines));
            && t.pushed == r.pushed + Deliverable(r.counter, lines)
            && (Deliverable(r.counter, lines) == lines ==> t.open && t.counter == r.counter + |lines|)
    decreases |lines|
  {
    if lines != [] && r.counter + 1 < TWO_TO_THE_64 {
      var text := ch.p.stringify(ch.Encrypt(r.counter + 1, lines[0]).value);
      assert Trim(text) == text;
      ch.FrameRoundTrip(r.counter + 1, lines[0]);
      if Fits(lines[0]) {
        ReadFrames(ch, ReadLine(ch, r, text), lines[1..]);
      }
    }
  }

  lemma {:induction false} FramesAreLines(ch: Channel, counter: nat, lines: seq<string>)
    requires ch.p.Ideal()
    ensures forall f :: f in Frames(ch, counter, lines) ==> '\n' !in f
    ensures |Frames(ch, counter, lines)| <= |lines|
    ensures lines != [] && counter + |lines| < TWO_TO_THE_64 ==> |Frames(ch, counter, lines)| == |lines|
    decreases |lines|
  {
    if lines != [] && ch.Encrypt(counter + 1, lines[0]).Some? {
      FramesAreLines(ch, counter + 1, lines[1..]);
    }
  }

  /** Any part of the wire that has arrived reads as some first lines. */
  lemma UnlimitedReadsPrefix(ch: Channel, start: nat, lines: seq<string>, got: string)
    requires ch.p.Ideal() && Sendable(lines)
    requires got <= Unlines(Frames(ch, start, lines))
    ensures var t := Unlimited(ch, start, got);
            && t.pushed <= Deliverable(start, lines)
            && (got == Unlines(Frames(ch, start, lines)) ==> t.pushed == Deliverable(start, lines))
            && (Deliverable(start, lines) == lines ==> t.open)
            && (Deliverable(start, lines) == lines && got == Unlines(Frames(ch, start, lines)) ==>
                t.counter == start + |lines| && t.incoming == "")
  {
    var frames := Frames(ch, start, lines);
    FramesAreLines(ch, start, lines);
    var k := LinesOfPrefix(frames, got);
    var r := Fresh(start);
    ReadFrames(ch, r, lines);
    assert frames[..k] + frames[k..] == frames;
    ReadLinesAppend(ch, r, frames[..k], frames[k..]);
    ReadLinesAppend(ch, ReadLines(ch, r, frames[..k]), frames[k..], []);
    ClosedStaysClosed(ch, ReadLines(ch, r, frames[..k]), frames[k..]);
    if k == |frames| {
      assert frames[..k] == frames;
    }
  }

  lemma ClosedStaysClosed(ch: Channel, r: Receiver, lines: seq<string>)
    ensures !r.open ==> ReadLines(ch, r, lines) == r
  {}

  /** The longest frame text of a line within the limit: a counter below 2^64
      has at most 20 digits. */
  const MAX_FRAME_TEXT: nat := 15 + 20 + (4 * MAX_WIRE_LINE_BYTES + 2) / 3

  /** With chunks of at most this size the buffer limit is never reached. */
  const MAX_CHUNK: nat := 2 * MAX_WIRE_LINE_BYTES - MAX_FRAME_TEXT

  lemma FrameTextBound(ch: Channel, counter: nat, line: string)
    requires ch.p.Ideal() && Ascii(line) && Fits(line) && CounterNonce(counter).Some?
    ensures |ch.p.stringify(ch.Encrypt(counter, line).value)| <= MAX_FRAME_TEXT
  {
    assert Pow10(20) == 100_000_000_000_000_000_000 by {
      assert Pow10(10) == 10_000_000_000;
    }
    DecimalLength(counter, 20);
    var sealed := ch.p.seal(ch.key, CounterNonce(counter).value, AssociatedData(ch.dir), line);
    assert |sealed| == |line| + 16;
    var frame := Frame(Decimal(counter), ch.p.encode(sealed));
    assert |ch.p.stringify(frame)| == 15 + |Decimal(counter)| + |ch.p.encode(sealed)|;
  }

  lemma {:induction false} FrameTextsBound(ch: Channel, counter: nat, lines: seq<string>)
    requires ch.p.Ideal() && Sendable(lines) && (forall l :: l in lines ==> Fits(l))
    ensures forall f :: f in Frames(ch, counter, lines) ==> |f| <= MAX_FRAME_TEXT
    decreases |lines|
  {
    if lines != [] && ch.Encrypt(counter + 1, lines[0]).Some? {
      FrameTextBound(ch, counter + 1, lines[0]);
      FrameTextsBound(ch, counter + 1, lines[1..]);
    }
  }

  /** Small chunks of a wire whose lines all fit never meet the limit. */
  lemma {:induction false} SmallChunksReadFully(ch: Channel, start: nat, lines: seq<string>, got: string, chunks: seq<string>)
    requires ch.p.Ideal() && Sendable(lines) && Deliverable(start, lines) == lines
    requires got + Concat(chunks) <= Unlines(Frames(ch, start, lines))
    requires forall c :: c in chunks ==> |c| <= MAX_CHUNK
    ensures OnDataAll(ch, Unlimited(ch, start, got), chunks) == Unlimited(ch, start, got + Concat(chunks))
    decreases |chunks|
  {
    if chunks == [] {
      assert got + Concat(chunks) == got;
    } else {
      ConcatCons(got, chunks);
      PrefixOfPrefix(got, Concat(chunks), Unlines(Frames(ch, start, lines)));
      UnlimitedReadsPrefix(ch, start, lines, got);
      RemainderIsSmall(ch, start, lines, got);
      assert |chunks[0]| <= MAX_CHUNK;
      OnDataIsUnlimited(ch, start, got, chunks[0]);
      SmallChunksReadFully(ch, start, lines, got + chunks[0], chunks[1..]);
    }
  }

  lemma PrefixOfPrefix(a: string, b: string, whole: string)
    requires a + b <= whole
    ensures a <= whole
  {
    assert a <= a + b;
  }

  lemma RemainderIsSmall(ch: Channel, start: nat, lines: seq<string>, got: string)
    requires ch.p.Ideal() && Sendable(lines) && Deliverable(start, lines) == lines
    requires got <= Unlines(Frames(ch, start, lines))
    ensures |Remainder(got)| <= MAX_FRAME_TEXT
  {
    FramesAreLines(ch, start, lines);
    FrameTextsBound(ch, start, lines);
    var k := LinesOfPrefix(Frames(ch, start, lines), got);
  }

  // -------------------------------------------------------------- main results

  function Sent(ch: Channel, start: nat, writes: seq<string>): Sender {
    WriteAll(ch, Sender("", start, [], false), writes)
  }

  /** For every split of the sender's text into writes, every chunking of any
      part of the wire and any limit met on the way, the reader has been given a
      prefix of the complete lines written, in order and unchanged. */
  lemma LinkRefinesLineStream(ch: Channel, start: nat, writes: seq<string>, chunks: seq<string>)
    requires ch.p.Ideal() && Ascii(Concat(writes))
    requires Concat(chunks) <= Unlines(Sent(ch, start, writes).wire)
    ensures OnDataAll(ch, Fresh(start), chunks).pushed <= CompleteLines(Concat(writes))
  {
    var accepted := WriteAllSendsFrames(ch, start, "", Sender("", start, [], false), writes);
    assert "" + Concat(writes) == Concat(writes) && "" + Concat(chunks) == Concat(chunks);
    LinesOfTextPrefix(accepted, Concat(writes));
    AsciiLines(Concat(writes));
    ChunksOnlyTruncate(ch, start, "", Fresh(start), chunks);
    UnlimitedReadsPrefix(ch, start, CompleteLines(accepted), Concat(chunks));
  }

  /** Once every byte of a sender that has not failed has arrived in chunks of
      at most `MAX_CHUNK`, all lines are delivered exactly when each of them is
      within the size limit; then both counters agree and the stream is open. */
  lemma LinkDeliversEverything(ch: Channel, start: nat, writes: seq<string>, chunks: seq<string>)
    requires ch.p.Ideal() && Ascii(Concat(writes))
    requires !Sent(ch, start, writes).failed
    requires Concat(chunks) == Unlines(Sent(ch, start, writes).wire)
    requires forall c :: c in chunks ==> |c| <= MAX_CHUNK
    ensures var r := OnDataAll(ch, Fresh(start), chunks);
            var lines := CompleteLines(Concat(writes));
            && (r.pushed == lines <==> forall l :: l in lines ==> Fits(l))
            && (r.pushed == lines ==> r.open && r.incoming == "" && r.counter == Sent(ch, start, writes).counter)
  {
    var accepted := WriteAllSendsFrames(ch, start, "", Sender("", start, [], false), writes);
    assert "" + Concat(writes) == Concat(writes) && "" + Concat(chunks) == Concat(chunks);
    AsciiLines(accepted);
    FramesAreDelivered(ch, start, CompleteLines(accepted), chunks);
  }

  lemma FramesAreDelivered(ch: Channel, start: nat, lines: seq<string>, chunks: seq<string>)
    requires ch.p.Ideal() && Sendable(lines) && Concat(chunks) == Unlines(Frames(ch, start, lines))
    requires forall c :: c in chunks ==> |c| <= MAX_CHUNK
    ensures var r := OnDataAll(ch, Fresh(start), chunks);
            && (r.pushed == lines <==> Deliverable(start, lines) == lines)
            && (r.pushed == lines ==> r.open && r.incoming == "" && r.counter == start + |lines|)
  {
    if Deliverable(start, lines) == lines {
      AllAreDelivered(ch, start, lines, chunks);
    } else {
      SomeAreLost(ch, start, lines, chunks);
    }
  }

  lemma AllAreDelivered(ch: Channel, start: nat, lines: seq<string>, chunks: seq<string>)
    requires ch.p.Ideal() && Sendable(lines) && Concat(chunks) == Unlines(Frames(ch, start, lines))
    requires (forall c :: c in chunks ==> |c| <= MAX_CHUNK) && Deliverable(start, lines) == lines
    ensures OnDataAll(ch, Fresh(start), chunks) == Receiver("", start + |lines|, lines, true)
  {
    assert "" + Concat(chunks) == Concat(chunks);
    UnlimitedReadsPrefix(ch, start, lines, Concat(chunks));
    SmallChunksReadFully(ch, start, lines, "", chunks);
  }

  lemma SomeAreLost(ch: Channel, start: nat, lines: seq<string>, chunks: seq<string>)
    requires ch.p.Ideal() && Sendable(lines) && Concat(chunks) == Unlines(Frames(ch, start, lines))
    ensures OnDataAll(ch, Fresh(start), chunks).pushed <= Deliverable(start, lines)
  {
    assert "" + Concat(chunks) == Concat(chunks);
    UnlimitedReadsPrefix(ch, start, lines, Concat(chunks));
    ChunksOnlyTruncate(ch, start, "", Fresh(start), chunks);
  }

  lemma AsciiLines(s: string)
    requires Ascii(s)
    ensures Sendable(CompleteLines(s))
  {
    LinesPartition(s);
    AsciiParts(CompleteLines(s), Remainder(s));
  }

  lemma {:induction false} AsciiParts(lines: seq<string>, rest: string)
    requires Ascii(Unlines(lines) + rest)
    ensures Sendable(lines)
  {
    if lines != [] {
      var s := Unlines(lines) + rest;
      assert s == lines[0] + "\n" + (Unlines(lines[1..]) + rest);
      assert forall c :: c in lines[0] ==> c in s;
      assert forall c :: c in Unlines(lines[1..]) + rest ==> c in s;
      AsciiParts(lines[1..], rest);
    }
  }

  // ------------------------------------------------ whatever else may arrive

  /** Among the raw lines that arrive, whatever opens under a counter opens to the
      line the peer sealed under that counter. */
  ghost predicate NoForgery(ch: Channel, start: nat, lines: seq<string>, raw: seq<string>) {
    forall n: nat, l {:trigger ch.OpenLine(n, Trim(l))} :: l in raw && ch.OpenLine(n, Trim(l)).Some? ==>
      start < n <= start + |lines| && ch.OpenLine(n, Trim(l)).value == lines[n - start - 1]
  }

  /** The receiver holds the first lines sent, one per counter step. */
  ghost predicate InStep(start: nat, lines: seq<string>, r: Receiver) {
    start <= r.counter <= start + |lines| && r.pushed == lines[..r.counter - start]
  }

  lemma NoForgeryInPart(ch: Channel, start: nat, lines: seq<string>, raw: seq<string>, part: seq<string>)
    requires NoForgery(ch, start, lines, raw) && forall l :: l in part ==> l in raw
    ensures NoForgery(ch, start, lines, part)
  {}

  lemma {:induction false} ReadLinesInStep(ch: Channel, start: nat, lines: seq<string>, r: Receiver, raw: seq<string>)
    requires NoForgery(ch, start, lines, raw) && InStep(start, lines, r)
    ensures InStep(start, lines, ReadLines(ch, r, raw))
    decreases |raw|
  {
    if raw != [] && r.open {
      var next := ReadLine(ch, r, raw[0]);
      var plain := ch.OpenLine(r.counter + 1, Trim(raw[0]));
      assert raw[0] in raw;
      assert plain.Some? ==> lines[..r.counter + 1 - start] == lines[..r.counter - start] + [plain.value];
      NoForgeryInPart(ch, start, lines, raw, raw[1..]);
      ReadLinesInStep(ch, start, lines, next, raw[1..]);
    }
  }

  lemma {:induction false} ClosedReadsNothing(ch: Channel, r: Receiver, chunks: seq<string>)
    requires !r.open
    ensures OnDataAll(ch, r, chunks) == r
  {
    if chunks != [] {
      ClosedReadsNothing(ch, r, chunks[1..]);
    }
  }

  /** However the text that arrives is cut into chunks, and whatever of it is
      altered, repeated, reordered or missing: as long as nothing in it is forged,
      the lines pushed are the first lines sent. A frame that does not belong ends
      the stream and changes nothing else. */
  lemma {:induction false} ForeignFramesOnlyEndTheStream(ch: Channel, start: nat, lines: seq<string>,
                                                         r: Receiver, chunks: seq<string>)
    requires NoForgery(ch, start, lines, CompleteLines(r.incoming + Concat(chunks))) && InStep(start, lines, r)
    ensures InStep(start, lines, OnDataAll(ch, r, chunks))
    decreases |chunks|
  {
    if !r.open {
      ClosedReadsNothing(ch, r, chunks);
    } else if chunks != [] {
      var text, next := r.incoming + chunks[0], OnData(ch, r, chunks[0]);
      var all := CompleteLines(r.incoming + Concat(chunks));
      ConcatCons(r.incoming, chunks);
      LinesAppend(text, Concat(chunks[1..]));
      NoForgeryInPart(ch, start, lines, all, CompleteLines(text));
      NoForgeryInPart(ch, start, lines, all, CompleteLines(Remainder(text) + Concat(chunks[1..])));
      ReadLinesInStep(ch, start, lines, r, CompleteLines(text));
      if next.open {
        ForeignFramesOnlyEndTheStream(ch, start, lines, next, chunks[1..]);
      } else {
        ClosedReadsNothing(ch, next, chunks[1..]);
      }
    }
  }

  /** A line that opens under no counter: text that is not a frame, a frame of
      another key or direction, or one that was altered. */
  ghost predicate NeverOpens(ch: Channel, line: string) {
    forall n: nat {:trigger ch.OpenLine(n, Trim(line))} :: ch.OpenLine(n, Trim(line)).None?
  }

  lemma FrameOpensOnce(ch: Channel, counter: nat, line: string, n: nat)
    requires ch.p.Ideal() && Ascii(line) && CounterNonce(counter).Some?
    ensures var text := ch.p.stringify(ch.Encrypt(counter, line).value);
            Trim(text) == text && ch.OpenLine(n, text) == if n == counter && Fits(line) then Some(line) else None
  {
    var frame := ch.Encrypt(counter, line).value;
    assert Trimmed(ch.p.stringify(frame));
    ch.FrameRoundTrip(counter, line);
    if n != counter && Decimal(n) == Decimal(counter) {
      DecimalInjective(n, counter);
    }
  }

  /** A frame of the sender opens under its own counter alone, to its own line. */
  lemma {:induction false} OwnFrameOpensOnce(ch: Channel, start: nat, lines: seq<string>, i: nat, n: nat)
    requires ch.p.Ideal() && Sendable(lines) && i < |Frames(ch, start, lines)|
    ensures i < |lines|
    ensures var text := Frames(ch, start, lines)[i];
            Trim(text) == text && ch.OpenLine(n, text) == if n == start + 1 + i && Fits(lines[i]) then Some(lines[i]) else None
    decreases |lines|
  {
    if i == 0 {
      FrameOpensOnce(ch, start + 1, lines[0], n);
    } else {
      OwnFrameOpensOnce(ch, start + 1, lines[1..], i - 1, n);
    }
  }

  /** So the hypothesis above is met by the sender's own frames, in any order, left
      out or repeated, with anything between them that never opens. */
  lemma OwnFramesAreNoForgery(ch: Channel, start: nat, lines: seq<string>, raw: seq<string>)
    requires ch.p.Ideal() && Sendable(lines)
    requires forall l :: l in raw ==> Trim(l) in Frames(ch, start, lines) || NeverOpens(ch, l)
    ensures NoForgery(ch, start, lines, raw)
  {
    forall n: nat, l | l in raw && ch.OpenLine(n, Trim(l)).Some?
      ensures start < n <= start + |lines| && ch.OpenLine(n, Trim(l)).value == lines[n - start - 1]
    {
      var i :| 0 <= i < |Frames(ch, start, lines)| && Frames(ch, start, lines)[i] == Trim(l);
      OwnFrameOpensOnce(ch, start, lines, i, n);
    }
  }

  /** The sender's frames in any order, with anything between them that never opens:
      the reader is given first lines of those sent, in order, and nothing else. */
  lemma ReorderedFramesDeliverAPrefix(ch: Channel, start: nat, lines: seq<string>, chunks: seq<string>)
    requires ch.p.Ideal() && Sendable(lines)
    requires forall l :: l in CompleteLines(Concat(chunks)) ==> Trim(l) in Frames(ch, start, lines) || NeverOpens(ch, l)
    ensures OnDataAll(ch, Fresh(start), chunks).pushed <= lines
  {
    OwnFramesAreNoForgery(ch, start, lines, CompleteLines(Concat(chunks)));
    assert "" + Concat(chunks) == Concat(chunks);
    ForeignFramesOnlyEndTheStream(ch, start, lines, Fresh(start), chunks);
  }

  /** The text is a frame of counter `n` that holds what sealing `plaintext` for
      this key, counter and direction gives. */
  predicate HoldsSealed(ch: Channel, n: nat, text: string, plaintext: string) {
    && CounterNonce(n).Some? && Ascii(plaintext) && Fits(plaintext)
    && ch.p.parse(text).Some? && ch.p.parse(text).value.Frame? && ch.p.parse(text).value.n == Decimal(n)
    && ch.p.decode(ch.p.parse(text).value.c) == ch.p.seal(ch.key, CounterNonce(n).value, AssociatedData(ch.dir), plaintext)
  }

  lemma OpensWhatIsSealed(ch: Channel, n: nat, text: string, plaintext: string)
    requires ch.p.Ideal()
    ensures ch.OpenLine(n, text) == Some(plaintext) <==> HoldsSealed(ch, n, text, plaintext)
  {}

  /** A line opens under no counter exactly if it holds nothing sealed for this key
      and direction: so neither does text that is no frame, nor a frame altered to
      something that was never sealed. */
  lemma AlteredFramesNeverOpen(ch: Channel, line: string)
    requires ch.p.Ideal()
    ensures NeverOpens(ch, line) <==> forall n: nat, t :: !HoldsSealed(ch, n, Trim(line), t)
  {
    forall n: nat, t ensures ch.OpenLine(n, Trim(line)) == Some(t) <==> HoldsSealed(ch, n, Trim(line), t) {
      OpensWhatIsSealed(ch, n, Trim(line), t);
    }
    if n: nat :| ch.OpenLine(n, Trim(line)).Some? {
      assert HoldsSealed(ch, n, Trim(line), ch.OpenLine(n, Trim(line)).value);
    }
  }

  /** The demand on what arrives, in terms of who can seal: whatever is sealed for
      this key and direction is the peer's line of that counter. */
  lemma NoForgeryMeansNoSealing(ch: Channel, start: nat, lines: seq<string>, raw: seq<string>)
    requires ch.p.Ideal()
    ensures NoForgery(ch, start, lines, raw) <==>
            forall n: nat, l, t {:trigger HoldsSealed(ch, n, Trim(l), t)} :: l in raw && HoldsSealed(ch, n, Trim(l), t) ==>
              start < n <= start + |lines| && t == lines[n - start - 1]
  {
    forall n: nat, l, t ensures ch.OpenLine(n, Trim(l)) == Some(t) <==> HoldsSealed(ch, n, Trim(l), t) {
      OpensWhatIsSealed(ch, n, Trim(l), t);
    }
    forall n: nat, l | ch.OpenLine(n, Trim(l)).Some? ensures HoldsSealed(ch, n, Trim(l), ch.OpenLine(n, Trim(l)).value) {
      OpensWhatIsSealed(ch, n, Trim(l), ch.OpenLine(n, Trim(l)).value);
    }
  }

  /** Sealing some text for the one channel gives what sealing `plaintext` gives for
      the other, under the same counter. */
  ghost predicate Collides(ch: Channel, other: Channel, n: nat, plaintext: string) {
    CounterNonce(n).Some? &&
    exists t {:trigger ch.p.seal(ch.key, CounterNonce(n).value, AssociatedData(ch.dir), t)} :: Ascii(t) &&
      ch.p.seal(ch.key, CounterNonce(n).value, AssociatedData(ch.dir), t)
      == ch.p.seal(other.key, CounterNonce(n).value, AssociatedData(other.dir), plaintext)
  }

  /** A frame sealed for another key or direction, such as one sent back to where it
      came from, opens under no counter exactly unless two sealings collide. */
  lemma OtherChannelsFramesNeverOpen(ch: Channel, other: Channel, n: nat, plaintext: string)
    requires ch.p.Ideal() && other.p == ch.p && Ascii(plaintext) && CounterNonce(n).Some?
    ensures NeverOpens(ch, ch.p.stringify(other.Encrypt(n, plaintext).value)) <==>
            !(Fits(plaintext) && Collides(ch, other, n, plaintext))
  {
    var text := ch.p.stringify(other.Encrypt(n, plaintext).value);
    assert Trimmed(text);
    var sealed := ch.p.seal(other.key, CounterNonce(n).value, AssociatedData(other.dir), plaintext);
    assert ch.p.decode(ch.p.encode(sealed)) == sealed;
    AlteredFramesNeverOpen(ch, text);
    forall m: nat, t | HoldsSealed(ch, m, Trim(text), t) ensures m == n && Fits(plaintext) && Collides(ch, other, n, plaintext) {
      DecimalInjective(m, n);
    }
    if Fits(plaintext) && Collides(ch, other, n, plaintext) {
      var t :| Ascii(t) && ch.p.seal(ch.key, CounterNonce(n).value, AssociatedData(ch.dir), t) == sealed;
      assert HoldsSealed(ch, n, Trim(text), t);
    }
  }

  // ---------------------------------------------------------- nonces in a run

  /** The counters under which a run of writes seals its frames. */
  function SealCounters(ch: Channel, s: Sender, lines: seq<string>): seq<nat>
    decreases |lines|
  {
    if lines == [] || s.failed then [] else
      var next := SealLine(ch, s, lines[0]);
      if next.failed then [] else [next.counter] + SealCounters(ch, next, lines[1..])
  }

  function WriteCounters(ch: Channel, s: Sender, chunks: seq<string>): seq<nat>
    decreases |chunks|
  {
    if chunks == [] || s.failed then [] else
      SealCounters(ch, s, CompleteLines(s.plaintext + chunks[0]))
      + WriteCounters(ch, Write(ch, s, chunks[0]), chunks[1..])
  }

  ghost predicate Consecutive(counters: seq<nat>, start: nat) {
    forall i {:trigger counters[i]} :: 0 <= i < |counters| ==>
      counters[i] == start + 1 + i && CounterNonce(counters[i]).Some?
  }

  lemma {:induction false} SealCountersConsecutive(ch: Channel, s: Sender, lines: seq<string>)
    requires !s.failed
    ensures Consecutive(SealCounters(ch, s, lines), s.counter)
    ensures !SealLines(ch, s, lines).failed ==> SealLines(ch, s, lines).counter == s.counter + |SealCounters(ch, s, lines)|
    decreases |lines|
  {
    if lines != [] && !SealLine(ch, s, lines[0]).failed {
      SealCountersConsecutive(ch, SealLine(ch, s, lines[0]), lines[1..]);
    }
  }

  lemma {:induction false} WriteCountersConsecutive(ch: Channel, s: Sender, chunks: seq<string>)
    ensures Consecutive(WriteCounters(ch, s, chunks), s.counter)
    decreases |chunks|
  {
    if chunks != [] && !s.failed {
      SealCountersConsecutive(ch, s, CompleteLines(s.plaintext + chunks[0]));
      WriteCountersConsecutive(ch, Write(ch, s, chunks[0]), chunks[1..]);
    }
  }

  function Pairs(key: Bytes, counters: seq<nat>): seq<(Bytes, Option<Bytes>)> {
    seq(|counters|, i requires 0 <= i < |counters| => (key, CounterNonce(counters[i])))
  }

  lemma {:induction false} SealCountersAreFrames(ch: Channel, s: Sender, lines: seq<string>)
    ensures |SealLines(ch, s, lines).wire| == |s.wire| + |SealCounters(ch, s, lines)|
    decreases |lines|
  {
    if lines != [] && !s.failed {
      SealCountersAreFrames(ch, SealLine(ch, s, lines[0]), lines[1..]);
    }
  }

  /** There is one counter for every frame on the wire. */
  lemma {:induction false} WriteCountersAreFrames(ch: Channel, s: Sender, chunks: seq<string>)
    ensures |WriteAll(ch, s, chunks).wire| == |s.wire| + |WriteCounters(ch, s, chunks)|
    decreases |chunks|
  {
    if chunks != [] {
      WriteCountersAreFrames(ch, Write(ch, s, chunks[0]), chunks[1..]);
      if !s.failed {
        SealCountersAreFrames(ch, s, CompleteLines(s.plaintext + chunks[0]));
      }
    }
  }

  /** The (key, nonce) pairs of a session: the host's credential frame (counter
      1) and its later frames (from counter 2), then the client's frames (from
      counter 1 under the other key). */
  function SessionPairs(host: Channel, client: Channel, hostWrites: seq<string>, clientWrites: seq<string>):
    seq<(Bytes, Option<Bytes>)>
  {
    Pairs(host.key, [1] + WriteCounters(host, Sender("", 1, [], false), hostWrites))
    + Pairs(client.key, WriteCounters(client, Sender("", 0, [], false), clientWrites))
  }

  /** No pair is used twice in a session if and only if the two keys differ or
      the client never wrote a frame. */
  lemma NoncesNeverRepeat(host: Channel, client: Channel, hostWrites: seq<string>, clientWrites: seq<string>)
    ensures var used := SessionPairs(host, client, hostWrites, clientWrites);
            (forall i, j :: 0 <= i < j < |used| ==> used[i] != used[j]) <==>
            host.key != client.key || Sent(client, 0, clientWrites).wire == []
  {
    var hosts, clients := [1] + WriteCounters(host, Sender("", 1, [], false), hostWrites),
                          WriteCounters(client, Sender("", 0, [], false), clientWrites);
    WriteCountersConsecutive(host, Sender("", 1, [], false), hostWrites);
    WriteCountersConsecutive(client, Sender("", 0, [], false), clientWrites);
    WriteCountersAreFrames(client, Sender("", 0, [], false), clientWrites);
    DistinctPairs(host.key, hosts);
    DistinctPairs(client.key, clients);
    var used := SessionPairs(host, client, hostWrites, clientWrites);
    if host.key == client.key && clients != [] {
      assert used[0] == (host.key, CounterNonce(1)) && used[|hosts|] == (client.key, CounterNonce(clients[0]));
      assert clients[0] == 1;
    }
  }

  lemma DistinctPairs(key: Bytes, counters: seq<nat>)
    requires Consecutive(counters, 0)
    ensures var used := Pairs(key, counters); forall i, j :: 0 <= i < j < |used| ==> used[i] != used[j]
  {
    var used := Pairs(key, counters);
    forall i, j | 0 <= i < j < |used| ensures used[i] != used[j] {
      if CounterNonce(counters[i]) == CounterNonce(counters[j]) {
        CounterNonceInjective(counters[i], counters[j]);
      }
    }
  }
}
