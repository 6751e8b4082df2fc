/** The pairing handshake and the hand-off of the socket to the record layer
    (src/node/collaborationTransport.ts). */
module Handshake {
  import opened Wrappers
  import opened Text
  import opened Primitives
  import opened RecordLayer

  const PROTOCOL_VERSION := 1
  const MAX_HANDSHAKE_TEXT: nat := 64 * 1024

  // ------------------------------------------------- reading handshake lines

  datatype LineRead = Line(text: string, rest: seq<string>) | TooLarge | Starved

  /** `readJsonLine` on the chunks a socket will deliver: what follows the first
      line is put back in front of the remaining chunks. */
  function NextLine(buffer: string, chunks: seq<string>): LineRead
    decreases |chunks|
  {
    if chunks == [] then Starved else
      var grown := buffer + chunks[0];
      if |grown| > MAX_HANDSHAKE_TEXT then TooLarge
      else if '\n' !in grown then NextLine(grown, chunks[1..])
      else
        var i := IndexOf(grown, '\n');
        var rest := grown[i + 1..];
        Line(Trim(grown[..i]), (if rest == "" then [] else [rest]) + chunks[1..])
  }

  /** A socket as its reader sees it: the chunks still to be delivered. */
  class InboundSocket {
    var chunks: seq<string>

    constructor (chunks: seq<string>)
      ensures this.chunks == chunks
    {
      this.chunks := chunks;
    }

    /** `readJsonLine`, up to parsing the line. */
    method ReadJsonLine() returns (line: Option<string>)
      modifies this
      ensures match NextLine("", old(chunks))
              case Line(text, rest) => line == Some(text) && chunks == rest
              case _ => line == None
    {
      var buffer := "";
      while chunks != []
        invariant NextLine(buffer, chunks) == NextLine("", old(chunks))
        decreases |chunks|
      {
        buffer := buffer + chunks[0];
        chunks := chunks[1..];
        if |buffer| > MAX_HANDSHAKE_TEXT {
          return None;
        }
        if '\n' in buffer {
          var idx := IndexOf(buffer, '\n');
          var rest := buffer[idx + 1..];
          if rest != "" {
            chunks := [rest] + chunks; // unshift
          }
          return Some(Trim(buffer[..idx]));
        }
      }
      return None;
    }
  }

  lemma ConcatRest(rest: string, chunks: seq<string>)
    ensures Concat((if rest == "" then [] else [rest]) + chunks) == rest + Concat(chunks)
  {
    if rest == "" {
      assert [] + chunks == chunks;
    } else {
      assert ([rest] + chunks)[1..] == chunks;
    }
  }

  lemma UnfinishedIsShort(got: string, missing: string, line: string, tail: string)
    requires '\n' !in got && got + missing == line + "\n" + tail
    ensures |got| <= |line|
  {
    var whole := line + "\n" + tail;
    assert whole[|line|] == '\n';
    assert forall i :: 0 <= i < |got| ==> whole[i] == got[i];
  }

  lemma {:induction false} RestStaysShort(buffer: string, chunks: seq<string>, most: nat)
    requires '\n' !in buffer && forall c :: c in chunks ==> |c| <= most
    ensures NextLine(buffer, chunks).Line? ==> forall c :: c in NextLine(buffer, chunks).rest ==> |c| <= most
    decreases |chunks|
  {
    if chunks != [] {
      var grown := buffer + chunks[0];
      assert |chunks[0]| <= most;
      if '\n' !in grown {
        RestStaysShort(grown, chunks[1..], most);
      } else {
        var i := IndexOf(grown, '\n');
        assert |buffer| <= i by {
          assert forall j :: 0 <= j < |buffer| ==> grown[j] == buffer[j];
        }
      }
    }
  }

  /** However a line and what follows it are split into chunks, a successful
      read takes exactly the line and leaves exactly what follows. */
  lemma {:induction false} ReadTakesOneLine(buffer: string, chunks: seq<string>, line: string, tail: string)
    requires '\n' !in buffer && '\n' !in line
    requires buffer + Concat(chunks) == line + "\n" + tail
    ensures var r := NextLine(buffer, chunks);
            && !r.Starved?
            && (r.Line? ==> r.text == Trim(line) && Concat(r.rest) == tail)
    decreases |chunks|
  {
    var whole := line + "\n" + tail;
    UnfinishedIsShort(buffer, Concat(chunks), line, tail);
    if chunks != [] {
      var grown := buffer + chunks[0];
      ConcatCons(buffer, chunks);
      if '\n' !in grown {
        if |grown| <= MAX_HANDSHAKE_TEXT {
          ReadTakesOneLine(grown, chunks[1..], line, tail);
        }
      } else {
        var i := IndexOf(grown, '\n');
        var rest := grown[i + 1..];
        assert grown == grown[..i] + "\n" + rest;
        assert whole == grown[..i] + "\n" + (rest + Concat(chunks[1..]));
        IndexOfAppend(grown[..i], rest + Concat(chunks[1..]));
        IndexOfAppend(line, tail);
        ConcatRest(rest, chunks[1..]);
      }
    }
  }

  /** With chunks of at most `most` bytes, a line that leaves room for one more
      chunk within the limit is always read. */
  lemma {:induction false} ShortLineIsRead(buffer: string, chunks: seq<string>, line: string, tail: string, most: nat)
    requires '\n' !in buffer && '\n' !in line
    requires buffer + Concat(chunks) == line + "\n" + tail
    requires |line| + most <= MAX_HANDSHAKE_TEXT && forall c :: c in chunks ==> |c| <= most
    ensures NextLine(buffer, chunks).Line?
    decreases |chunks|
  {
    UnfinishedIsShort(buffer, Concat(chunks), line, tail);
    if chunks != [] {
      ConcatCons(buffer, chunks);
      assert |chunks[0]| <= most;
      if '\n' !in buffer + chunks[0] {
        ShortLineIsRead(buffer + chunks[0], chunks[1..], line, tail, most);
      }
    }
  }

  // ---------------------------------------------------------------- messages

  predicate SafeIdentifier(s: string) {
    && 8 <= |s| <= 128
    && forall c :: c in s ==> 'A' <= c <= 'Z' || 'a' <= c <= 'z' || IsDigit(c) || c in "._:-"
  }

  function ClientMacPayload(inviteId: string, deviceId: string, nonce: string): string {
    PROTOCOL_LABEL + ":client:" + inviteId + ":" + deviceId + ":" + nonce
  }

  function ServerMacPayload(inviteId: string, deviceId: string, clientNonce: string, serverNonce: string): string {
    PROTOCOL_LABEL + ":server:" + inviteId + ":" + deviceId + ":" + clientNonce + ":" + serverNonce
  }

  function Mac(p: Primitives, secret: string, payload: string): string {
    p.encode(p.hmac(p.decode(secret), payload))
  }

  predicate MacVerifies(p: Primitives, secret: string, payload: string, value: string) {
    p.decode(value) == p.decode(Mac(p, secret, payload))
  }

  function KeyMaterial(p: Primitives, secret: string, clientNonce: Bytes, serverNonce: Bytes, deviceId: string): Bytes {
    p.hkdf(p.decode(secret), clientNonce + serverNonce, PROTOCOL_LABEL + ":" + deviceId)
  }

  /** `deriveSessionKeys`: 64 bytes, the first half for client to server. */
  function KeyFor(p: Primitives, dir: Direction, secret: string, clientNonce: Bytes, serverNonce: Bytes, deviceId: string): Bytes
    requires p.DerivationIsIdeal()
  {
    var material := KeyMaterial(p, secret, clientNonce, serverNonce, deviceId);
    if dir == ClientToServer then material[..32] else material[32..64]
  }

  /** What a side holds when its handshake is over. */
  datatype Session = Session(receiving: Channel, sending: Channel, receiveCounter: nat, sendCounter: nat)

  function Channels(p: Primitives, dir: Direction, secret: string, clientNonce: Bytes, serverNonce: Bytes, deviceId: string): Channel
    requires p.DerivationIsIdeal()
  {
    Channel(p, KeyFor(p, dir, secret, clientNonce, serverNonce, deviceId), dir)
  }

  // -------------------------------------------------------------------- host

  datatype Invite = Invite(secret: string, expiresAt: int)

  /** What one accepted connection does when nothing comes between: the
      credential table after it, the messages written, and the session unless the
      host gave up. */
  datatype Acceptance = Acceptance(credentials: map<string, string>, written: seq<Json>, session: Option<Session>)

  /** Where `accept` rests for one connection: it waits for the new credential to
      be stored, its session is in `sessions`, or it is over. */
  datatype Stage =
    | Enrolling(credential: string, toHost: Channel, toClient: Channel)
    | Live(session: Session)
    | Closed

  datatype Connection = Connection(deviceId: string, written: seq<Json>, stage: Stage)

  /** The secret a hello must be authenticated with: the device's own credential
      if it has one, otherwise that of an invite that has not expired. */
  function AuthSecret(credentials: map<string, string>, invites: map<string, Invite>, now: int, hello: Json): Option<string>
    requires hello.ClientHello?
  {
    if hello.deviceId in credentials then
      if credentials[hello.deviceId] == "" then None else Some(credentials[hello.deviceId])
    else if hello.inviteId in invites && invites[hello.inviteId].secret != "" && now <= invites[hello.inviteId].expiresAt then
      Some(invites[hello.inviteId].secret)
    else None
  }

  const REFUSED := Connection("", [], Closed)

  /** `CollaborationHost.accept` from the hello to its first await, or to its end
      for a known device. `random` is the fresh credential's 32 bytes. */
  function TakeHello(p: Primitives, credentials: map<string, string>, invites: map<string, Invite>, now: int, hello: Json,
                     serverNonce: Bytes, random: Bytes): (map<string, string>, Connection)
    requires p.DerivationIsIdeal()
  {
    if !hello.ClientHello? || hello.version != PROTOCOL_VERSION
       || !SafeIdentifier(hello.deviceId) || !SafeIdentifier(hello.inviteId) then (credentials, REFUSED)
    else
      match AuthSecret(credentials, invites, now, hello)
      case None => (credentials, REFUSED)
      case Some(secret) =>
        var clientNonce := p.decode(hello.nonce);
        if |clientNonce| != 32
           || !MacVerifies(p, secret, ClientMacPayload(hello.inviteId, hello.deviceId, hello.nonce), hello.mac)
        then (credentials, REFUSED)
        else
          var nonceText := p.encode(serverNonce);
          var serverHello := ServerHello(PROTOCOL_VERSION, nonceText,
            Mac(p, secret, ServerMacPayload(hello.inviteId, hello.deviceId, hello.nonce, nonceText)));
          var isNew := hello.deviceId !in credentials;
          var credential := if isNew then p.encode(random) else credentials[hello.deviceId];
          var c := Connection(hello.deviceId, [serverHello], Enrolling(
            credential,
            Channels(p, ClientToServer, secret, clientNonce, serverNonce, hello.deviceId),
            Channels(p, ServerToClient, secret, clientNonce, serverNonce, hello.deviceId)));
          (credentials[hello.deviceId := credential], if isNew then c else Welcomed(c))
  }

  function CredentialFrame(stage: Stage): Option<Json>
    requires stage.Enrolling?
  {
    stage.toClient.Encrypt(1, stage.toClient.p.stringify(DeviceCredential(stage.credential)))
  }

  /** The rest of `accept`: the credential frame and the session. */
  function Welcomed(c: Connection): Connection {
    if !c.stage.Enrolling? then c else
      match CredentialFrame(c.stage)
      case None => c.(stage := Closed)
      case Some(frame) => c.(written := c.written + [frame], stage := Live(Session(c.stage.toHost, c.stage.toClient, 0, 1)))
  }

  function Accept(p: Primitives, credentials: map<string, string>, invites: map<string, Invite>, now: int, hello: Json,
                  serverNonce: Bytes, random: Bytes, stored: bool): Acceptance
    requires p.DerivationIsIdeal()
  {
    var (table, taken) := TakeHello(p, credentials, invites, now, hello, serverNonce, random);
    var c := if stored then Welcomed(taken) else taken;
    Acceptance(table, c.written, if c.stage.Live? then Some(c.stage.session) else None)
  }

  // ------------------------------------------------- pairing and revoking as steps

  /** A call of `revokeDevice`; it waits until the credentials are stored. */
  datatype Revocation = Revocation(deviceId: string, waiting: bool)

  datatype Host = Host(credentials: map<string, string>, invites: map<string, Invite>, connections: seq<Connection>,
                       revocations: seq<Revocation>)

  /** `stored` is whether `saveCredentials` succeeded. */
  datatype Step =
    | CreateInvite(id: string, invite: Invite)
    | HelloRead(hello: Json, now: int, serverNonce: Bytes, random: Bytes)
    | EnrolmentStored(c: nat, stored: bool)
    | Revoke(deviceId: string)
    | RevocationStored(k: nat, stored: bool)
    | Disconnect(c: nat)

  function Disposed(connections: seq<Connection>, deviceId: string): seq<Connection> {
    seq(|connections|, i requires 0 <= i < |connections| =>
      if connections[i].stage.Live? && connections[i].deviceId == deviceId then connections[i].(stage := Closed)
      else connections[i])
  }

  function Next(p: Primitives, s: Host, step: Step): Host
    requires p.DerivationIsIdeal()
  {
    match step
    case CreateInvite(id, invite) => s.(invites := s.invites[id := invite])
    case HelloRead(hello, now, serverNonce, random) =>
      var (table, c) := TakeHello(p, s.credentials, s.invites, now, hello, serverNonce, random);
      s.(credentials := table, connections := s.connections + [c])
    case EnrolmentStored(c, stored) =>
      if c >= |s.connections| || !s.connections[c].stage.Enrolling? then s
      else s.(connections := s.connections[c := if stored then Welcomed(s.connections[c]) else s.connections[c].(stage := Closed)])
    case Revoke(deviceId) =>
      s.(credentials := s.credentials - {deviceId}, invites := map[], revocations := s.revocations + [Revocation(deviceId, true)])
    case RevocationStored(k, stored) =>
      if k >= |s.revocations| || !s.revocations[k].waiting then s
      else s.(revocations := s.revocations[k := s.revocations[k].(waiting := false)],
              connections := if stored then Disposed(s.connections, s.revocations[k].deviceId) else s.connections)
    case Disconnect(c) =>
      if c >= |s.connections| || !s.connections[c].stage.Live? then s
      else s.(connections := s.connections[c := s.connections[c].(stage := Closed)])
  }

  function After(p: Primitives, s: Host, steps: seq<Step>): Host
    requires p.DerivationIsIdeal()
  {
    if steps == [] then s else Next(p, After(p, s, steps[..|steps| - 1]), steps[|steps| - 1])
  }

  /** With nothing between its two halves, `accept` is `Accept`. */
  lemma UndisturbedAccept(p: Primitives, s: Host, hello: Json, now: int, serverNonce: Bytes, random: Bytes, stored: bool)
    requires p.DerivationIsIdeal()
    ensures var n := |s.connections|;
            var t := Next(p, Next(p, s, HelloRead(hello, now, serverNonce, random)), EnrolmentStored(n, stored));
            var a := Accept(p, s.credentials, s.invites, now, hello, serverNonce, random, stored);
            && |t.connections| == n + 1 && t.credentials == a.credentials && t.connections[n].written == a.written
            && a.session == if t.connections[n].stage.Live? then Some(t.connections[n].stage.session) else None
  {}

  // ------------------------------------------------------------- revocation

  predicate NoInvites(steps: seq<Step>) {
    forall step :: step in steps ==> !step.CreateInvite?
  }

  /** The device has a live session. */
  predicate HasSession(s: Host, deviceId: string) {
    exists c :: 0 <= c < |s.connections| && s.connections[c].stage.Live? && s.connections[c].deviceId == deviceId
  }

  /** Connection `c` enrols the device and can still be welcomed. */
  predicate Enrols(s: Host, deviceId: string, c: nat) {
    && c < |s.connections| && s.connections[c].deviceId == deviceId
    && s.connections[c].stage.Enrolling? && CredentialFrame(s.connections[c].stage).Some?
  }

  /** No hello of the device can be authenticated. */
  predicate LockedOut(s: Host, deviceId: string) {
    deviceId !in s.credentials && s.invites == map[]
  }

  lemma LockedOutStep(p: Primitives, s: Host, step: Step, deviceId: string)
    requires p.DerivationIsIdeal() && LockedOut(s, deviceId) && !step.CreateInvite?
    ensures var t := Next(p, s, step);
            && LockedOut(t, deviceId)
            && |s.connections| <= |t.connections|
            && (forall c: nat :: Enrols(t, deviceId, c) ==> Enrols(s, deviceId, c))
            && (HasSession(t, deviceId) ==> HasSession(s, deviceId) || exists c: nat :: Enrols(s, deviceId, c))
  {
    var t := Next(p, s, step);
    if step.HelloRead? {
      LockedOutHello(p, s, step.hello, step.now, step.serverNonce, step.random, deviceId);
    }
    if HasSession(t, deviceId) && !HasSession(s, deviceId) {
      var c :| 0 <= c < |t.connections| && t.connections[c].stage.Live? && t.connections[c].deviceId == deviceId;
      assert Enrols(s, deviceId, c);
    }
  }

  lemma LockedOutHello(p: Primitives, s: Host, hello: Json, now: int, serverNonce: Bytes, random: Bytes, deviceId: string)
    requires p.DerivationIsIdeal() && LockedOut(s, deviceId)
    ensures var (table, c) := TakeHello(p, s.credentials, s.invites, now, hello, serverNonce, random);
            deviceId !in table && (c.stage == Closed || (c.deviceId != deviceId && !c.stage.Enrolling?))
  {}

  /** After the begin of a revocation, and until an invite is created, no hello
      enrols the device again: what is still enrolling was so before. */
  lemma {:induction false} RevokedStaysOut(p: Primitives, s: Host, steps: seq<Step>, deviceId: string)
    requires p.DerivationIsIdeal() && NoInvites(steps) && LockedOut(s, deviceId)
    ensures var t := After(p, s, steps);
            && LockedOut(t, deviceId) && |s.connections| <= |t.connections|
            && (forall c: nat :: Enrols(t, deviceId, c) ==> Enrols(s, deviceId, c))
            && (HasSession(t, deviceId) ==> HasSession(s, deviceId) || exists c: nat :: Enrols(s, deviceId, c))
    decreases |steps|
  {
    if steps != [] {
      var before, step := steps[..|steps| - 1], steps[|steps| - 1];
      assert step in steps && forall x :: x in before ==> x in steps;
      RevokedStaysOut(p, s, before, deviceId);
      LockedOutStep(p, After(p, s, before), step, deviceId);
    }
  }

  /** The device has a session now, or gets one in some run without new invites. */
  ghost predicate CanHaveSession(p: Primitives, s: Host, deviceId: string)
    requires p.DerivationIsIdeal()
  {
    exists steps :: NoInvites(steps) && HasSession(After(p, s, steps), deviceId)
  }

  /** A revocation that has just ended, whatever happened while it waited and
      with any enrolments, revocations and sessions around it: without a new
      invite the revoked device has a session, now or ever, exactly if an
      enrolment of it that was already under way when the revocation began is
      still waiting for its store, or the revocation's own store failed and a
      session was left. */
  lemma RevocationHoldsExactly(p: Primitives, s: Host, deviceId: string, meanwhile: seq<Step>, stored: bool)
    requires p.DerivationIsIdeal() && NoInvites(meanwhile)
    requires var k, t := |s.revocations|, After(p, Next(p, s, Revoke(deviceId)), meanwhile);
             k < |t.revocations| && t.revocations[k] == Revocation(deviceId, true)
    ensures var k, t := |s.revocations|, After(p, Next(p, s, Revoke(deviceId)), meanwhile);
            CanHaveSession(p, Next(p, t, RevocationStored(k, stored)), deviceId) <==>
            || (exists c: nat :: Enrols(s, deviceId, c) && Enrols(t, deviceId, c))
            || (!stored && HasSession(t, deviceId))
  {
    var k, begun := |s.revocations|, Next(p, s, Revoke(deviceId));
    var t := After(p, begun, meanwhile);
    var ended := Next(p, t, RevocationStored(k, stored));
    RevokedStaysOut(p, begun, meanwhile, deviceId);
    assert forall c: nat :: Enrols(begun, deviceId, c) ==> Enrols(s, deviceId, c);
    assert forall c: nat :: Enrols(ended, deviceId, c) <==> Enrols(t, deviceId, c);
    assert HasSession(ended, deviceId) <==> !stored && HasSession(t, deviceId);
    LockedOutCanHaveSession(p, ended, deviceId);
  }

  lemma LockedOutCanHaveSession(p: Primitives, s: Host, deviceId: string)
    requires p.DerivationIsIdeal() && LockedOut(s, deviceId)
    ensures CanHaveSession(p, s, deviceId) <==> HasSession(s, deviceId) || exists c: nat :: Enrols(s, deviceId, c)
  {
    forall steps | NoInvites(steps) && HasSession(After(p, s, steps), deviceId)
      ensures HasSession(s, deviceId) || exists c: nat :: Enrols(s, deviceId, c)
    {
      RevokedStaysOut(p, s, steps, deviceId);
    }
    if HasSession(s, deviceId) {
      assert NoInvites([]) && After(p, s, []) == s;
    }
    if c: nat :| Enrols(s, deviceId, c) {
      EnrolmentIsWelcomed(p, s, deviceId, c);
    }
  }

  lemma EnrolmentIsWelcomed(p: Primitives, s: Host, deviceId: string, c: nat)
    requires p.DerivationIsIdeal() && Enrols(s, deviceId, c)
    ensures CanHaveSession(p, s, deviceId)
  {
    var steps := [EnrolmentStored(c, true)];
    assert steps[..0] == [] && NoInvites(steps) && After(p, s, []) == s;
    var t := After(p, s, steps);
    assert t == Next(p, s, steps[0]);
    assert t.connections[c].stage.Live? && t.connections[c].deviceId == deviceId;
  }

  /** It happens: a device that enrols by a valid invite is revoked, and the
      revocation ends, while its credential is being stored. It then has a session
      although it has no credential any more. */
  lemma RevokedDeviceCanStay(p: Primitives, inviteId: string, invite: Invite, deviceId: string, now: int,
                             clientNonce: Bytes, serverNonce: Bytes, random: Bytes)
    requires p.Ideal() && |clientNonce| == 32 && SafeIdentifier(inviteId) && SafeIdentifier(deviceId)
    requires invite.secret != "" && now <= invite.expiresAt && CredentialSendable(p, p.encode(random))
    ensures var s := Host(map[], map[inviteId := invite], [], []);
            var hello := Hello(p, inviteId, invite.secret, deviceId, clientNonce);
            var one := Next(p, s, HelloRead(hello, now, serverNonce, random));
            var two := Next(p, Next(p, one, Revoke(deviceId)), RevocationStored(0, true));
            var three := Next(p, two, EnrolmentStored(0, true));
            deviceId in one.credentials && LockedOut(two, deviceId) && LockedOut(three, deviceId) && HasSession(three, deviceId)
  {
    var s := Host(map[], map[inviteId := invite], [], []);
    var hello := Hello(p, inviteId, invite.secret, deviceId, clientNonce);
    assert p.decode(p.encode(clientNonce)) == clientNonce;
    var one := Next(p, s, HelloRead(hello, now, serverNonce, random));
    assert one.connections[0].stage.Enrolling?;
    var toClient := one.connections[0].stage.toClient;
    toClient.FrameRoundTrip(1, p.stringify(DeviceCredential(p.encode(random))));
    var two := Next(p, Next(p, one, Revoke(deviceId)), RevocationStored(0, true));
    assert two.connections[0] == one.connections[0];
    var three := Next(p, two, EnrolmentStored(0, true));
    assert three.connections[0].stage.Live? && three.connections[0].deviceId == deviceId;
  }

  // -------------------------------------------------------------------- the host

  /** `CollaborationHost`, as far as pairing and revocation touch it. */
  class CollaborationHost {
    const p: Primitives
    var credentials: map<string, string>
    var invites: map<string, Invite>
    var connections: seq<Connection>
    var revocations: seq<Revocation>

    constructor (p: Primitives, credentials: map<string, string>)
      ensures this.p == p && Now() == Host(credentials, map[], [], [])
    {
      this.p, this.credentials, this.invites := p, credentials, map[];
      connections, revocations := [], [];
    }

    function Now(): Host
      reads this
    {
      Host(credentials, invites, connections, revocations)
    }

    /** `accept` from the hello on, up to where it waits. */
    method AcceptHello(hello: Json, now: int, serverNonce: Bytes, random: Bytes)
      requires p.DerivationIsIdeal()
      modifies this
      ensures Now() == Next(p, old(Now()), HelloRead(hello, now, serverNonce, random))
    {
      connections := connections + [REFUSED];
      var i := |connections| - 1;
      if !hello.ClientHello? || hello.version != PROTOCOL_VERSION
         || !SafeIdentifier(hello.deviceId) || !SafeIdentifier(hello.inviteId) {
        return;
      }
      var secret := AuthSecret(credentials, invites, now, hello);
      if secret.None? {
        return;
      }
      var clientNonce := p.decode(hello.nonce);
      var payload := ClientMacPayload(hello.inviteId, hello.deviceId, hello.nonce);
      if |clientNonce| != 32 || !MacVerifies(p, secret.value, payload, hello.mac) {
        return;
      }
      var nonceText := p.encode(serverNonce);
      payload := ServerMacPayload(hello.inviteId, hello.deviceId, hello.nonce, nonceText);
      var written := [ServerHello(PROTOCOL_VERSION, nonceText, Mac(p, secret.value, payload))];
      var toHost := Channels(p, ClientToServer, secret.value, clientNonce, serverNonce, hello.deviceId);
      var toClient := Channels(p, ServerToClient, secret.value, clientNonce, serverNonce, hello.deviceId);
      if hello.deviceId !in credentials {
        credentials := credentials[hello.deviceId := p.encode(random)];
        connections := connections[i := Connection(hello.deviceId, written, Enrolling(p.encode(random), toHost, toClient))];
      } else {
        connections := connections[i := Connection(hello.deviceId, written,
                                                   Enrolling(credentials[hello.deviceId], toHost, toClient))];
        Welcome(i);
        assert credentials == credentials[hello.deviceId := credentials[hello.deviceId]];
      }
    }

    /** The end of `accept`. */
    method Welcome(c: nat)
      requires c < |connections| && connections[c].stage.Enrolling?
      modifies `connections
      ensures connections == old(connections)[c := Welcomed(old(connections)[c])]
    {
      var stage := connections[c].stage;
      var frame := CredentialFrame(stage);
      if frame.None? {
        connections := connections[c := connections[c].(stage := Closed)];
      } else {
        connections := connections[c := connections[c].(written := connections[c].written + [frame.value],
                                                        stage := Live(Session(stage.toHost, stage.toClient, 0, 1)))];
      }
    }

    /** The new credential was stored, or storing it failed. */
    method OnEnrolmentStored(c: nat, stored: bool)
      requires p.DerivationIsIdeal() && c < |connections| && connections[c].stage.Enrolling?
      modifies `connections
      ensures Now() == Next(p, old(Now()), EnrolmentStored(c, stored))
    {
      if stored {
        Welcome(c);
      } else {
        connections := connections[c := connections[c].(stage := Closed)];
      }
    }

    /** `revokeDevice` up to its await ... */
    method RevokeDevice(deviceId: string)
      requires p.DerivationIsIdeal()
      modifies this
      ensures Now() == Next(p, old(Now()), Revoke(deviceId))
    {
      credentials := credentials - {deviceId};
      invites := map[];
      revocations := revocations + [Revocation(deviceId, true)];
    }

    /** ... and after it: the sessions of the device are disposed one by one. */
    method OnRevocationStored(k: nat, stored: bool)
      requires p.DerivationIsIdeal() && k < |revocations| && revocations[k].waiting
      modifies this
      ensures Now() == Next(p, old(Now()), RevocationStored(k, stored))
    {
      var deviceId := revocations[k].deviceId;
      revocations := revocations[k := Revocation(deviceId, false)];
      if !stored { return; }
      var i := 0;
      while i < |connections|
        modifies `connections
        invariant i <= |connections| == |old(connections)|
        invariant connections[..i] == Disposed(old(connections), deviceId)[..i]
        invariant connections[i..] == old(connections)[i..]
      {
        assert connections[i] == connections[i..][0] == old(connections)[i..][0] == old(connections)[i];
        if connections[i].stage.Live? && connections[i].deviceId == deviceId {
          connections := connections[i := connections[i].(stage := Closed)];
        }
        i := i + 1;
      }
      assert connections[..i] == connections && Disposed(old(connections), deviceId)[..i] == Disposed(old(connections), deviceId);
    }
  }

  // ------------------------------------------------------------------ client

  function Hello(p: Primitives, inviteId: string, secret: string, deviceId: string, clientNonce: Bytes): Json {
    var nonceText := p.encode(clientNonce);
    ClientHello(PROTOCOL_VERSION, inviteId, deviceId, nonceText, Mac(p, secret, ClientMacPayload(inviteId, deviceId, nonceText)))
  }

  /** `connectAddress` after both host messages were read and parsed. */
  function Connect(p: Primitives, inviteId: string, secret: string, deviceId: string, clientNonce: Bytes,
                   serverHello: Json, credentialFrame: Json): Option<(Session, string)>
    requires p.DerivationIsIdeal()
  {
    if !serverHello.ServerHello? || serverHello.version != PROTOCOL_VERSION then None else
      var payload := ServerMacPayload(inviteId, deviceId, p.encode(clientNonce), serverHello.nonce);
      if !MacVerifies(p, secret, payload, serverHello.mac) then None else
        var serverNonce := p.decode(serverHello.nonce);
        if |serverNonce| != 32 then None else
          var toHost := Channels(p, ClientToServer, secret, clientNonce, serverNonce, deviceId);
          var toClient := Channels(p, ServerToClient, secret, clientNonce, serverNonce, deviceId);
          match toClient.Decrypt(1, credentialFrame)
          case None => None
          case Some(text) =>
            match p.parse(text)
            case Some(DeviceCredential(credential)) =>
              if |credential| < 40 then None else Some((Session(toClient, toHost, 1, 0), credential))
            case _ => None
  }

  // ------------------------------------------------------------ main results

  /** The credential the host keeps for `deviceId` can be sent in one frame. */
  ghost predicate CredentialSendable(p: Primitives, credential: string) {
    Ascii(credential) && Fits(p.stringify(DeviceCredential(credential)))
  }

  /** When the host accepts a client's hello, the client it came from completes
      exactly if the recorded credential is long enough. Both then hold the same
      secret, the same key for each direction, receive counters equal to the
      peer's send counters, and the client holds the credential the host keeps. */
  lemma BothSidesAgree(p: Primitives, credentials: map<string, string>, invites: map<string, Invite>, now: int,
                       serverNonce: Bytes, random: Bytes, stored: bool,
                       inviteId: string, secret: string, deviceId: string, clientNonce: Bytes)
    requires p.Ideal() && |serverNonce| == 32 && |clientNonce| == 32
    requires var a := Accept(p, credentials, invites, now, Hello(p, inviteId, secret, deviceId, clientNonce), serverNonce, random, stored);
             a.session.Some? && CredentialSendable(p, a.credentials[deviceId])
    ensures var hello := Hello(p, inviteId, secret, deviceId, clientNonce);
            var a := Accept(p, credentials, invites, now, hello, serverNonce, random, stored);
            var c := Connect(p, inviteId, secret, deviceId, clientNonce, a.written[0], a.written[1]);
            var h := a.session.value;
            && |a.written| == 2
            && (c.Some? <==> |a.credentials[deviceId]| >= 40)
            && (c.Some? ==>
                  && c.value.1 == a.credentials[deviceId]
                  && c.value.0 == Session(h.sending, h.receiving, h.sendCounter, h.receiveCounter)
                  && h.sendCounter == 1 && h.receiveCounter == 0
                  && p.decode(secret) == p.decode(AuthSecret(credentials, invites, now, hello).value))
            && (deviceId !in credentials ==> a.credentials[deviceId] == p.encode(random))
            && a.credentials - {deviceId} == credentials - {deviceId}
  {
    var hello := Hello(p, inviteId, secret, deviceId, clientNonce);
    var a := Accept(p, credentials, invites, now, hello, serverNonce, random, stored);
    var auth := AuthSecret(credentials, invites, now, hello).value;
    SameMacSameSecret(p, auth, secret, ClientMacPayload(inviteId, deviceId, hello.nonce));
    assert p.decode(p.encode(clientNonce)) == clientNonce && p.decode(p.encode(serverNonce)) == serverNonce;
    var toClient := Channels(p, ServerToClient, secret, clientNonce, serverNonce, deviceId);
    toClient.FrameRoundTrip(1, p.stringify(DeviceCredential(a.credentials[deviceId])));
    assert p.parse(p.stringify(DeviceCredential(a.credentials[deviceId]))) == Some(DeviceCredential(a.credentials[deviceId]));
  }

  lemma SameMacSameSecret(p: Primitives, a: string, b: string, payload: string)
    requires p.Ideal() && MacVerifies(p, a, payload, Mac(p, b, payload))
    ensures p.decode(a) == p.decode(b)
  {
    var x, y := p.hmac(p.decode(a), payload), p.hmac(p.decode(b), payload);
    assert p.decode(p.encode(x)) == x && p.decode(p.encode(y)) == y;
  }

  /** In a session the host accepted, whatever both sides write, no key and nonce
      are used together twice if and only if the two halves of the key material
      differ or the client writes no frame. */
  lemma SessionNoncesNeverRepeat(p: Primitives, credentials: map<string, string>, invites: map<string, Invite>, now: int,
                                 hello: Json, serverNonce: Bytes, random: Bytes, stored: bool,
                                 hostWrites: seq<string>, clientWrites: seq<string>)
    requires p.DerivationIsIdeal() && hello.ClientHello?
    requires Accept(p, credentials, invites, now, hello, serverNonce, random, stored).session.Some?
    ensures var h := Accept(p, credentials, invites, now, hello, serverNonce, random, stored).session.value;
            var used := SessionPairs(h.sending, h.receiving, hostWrites, clientWrites);
            var material := KeyMaterial(p, AuthSecret(credentials, invites, now, hello).value, p.decode(hello.nonce),
                                        serverNonce, hello.deviceId);
            (forall i, j :: 0 <= i < j < |used| ==> used[i] != used[j]) <==>
            material[..32] != material[32..64] || Sent(h.receiving, 0, clientWrites).wire == []
  {
    var h := Accept(p, credentials, invites, now, hello, serverNonce, random, stored).session.value;
    NoncesNeverRepeat(h.sending, h.receiving, hostWrites, clientWrites);
  }

  /** Reading the two host messages off a socket. */
  function ReadTwo(p: Primitives, chunks: seq<string>): Option<(Json, Json, seq<string>)> {
    match NextLine("", chunks)
    case Line(first, rest) =>
      (match NextLine("", rest)
       case Line(second, last) =>
         if p.parse(first).Some? && p.parse(second).Some? then Some((p.parse(first).value, p.parse(second).value, last)) else None
       case _ => None)
    case _ => None
  }

  /** The host's two messages, then what its stream sends: however the bytes
      arrive, reading the messages leaves exactly the stream's bytes; it can
      fail only by a chunk too large for the 64 KiB limit. */
  lemma HostMessagesAreReadExactly(p: Primitives, first: Json, second: Json, tail: string, chunks: seq<string>, most: nat)
    requires p.Ideal()
    requires Concat(chunks) == p.stringify(first) + "\n" + (p.stringify(second) + "\n" + tail)
    ensures match ReadTwo(p, chunks)
            case Some((j, k, rest)) => j == first && k == second && Concat(rest) == tail
            case None =>
              || (exists c :: c in chunks && |c| > most)
              || |p.stringify(first)| + most > MAX_HANDSHAKE_TEXT
              || |p.stringify(second)| + most > MAX_HANDSHAKE_TEXT
  {
    var one, two := p.stringify(first), p.stringify(second);
    assert Trim(one) == one && Trim(two) == two;
    assert "" + Concat(chunks) == Concat(chunks);
    ReadTakesOneLine("", chunks, one, two + "\n" + tail);
    var r := NextLine("", chunks);
    if r.Line? {
      assert "" + Concat(r.rest) == Concat(r.rest);
      ReadTakesOneLine("", r.rest, two, tail);
    }
    if (forall c :: c in chunks ==> |c| <= most) && |one| + most <= MAX_HANDSHAKE_TEXT && |two| + most <= MAX_HANDSHAKE_TEXT {
      RestStaysShort("", chunks, most);
      ShortLineIsRead("", chunks, one, two + "\n" + tail, most);
      ShortLineIsRead("", r.rest, two, tail, most);
    }
  }

  /** End to end, host to client: whatever the coalescing of hello, credential
      frame and later frames, a client that completed is given a prefix of the
      lines the host's stream was asked to write. */
  lemma HostLinesReachClient(p: Primitives, credentials: map<string, string>, invites: map<string, Invite>, now: int,
                             serverNonce: Bytes, random: Bytes, stored: bool,
                             inviteId: string, secret: string, deviceId: string, clientNonce: Bytes,
                             writes: seq<string>, chunks: seq<string>)
    requires p.Ideal() && |serverNonce| == 32 && |clientNonce| == 32 && Ascii(Concat(writes))
    requires var a := Accept(p, credentials, invites, now, Hello(p, inviteId, secret, deviceId, clientNonce), serverNonce, random, stored);
             && a.session.Some? && CredentialSendable(p, a.credentials[deviceId])
             && Concat(chunks) == p.stringify(a.written[0]) + "\n" + (p.stringify(a.written[1]) + "\n"
                                  + Unlines(Sent(a.session.value.sending, a.session.value.sendCounter, writes).wire))
    requires ReadTwo(p, chunks).Some?
    ensures var read := ReadTwo(p, chunks).value;
            var c := Connect(p, inviteId, secret, deviceId, clientNonce, read.0, read.1);
            c.Some? ==> OnDataAll(c.value.0.receiving, Fresh(c.value.0.receiveCounter), read.2).pushed <= CompleteLines(Concat(writes))
  {
    var a := Accept(p, credentials, invites, now, Hello(p, inviteId, secret, deviceId, clientNonce), serverNonce, random, stored);
    var h := a.session.value;
    BothSidesAgree(p, credentials, invites, now, serverNonce, random, stored, inviteId, secret, deviceId, clientNonce);
    HostMessagesAreReadExactly(p, a.written[0], a.written[1], Unlines(Sent(h.sending, h.sendCounter, writes).wire), chunks, 0);
    LinkRefinesLineStream(h.sending, h.sendCounter, writes, ReadTwo(p, chunks).value.2);
  }

  /** End to end, client to host: the hello, then the client's stream. */
  lemma ClientLinesReachHost(p: Primitives, credentials: map<string, string>, invites: map<string, Invite>, now: int,
                             serverNonce: Bytes, random: Bytes, stored: bool,
                             inviteId: string, secret: string, deviceId: string, clientNonce: Bytes,
                             writes: seq<string>, chunks: seq<string>)
    requires p.Ideal() && |serverNonce| == 32 && |clientNonce| == 32 && Ascii(Concat(writes))
    requires var a := Accept(p, credentials, invites, now, Hello(p, inviteId, secret, deviceId, clientNonce), serverNonce, random, stored);
             && a.session.Some? && CredentialSendable(p, a.credentials[deviceId])
             && var c := Connect(p, inviteId, secret, deviceId, clientNonce, a.written[0], a.written[1]);
             && c.Some?
             && Concat(chunks) == p.stringify(Hello(p, inviteId, secret, deviceId, clientNonce)) + "\n"
                                  + Unlines(Sent(c.value.0.sending, c.value.0.sendCounter, writes).wire)
    requires NextLine("", chunks).Line?
    ensures var hello := Hello(p, inviteId, secret, deviceId, clientNonce);
            var h := Accept(p, credentials, invites, now, hello, serverNonce, random, stored).session.value;
            && p.parse(NextLine("", chunks).text) == Some(hello)
            && OnDataAll(h.receiving, Fresh(h.receiveCounter), NextLine("", chunks).rest).pushed <= CompleteLines(Concat(writes))
  {
    var hello := Hello(p, inviteId, secret, deviceId, clientNonce);
    var h := Accept(p, credentials, invites, now, hello, serverNonce, random, stored).session.value;
    BothSidesAgree(p, credentials, invites, now, serverNonce, random, stored, inviteId, secret, deviceId, clientNonce);
    var line := p.stringify(hello);
    assert Trim(line) == line && "" + Concat(chunks) == Concat(chunks);
    ReadTakesOneLine("", chunks, line, Unlines(Sent(h.receiving, h.receiveCounter, writes).wire));
    LinkRefinesLineStream(h.receiving, h.receiveCounter, writes, NextLine("", chunks).rest);
  }
}
