/** The cryptographic and JSON primitives of the collaboration link, as ideal
    functions: AES-256-GCM, HKDF (RFC 5869), HMAC (RFC 2104), base64url without
    padding (section 5 of RFC 4648) and JSON printing. */
module Primitives {
  import opened Wrappers
  import opened Text

  newtype byte = x: int | 0 <= x < 256
  type Bytes = seq<byte>

  /** The JSON objects that cross the link before and around the payload. */
  datatype Json =
    | ClientHello(version: int, inviteId: string, deviceId: string, nonce: string, mac: string)
    | ServerHello(version: int, nonce: string, mac: string)
    | Frame(n: string, c: string)
    | DeviceCredential(credential: string)
    | Unrecognised

  predicate Ascii(s: string) {
    forall c :: c in s ==> c < '\U{0080}'
  }

  datatype Primitives = Primitives(
    seal: (Bytes, Bytes, string, string) -> Bytes,           // key, nonce, associated data, plaintext
    unseal: (Bytes, Bytes, string, Bytes) -> Option<string>, // key, nonce, associated data, ciphertext and tag
    hkdf: (Bytes, Bytes, string) -> Bytes,                   // secret, salt, info
    hmac: (Bytes, string) -> Bytes,                          // key, message
    encode: Bytes -> string,
    decode: string -> Bytes,
    stringify: Json -> string,
    parse: string -> Option<Json>)
  {
    /** A sealed text opens to itself and grows by the 16-byte tag; and what opens
        is what sealing that text gives, as the tag is recomputed. */
    ghost predicate SealingIsIdeal() {
      && (forall k, n, a, t {:trigger seal(k, n, a, t)} :: Ascii(t) ==>
            && |seal(k, n, a, t)| == |t| + 16
            && unseal(k, n, a, seal(k, n, a, t)) == Some(t))
      && (forall k, n, a, c {:trigger unseal(k, n, a, c)} :: unseal(k, n, a, c).Some? ==>
            && Ascii(unseal(k, n, a, c).value)
            && c == seal(k, n, a, unseal(k, n, a, c).value))
    }

    ghost predicate EncodingIsIdeal() {
      forall b {:trigger encode(b)} :: 
        decode(encode(b)) == b && |encode(b)| == (4 * |b| + 2) / 3 && Ascii(encode(b))
    }

    /** Printed JSON is one line, starts and ends with a brace, and reads back. */
    ghost predicate JsonIsIdeal() {
      && (forall j {:trigger stringify(j)} ::
            parse(stringify(j)) == Some(j) && '\n' !in stringify(j) && Trimmed(stringify(j)))
      // {"n":"…","c":"…"}: digits and base64url text need no escapes.
      && (forall n: nat, b: Bytes {:trigger Frame(Decimal(n), encode(b))} ::
            |stringify(Frame(Decimal(n), encode(b)))| == 15 + |Decimal(n)| + |encode(b)|)
      && (forall c {:trigger DeviceCredential(c)} :: Ascii(c) ==> Ascii(stringify(DeviceCredential(c))))
    }

    /** 64 bytes of key material; no two keys authenticate a message alike. */
    ghost predicate DerivationIsIdeal() {
      && (forall s, salt, info {:trigger hkdf(s, salt, info)} :: |hkdf(s, salt, info)| == 64)
      && (forall k, l, m {:trigger hmac(k, m), hmac(l, m)} :: hmac(k, m) == hmac(l, m) ==> k == l)
    }

    ghost predicate Ideal() {
      SealingIsIdeal() && EncodingIsIdeal() && JsonIsIdeal() && DerivationIsIdeal()
    }
  }
}
