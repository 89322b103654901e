/**
 The payload one device hands another when pairing: a version byte, three
 fixed-size fields, then two texts each behind its length.
 */
module Pairing {
  import opened Wrappers

  type Bytes = seq<Byte>

  const PAYLOAD_V1: Byte := 1
  const MAX_EMAIL_LEN: nat := 320
  const MAX_SECRET_KEY_TEXT: nat := 64

  datatype Refusal = InvalidInput | UnsupportedVersion | Corrupted

  /** `K` is the type of Secret Keys; an e-mail is its UTF-8 bytes. */
  datatype Payload<K> = Payload(account: Bytes, vault: Bytes, email: Bytes, secretKey: K, vaultKey: Bytes)

  /** The code of texts: a Secret Key's text, reading one back (None is refused),
      and whether bytes are UTF-8. */
  datatype TextRules<!K> = TextRules(show: K -> Bytes, parse: Bytes -> Option<K>, isUtf8: Bytes -> bool)

  /** The sizes the types fix, and the e-mail being a string. */
  predicate Typed<K>(texts: TextRules<K>, p: Payload<K>) {
    |p.account| == 16 && |p.vault| == 16 && |p.vaultKey| == 32 && texts.isUtf8(p.email)
  }

  /** A Secret Key is read back from its own text, which is UTF-8. */
  predicate ReadsBack<K(==)>(texts: TextRules<K>, k: K) {
    texts.isUtf8(texts.show(k)) && texts.parse(texts.show(k)) == Some(k)
  }

  predicate Encodable<K>(texts: TextRules<K>, p: Payload<K>) {
    |texts.show(p.secretKey)| <= MAX_SECRET_KEY_TEXT && 0 < |p.email| <= MAX_EMAIL_LEN
  }

  function BigEndian(n: nat): (r: Bytes)
    requires n < 65536
    ensures |r| == 2
  {
    [(n / 256) as Byte, (n % 256) as Byte]
  }

  function FromBigEndian(b: Bytes): (n: nat)
    requires |b| == 2
  {
    b[0] as nat * 256 + b[1] as nat
  }

  /** The fields in their places, with this Secret Key text. */
  function Written<K>(p: Payload<K>, keyText: Bytes): Bytes
    requires |keyText| <= MAX_SECRET_KEY_TEXT && |p.email| <= MAX_EMAIL_LEN
  {
    [PAYLOAD_V1] + p.account + p.vault + p.vaultKey + [|keyText| as Byte] + keyText + BigEndian(|p.email|) + p.email
  }

  function Layout<K>(texts: TextRules<K>, p: Payload<K>): Bytes
    requires Encodable(texts, p)
  {
    Written(p, texts.show(p.secretKey))
  }

  method Encode<K>(texts: TextRules<K>, p: Payload<K>) returns (r: Result<Bytes, Refusal>)
    ensures r == if Encodable(texts, p) then Ok(Layout(texts, p)) else Err(InvalidInput)
    ensures r.Ok? <==> |texts.show(p.secretKey)| <= MAX_SECRET_KEY_TEXT && 0 < |p.email| <= MAX_EMAIL_LEN
    ensures r.Ok? && Typed(texts, p) ==>
              var (b, key) := (r.value, texts.show(p.secretKey));
              && |b| == 68 + |key| + |p.email| && b[0] == PAYLOAD_V1 && b[65] as nat == |key|
              && b[1..17] == p.account && b[17..33] == p.vault && b[33..65] == p.vaultKey
              && b[66..66 + |key|] == key && b[68 + |key|..] == p.email
              && b[66 + |key|] as nat * 256 + b[67 + |key|] as nat == |p.email|
  {
    var key := texts.show(p.secretKey);
    if |key| > MAX_SECRET_KEY_TEXT || |p.email| == 0 || |p.email| > MAX_EMAIL_LEN {
      return Err(InvalidInput);
    }
    var out := [PAYLOAD_V1];
    out := out + p.account;
    out := out + p.vault;
    out := out + p.vaultKey;
    out := out + [|key| as Byte];
    out := out + key;
    out := out + BigEndian(|p.email|);
    out := out + p.email;
    r := Ok(out);
    if Typed(texts, p) {
      WrittenParts(p, key);
      BigEndianReadsBack(|p.email|);
      assert out[66 + |key|..68 + |key|][0] == out[66 + |key|] && out[66 + |key|..68 + |key|][1] == out[67 + |key|];
    }
  }

  method Take(rest: Bytes, n: nat) returns (head: Option<Bytes>, tail: Bytes)
    ensures head.Some? <==> n <= |rest|
    ensures head.Some? ==> head.value == rest[..n] && tail == rest[n..]
    ensures head.None? ==> tail == rest
  {
    if |rest| < n {
      return None, rest;
    }
    return Some(rest[..n]), rest[n..];
  }

  // ---------------------------------------------------------------- what is accepted

  /** `keyText` is a text of the payload's Secret Key, and every length fits. */
  predicate Fits<K(==)>(texts: TextRules<K>, p: Payload<K>, keyText: Bytes) {
    && Typed(texts, p) && 0 < |p.email| <= MAX_EMAIL_LEN
    && |keyText| <= MAX_SECRET_KEY_TEXT && texts.isUtf8(keyText) && texts.parse(keyText) == Some(p.secretKey)
  }

  ghost predicate Accepts<K>(texts: TextRules<K>, bytes: Bytes, p: Payload<K>) {
    exists keyText :: Fits(texts, p, keyText) && bytes == Written(p, keyText)
  }

  lemma BigEndianReadsBack(n: nat)
    requires n < 65536
    ensures FromBigEndian(BigEndian(n)) == n
  {
  }

  lemma WrittenParts<K>(p: Payload<K>, keyText: Bytes)
    requires |p.account| == 16 && |p.vault| == 16 && |p.vaultKey| == 32
    requires |keyText| <= MAX_SECRET_KEY_TEXT && |p.email| <= MAX_EMAIL_LEN
    ensures var (b, n) := (Written(p, keyText), |keyText|);
            && |b| == 68 + n + |p.email| && b[0] == PAYLOAD_V1 && b[65] as nat == n
            && b[1..17] == p.account && b[17..33] == p.vault && b[33..65] == p.vaultKey
            && b[66..66 + n] == keyText && b[66 + n..68 + n] == BigEndian(|p.email|) && b[68 + n..] == p.email
  {
    var b := Written(p, keyText);
    var rest := [|keyText| as Byte] + keyText + BigEndian(|p.email|) + p.email;
    assert b == [PAYLOAD_V1] + p.account + p.vault + p.vaultKey + rest;
  }

  /** No accepted byte string is a proper prefix of another, and one string is
      accepted for one payload only. */
  lemma {:induction false} PrefixFree<K>(texts: TextRules<K>, b: Bytes, p: Payload<K>, c: Bytes, q: Payload<K>)
    requires Accepts(texts, b, p) && Accepts(texts, c, q) && b <= c
    ensures b == c && p == q
  {
    var k :| Fits(texts, p, k) && b == Written(p, k);
    var l :| Fits(texts, q, l) && c == Written(q, l);
    WrittenParts(p, k);
    WrittenParts(q, l);
    assert c[..|b|] == b;
    assert b[65] == c[65] && |k| == |l|;
    PartsOfPrefix(b, c, |k|);
    BigEndianReadsBack(|p.email|);
    BigEndianReadsBack(|q.email|);
  }

  lemma PartsOfPrefix(b: Bytes, c: Bytes, n: nat)
    requires b <= c && 68 + n <= |b|
    ensures b[1..17] == c[1..17] && b[17..33] == c[17..33] && b[33..65] == c[33..65]
    ensures b[66..66 + n] == c[66..66 + n] && b[66 + n..68 + n] == c[66 + n..68 + n]
    ensures |b| == |c| ==> b == c
  {
    assert b == c[..|b|];
  }

  /** A string that `Encode` gave is accepted for the payload it was given, and
      for no other; with anything missing or added it is accepted for none. */
  lemma {:induction false} DecodingUndoesEncoding<K>(texts: TextRules<K>, p: Payload<K>)
    requires Typed(texts, p) && Encodable(texts, p) && ReadsBack(texts, p.secretKey)
    ensures forall q :: Accepts(texts, Layout(texts, p), q) <==> q == p
    ensures forall b, q :: (b < Layout(texts, p) || Layout(texts, p) < b) ==> !Accepts(texts, b, q)
  {
    var bytes := Layout(texts, p);
    assert Fits(texts, p, texts.show(p.secretKey)) && Accepts(texts, bytes, p);
    forall q | Accepts(texts, bytes, q) ensures q == p {
      PrefixFree(texts, bytes, p, bytes, q);
    }
    forall b, q | (b < bytes || bytes < b) && Accepts(texts, b, q) ensures false {
      if b < bytes {
        PrefixFree(texts, b, q, bytes, p);
      } else {
        PrefixFree(texts, bytes, p, b, q);
      }
    }
  }

  /** Two payloads with one encoding are one payload. */
  lemma {:induction false} EncodingIsInjective<K>(texts: TextRules<K>, p: Payload<K>, q: Payload<K>)
    requires Typed(texts, p) && Encodable(texts, p) && ReadsBack(texts, p.secretKey)
    requires Typed(texts, q) && Encodable(texts, q) && ReadsBack(texts, q.secretKey)
    ensures Layout(texts, p) == Layout(texts, q) <==> p == q
  {
    DecodingUndoesEncoding(texts, p);
    DecodingUndoesEncoding(texts, q);
    assert Accepts(texts, Layout(texts, p), p) && Accepts(texts, Layout(texts, q), q);
  }

  // ---------------------------------------------------------------- reading

  /** What the reader checks, place by place. */
  predicate Readable<K(==)>(texts: TextRules<K>, b: Bytes) {
    && 68 <= |b| && b[0] == PAYLOAD_V1 && b[65] as nat <= MAX_SECRET_KEY_TEXT
    && var n := b[65] as nat;
    && 68 + n <= |b| && texts.isUtf8(b[66..66 + n]) && texts.parse(b[66..66 + n]).Some?
    && var m := FromBigEndian(b[66 + n..68 + n]);
    && 0 < m <= MAX_EMAIL_LEN && |b| == 68 + n + m && texts.isUtf8(b[68 + n..])
  }

  lemma AcceptedIsReadable<K>(texts: TextRules<K>, b: Bytes, p: Payload<K>)
    requires Accepts(texts, b, p)
    ensures Readable(texts, b)
  {
    var k :| Fits(texts, p, k) && b == Written(p, k);
    WrittenParts(p, k);
    BigEndianReadsBack(|p.email|);
  }

  function ReadOff<K>(texts: TextRules<K>, b: Bytes): Payload<K>
    requires Readable(texts, b)
  {
    var n := b[65] as nat;
    Payload(b[1..17], b[17..33], b[68 + n..], texts.parse(b[66..66 + n]).value, b[33..65])
  }

  lemma BigEndianWritesBack(b: Bytes)
    requires |b| == 2
    ensures FromBigEndian(b) < 65536 && BigEndian(FromBigEndian(b)) == b
  {
  }

  lemma Pieces(b: Bytes, n: nat)
    requires 68 + n <= |b| && b[65] as nat == n
    ensures b == [b[0]] + b[1..17] + b[17..33] + b[33..65] + [n as Byte] + b[66..66 + n] + b[66 + n..68 + n]
            + b[68 + n..]
  {
  }

  /** A byte string is accepted exactly when the reader's checks pass, and then
      for the payload read off. */
  lemma {:induction false} AcceptsExactly<K>(texts: TextRules<K>, b: Bytes, p: Payload<K>)
    ensures Accepts(texts, b, p) <==> Readable(texts, b) && p == ReadOff(texts, b)
  {
    if Readable(texts, b) {
      var n := b[65] as nat;
      BigEndianWritesBack(b[66 + n..68 + n]);
      Pieces(b, n);
      assert Fits(texts, ReadOff(texts, b), b[66..66 + n]) && b == Written(ReadOff(texts, b), b[66..66 + n]);
    }
    if Accepts(texts, b, p) {
      AcceptedIsReadable(texts, b, p);
      PrefixFree(texts, b, p, b, ReadOff(texts, b));
    }
  }

  /** Bytes 0 to 64. */
  method TakeFixed(bytes: Bytes) returns (r: Result<(Bytes, Bytes, Bytes), Refusal>, rest: Bytes)
    ensures r == Err(UnsupportedVersion) <==> bytes != [] && bytes[0] != PAYLOAD_V1
    ensures r.Err? ==> r.error != InvalidInput
    ensures r.Ok? <==> 65 <= |bytes| && bytes[0] == PAYLOAD_V1
    ensures r.Ok? ==> r.value == (bytes[1..17], bytes[17..33], bytes[33..65]) && rest == bytes[65..]
  {
    var version, account, vault, key;
    version, rest := Take(bytes, 1);
    if version.None? {
      return Err(Corrupted), rest;
    }
    if version.value[0] != PAYLOAD_V1 {
      return Err(UnsupportedVersion), rest;
    }
    account, rest := Take(rest, 16);
    if account.None? {
      return Err(Corrupted), rest;
    }
    assert rest == bytes[17..] && account.value == bytes[1..17];
    vault, rest := Take(rest, 16);
    if vault.None? {
      return Err(Corrupted), rest;
    }
    assert rest == bytes[33..] && vault.value == bytes[17..33];
    key, rest := Take(rest, 32);
    if key.None? {
      return Err(Corrupted), rest;
    }
    assert rest == bytes[65..] && key.value == bytes[33..65];
    r := Ok((account.value, vault.value, key.value));
  }

  /** From byte 65 on: what `Readable` asks of the two texts. */
  method TakeTexts<K(==)>(texts: TextRules<K>, bytes: Bytes, tail: Bytes) returns (r: Result<(K, Bytes), Refusal>)
    requires 65 <= |bytes| && bytes[0] == PAYLOAD_V1 && tail == bytes[65..]
    ensures r.Err? ==> r.error == Corrupted
    ensures r.Ok? <==> Readable(texts, bytes)
    ensures r.Ok? ==> r.value == (ReadOff(texts, bytes).secretKey, ReadOff(texts, bytes).email)
  {
    var rest, lenByte, keyText, lenBytes, email;
    lenByte, rest := Take(tail, 1);
    if lenByte.None? {
      return Err(Corrupted);
    }
    var n := lenByte.value[0] as nat;
    assert rest == bytes[66..] && n == bytes[65] as nat;
    if n > MAX_SECRET_KEY_TEXT {
      return Err(Corrupted);
    }
    keyText, rest := Take(rest, n);
    if keyText.None? {
      return Err(Corrupted);
    }
    assert rest == bytes[66 + n..] && keyText.value == bytes[66..66 + n];
    if !texts.isUtf8(keyText.value) || texts.parse(keyText.value).None? {
      return Err(Corrupted);
    }
    lenBytes, rest := Take(rest, 2);
    if lenBytes.None? {
      return Err(Corrupted);
    }
    assert rest == bytes[68 + n..] && lenBytes.value == bytes[66 + n..68 + n];
    var m := FromBigEndian(lenBytes.value);
    if m == 0 || m > MAX_EMAIL_LEN {
      return Err(Corrupted);
    }
    email, rest := Take(rest, m);
    if email.None? {
      return Err(Corrupted);
    }
    assert |bytes| == 68 + n + m <==> rest == [];
    assert rest == [] ==> email.value == bytes[68 + n..];
    if !texts.isUtf8(email.value) || rest != [] {
      return Err(Corrupted);
    }
    r := Ok((texts.parse(keyText.value).value, email.value));
  }

  method Decode<K(==, !new)>(texts: TextRules<K>, bytes: Bytes) returns (r: Result<Payload<K>, Refusal>)
    ensures r == Err(UnsupportedVersion) <==> bytes != [] && bytes[0] != PAYLOAD_V1
    ensures r.Err? ==> r.error != InvalidInput && forall p :: !Accepts(texts, bytes, p)
    ensures r.Ok? ==> forall p :: Accepts(texts, bytes, p) <==> p == r.value
  {
    forall p: Payload<K> ensures Accepts(texts, bytes, p) <==> Readable(texts, bytes) && p == ReadOff(texts, bytes) {
      AcceptsExactly(texts, bytes, p);
    }
    var fixed, rest := TakeFixed(bytes);
    if fixed.Err? {
      return Err(fixed.error);
    }
    var read := TakeTexts(texts, bytes, rest);
    if read.Err? {
      return Err(read.error);
    }
    r := Ok(Payload(fixed.value.0, fixed.value.1, read.value.1, read.value.0, fixed.value.2));
    assert r.value == ReadOff(texts, bytes);
  }
}
