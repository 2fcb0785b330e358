/** Splitting an AES-GCM output into cipher text and tag, sending the parts as text, and joining
    them again, on mutable buffers. */
module AesGcmSplit {
  import opened Prelude
  import opened Base64

  const NONCE_LEN: nat := 12
  const TAG_LEN: nat := 16

  /** An authenticated cipher: key, nonce, additional data and text. Decryption may refuse. */
  datatype Aead = Aead(
    encrypt: (seq<byte>, seq<byte>, seq<byte>, seq<byte>) -> seq<byte>,
    decrypt: (seq<byte>, seq<byte>, seq<byte>, seq<byte>) -> Option<seq<byte>>)

  /** What section 7 of NIST SP 800-38D promises of GCM with a 128-bit tag: the output is the
      cipher text and the tag, and decrypting it under the same inputs gives the plain text. */
  ghost predicate Lawful(c: Aead) {
    forall k, n, a, p :: |c.encrypt(k, n, a, p)| == |p| + TAG_LEN
                         && c.decrypt(k, n, a, c.encrypt(k, n, a, p)) == Some(p)
  }

  datatype SplitGcm = SplitGcm(nonce: array<byte>, cipherText: array<byte>, tag: array<byte>)

  datatype EncryptedValueDto = EncryptedValueDto(nonce: string, cipherText: string, tag: string)

  method Zeroize(u8: array<byte>)
    modifies u8
    ensures forall i :: 0 <= i < u8.Length ==> u8[i] == 0
  {
    for i := 0 to u8.Length
      invariant forall j :: 0 <= j < i ==> u8[j] == 0
    {
      u8[i] := 0;
    }
  }

  /** A typed array over given contents. */
  method NewBytes(contents: seq<byte>) returns (u8: array<byte>)
    ensures fresh(u8) && u8[..] == contents
  {
    u8 := new byte[|contents|](i requires 0 <= i < |contents| => contents[i]);
  }

  /** `slice` copies, unlike `subarray`. */
  method Slice(u8: array<byte>, from: nat, to: nat) returns (copy: array<byte>)
    requires from <= to <= u8.Length
    ensures fresh(copy) && copy[..] == u8[from..to]
  {
    copy := NewBytes(u8[from..to]);
  }

  /** `set` copies a whole array into another one from an offset on. */
  method CopyInto(target: array<byte>, source: array<byte>, at: nat)
    requires at + source.Length <= target.Length && target != source
    modifies target
    ensures target[..] == old(target[..at]) + source[..] + old(target[at + source.Length..])
  {
    for i := 0 to source.Length
      invariant target[..at] == old(target[..at])
      invariant target[at..at + i] == source[..i]
      invariant target[at + i..] == old(target[at + i..])
    {
      target[at + i] := source[i];
      assert target[at..at + i + 1] == target[at..at + i] + [source[i]];
      assert target[at + i + 1..] == old(target[at + i..])[1..];
    }
    assert target[..] == target[..at] + target[at..at + source.Length] + target[at + source.Length..];
  }

  /** The parts are copies: zeroing the joined buffer leaves them as they were. */
  method EncryptSplit(c: Aead, key: seq<byte>, plaintext: array<byte>, aad: array<byte>, random: seq<byte>)
    returns (split: SplitGcm)
    requires Lawful(c) && |random| == NONCE_LEN
    ensures fresh(split.nonce) && fresh(split.cipherText) && fresh(split.tag)
    ensures split.nonce != split.cipherText && split.nonce != split.tag && split.cipherText != split.tag
    ensures split.nonce[..] == random
    ensures split.cipherText.Length == plaintext.Length && split.tag.Length == TAG_LEN
    ensures split.cipherText[..] + split.tag[..] == c.encrypt(key, random, aad[..], plaintext[..])
  {
    var nonce := NewBytes(random);
    ghost var joined := c.encrypt(key, random, aad[..], plaintext[..]);
    var ctTag := NewBytes(c.encrypt(key, nonce[..], aad[..], plaintext[..]));
    var ct := Slice(ctTag, 0, ctTag.Length - TAG_LEN);
    var tag := Slice(ctTag, ctTag.Length - TAG_LEN, ctTag.Length);
    assert ct[..] + tag[..] == ctTag[..] == joined;
    Zeroize(ctTag);
    split := SplitGcm(nonce, ct, tag);
  }

  /** The parts as text, after which the buffers are cleared. */
  method ToDto(split: SplitGcm) returns (dto: EncryptedValueDto)
    requires split.nonce != split.cipherText && split.nonce != split.tag && split.cipherText != split.tag
    modifies split.nonce, split.cipherText, split.tag
    ensures dto == EncryptedValueDto(Encode(old(split.nonce[..])), Encode(old(split.cipherText[..])),
                                     Encode(old(split.tag[..])))
  {
    var nonce := BytesToB64(split.nonce);
    var cipherText := BytesToB64(split.cipherText);
    var tag := BytesToB64(split.tag);
    Zeroize(split.nonce);
    Zeroize(split.cipherText);
    Zeroize(split.tag);
    dto := EncryptedValueDto(nonce, cipherText, tag);
  }

  function Received(text: string): Option<seq<byte>> { Decode(StripSpace(text, true)) }

  method Receive(text: string) returns (u8: Option<array<byte>>)
    ensures u8.None? <==> Received(text).None?
    ensures u8.Some? ==> fresh(u8.value) && Received(text) == Some(u8.value[..])
  {
    u8 := B64ToBytes(text);
  }

  /** Opening a value received as text; malformed text is refused like a wrong key. */
  function OpenDto(c: Aead, key: seq<byte>, dto: EncryptedValueDto, aad: seq<byte>): Option<seq<byte>> {
    var nonce, ct, tag := Received(dto.nonce), Received(dto.cipherText), Received(dto.tag);
    if nonce.None? || ct.None? || tag.None? then None
    else c.decrypt(key, nonce.value, aad, ct.value + tag.value)
  }

  method Join(ct: array<byte>, tag: array<byte>) returns (ctTag: array<byte>)
    ensures fresh(ctTag) && ctTag[..] == ct[..] + tag[..]
  {
    ctTag := new byte[ct.Length + tag.Length](_ => 0);
    CopyInto(ctTag, ct, 0);
    CopyInto(ctTag, tag, ct.Length);
  }

  /** The joined buffer is rebuilt, used and cleared; the result does not depend on the clearing. */
  method DecryptSplit(c: Aead, key: seq<byte>, dto: EncryptedValueDto, aad: array<byte>)
    returns (plain: Option<array<byte>>)
    ensures plain.None? <==> OpenDto(c, key, dto, aad[..]).None?
    ensures plain.Some? ==> fresh(plain.value) && OpenDto(c, key, dto, aad[..]) == Some(plain.value[..])
  {
    var nonce := Receive(dto.nonce);
    var ct := Receive(dto.cipherText);
    var tag := Receive(dto.tag);
    if nonce.None? || ct.None? || tag.None? {
      return None;
    }
    var ctTag := Join(ct.value, tag.value);
    var result := c.decrypt(key, nonce.value[..], aad[..], ctTag[..]);
    plain := None;
    if result.Some? {
      var buffer := NewBytes(result.value);
      plain := Some(buffer);
    }
    Zeroize(nonce.value);
    Zeroize(ct.value);
    Zeroize(tag.value);
    Zeroize(ctTag);
  }

  /** Seal, split, clear, send as text, join, open: the plain text comes back for every key, nonce,
      additional data and plain text, and the parts have the lengths the server demands. */
  method SealAndOpen(c: Aead, key: seq<byte>, plaintext: array<byte>, aad: array<byte>, random: seq<byte>)
    returns (dto: EncryptedValueDto, back: Option<array<byte>>)
    requires Lawful(c) && |random| == NONCE_LEN
    ensures back.Some? && back.value[..] == plaintext[..]
    ensures Decode(dto.nonce).Some? && |Decode(dto.nonce).value| == 12
    ensures Decode(dto.cipherText).Some? && |Decode(dto.cipherText).value| == plaintext.Length
    ensures Decode(dto.tag).Some? && |Decode(dto.tag).value| == 16
  {
    var split := EncryptSplit(c, key, plaintext, aad, random);
    ghost var nonce, ct, tag := split.nonce[..], split.cipherText[..], split.tag[..];
    dto := ToDto(split);
    DecodeEncode(nonce);
    DecodeEncode(ct);
    DecodeEncode(tag);
    back := DecryptSplit(c, key, dto, aad);
  }

  // ---------------------------------------------------------------- the law can be met

  function Zeros(n: nat): (z: seq<byte>)
    ensures |z| == n
  {
    seq<byte>(n, _ => 0)
  }

  /** A cipher that only frames its text; it shows that `Lawful` is satisfiable, nothing more. */
  function FramingCipher(): Aead {
    Aead((k, n, a, p) => p + Zeros(TAG_LEN),
         (k, n, a, x) => if TAG_LEN <= |x| then Some(x[..|x| - TAG_LEN]) else None)
  }

  lemma {:induction false} LawIsSatisfiable()
    ensures Lawful(FramingCipher())
  {
    forall p: seq<byte> ensures (p + Zeros(TAG_LEN))[..|p|] == p {
    }
  }
}
