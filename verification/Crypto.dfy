/** Cryptography as a free term algebra, and the additional data that binds each cipher text. */
module Crypto {
  import opened Prelude

  /** The fixed HKDF info strings. */
  datatype Info = ForVerifier | ForAdmin | ForKek | ForRkVerifier | ForRkKek | ForPasscodeKek | ForVault

  /** Additional data of an authenticated encryption, by purpose. */
  datatype Aad =
    | PwdWrap(schema: int, account: Guid)
    | RkWrap(schema: int, account: Guid)
    | LocalWrap(account: Guid)
    | VaultEntry(account: Guid, entry: Guid)

  /** Context labels of the deterministic fake values. */
  datatype FakeLabel = FakeSalt | FakeNonce(recovery: bool) | FakeCt(recovery: bool) | FakeTag(recovery: bool)

  /** A byte string, known by how it came about. */
  datatype Blob =
    | Chosen(content: seq<byte>)
    | Phrase(text: string)
    | Random(id: nat, len: nat)
    | Kdf(secret: Blob, salt: Blob, mode: int)
    | Hkdf(key: Blob, info: Info)
    | Stored(proof: Blob, salt: Blob)
    | Cipher(key: Blob, nonce: Blob, aad: Aad, plain: Blob)
    | Tag(key: Blob, nonce: Blob, aad: Aad, plain: Blob)
    | Fake(account: Guid, context: FakeLabel, size: nat, seed: Option<Blob>)

  const VERIFIER_LEN: nat := 32
  const MK_LEN: nat := 32
  const SALT_LEN: nat := 16
  const NONCE_LEN: nat := 12
  const TAG_LEN: nat := 16

  function Len(b: Blob): nat {
    match b
    case Chosen(content) => |content|
    case Phrase(text) => |text|
    case Random(_, len) => len
    case Kdf(_, _, _) => 32
    case Hkdf(_, _) => 32
    case Stored(_, _) => VERIFIER_LEN
    case Cipher(_, _, _, plain) => Len(plain)
    case Tag(_, _, _, _) => TAG_LEN
    case Fake(_, _, size, _) => size
  }

  datatype EncryptedValue = EncryptedValue(nonce: Blob, cipherText: Blob, tag: Blob)

  function Seal(key: Blob, nonce: Blob, aad: Aad, plain: Blob): EncryptedValue {
    EncryptedValue(nonce, Cipher(key, nonce, aad, plain), Tag(key, nonce, aad, plain))
  }

  function Open(key: Blob, aad: Aad, v: EncryptedValue): Option<Blob> {
    match v.cipherText
    case Cipher(k, n, a, plain) =>
      if k == key && n == v.nonce && a == aad && v.tag == Tag(k, n, a, plain) then Some(plain) else None
    case _ => None
  }

  /** A value opens to exactly what was sealed, under exactly the key and data it was sealed with. */
  lemma {:induction false} OpenInvertsSeal(key: Blob, aad: Aad, v: EncryptedValue, plain: Blob)
    ensures Open(key, aad, v) == Some(plain) <==> v == Seal(key, v.nonce, aad, plain)
  {
  }

  /** Two openings of one value agree on the key, the data and the plain text. */
  lemma {:induction false} OpenIsUnique(key: Blob, aad: Aad, other: Blob, otherAad: Aad, v: EncryptedValue)
    requires Open(key, aad, v).Some? && Open(other, otherAad, v).Some?
    ensures key == other && aad == otherAad && Open(key, aad, v) == Open(other, otherAad, v)
  {
  }

  // ---------------------------------------------------------------- the texts behind the terms

  function InfoText(i: Info): string {
    match i
    case ForVerifier => "vaulton/verifier"
    case ForAdmin => "vaulton/admin"
    case ForKek => "vaulton/kek"
    case ForRkVerifier => "vaulton/rk-vrf"
    case ForRkKek => "vaulton/rk-kek"
    case ForPasscodeKek => "vaulton/passcode-kek"
    case ForVault => "vaulton/vault-enc"
  }

  /** The seven info strings are pairwise different. */
  lemma {:induction false} InfoTextInjective(i: Info, j: Info)
    requires InfoText(i) == InfoText(j)
    ensures i == j
  {
    assert InfoText(i)[8] == InfoText(j)[8] && |InfoText(i)| == |InfoText(j)|;
    assert InfoText(i)[9] == InfoText(j)[9] && InfoText(i)[|InfoText(i)| - 1] == InfoText(j)[|InfoText(j)| - 1];
  }

  function Digit(d: int): char
    requires 0 <= d < 10
  {
    '0' + d as char
  }

  function Digits(n: nat): (s: string)
    ensures s != []
  {
    if n < 10 then [Digit(n)] else Digits(n / 10) + [Digit(n % 10)]
  }

  function Decimal(n: int): string { if n < 0 then "-" + Digits(-n) else Digits(n) }

  function AadText(a: Aad): string {
    match a
    case PwdWrap(schema, account) => "vaulton:mk-wrap-pwd:schema" + Decimal(schema) + ":" + account
    case RkWrap(schema, account) => "vaulton:mk-wrap-rk:schema" + Decimal(schema) + ":" + account
    case LocalWrap(account) => "vaulton:local-passcode-wrap:" + account
    case VaultEntry(account, entry) => "vaulton:v-entry:" + account + ":" + entry
  }

  lemma {:induction false} DigitsInjective(m: nat, n: nat)
    requires Digits(m) == Digits(n)
    ensures m == n
  {
    var s, t := Digits(m), Digits(n);
    assert s[|s| - 1] == t[|t| - 1];
    assert m % 10 == n % 10;
    if 10 <= m && 10 <= n {
      assert s[..|s| - 1] == Digits(m / 10) && t[..|t| - 1] == Digits(n / 10);
      DigitsInjective(m / 10, n / 10);
    }
  }

  lemma {:induction false} DigitsAreDigits(n: nat)
    ensures forall c :: c in Digits(n) ==> '0' <= c <= '9'
  {
    if 10 <= n {
      DigitsAreDigits(n / 10);
    }
  }

  lemma {:induction false} DecimalInjective(m: int, n: int)
    requires Decimal(m) == Decimal(n)
    ensures m == n
  {
    DigitsAreDigits(if m < 0 then -m else m);
    DigitsAreDigits(if n < 0 then -n else n);
    var s, t := Decimal(m), Decimal(n);
    assert s[0] == t[0];
    assert 0 <= m ==> s[0] in Digits(m);
    assert 0 <= n ==> t[0] in Digits(n);
    if m < 0 && n < 0 {
      assert s[1..] == Digits(-m) && t[1..] == Digits(-n);
      DigitsInjective(-m, -n);
    } else if 0 <= m && 0 <= n {
      DigitsInjective(m, n);
    }
  }

  lemma {:induction false} SuffixEqual(p: string, a: Guid, q: string, b: Guid)
    requires p + a == q + b
    ensures p == q && a == b
  {
    assert |p| == |q|;
    assert p == (p + a)[..|p|] && q == (q + b)[..|q|];
    assert a == (p + a)[|p|..] && b == (q + b)[|q|..];
  }

  lemma {:induction false} PrefixEqual(p: string, x: string, y: string)
    requires p + x == p + y
    ensures x == y
  {
    assert x == (p + x)[|p|..] && y == (p + y)[|p|..];
  }

  lemma {:induction false} WrapTextInjective(purpose: string, m: int, a: Guid, n: int, b: Guid)
    requires purpose + Decimal(m) + ":" + a == purpose + Decimal(n) + ":" + b
    ensures m == n && a == b
  {
    SuffixEqual(purpose + Decimal(m) + ":", a, purpose + Decimal(n) + ":", b);
    var x, y := purpose + Decimal(m), purpose + Decimal(n);
    assert x == (x + ":")[..|x|] && y == (y + ":")[..|y|];
    PrefixEqual(purpose, Decimal(m), Decimal(n));
    DecimalInjective(m, n);
  }

  lemma {:induction false} AadTextPurpose(a: Aad)
    ensures 16 < |AadText(a)|
    ensures match a
            case PwdWrap(_, _) => AadText(a)[8] == 'm' && AadText(a)[16] == 'p'
            case RkWrap(_, _) => AadText(a)[8] == 'm' && AadText(a)[16] == 'r'
            case LocalWrap(_) => AadText(a)[8] == 'l'
            case VaultEntry(_, _) => AadText(a)[8] == 'v'
  {
  }

  lemma {:induction false} EntryTextInjective(a: Guid, x: Guid, b: Guid, y: Guid)
    requires AadText(VaultEntry(a, x)) == AadText(VaultEntry(b, y))
    ensures a == b && x == y
  {
    var p := "vaulton:v-entry:";
    SuffixEqual(p + a + ":", x, p + b + ":", y);
    assert p + a == (p + a + ":")[..|p + a|] && p + b == (p + b + ":")[..|p + b|];
    SuffixEqual(p, a, p, b);
  }

  /** The text of additional data determines its purpose, its account and its schema or entry, so
      the terms above lose nothing by not being text. */
  lemma {:induction false} AadTextInjective(a: Aad, b: Aad)
    requires AadText(a) == AadText(b)
    ensures a == b
  {
    AadTextPurpose(a);
    AadTextPurpose(b);
    match (a, b)
    case (PwdWrap(m, x), PwdWrap(n, y)) => WrapTextInjective("vaulton:mk-wrap-pwd:schema", m, x, n, y);
    case (RkWrap(m, x), RkWrap(n, y)) => WrapTextInjective("vaulton:mk-wrap-rk:schema", m, x, n, y);
    case (LocalWrap(x), LocalWrap(y)) => PrefixEqual("vaulton:local-passcode-wrap:", x, y);
    case (VaultEntry(x, e), VaultEntry(y, f)) => EntryTextInjective(x, e, y, f);
    case _ =>
  }
}
