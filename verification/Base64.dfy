/** Base64 (section 4 of RFC 4648) and base64url (section 5), over one regrouping of bits. */
module Base64 {
  import opened Prelude

  type sextet = n: int | 0 <= n < 64

  // ---------------------------------------------------------------- regrouping bits

  /** The bytes as 6-bit groups, the last one filled up with zero bits. */
  function Pack(b: seq<byte>): (s: seq<sextet>)
    ensures |s| == (4 * |b| + 2) / 3
  {
    if |b| == 0 then []
    else if |b| == 1 then [b[0] / 4, b[0] % 4 * 16]
    else if |b| == 2 then [b[0] / 4, b[0] % 4 * 16 + b[1] / 16, b[1] % 16 * 4]
    else [b[0] / 4, b[0] % 4 * 16 + b[1] / 16, b[1] % 16 * 4 + b[2] / 64, b[2] % 64] + Pack(b[3..])
  }

  function Byte0(x: int, y: int): byte
    requires 0 <= x < 64 && 0 <= y < 64
  {
    x * 4 + y / 16
  }

  function Byte1(y: int, z: int): byte
    requires 0 <= y < 64 && 0 <= z < 64
  {
    y % 16 * 16 + z / 4
  }

  function Byte2(z: int, w: int): byte
    requires 0 <= z < 64 && 0 <= w < 64
  {
    z % 4 * 64 + w
  }

  /** The bytes of a sequence of 6-bit groups; left-over bits are dropped and a single left-over
      group is malformed. */
  function Unpack(s: seq<sextet>): Option<seq<byte>> {
    if |s| == 0 then Some([])
    else if |s| == 1 then None
    else if |s| == 2 then Some([Byte0(s[0], s[1])])
    else if |s| == 3 then Some([Byte0(s[0], s[1]), Byte1(s[1], s[2])])
    else
      match Unpack(s[4..])
      case None => None
      case Some(rest) => Some([Byte0(s[0], s[1]), Byte1(s[1], s[2]), Byte2(s[2], s[3])] + rest)
  }

  lemma {:induction false} UnpackPack(b: seq<byte>)
    ensures Unpack(Pack(b)) == Some(b)
  {
    if 3 <= |b| {
      UnpackPack(b[3..]);
      var s := Pack(b);
      assert s[4..] == Pack(b[3..]);
      assert Byte0(s[0], s[1]) == b[0] && Byte1(s[1], s[2]) == b[1] && Byte2(s[2], s[3]) == b[2];
      assert [b[0], b[1], b[2]] + b[3..] == b;
    } else if |b| == 2 {
      var s := Pack(b);
      assert Byte0(s[0], s[1]) == b[0] && Byte1(s[1], s[2]) == b[1];
      assert [b[0], b[1]] == b;
    } else if |b| == 1 {
      var s := Pack(b);
      assert Byte0(s[0], s[1]) == b[0];
      assert [b[0]] == b;
    }
  }

  // ---------------------------------------------------------------- alphabets

  /** The 64-character alphabet; only the last two characters differ between the two variants. */
  function Letter(n: sextet, url: bool): char {
    if n < 26 then 'A' + n as char
    else if n < 52 then 'a' + (n - 26) as char
    else if n < 62 then '0' + (n - 52) as char
    else if n == 62 then (if url then '-' else '+')
    else if url then '_' else '/'
  }

  function Value(c: char): Option<sextet> {
    if 'A' <= c <= 'Z' then Some(c as int - 'A' as int)
    else if 'a' <= c <= 'z' then Some(c as int - 'a' as int + 26)
    else if '0' <= c <= '9' then Some(c as int - '0' as int + 52)
    else if c == '+' then Some(62)
    else if c == '/' then Some(63)
    else None
  }

  function Letters(s: seq<sextet>, url: bool): (t: string)
    ensures |t| == |s| && forall i :: 0 <= i < |s| ==> t[i] == Letter(s[i], url)
  {
    if s == [] then [] else [Letter(s[0], url)] + Letters(s[1..], url)
  }

  function Values(t: string): Option<seq<sextet>> {
    if t == [] then Some([])
    else
      match (Value(t[0]), Values(t[1..]))
      case (Some(v), Some(vs)) => Some([v] + vs)
      case _ => None
  }

  lemma {:induction false} ValuesOfLetters(s: seq<sextet>)
    ensures Values(Letters(s, false)) == Some(s)
  {
    if s != [] {
      ValuesOfLetters(s[1..]);
      assert Value(Letter(s[0], false)) == Some(s[0]);
      assert [s[0]] + s[1..] == s;
      assert Letters(s, false)[1..] == Letters(s[1..], false);
    }
  }

  /** No alphabet character is padding or white space. */
  lemma {:induction false} LettersAreLetters(s: seq<sextet>, url: bool)
    ensures forall i :: 0 <= i < |s| ==> Letters(s, url)[i] != '=' && !IsSpace(Letters(s, url)[i], true)
  {
  }

  // ---------------------------------------------------------------- the browser's btoa and atob

  function Padding(n: nat): (p: string) { if n % 3 == 0 then "" else if n % 3 == 1 then "==" else "=" }

  predicate IsByte(c: char) { c as int < 256 }

  function CodeOf(c: char): byte
    requires IsByte(c)
  {
    c as int
  }

  function CharOf(b: byte): char { b as char }

  function Binary(b: seq<byte>): (s: string)
    ensures |s| == |b| && forall i :: 0 <= i < |b| ==> s[i] == CharOf(b[i])
  {
    seq(|b|, i requires 0 <= i < |b| => CharOf(b[i]))
  }

  function Codes(s: string): (b: seq<byte>)
    requires forall c :: c in s ==> IsByte(c)
    ensures |b| == |s| && forall i :: 0 <= i < |s| ==> (assert s[i] in s; b[i] == CodeOf(s[i]))
  {
    seq<byte>(|s|, i requires 0 <= i < |s| => assert s[i] in s; CodeOf(s[i]))
  }

  function Encode(b: seq<byte>): string { Letters(Pack(b), false) + Padding(|b|) }

  /** A character above 255 makes `btoa` throw. */
  function Btoa(s: string): Option<string> {
    if forall c :: c in s ==> IsByte(c) then Some(Encode(Codes(s))) else None
  }

  /** White space the decoders skip; only the browser's also skips form feeds. */
  predicate IsSpace(c: char, browser: bool) {
    c == ' ' || c == '\t' || c == '\n' || c == '\r' || (browser && c as int == 12)
  }

  function StripSpace(t: string, browser: bool): (r: string)
    ensures (forall i :: 0 <= i < |t| ==> !IsSpace(t[i], browser)) ==> r == t
  {
    if t == [] then []
    else if IsSpace(t[0], browser) then StripSpace(t[1..], browser)
    else [t[0]] + StripSpace(t[1..], browser)
  }

  /** Up to two trailing padding characters go when the length is a multiple of four. */
  function StripPadding(t: string): string {
    if |t| % 4 == 0 && 2 <= |t| && t[|t| - 2..] == "==" then t[..|t| - 2]
    else if |t| % 4 == 0 && 1 <= |t| && t[|t| - 1] == '=' then t[..|t| - 1]
    else t
  }

  function Decode(t: string): Option<seq<byte>> {
    match Values(StripPadding(t))
    case None => None
    case Some(s) => Unpack(s)
  }

  function Atob(t: string): Option<string> {
    match Decode(StripSpace(t, true))
    case None => None
    case Some(b) => Some(Binary(b))
  }

  lemma {:induction false} StripDouble(body: string)
    requires |body| % 4 == 2
    ensures StripPadding(body + "==") == body
  {
    var t := body + "==";
    assert t[|t| - 2..] == "==" && t[..|t| - 2] == body;
  }

  lemma {:induction false} StripSingle(body: string)
    requires |body| % 4 == 3 && body[|body| - 1] != '='
    ensures StripPadding(body + "=") == body
  {
    var t := body + "=";
    assert t[|t| - 2..][0] == body[|body| - 1];
    assert t[..|t| - 1] == body;
  }

  lemma {:induction false} StripNone(body: string)
    requires |body| % 4 == 0 && (body != [] ==> body[|body| - 1] != '=')
    ensures StripPadding(body) == body
  {
    if body != [] {
      assert body[|body| - 2..][1] == body[|body| - 1];
    }
  }

  lemma {:induction false} LetterCount(k: nat, r: nat)
    requires r < 3
    ensures (4 * (3 * k + r) + 2) / 3 == 4 * k + if r == 0 then 0 else r + 1
  {
  }

  /** How many letters are left over in the last group of four. */
  lemma {:induction false} LettersLeftOver(n: nat, letters: nat)
    requires letters == (4 * n + 2) / 3
    ensures letters % 4 == if n % 3 == 0 then 0 else n % 3 + 1
  {
    var k, r := n / 3, n % 3;
    LetterCount(k, r);
    assert n == 3 * k + r;
    assert letters == 4 * k + if r == 0 then 0 else r + 1;
  }

  lemma {:induction false} StripPaddingOf(body: string, n: nat)
    requires |body| == (4 * n + 2) / 3
    requires forall i :: 0 <= i < |body| ==> body[i] != '='
    ensures StripPadding(body + Padding(n)) == body
  {
    LettersLeftOver(n, |body|);
    if n % 3 == 1 {
      StripDouble(body);
    } else if n % 3 == 2 {
      StripSingle(body);
    } else {
      assert body + Padding(n) == body;
      StripNone(body);
    }
  }

  lemma {:induction false} NoSpaceInside(body: string, n: nat)
    requires forall i :: 0 <= i < |body| ==> !IsSpace(body[i], true)
    ensures StripSpace(body + Padding(n), true) == body + Padding(n)
  {
    var t := body + Padding(n);
    forall i | 0 <= i < |t| ensures !IsSpace(t[i], true) {
      if |body| <= i {
        assert t[i] == Padding(n)[i - |body|] == '=';
      }
    }
  }

  /** Decoding undoes encoding, and the encoding has nothing for the decoder to skip. */
  lemma {:induction false} DecodeEncode(b: seq<byte>)
    ensures Decode(Encode(b)) == Some(b)
    ensures StripSpace(Encode(b), true) == Encode(b)
  {
    var groups := Pack(b);
    var body := Letters(groups, false);
    LettersAreLetters(groups, false);
    NoSpaceInside(body, |b|);
    StripPaddingOf(body, |b|);
    ValuesOfLetters(groups);
    UnpackPack(b);
  }

  lemma {:induction false} ShortLetters(s: seq<sextet>, url: bool)
    requires |s| <= 4
    ensures Letters(s, url) == seq(|s|, i requires 0 <= i < |s| => Letter(s[i], url))
  {
  }

  /** Texts of section 10 of RFC 4648. */
  lemma {:induction false} StandardTexts()
    ensures Encode([]) == "" && Encode([102]) == "Zg==" && Encode([102, 111]) == "Zm8="
    ensures Encode([102, 111, 111]) == "Zm9v"
  {
    ShortLetters([25, 32], false);
    ShortLetters([25, 38, 60], false);
    ShortLetters([25, 38, 61, 47], false);
    assert Pack([102]) == [25, 32] && Pack([102, 111]) == [25, 38, 60] && Pack([102, 111, 111]) == [25, 38, 61, 47];
  }

  /** The two letters in which the variants differ, and the ends of the alphabet's runs. */
  lemma {:induction false} VariantLetters()
    ensures Letters([62, 63], false) == "+/" && Letters([62, 63], true) == "-_"
    ensures Letters([0, 25, 26, 51], true) == "AZaz" && Letters([52, 61], true) == "09"
  {
    ShortLetters([62, 63], false);
    ShortLetters([62, 63], true);
    ShortLetters([0, 25, 26, 51], true);
    ShortLetters([52, 61], true);
  }

  lemma {:induction false} OneForeign(t: string, c: char)
    requires c in t && Value(c).None?
    ensures Values(t).None?
    decreases |t|
  {
    if t[0] != c {
      OneForeign(t[1..], c);
    }
  }

  lemma {:induction false} StripKeeps(t: string, browser: bool, c: char)
    requires c in t && !IsSpace(c, browser)
    ensures c in StripSpace(t, browser)
    decreases |t|
  {
    if t[0] != c {
      StripKeeps(t[1..], browser, c);
    }
  }

  /** A character that is no letter of the alphabet, padding or white space makes a text malformed. */
  lemma {:induction false} ForeignIsRefused(t: string, c: char)
    requires c in t && Value(c).None? && c != '=' && !IsSpace(c, true)
    ensures Decode(StripSpace(t, true)).None?
  {
    StripKeeps(t, true, c);
    var s := StripSpace(t, true);
    var body := StripPadding(s);
    var i :| 0 <= i < |s| && s[i] == c;
    assert i < |body| && body[i] == c;
    OneForeign(body, c);
  }

  // ---------------------------------------------------------------- the front end's two helpers

  const CHUNK: nat := 8192

  /** The chunked conversion gives the encoding of the whole array. */
  method BytesToB64(u8: array<byte>) returns (b64: string)
    ensures b64 == Encode(u8[..])
  {
    var bin := "";
    var i := 0;
    while i < u8.Length
      invariant 0 <= i
      invariant bin == Binary(u8[..if i < u8.Length then i else u8.Length])
    {
      var end := if i + CHUNK < u8.Length then i + CHUNK else u8.Length;
      bin := bin + Binary(u8[i..end]);
      i := i + CHUNK;
    }
    assert u8[..u8.Length] == u8[..];
    assert bin == Binary(u8[..]);
    assert forall c :: c in bin ==> IsByte(c);
    assert Codes(bin) == u8[..];
    b64 := Btoa(bin).value;
  }

  lemma {:induction false} AtobIsBinary(b64: string)
    ensures Atob(b64).None? <==> Decode(StripSpace(b64, true)).None?
    ensures Atob(b64).Some? ==> Atob(b64).value == Binary(Decode(StripSpace(b64, true)).value)
  {
  }

  method FromCodes(bin: string, ghost bytes: seq<byte>) returns (u8: array<byte>)
    requires bin == Binary(bytes)
    ensures fresh(u8) && u8[..] == bytes
  {
    u8 := new byte[|bin|];
    for i := 0 to |bin|
      invariant forall j :: 0 <= j < i ==> u8[j] == bytes[j]
    {
      u8[i] := CodeOf(bin[i]);
    }
  }

  /** Text that is not base64 makes `atob` throw; otherwise the bytes are the decoded ones. */
  method B64ToBytes(b64: string) returns (out: Option<array<byte>>)
    ensures out.None? <==> Decode(StripSpace(b64, true)).None?
    ensures out.Some? ==> fresh(out.value) && Decode(StripSpace(b64, true)) == Some(out.value[..])
  {
    var bin := Atob(b64);
    AtobIsBinary(b64);
    if bin.None? {
      return None;
    }
    var u8 := FromCodes(bin.value, Decode(StripSpace(b64, true)).value);
    out := Some(u8);
  }

  /** Sending any byte array as text and reading it back gives the same bytes. */
  method Transport(u8: array<byte>) returns (out: Option<array<byte>>)
    ensures out.Some? && out.value[..] == u8[..]
  {
    var b64 := BytesToB64(u8);
    DecodeEncode(u8[..]);
    out := B64ToBytes(b64);
  }
}
