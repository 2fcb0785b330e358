/** The text form of refresh tokens and the hash the table stores. */
module RefreshTokenText {
  import opened Prelude
  import opened Base64

  const RAW_LEN: nat := 64

  /** 64 random bytes as unpadded base64url. */
  function TokenText(raw: seq<byte>): string { Letters(Pack(raw), true) }

  function MintRefreshToken(raw: seq<byte>): (string, Digest) { (TokenText(raw), Sha256(raw)) }

  /** base64url letters become base64 letters; every other character stays. */
  function Plain(c: char): char { if c == '-' then '+' else if c == '_' then '/' else c }

  function PlainText(t: string): (r: string)
    ensures |r| == |t| && forall i :: 0 <= i < |t| ==> r[i] == Plain(t[i])
  {
    seq(|t|, i requires 0 <= i < |t| => Plain(t[i]))
  }

  /** The framework's base64 reader: complete groups of four once white space is gone. */
  function FromBase64(t: string): Option<seq<byte>> {
    var s := StripSpace(t, false);
    if |s| % 4 != 0 then None else Decode(s)
  }

  function UrlDecode(t: string): Option<seq<byte>> {
    if |t| % 4 == 1 then None
    else FromBase64(PlainText(t) + if |t| % 4 == 2 then "==" else if |t| % 4 == 3 then "=" else "")
  }

  function TryHashRefreshToken(token: string): Option<Digest> {
    if |token| < 86 || 88 < |token| then None
    else
      match UrlDecode(token)
      case None => None
      case Some(raw) => if |raw| != RAW_LEN then None else Some(Sha256(raw))
  }

  lemma {:induction false} PlainLetters(s: seq<sextet>)
    ensures PlainText(Letters(s, true)) == Letters(s, false)
  {
  }

  lemma {:induction false} CompleteGroups(t: string)
    requires |t| % 4 == 0 && forall i :: 0 <= i < |t| ==> !IsSpace(t[i], false)
    ensures FromBase64(t) == Decode(t)
  {
  }

  lemma {:induction false} FromBase64OfEncode(b: seq<byte>)
    ensures FromBase64(Encode(b)) == Some(b)
  {
    var body := Letters(Pack(b), false);
    LettersAreLetters(Pack(b), false);
    LettersLeftOver(|b|, |body|);
    var t := body + Padding(|b|);
    assert forall i :: 0 <= i < |t| ==> !IsSpace(t[i], false) by {
      assert forall i :: 0 <= i < |Padding(|b|)| ==> Padding(|b|)[i] == '=';
    }
    CompleteGroups(t);
    DecodeEncode(b);
  }

  lemma {:induction false} UrlRoundTrip(raw: seq<byte>)
    ensures UrlDecode(TokenText(raw)) == Some(raw)
  {
    PlainLetters(Pack(raw));
    LettersLeftOver(|raw|, |TokenText(raw)|);
    FromBase64OfEncode(raw);
  }

  /** Every minted token is 86 characters, passes the length gate and hashes back to the digest
      stored for it. */
  lemma {:induction false} MintedTokenHashesBack(raw: seq<byte>)
    requires |raw| == 64
    ensures var (text, hash) := MintRefreshToken(raw);
            |text| == 86 && TryHashRefreshToken(text) == Some(hash)
  {
    UrlRoundTrip(raw);
  }

  /** A token that comes back with its padding written out hashes to the same digest. */
  lemma {:induction false} PaddedTokenHashesBack(raw: seq<byte>)
    requires |raw| == 64
    ensures TryHashRefreshToken(TokenText(raw) + "==") == Some(Sha256(raw))
  {
    MintedTokenHashesBack(raw);
    PlainLetters(Pack(raw));
    assert PlainText(TokenText(raw) + "==") + "" == Encode(raw);
    FromBase64OfEncode(raw);
  }

  /** Only texts of 86 to 88 characters that decode to 64 bytes hash, and then to the digest of those bytes. */
  lemma {:induction false} OnlySixtyFourBytesHash(token: string)
    ensures TryHashRefreshToken(token).Some? <==>
            86 <= |token| <= 88 && UrlDecode(token).Some? && |UrlDecode(token).value| == 64
    ensures TryHashRefreshToken(token).Some? ==> TryHashRefreshToken(token) == Some(Sha256(UrlDecode(token).value))
  {
  }

  /** Two tokens minted from different bytes have different texts and different digests. */
  lemma {:induction false} MintedTokensDiffer(raw: seq<byte>, other: seq<byte>)
    requires raw != other
    ensures TokenText(raw) != TokenText(other) && Sha256(raw) != Sha256(other)
  {
    UrlRoundTrip(raw);
    UrlRoundTrip(other);
  }

  lemma {:induction false} StripKeepsCharacters(t: string, browser: bool)
    ensures forall c :: c in StripSpace(t, browser) ==> c in t
  {
    if t != [] {
      StripKeepsCharacters(t[1..], browser);
    }
  }

  lemma {:induction false} ValuesNeedLetters(t: string)
    requires t != [] && Value(t[0]).None?
    ensures Values(t).None?
  {
  }

  /** A text with no letter of the alphabet never hashes, so the store's separate test for blank
      text decides nothing that the decoder would not. */
  lemma {:induction false} BlankNeverHashes(token: string)
    requires forall c :: c in token ==> Value(Plain(c)).None?
    ensures TryHashRefreshToken(token).None?
  {
    if 86 <= |token| <= 88 && |token| % 4 != 1 {
      var pad := if |token| % 4 == 2 then "==" else if |token| % 4 == 3 then "=" else "";
      var t := PlainText(token) + pad;
      var s := StripSpace(t, false);
      StripKeepsCharacters(t, false);
      var body := StripPadding(s);
      if body != [] {
        assert body[0] == s[0] && s[0] in s && s[0] in t;
        assert Value(s[0]).None? by {
          var i :| 0 <= i < |t| && t[i] == s[0];
          if i < |token| {
            assert token[i] in token;
          }
        }
        ValuesNeedLetters(body);
      }
    }
  }
}
