/**
 * Identifier generation: `prompt-` followed by the lowercase hexadecimal
 * encoding of eight random bytes. The bytes are a parameter; where they
 * come from (a cryptographic random source) is outside the model.
 */
module Ids {
  import opened Wrappers

  newtype byte = x: int | 0 <= x < 256

  const IdPrefix: string := "prompt-"

  predicate IsHexDigit(c: char) {
    '0' <= c <= '9' || 'a' <= c <= 'f'
  }

  /** The value of one lowercase hexadecimal digit; upper case is not a digit here. */
  function DigitValue(c: char): (r: Option<nat>)
    ensures r.Some? <==> IsHexDigit(c)
    ensures r.Some? ==> r.value < 16
  {
    if '0' <= c <= '9' then Some(c as int - '0' as int)
    else if 'a' <= c <= 'f' then Some(c as int - 'a' as int + 10)
    else None
  }

  /** The lowercase digit for a nibble; DigitValue reads it back. */
  function DigitChar(n: nat): (c: char)
    requires n < 16
    ensures IsHexDigit(c) && DigitValue(c) == Some(n)
  {
    if n < 10 then ('0' as int + n) as char else ('a' as int + n - 10) as char
  }

  /** Hex encoding of a byte string, high nibble first, as Buffer's 'hex' encoding writes it. */
  function Encode(bytes: seq<byte>): (s: string)
    ensures |s| == 2 * |bytes|
    ensures forall i | 0 <= i < |s| :: IsHexDigit(s[i])
  {
    if bytes == [] then []
    else [DigitChar(bytes[0] as nat / 16), DigitChar(bytes[0] as nat % 16)] + Encode(bytes[1..])
  }

  /** Reads a string of lowercase hex digit pairs back into bytes; anything else is None. */
  function Decode(s: string): (r: Option<seq<byte>>)
    ensures r.Some? ==> 2 * |r.value| == |s|
  {
    if |s| == 0 then Some([])
    else if |s| == 1 then None
    else
      match (DigitValue(s[0]), DigitValue(s[1]), Decode(s[2..]))
      case (Some(hi), Some(lo), Some(rest)) => Some([(hi * 16 + lo) as byte] + rest)
      case _ => None
  }

  lemma {:induction false} DecodeEncode(bytes: seq<byte>)
    ensures Decode(Encode(bytes)) == Some(bytes)
  {
    if bytes != [] {
      var b := bytes[0] as nat;
      var s := Encode(bytes);
      DecodeEncode(bytes[1..]);
      assert s[2..] == Encode(bytes[1..]);
      assert DigitValue(s[0]) == Some(b / 16);
      assert DigitValue(s[1]) == Some(b % 16);
      assert (b / 16 * 16 + b % 16) as byte == bytes[0];
      assert [bytes[0]] + bytes[1..] == bytes;
    }
  }

  lemma {:induction false} EncodeDecode(s: string, bytes: seq<byte>)
    requires Decode(s) == Some(bytes)
    ensures Encode(bytes) == s
  {
    if |s| != 0 {
      var hi := DigitValue(s[0]).value;
      var lo := DigitValue(s[1]).value;
      var rest := Decode(s[2..]).value;
      assert bytes == [(hi * 16 + lo) as byte] + rest;
      EncodeDecode(s[2..], rest);
      assert bytes[0] as nat / 16 == hi && bytes[0] as nat % 16 == lo;
      DigitValueInjective(s[0], DigitChar(hi));
      DigitValueInjective(s[1], DigitChar(lo));
      assert bytes[1..] == rest;
      assert s == [s[0], s[1]] + s[2..];
    }
  }

  /** Two digits with the same value are the same character. */
  lemma DigitValueInjective(c: char, d: char)
    requires DigitValue(c).Some? && DigitValue(c) == DigitValue(d)
    ensures c == d
  {
  }

  /** The identifier built at server.js line 32. */
  function PromptId(random: seq<byte>): (id: string)
    requires |random| == 8
    ensures |id| == 23 && id[..7] == IdPrefix
    ensures forall i | 7 <= i < 23 :: IsHexDigit(id[i])
  {
    IdPrefix + Encode(random)
  }

  /** Recovers the random bytes from a generated identifier. */
  function ParseId(id: string): (r: Option<seq<byte>>)
    ensures r.Some? ==> |id| == |IdPrefix| + 2 * |r.value|
  {
    if |id| >= |IdPrefix| && id[..|IdPrefix|] == IdPrefix then Decode(id[|IdPrefix|..]) else None
  }

  lemma ParseIdInverse(random: seq<byte>)
    requires |random| == 8
    ensures ParseId(PromptId(random)) == Some(random)
  {
    var id := PromptId(random);
    assert id[|IdPrefix|..] == Encode(random);
    DecodeEncode(random);
  }

  /** Distinct random bytes give distinct identifiers. */
  lemma PromptIdInjective(a: seq<byte>, b: seq<byte>)
    requires |a| == 8 && |b| == 8
    ensures PromptId(a) == PromptId(b) <==> a == b
  {
    if PromptId(a) == PromptId(b) {
      ParseIdInverse(a);
      ParseIdInverse(b);
    }
  }
}
