/** The url-safe base64 encoder without padding, against a strict decoder. */
module Base64Url {
  import opened Wrappers

  type byte = x: int | 0 <= x < 256

  /** Shifts, masks and ors of bytes, as arithmetic. */
  function First(b0: byte): nat {
    b0 / 4
  }

  function Second(b0: byte, b1: byte): nat {
    (b0 % 4) * 16 + b1 / 16
  }

  function Third(b1: byte, b2: byte): nat {
    (b1 % 16) * 4 + b2 / 64
  }

  function Fourth(b2: byte): nat {
    b2 % 64
  }

  /** The alphabet A-Z, a-z, 0-9, dash, underscore, in this order. */
  function CharOf(sextet: nat): char
    requires sextet < 64
  {
    if sextet < 26 then 'A' + sextet as char
    else if sextet < 52 then 'a' + (sextet - 26) as char
    else if sextet < 62 then '0' + (sextet - 52) as char
    else if sextet == 62 then '-'
    else '_'
  }

  /** The characters of up to three bytes. */
  function EncodeGroup(b: seq<byte>): (s: string)
    requires 0 < |b| <= 3
    ensures |s| == |b| + 1
  {
    var b1, b2 := if |b| > 1 then b[1] else 0, if |b| > 2 then b[2] else 0;
    [CharOf(First(b[0])), CharOf(Second(b[0], b1))]
    + (if |b| > 1 then [CharOf(Third(b1, b2))] else [])
    + (if |b| > 2 then [CharOf(Fourth(b2))] else [])
  }

  function Encode(b: seq<byte>): string {
    if b == [] then "" else if |b| <= 3 then EncodeGroup(b) else EncodeGroup(b[..3]) + Encode(b[3..])
  }

  function From(b: seq<byte>, i: nat): seq<byte> {
    if i < |b| then b[i..] else []
  }

  function GroupAt(b: seq<byte>, i: nat): seq<byte>
    requires i < |b|
  {
    if i + 3 <= |b| then b[i..i + 3] else b[i..]
  }

  lemma EncodeStep(b: seq<byte>, i: nat)
    requires i < |b|
    ensures Encode(From(b, i)) == EncodeGroup(GroupAt(b, i)) + Encode(From(b, i + 3))
  {}

  lemma Regroup(done: string, group: string, rest: string)
    ensures done + (group + rest) == (done + group) + rest
  {}

  method Base64UrlEncode(bytes: seq<byte>) returns (result: string)
    ensures result == Encode(bytes)
  {
    result := "";
    var i := 0;
    while i < |bytes|
      invariant result + Encode(From(bytes, i)) == Encode(bytes)
      decreases |bytes| - i
    {
      EncodeStep(bytes, i);
      Regroup(result, EncodeGroup(GroupAt(bytes, i)), Encode(From(bytes, i + 3)));
      var group := PushGroup(bytes, i);
      result := result + group;
      i := i + 3;
    }
  }

  /** The characters one turn of the loop pushes. */
  method PushGroup(bytes: seq<byte>, i: nat) returns (group: string)
    requires i < |bytes|
    ensures group == EncodeGroup(GroupAt(bytes, i))
  {
    var b0 := bytes[i];
    var b1 := if i + 1 < |bytes| then bytes[i + 1] else 0;
    var b2 := if i + 2 < |bytes| then bytes[i + 2] else 0;
    group := [CharOf(First(b0))];
    group := group + [CharOf(Second(b0, b1))];
    if i + 1 < |bytes| {
      group := group + [CharOf(Third(b1, b2))];
    }
    if i + 2 < |bytes| {
      group := group + [CharOf(Fourth(b2))];
    }
  }

  // ---------------------------------------------------------------- the decoder

  /** A character's place in the alphabet. */
  function Sextet(c: char): (r: Option<nat>)
    ensures r.Some? ==> r.value < 64
  {
    if 'A' <= c <= 'Z' then Some((c - 'A') as nat)
    else if 'a' <= c <= 'z' then Some((c - 'a') as nat + 26)
    else if '0' <= c <= '9' then Some((c - '0') as nat + 52)
    else if c == '-' then Some(62)
    else if c == '_' then Some(63)
    else None
  }

  predicate Known(s: string) {
    forall i :: 0 <= i < |s| ==> Sextet(s[i]).Some?
  }

  /** The bytes of two, three and four sextets; the bits the shorter groups leave over must be zero. */
  function FromTwo(x0: nat, x1: nat): Option<seq<byte>>
    requires x0 < 64 && x1 < 64
  {
    if x1 % 16 != 0 then None else Some([x0 * 4 + x1 / 16])
  }

  function FromThree(x0: nat, x1: nat, x2: nat): Option<seq<byte>>
    requires x0 < 64 && x1 < 64 && x2 < 64
  {
    if x2 % 4 != 0 then None else Some([x0 * 4 + x1 / 16, (x1 % 16) * 16 + x2 / 4])
  }

  function FromFour(x0: nat, x1: nat, x2: nat, x3: nat): Option<seq<byte>>
    requires x0 < 64 && x1 < 64 && x2 < 64 && x3 < 64
  {
    Some([x0 * 4 + x1 / 16, (x1 % 16) * 16 + x2 / 4, (x2 % 4) * 64 + x3])
  }

  /** Up to four characters back to bytes. */
  function DecodeGroup(s: string): Option<seq<byte>>
    requires 0 < |s| <= 4
  {
    if |s| == 1 || !Known(s) then None
    else if |s| == 2 then FromTwo(Sextet(s[0]).value, Sextet(s[1]).value)
    else if |s| == 3 then FromThree(Sextet(s[0]).value, Sextet(s[1]).value, Sextet(s[2]).value)
    else FromFour(Sextet(s[0]).value, Sextet(s[1]).value, Sextet(s[2]).value, Sextet(s[3]).value)
  }

  function Decode(s: string): Option<seq<byte>> {
    if s == "" then Some([])
    else if |s| <= 4 then DecodeGroup(s)
    else
      match DecodeGroup(s[..4])
      case None => None
      case Some(b) =>
        match Decode(s[4..])
        case None => None
        case Some(rest) => Some(b + rest)
  }

  predicate UrlSafe(c: char) {
    'A' <= c <= 'Z' || 'a' <= c <= 'z' || '0' <= c <= '9' || c == '-' || c == '_'
  }

  // ---------------------------------------------------------------- the laws

  /** The decoder's table inverts the encoder's, and it is the url-safe alphabet. */
  lemma SextetOfChar(x: nat)
    requires x < 64
    ensures Sextet(CharOf(x)) == Some(x) && UrlSafe(CharOf(x))
  {}

  lemma OneBack(b0: byte)
    ensures FromTwo(First(b0), Second(b0, 0)) == Some([b0])
  {}

  lemma TwoBack(b0: byte, b1: byte)
    ensures FromThree(First(b0), Second(b0, b1), Third(b1, 0)) == Some([b0, b1])
  {}

  lemma SecondParts(b0: byte, b1: byte)
    ensures Second(b0, b1) / 16 == b0 % 4 && Second(b0, b1) % 16 == b1 / 16
  {}

  lemma ThirdParts(b1: byte, b2: byte)
    ensures Third(b1, b2) / 4 == b1 % 16 && Third(b1, b2) % 4 == b2 / 64
  {}

  lemma ThreeBack(b0: byte, b1: byte, b2: byte)
    ensures FromFour(First(b0), Second(b0, b1), Third(b1, b2), Fourth(b2)) == Some([b0, b1, b2])
  {
    SecondParts(b0, b1);
    ThirdParts(b1, b2);
    assert First(b0) * 4 + b0 % 4 == b0;
    assert b1 / 16 * 16 + b1 % 16 == b1;
  }

  lemma SextetsBack(x: seq<nat>, s: string)
    requires |s| == |x| && forall i :: 0 <= i < |x| ==> x[i] < 64 && s[i] == CharOf(x[i])
    ensures Known(s) && forall i :: 0 <= i < |x| ==> Sextet(s[i]).value == x[i]
  {
    forall i | 0 <= i < |x| ensures Sextet(s[i]) == Some(x[i]) {
      SextetOfChar(x[i]);
    }
  }

  lemma GroupRoundTrip(b: seq<byte>)
    requires 0 < |b| <= 3
    ensures DecodeGroup(EncodeGroup(b)) == Some(b)
  {
    var s := EncodeGroup(b);
    if |b| == 1 {
      SextetsBack([First(b[0]), Second(b[0], 0)], s);
      OneBack(b[0]);
      assert b == [b[0]];
    } else if |b| == 2 {
      SextetsBack([First(b[0]), Second(b[0], b[1]), Third(b[1], 0)], s);
      TwoBack(b[0], b[1]);
      assert b == [b[0], b[1]];
    } else {
      SextetsBack([First(b[0]), Second(b[0], b[1]), Third(b[1], b[2]), Fourth(b[2])], s);
      ThreeBack(b[0], b[1], b[2]);
      assert b == [b[0], b[1], b[2]];
    }
  }

  /** Decoding an encoding gives the bytes back, so the encoder is injective. */
  lemma {:induction false} RoundTrip(b: seq<byte>)
    ensures Decode(Encode(b)) == Some(b)
  {
    if b != [] {
      if |b| <= 3 {
        GroupRoundTrip(b);
      } else {
        GroupRoundTrip(b[..3]);
        RoundTrip(b[3..]);
        var s := Encode(b);
        assert s[..4] == EncodeGroup(b[..3]) && s[4..] == Encode(b[3..]);
        NonEmpty(b[3..]);
        assert b == b[..3] + b[3..];
      }
    }
  }

  lemma NonEmpty(b: seq<byte>)
    ensures b != [] ==> |Encode(b)| > 0
  {}

  lemma CharOfSextet(c: char)
    requires Sextet(c).Some?
    ensures CharOf(Sextet(c).value) == c
  {}

  lemma TwoForth(x0: nat, x1: nat)
    requires x0 < 64 && x1 < 64 && FromTwo(x0, x1).Some?
    ensures var b := FromTwo(x0, x1).value; |b| == 1 && First(b[0]) == x0 && Second(b[0], 0) == x1
  {}

  lemma ThreeForth(x0: nat, x1: nat, x2: nat)
    requires x0 < 64 && x1 < 64 && x2 < 64 && FromThree(x0, x1, x2).Some?
    ensures var b := FromThree(x0, x1, x2).value; |b| == 2 && First(b[0]) == x0 && Second(b[0], b[1]) == x1 && Third(b[1], 0) == x2
  {}

  lemma FourForth(x0: nat, x1: nat, x2: nat, x3: nat)
    requires x0 < 64 && x1 < 64 && x2 < 64 && x3 < 64
    ensures var b := FromFour(x0, x1, x2, x3).value;
            |b| == 3 && First(b[0]) == x0 && Second(b[0], b[1]) == x1 && Third(b[1], b[2]) == x2 && Fourth(b[2]) == x3
  {}

  lemma GroupDecodes(s: string)
    requires 0 < |s| <= 4 && DecodeGroup(s).Some?
    ensures var b := DecodeGroup(s).value; 0 < |b| <= 3 && |b| == |s| - 1 && EncodeGroup(b) == s
  {
    forall i | 0 <= i < |s| ensures CharOf(Sextet(s[i]).value) == s[i] {
      CharOfSextet(s[i]);
    }
    if |s| == 2 {
      TwoForth(Sextet(s[0]).value, Sextet(s[1]).value);
    } else if |s| == 3 {
      ThreeForth(Sextet(s[0]).value, Sextet(s[1]).value, Sextet(s[2]).value);
    } else {
      FourForth(Sextet(s[0]).value, Sextet(s[1]).value, Sextet(s[2]).value, Sextet(s[3]).value);
    }
  }

  /** The strict decoder accepts exactly the encodings. */
  lemma {:induction false} DecodesIff(s: string, b: seq<byte>)
    ensures Decode(s) == Some(b) <==> s == Encode(b)
  {
    RoundTrip(b);
    if Decode(s) == Some(b) {
      EncodesBack(s);
    }
  }

  lemma {:induction false} EncodesBack(s: string)
    requires Decode(s).Some?
    ensures Encode(Decode(s).value) == s
  {
    if s != "" {
      if |s| <= 4 {
        GroupDecodes(s);
      } else {
        GroupDecodes(s[..4]);
        EncodesBack(s[4..]);
        var b, rest := DecodeGroup(s[..4]).value, Decode(s[4..]).value;
        assert rest != [];
        assert (b + rest)[..3] == b && (b + rest)[3..] == rest;
      }
    }
  }

  predicate AllSafe(s: string) {
    forall i :: 0 <= i < |s| ==> UrlSafe(s[i])
  }

  lemma GroupSafe(b: seq<byte>)
    requires 0 < |b| <= 3
    ensures AllSafe(EncodeGroup(b))
  {}

  lemma SafeConcat(s: string, t: string)
    requires AllSafe(s) && AllSafe(t)
    ensures AllSafe(s + t)
  {}

  /** Only the 64 url-safe characters, four for every three bytes, rounded up, no padding. */
  lemma {:induction false} EncodingShape(b: seq<byte>)
    ensures |Encode(b)| == (4 * |b| + 2) / 3
    ensures AllSafe(Encode(b))
  {
    if 0 < |b| <= 3 {
      GroupSafe(b);
    } else if b != [] {
      GroupSafe(b[..3]);
      EncodingShape(b[3..]);
      SafeConcat(EncodeGroup(b[..3]), Encode(b[3..]));
    }
  }
}
