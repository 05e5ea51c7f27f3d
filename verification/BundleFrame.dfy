/** The bundle appended to a binary behind a 32-byte trailer, and the length-prefixed frame on standard input. */
module BundleFrame {
  import opened Wrappers

  type byte = x: int | 0 <= x < 256

  const LIMIT: nat := 0x1_0000_0000_0000_0000
  const TRAILER_SIZE: nat := 32

  /** M C P O R B _ B U N D L E _ V 1 */
  const MAGIC: seq<byte> := [77, 67, 80, 79, 82, 66, 95, 66, 85, 78, 68, 76, 69, 95, 86, 49]

  datatype Footer = Footer(offset: nat, length: nat)

  datatype FrameError = BadOffset | BadLength | BadTrailer | UnexpectedEnd

  // ---------------------------------------------------------------- little-endian numbers

  function Power(n: nat): nat {
    if n == 0 then 1 else 256 * Power(n - 1)
  }

  function ToLe(x: nat, n: nat): (s: seq<byte>)
    ensures |s| == n
  {
    if n == 0 then [] else [x % 256] + ToLe(x / 256, n - 1)
  }

  function FromLe(s: seq<byte>): nat {
    if s == [] then 0 else s[0] + 256 * FromLe(s[1..])
  }

  lemma {:induction false} LeRoundTrip(x: nat, n: nat)
    requires x < Power(n)
    ensures FromLe(ToLe(x, n)) == x
  {
    if n > 0 {
      LeRoundTrip(x / 256, n - 1);
    }
  }

  lemma {:induction false} LeBack(s: seq<byte>)
    ensures ToLe(FromLe(s), |s|) == s && FromLe(s) < Power(|s|)
  {
    if s != [] {
      LeBack(s[1..]);
    }
  }

  lemma EightBytes()
    ensures Power(8) == LIMIT
  {}

  // ---------------------------------------------------------------- the appended bundle

  /** What the packaging appends: the bundle, the magic, where the bundle starts, how long it is. */
  function Append(binary: seq<byte>, bundle: seq<byte>): seq<byte> {
    binary + bundle + Trailer(|binary|, |bundle|)
  }

  function Trailer(offset: nat, length: nat): (t: seq<byte>)
    ensures |t| == TRAILER_SIZE
  {
    MAGIC + ToLe(offset, 8) + ToLe(length, 8)
  }

  /** The trailer begins with these sixteen letters. */
  lemma TrailerSpells(offset: nat, length: nat, i: nat)
    requires i < 16
    ensures Trailer(offset, length)[i] == "MCPORB_BUNDLE_V1"[i] as nat
  {}

  /** The sum the source forms in 64 bits. */
  function WrappedSum(f: Footer): nat {
    (f.offset + f.length + TRAILER_SIZE) % LIMIT
  }

  /** The two numbers of a trailer. */
  function TrailerNumbers(trailer: seq<byte>): Footer
    requires |trailer| == TRAILER_SIZE
  {
    Footer(FromLe(trailer[16..24]), FromLe(trailer[24..32]))
  }

  function SaturatingSub(a: nat, b: nat): nat {
    if a < b then 0 else a - b
  }

  function CheckFooter(f: Footer, fileLen: nat): Result<Option<Footer>, FrameError> {
    if f.offset > fileLen then Err(BadOffset)
    else if f.length > SaturatingSub(fileLen, TRAILER_SIZE) then Err(BadLength)
    else if WrappedSum(f) != fileLen then Err(BadTrailer)
    else Ok(Some(f))
  }

  function FooterOf(data: seq<byte>): Result<Option<Footer>, FrameError> {
    if |data| < TRAILER_SIZE then Ok(None)
    else
      var trailer := data[|data| - TRAILER_SIZE..];
      if trailer[..16] != MAGIC then Ok(None) else CheckFooter(TrailerNumbers(trailer), |data|)
  }

  /** A byte source with a position, which a file lets be anywhere: a file, or standard input. */
  class ByteStream {
    const data: seq<byte>
    var pos: nat

    constructor (bytes: seq<byte>)
      ensures data == bytes && pos == 0
    {
      data := bytes;
      pos := 0;
    }

    /** Delivers exactly n bytes, or fails; what is consumed by a failing read is gone. */
    method ReadExact(n: nat) returns (r: Option<seq<byte>>)
      modifies this
      ensures if n == 0 then r == Some([]) && pos == old(pos)
              else if old(pos) + n <= |data| then r == Some(data[old(pos)..old(pos) + n]) && pos == old(pos) + n
              else r == None && pos == if old(pos) < |data| then |data| else old(pos)
    {
      if n == 0 {
        r := Some([]);
      } else if pos + n <= |data| {
        r := Some(data[pos..pos + n]);
        pos := pos + n;
      } else {
        r := None;
        pos := if pos < |data| then |data| else pos;
      }
    }

    method Seek(p: nat)
      modifies this
      ensures pos == p
    {
      pos := p;
    }

    method ReadAppendedFooter() returns (r: Result<Option<Footer>, FrameError>)
      modifies this
      ensures r == FooterOf(data)
    {
      if |data| < TRAILER_SIZE {
        return Ok(None);
      }
      Seek(|data| - TRAILER_SIZE);
      var trailer := ReadExact(TRAILER_SIZE);
      assert trailer.value == data[|data| - TRAILER_SIZE..];
      if trailer.value[..16] != MAGIC {
        return Ok(None);
      }
      r := CheckFooter(TrailerNumbers(trailer.value), |data|);
    }

    /** The bytes a footer designates, or an error if the file ends before them. */
    method ReadAppendedBundle(f: Footer) returns (r: Result<seq<byte>, FrameError>)
      modifies this
      ensures r == if f.length == 0 then Ok([])
                   else if f.offset + f.length <= |data| then Ok(data[f.offset..f.offset + f.length])
                   else Err(UnexpectedEnd)
    {
      Seek(f.offset);
      var bundle := ReadExact(f.length);
      r := if bundle.Some? then Ok(bundle.value) else Err(UnexpectedEnd);
    }

    /** The child's side of the stdin frame. */
    method ReadFrame() returns (r: Result<seq<byte>, FrameError>)
      requires pos <= |data|
      modifies this
      ensures match UnframePrefix(data[old(pos)..])
              case Some(zip) => r == Ok(zip) && pos == old(pos) + 8 + |zip|
              case None => r == Err(UnexpectedEnd) && pos == |data|
    {
      ghost var start, rest := pos, data[pos..];
      var header := ReadExact(8);
      if header.None? {
        return Err(UnexpectedEnd);
      }
      assert header.value == rest[..8];
      var n := FromLe(header.value);
      var zip := ReadExact(n);
      assert |rest| >= 8 + n ==> data[start + 8..start + 8 + n] == rest[8..8 + n];
      r := if zip.Some? then Ok(zip.value) else Err(UnexpectedEnd);
    }
  }

  // ---------------------------------------------------------------- the trailer laws

  lemma TrailerParts(a: seq<byte>, b: seq<byte>)
    requires |a| == |b| == 8
    ensures var t := MAGIC + a + b; |t| == TRAILER_SIZE && t[..16] == MAGIC && t[16..24] == a && t[24..32] == b
  {}

  /** What was appended is found again, and it is exactly the bundle. */
  lemma AppendReadsBack(binary: seq<byte>, bundle: seq<byte>)
    requires |Append(binary, bundle)| < LIMIT
    ensures FooterOf(Append(binary, bundle)) == Ok(Some(Footer(|binary|, |bundle|)))
    ensures Append(binary, bundle)[|binary|..|binary| + |bundle|] == bundle
  {
    TrailerReadsBack(|binary|, |bundle|);
    ReadsBack(binary, bundle, Trailer(|binary|, |bundle|));
  }

  lemma ReadsBack(binary: seq<byte>, bundle: seq<byte>, t: seq<byte>)
    requires |t| == TRAILER_SIZE && t[..16] == MAGIC && TrailerNumbers(t) == Footer(|binary|, |bundle|)
    requires |binary| + |bundle| + TRAILER_SIZE < LIMIT
    ensures FooterOf(binary + bundle + t) == Ok(Some(Footer(|binary|, |bundle|)))
    ensures (binary + bundle + t)[|binary|..|binary| + |bundle|] == bundle
  {}

  lemma TrailerReadsBack(offset: nat, length: nat)
    requires offset < LIMIT && length < LIMIT
    ensures var t := Trailer(offset, length); t[..16] == MAGIC && TrailerNumbers(t) == Footer(offset, length)
  {
    TrailerParts(ToLe(offset, 8), ToLe(length, 8));
    EightBytes();
    LeRoundTrip(offset, 8);
    LeRoundTrip(length, 8);
  }

  /** Which check refuses a trailer: an offset past the file, else a length that the file cannot hold beside the trailer,
      else bytes that do not end where the trailer begins. */
  lemma RefusedFor(f: Footer, fileLen: nat)
    requires 32 <= fileLen < LIMIT
    ensures CheckFooter(f, fileLen) ==
            if f.offset > fileLen then Err(BadOffset)
            else if f.length + 32 > fileLen then Err(BadLength)
            else if f.offset + f.length + 32 != fileLen then Err(BadTrailer)
            else Ok(Some(f))
  {}

  /** An accepted trailer designates the bytes that end right before it, for every file length of 64 bits:
      the wrapped sum never makes a wrong one look right. */
  lemma AcceptedEndsAtTrailer(f: Footer, fileLen: nat)
    requires TRAILER_SIZE <= fileLen < LIMIT
    ensures CheckFooter(f, fileLen) == Ok(Some(f)) <==> f.offset + f.length == fileLen - TRAILER_SIZE
  {}

  /** The sum stays in range for every footer that reaches it exactly if the file is shorter than 2^63 bytes. */
  lemma SumStaysInRangeIff(fileLen: nat)
    requires TRAILER_SIZE <= fileLen < LIMIT
    ensures (forall f: Footer :: f.offset <= fileLen && f.length <= fileLen - TRAILER_SIZE ==> f.offset + f.length + TRAILER_SIZE < LIMIT)
            <==> fileLen < LIMIT / 2
  {
    if fileLen >= LIMIT / 2 {
      var f := Footer(fileLen, fileLen - TRAILER_SIZE);
      assert f.offset + f.length + TRAILER_SIZE >= LIMIT;
    }
  }

  /** Only appended bundles are accepted: an accepted file is its front, the bundle and the trailer. */
  lemma AcceptedIffAppended(data: seq<byte>, f: Footer)
    requires |data| < LIMIT
    ensures FooterOf(data) == Ok(Some(f)) <==>
            && f.offset + f.length + TRAILER_SIZE == |data|
            && data == Append(data[..f.offset], data[f.offset..f.offset + f.length])
  {
    if FooterOf(data) == Ok(Some(f)) {
      AcceptedIsAppended(data, f);
    } else if f.offset + f.length + TRAILER_SIZE == |data| && data == Append(data[..f.offset], data[f.offset..f.offset + f.length]) {
      AppendReadsBack(data[..f.offset], data[f.offset..f.offset + f.length]);
    }
  }

  lemma AcceptedIsAppended(data: seq<byte>, f: Footer)
    requires |data| < LIMIT && FooterOf(data) == Ok(Some(f))
    ensures f.offset + f.length + TRAILER_SIZE == |data|
    ensures data == Append(data[..f.offset], data[f.offset..f.offset + f.length])
  {
    var t := data[|data| - TRAILER_SIZE..];
    AcceptedNumbers(data, f);
    TrailerIsWhole(t);
    SplitAt(data, f.offset, f.length, t);
  }

  lemma AcceptedNumbers(data: seq<byte>, f: Footer)
    requires |data| < LIMIT && FooterOf(data) == Ok(Some(f))
    ensures |data| >= TRAILER_SIZE && f.offset + f.length + TRAILER_SIZE == |data|
    ensures var t := data[|data| - TRAILER_SIZE..]; t[..16] == MAGIC && f == TrailerNumbers(t)
  {
    AcceptedEndsAtTrailer(TrailerNumbers(data[|data| - TRAILER_SIZE..]), |data|);
  }

  lemma TrailerIsWhole(t: seq<byte>)
    requires |t| == TRAILER_SIZE && t[..16] == MAGIC
    ensures t == Trailer(TrailerNumbers(t).offset, TrailerNumbers(t).length)
  {
    EightBack(t[16..24]);
    EightBack(t[24..32]);
    ThreeParts(t);
  }

  lemma EightBack(s: seq<byte>)
    requires |s| == 8
    ensures ToLe(FromLe(s), 8) == s
  {
    LeBack(s);
  }

  lemma ThreeParts(t: seq<byte>)
    requires |t| == 32
    ensures t == t[..16] + t[16..24] + t[24..32]
  {}

  lemma SplitAt(data: seq<byte>, offset: nat, length: nat, t: seq<byte>)
    requires offset + length <= |data| && data[offset + length..] == t
    ensures data == data[..offset] + data[offset..offset + length] + t
  {}

  // ---------------------------------------------------------------- the frame on standard input

  /** What the gateway writes to its child before any request. */
  function Frame(zip: seq<byte>): seq<byte> {
    ToLe(|zip|, 8) + zip
  }

  /** The payload at the front of a stream, if it is all there. */
  function UnframePrefix(stream: seq<byte>): Option<seq<byte>> {
    if |stream| < 8 then None
    else
      var n := FromLe(stream[..8]);
      if |stream| < 8 + n then None else Some(stream[8..8 + n])
  }

  /** The child gets exactly the ZIP, and the requests behind it stay in the stream. */
  lemma FrameReadsBack(zip: seq<byte>, requests: seq<byte>)
    requires |zip| < LIMIT
    ensures UnframePrefix(Frame(zip) + requests) == Some(zip)
    ensures (Frame(zip) + requests)[8 + |zip|..] == requests
  {
    var stream := Frame(zip) + requests;
    EightBytes();
    LeRoundTrip(|zip|, 8);
    assert stream[..8] == ToLe(|zip|, 8);
    assert stream[8..8 + |zip|] == zip;
  }
}
