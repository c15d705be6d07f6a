/**
 Chunked transfer coding as the completion handler writes it (section 7.1
 of RFC 9112): each chunk is its size in lowercase hexadecimal, CRLF, the
 chunk data, CRLF; the stream ends with the last chunk `0` followed by
 CRLF and an empty trailer section, i.e. `0\r\n\r\n`. Chunk extensions
 and trailer fields are never written, so the decoder rejects them.
 */
module ChunkedFraming {
  import opened Values

  const CRLF: seq<byte> := [13, 10]

  /** The last chunk and the empty trailer section: `0\r\n\r\n`. */
  const Terminator: seq<byte> := [48, 13, 10, 13, 10]

  predicate IsHexDigit(b: byte) {
    (48 <= b <= 57) || (97 <= b <= 102) || (65 <= b <= 70)
  }

  predicate AllHex(s: seq<byte>) {
    forall i :: 0 <= i < |s| ==> IsHexDigit(s[i])
  }

  /** The lowercase digit `format(d, "x")` prints. */
  function HexDigit(d: nat): (b: byte)
    requires d < 16
    ensures IsHexDigit(b)
  {
    if d < 10 then (48 + d) as byte else (97 + d - 10) as byte
  }

  function HexValue(b: byte): (d: nat)
    requires IsHexDigit(b)
    ensures d < 16
  {
    if b <= 57 then (b - 48) as nat else if b >= 97 then (b - 97 + 10) as nat else (b - 65 + 10) as nat
  }

  /** `f"{n:x}"`: lowercase hexadecimal without leading zeros. */
  function Hex(n: nat): (r: seq<byte>)
    ensures |r| > 0 && AllHex(r)
    decreases n
  {
    if n < 16 then [HexDigit(n)] else Hex(n / 16) + [HexDigit(n % 16)]
  }

  /** The number a string of hexadecimal digits denotes. */
  function HexDigitsValue(s: seq<byte>): nat
    requires AllHex(s)
    decreases |s|
  {
    if s == [] then 0 else HexDigitsValue(s[..|s| - 1]) * 16 + HexValue(s[|s| - 1])
  }

  lemma {:induction false} HexRoundTrip(n: nat)
    ensures HexDigitsValue(Hex(n)) == n
    decreases n
  {
    if n >= 16 {
      HexRoundTrip(n / 16);
      var s := Hex(n);
      assert s[..|s| - 1] == Hex(n / 16);
    }
  }

  /** One chunk: size line, data, CRLF. */
  function Frame(payload: seq<byte>): seq<byte> {
    Hex(|payload|) + CRLF + payload + CRLF
  }

  /** The frames of every payload, in order. */
  function Frames(payloads: seq<seq<byte>>): seq<byte>
    decreases |payloads|
  {
    if payloads == [] then [] else Frame(payloads[0]) + Frames(payloads[1..])
  }

  /** A whole chunked body: the frames, then the terminator. */
  function EncodeStream(payloads: seq<seq<byte>>): seq<byte> {
    Frames(payloads) + Terminator
  }

  /** The number of hexadecimal digits `s` starts with. */
  function HexPrefixLength(s: seq<byte>): (k: nat)
    ensures k <= |s| && AllHex(s[..k])
    ensures k < |s| ==> !IsHexDigit(s[k])
    decreases |s|
  {
    if s == [] || !IsHexDigit(s[0]) then 0
    else
      var k := 1 + HexPrefixLength(s[1..]);
      assert s[..k] == [s[0]] + s[1..][..k - 1];
      k
  }

  /** Reads one chunk off the front of `s`: its data and what follows it. */
  function DecodeFrame(s: seq<byte>): (r: Option<(seq<byte>, seq<byte>)>)
    ensures r.Some? ==> |r.value.1| + 5 <= |s|
  {
    var k := HexPrefixLength(s);
    if k == 0 || |s| < k + 2 || s[k..k + 2] != CRLF then None
    else
      var size := HexDigitsValue(s[..k]);
      var rest := s[k + 2..];
      if |rest| < size + 2 || rest[size..size + 2] != CRLF then None
      else Some((rest[..size], rest[size + 2..]))
  }

  /** Reads chunks up to the last chunk; `None` for anything malformed or
      for bytes after the terminator. */
  function DecodeStream(s: seq<byte>): Option<seq<seq<byte>>>
    decreases |s|
  {
    match DecodeFrame(s)
    case None => None
    case Some((payload, rest)) =>
      if payload == [] then (if rest == [] then Some([]) else None)
      else
        match DecodeStream(rest)
        case None => None
        case Some(more) => Some([payload] + more)
  }

  /** An empty chunk is exactly the terminator, which is why chunk data
      must never be empty. */
  lemma EmptyFrameIsTerminator()
    ensures Frame([]) == Terminator
  {
  }

  lemma {:induction false} HexPrefixOfDigits(digits: seq<byte>, tail: seq<byte>)
    requires AllHex(digits)
    requires tail != [] && !IsHexDigit(tail[0])
    ensures HexPrefixLength(digits + tail) == |digits|
    decreases |digits|
  {
    if digits != [] {
      assert (digits + tail)[1..] == digits[1..] + tail;
      HexPrefixOfDigits(digits[1..], tail);
    }
  }

  /** Decoding the front of a frame returns its data and leaves what follows. */
  lemma DecodeFrameOfFrame(payload: seq<byte>, tail: seq<byte>)
    ensures DecodeFrame(Frame(payload) + tail) == Some((payload, tail))
  {
    var h := Hex(|payload|);
    var s := Frame(payload) + tail;
    assert s == h + (CRLF + payload + CRLF + tail);
    HexPrefixOfDigits(h, CRLF + payload + CRLF + tail);
    assert s[..|h|] == h;
    HexRoundTrip(|payload|);
    assert s[|h|..|h| + 2] == CRLF;
    var rest := s[|h| + 2..];
    assert rest == payload + CRLF + tail;
    assert rest[..|payload|] == payload;
    assert rest[|payload|..|payload| + 2] == CRLF;
    assert rest[|payload| + 2..] == tail;
  }

  /** Decoding a stream that starts with a frame of non-empty data yields
      that data, then whatever the rest decodes to. */
  lemma DecodeAfterFrame(payload: seq<byte>, tail: seq<byte>)
    requires |payload| > 0
    ensures DecodeStream(Frame(payload) + tail) ==
      if DecodeStream(tail).Some? then Some([payload] + DecodeStream(tail).value) else None
  {
    DecodeFrameOfFrame(payload, tail);
  }

  /** The round trip: decoding an encoded stream of non-empty payloads gives
      the payloads back. */
  lemma {:induction false} StreamRoundTrip(payloads: seq<seq<byte>>)
    requires forall i :: 0 <= i < |payloads| ==> |payloads[i]| > 0
    ensures DecodeStream(EncodeStream(payloads)) == Some(payloads)
    decreases |payloads|
  {
    if payloads == [] {
      assert EncodeStream(payloads) == Frame([]) + [];
      DecodeFrameOfFrame([], []);
    } else {
      var first, others := payloads[0], payloads[1..];
      assert forall i :: 0 <= i < |others| ==> |others[i]| > 0 by {
        forall i | 0 <= i < |others| ensures |others[i]| > 0 {
          assert others[i] == payloads[i + 1];
        }
      }
      var tail := EncodeStream(others);
      assert EncodeStream(payloads) == Frame(first) + tail by {
        assert Frames(payloads) == Frame(first) + Frames(others);
      }
      StreamRoundTrip(others);
      DecodeAfterFrame(first, tail);
      assert [first] + others == payloads;
    }
  }
}
