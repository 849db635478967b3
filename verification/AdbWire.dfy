/** The ADB host protocol on the wire: length-prefixed frames and OKAY/FAIL replies.

    A frame is the payload's length as four hexadecimal digits followed by the payload. */
module AdbWire {
  import opened Prelude

  const MAX_PAYLOAD: nat := 65535

  // ---------------------------------------------------------------- writing

  function HexDigit(n: nat): byte
    requires n < 16
  {
    if n < 10 then 48 + n else 87 + n
  }

  /** A number in lower-case hexadecimal, as `%x` prints it. */
  function Hex(n: nat): Bytes {
    if n < 16 then [HexDigit(n)] else Hex(n / 16) + [HexDigit(n % 16)]
  }

  /** A number as `%04x` prints it: zero-padded to four digits, longer when it needs more. */
  function Header(n: nat): Bytes {
    var digits := Hex(n);
    if |digits| >= 4 then digits else seq(4 - |digits|, _ => 48) + digits
  }

  function Frame(payload: Bytes): Bytes {
    Header(|payload|) + payload
  }

  function Frames(payloads: seq<Bytes>): Bytes {
    if payloads == [] then [] else Frame(payloads[0]) + Frames(payloads[1..])
  }

  // ---------------------------------------------------------------- reading

  function HexValue(b: byte): (v: Option<nat>)
    ensures v.Some? ==> v.value < 16
  {
    if 48 <= b <= 57 then Some(b - 48)
    else if 97 <= b <= 102 then Some(b - 87)
    else if 65 <= b <= 70 then Some(b - 55)
    else None
  }

  /** Pairs of hexadecimal digits of either case; None for odd lengths and other characters. */
  function DecodeHex(s: Bytes): (r: Option<Bytes>)
    ensures r.Some? ==> 2 * |r.value| == |s|
  {
    if s == [] then Some([])
    else if |s| == 1 then None
    else
      var hi, lo, rest := HexValue(s[0]), HexValue(s[1]), DecodeHex(s[2..]);
      if hi.None? || lo.None? || rest.None? then None
      else Some([hi.value * 16 + lo.value] + rest.value)
  }

  /** The length in a header: the first two decoded bytes, high byte first. */
  function ParseHexLength(buf: Bytes): (r: Option<nat>)
    ensures r.Some? ==> r.value <= MAX_PAYLOAD
  {
    var decoded := DecodeHex(buf);
    if decoded.None? || |decoded.value| < 2 then None
    else Some(decoded.value[0] as int * 256 + decoded.value[1] as int)
  }

  datatype ReadResult = Payload(payload: Bytes, rest: Bytes) | Broken

  function ReadFrame(s: Bytes): ReadResult {
    if |s| < 4 then Broken
    else
      var length := ParseHexLength(s[..4]);
      if length.None? || |s| - 4 < length.value then Broken
      else Payload(s[4..4 + length.value], s[4 + length.value..])
  }

  /** The payloads of the frames that arrive before the stream ends or turns malformed. */
  function ReadAll(s: Bytes): seq<Bytes>
    decreases |s|
  {
    match ReadFrame(s)
    case Broken => []
    case Payload(p, rest) => [p] + ReadAll(rest)
  }

  // ---------------------------------------------------------------- headers

  lemma HeaderDigits(n: nat)
    requires n <= MAX_PAYLOAD
    ensures Header(n) == [HexDigit(n / 4096), HexDigit(n / 256 % 16), HexDigit(n / 16 % 16), HexDigit(n % 16)]
  {
    assert n / 16 / 16 == n / 256 && n / 16 / 16 / 16 == n / 4096;
    if n >= 16 {
      assert Hex(n) == Hex(n / 16) + [HexDigit(n % 16)];
      if n >= 256 {
        assert Hex(n / 16) == Hex(n / 256) + [HexDigit(n / 16 % 16)];
        if n >= 4096 {
          assert Hex(n / 256) == Hex(n / 4096) + [HexDigit(n / 256 % 16)];
        }
      }
    }
  }

  lemma DigitValue(n: nat)
    requires n < 16
    ensures HexValue(HexDigit(n)) == Some(n)
  {
  }

  lemma PairDecodes(a: nat, b: nat, rest: Bytes)
    requires a < 16 && b < 16 && DecodeHex(rest).Some?
    ensures DecodeHex([HexDigit(a), HexDigit(b)] + rest) == Some([a * 16 + b] + DecodeHex(rest).value)
  {
    DigitValue(a);
    DigitValue(b);
    assert ([HexDigit(a), HexDigit(b)] + rest)[2..] == rest;
  }

  lemma FourDigits(a: nat, b: nat, c: nat, d: nat)
    requires a < 16 && b < 16 && c < 16 && d < 16
    ensures ParseHexLength([HexDigit(a), HexDigit(b), HexDigit(c), HexDigit(d)])
            == Some((a * 16 + b) * 256 + (c * 16 + d))
  {
    PairDecodes(c, d, []);
    PairDecodes(a, b, [HexDigit(c), HexDigit(d)]);
    assert [HexDigit(c), HexDigit(d)] + [] == [HexDigit(c), HexDigit(d)];
    assert [HexDigit(a), HexDigit(b)] + [HexDigit(c), HexDigit(d)]
        == [HexDigit(a), HexDigit(b), HexDigit(c), HexDigit(d)];
  }

  lemma HeaderParses(n: nat)
    requires n <= MAX_PAYLOAD
    ensures |Header(n)| == 4 && ParseHexLength(Header(n)) == Some(n)
  {
    HeaderDigits(n);
    FourDigits(n / 4096, n / 256 % 16, n / 16 % 16, n % 16);
    Recombine(n);
  }

  lemma Recombine(n: nat)
    ensures (n / 4096 * 16 + n / 256 % 16) * 256 + (n / 16 % 16 * 16 + n % 16) == n
  {
    assert n / 256 == n / 4096 * 16 + n / 256 % 16 by { assert n / 256 / 16 == n / 4096; }
    assert n / 16 == n / 256 * 16 + n / 16 % 16 by { assert n / 16 / 16 == n / 256; }
  }

  // ----------------------------------------------------------- round trips

  /** A frame reads back as its payload and leaves what follows it untouched. */
  lemma FrameRoundTrip(payload: Bytes, rest: Bytes)
    requires |payload| <= MAX_PAYLOAD
    ensures ReadFrame(Frame(payload) + rest) == Payload(payload, rest)
  {
    HeaderParses(|payload|);
    var s := Frame(payload) + rest;
    assert s[..4] == Header(|payload|);
    assert s[4..4 + |payload|] == payload;
    assert s[4 + |payload|..] == rest;
  }

  /** The four-digit header is enough exactly for payloads of at most 65535 bytes. */
  lemma FrameRoundTripIff(payload: Bytes)
    ensures ReadFrame(Frame(payload)) == Payload(payload, []) <==> |payload| <= MAX_PAYLOAD
  {
    if |payload| <= MAX_PAYLOAD {
      FrameRoundTrip(payload, []);
      assert Frame(payload) + [] == Frame(payload);
    } else {
      var r := ReadFrame(Frame(payload));
      assert r.Payload? ==> |r.payload| <= MAX_PAYLOAD;
    }
  }

  ghost predicate Sendable(payloads: seq<Bytes>) {
    forall i :: 0 <= i < |payloads| ==> |payloads[i]| <= MAX_PAYLOAD
  }

  /** Frame stream round trip: the concatenated frames read back as exactly the payloads. */
  lemma {:induction false} StreamRoundTrip(payloads: seq<Bytes>)
    requires Sendable(payloads)
    ensures ReadAll(Frames(payloads)) == payloads
  {
    if payloads != [] {
      FrameRoundTrip(payloads[0], Frames(payloads[1..]));
      StreamRoundTrip(payloads[1..]);
    }
  }

  /** The frame at the head of a stream splits off. */
  lemma FramesCons(p: Bytes, rest: seq<Bytes>)
    ensures Frames([p] + rest) == Frame(p) + Frames(rest)
  {
    assert ([p] + rest)[1..] == rest;
  }

  /** The first `n` bytes of the framed payloads hold `whole` frames, and those are read back. */
  ghost predicate CutsAt(payloads: seq<Bytes>, n: nat, whole: nat) {
    && whole <= |payloads| && n <= |Frames(payloads)|
    && ReadAll(Frames(payloads)[..n]) == payloads[..whole]
    && |Frames(payloads[..whole])| <= n
    && (whole < |payloads| ==> n < |Frames(payloads[..whole + 1])|)
  }

  /** The cut falls into the first frame. */
  lemma CutFirst(p: Bytes, rest: seq<Bytes>, n: nat)
    requires |p| <= MAX_PAYLOAD && n < |Frame(p)|
    ensures CutsAt([p] + rest, n, 0)
  {
    CutFrame(p, n);
    FramesCons(p, rest);
    assert (Frame(p) + Frames(rest))[..n] == Frame(p)[..n];
    FramesCons(p, []);
    assert ([p] + rest)[..1] == [p] + [];
  }

  lemma ReadThrough(p: Bytes, tail: Bytes)
    requires |p| <= MAX_PAYLOAD
    ensures ReadAll(Frame(p) + tail) == [p] + ReadAll(tail)
  {
    FrameRoundTrip(p, tail);
  }

  /** The cut falls behind the first frame. */
  lemma CutLater(p: Bytes, rest: seq<Bytes>, n: nat, more: nat)
    requires |p| <= MAX_PAYLOAD && CutsAt(rest, n, more)
    ensures CutsAt([p] + rest, |Frame(p)| + n, more + 1)
  {
    var all := [p] + rest;
    FramesCons(p, rest);
    assert Frames(all)[..|Frame(p)| + n] == Frame(p) + Frames(rest)[..n];
    ReadThrough(p, Frames(rest)[..n]);
    assert all[..more + 1] == [p] + rest[..more];
    FramesCons(p, rest[..more]);
    if more < |rest| {
      assert all[..more + 2] == [p] + rest[..more + 1];
      FramesCons(p, rest[..more + 1]);
    }
  }

  lemma CutNothing()
    ensures CutsAt([], 0, 0)
  {
  }

  /** A stream cut off anywhere reads back as the payloads of the frames that arrived whole. */
  lemma {:induction false} CutStream(payloads: seq<Bytes>, n: nat) returns (whole: nat)
    requires Sendable(payloads) && n <= |Frames(payloads)|
    ensures CutsAt(payloads, n, whole)
  {
    whole := 0;
    if payloads == [] {
      CutNothing();
    } else {
      var p, rest := payloads[0], payloads[1..];
      assert payloads == [p] + rest;
      FramesCons(p, rest);
      if n < |Frame(p)| {
        CutFirst(p, rest, n);
      } else {
        whole := CutStream(rest, n - |Frame(p)|);
        CutLater(p, rest, n - |Frame(p)|, whole);
        whole := whole + 1;
      }
    }
  }

  lemma CutFrame(payload: Bytes, n: nat)
    requires |payload| <= MAX_PAYLOAD && n < |Frame(payload)|
    ensures ReadAll(Frame(payload)[..n]) == []
  {
    HeaderParses(|payload|);
    var s := Frame(payload)[..n];
    if n >= 4 {
      assert s[..4] == Header(|payload|);
    }
  }

  // ------------------------------------------- what is read, for any bytes

  /** The byte is the hexadecimal digit of this value, in either case. */
  predicate IsDigit(b: byte, v: int) {
    || (0 <= v < 10 && b == '0' as int + v)
    || (10 <= v < 16 && (b == 'a' as int + v - 10 || b == 'A' as int + v - 10))
  }

  lemma DigitMeaning(b: byte, v: nat)
    ensures HexValue(b) == Some(v) <==> IsDigit(b, v)
  {
  }

  /** The printed header is four digits, most significant first, and the letters are lower-case. */
  lemma HeaderSpelled(n: nat)
    requires n <= MAX_PAYLOAD
    ensures IsHeader(Header(n), n)
    ensures forall i :: 0 <= i < 4 ==> !('A' as int <= Header(n)[i] <= 'F' as int)
  {
    HeaderDigits(n);
    HeaderParses(n);
    HeaderMeaning(Header(n), n);
  }

  /** Four bytes are a header exactly if they are four digits, and then stand for that number. */
  ghost predicate IsHeader(h: Bytes, n: int) {
    |h| == 4 && exists a, b, c, d ::
      && IsDigit(h[0], a) && IsDigit(h[1], b) && IsDigit(h[2], c) && IsDigit(h[3], d)
      && n == 4096 * a + 256 * b + 16 * c + d
  }

  lemma DecodeFour(h: Bytes)
    requires |h| == 4
    ensures var v0, v1, v2, v3 := HexValue(h[0]), HexValue(h[1]), HexValue(h[2]), HexValue(h[3]);
            DecodeHex(h) == if v0.Some? && v1.Some? && v2.Some? && v3.Some?
                            then Some([v0.value * 16 + v1.value, v2.value * 16 + v3.value]) else None
  {
    var rest := h[2..];
    assert rest[0] == h[2] && rest[1] == h[3] && rest[2..] == [];
    assert DecodeHex(rest[2..]) == Some([]);
    var v2, v3 := HexValue(h[2]), HexValue(h[3]);
    assert DecodeHex(rest) == if v2.Some? && v3.Some? then Some([v2.value * 16 + v3.value] + []) else None;
    var v0, v1 := HexValue(h[0]), HexValue(h[1]);
    if v0.Some? && v1.Some? && v2.Some? && v3.Some? {
      var hi: byte, lo: byte := v0.value * 16 + v1.value, v2.value * 16 + v3.value;
      assert [hi] + ([lo] + []) == [hi, lo];
    }
  }

  lemma HeaderMeaning(h: Bytes, n: nat)
    requires |h| == 4
    ensures ParseHexLength(h) == Some(n) <==> IsHeader(h, n)
  {
    DecodeFour(h);
    if IsHeader(h, n) {
      var a, b, c, d :| && IsDigit(h[0], a) && IsDigit(h[1], b) && IsDigit(h[2], c) && IsDigit(h[3], d)
                        && n == 4096 * a + 256 * b + 16 * c + d;
      DigitMeaning(h[0], a);
      DigitMeaning(h[1], b);
      DigitMeaning(h[2], c);
      DigitMeaning(h[3], d);
    }
    if ParseHexLength(h) == Some(n) {
      var a, b, c, d := HexValue(h[0]).value, HexValue(h[1]).value, HexValue(h[2]).value, HexValue(h[3]).value;
      DigitMeaning(h[0], a);
      DigitMeaning(h[1], b);
      DigitMeaning(h[2], c);
      DigitMeaning(h[3], d);
    }
  }

  /** The stream starts with a whole frame of this payload. */
  ghost predicate StartsWithFrame(s: Bytes, payload: Bytes, rest: Bytes) {
    |s| >= 4 && IsHeader(s[..4], |payload|) && s == s[..4] + payload + rest
  }

  /** For every byte string: a frame is read exactly if the stream starts with one. */
  lemma FrameMeaning(s: Bytes, payload: Bytes, rest: Bytes)
    ensures ReadFrame(s) == Payload(payload, rest) <==> StartsWithFrame(s, payload, rest)
  {
    if |s| >= 4 {
      HeaderMeaning(s[..4], |payload|);
      if StartsWithFrame(s, payload, rest) {
        assert s[4..4 + |payload|] == payload && s[4 + |payload|..] == rest;
      }
    }
  }

  /** The payloads are framed one after the other at the start of the stream, and `tail` follows. */
  ghost predicate Framed(s: Bytes, payloads: seq<Bytes>, tail: Bytes)
    decreases |payloads|
  {
    if payloads == [] then s == tail
    else exists rest :: StartsWithFrame(s, payloads[0], rest) && Framed(rest, payloads[1..], tail)
  }

  /** For every byte string: the payloads read are those framed at its start, up to where no frame follows. */
  lemma {:induction false} ReadAllMeaning(s: Bytes) returns (tail: Bytes)
    ensures Framed(s, ReadAll(s), tail)
    ensures !(exists payload, rest :: StartsWithFrame(tail, payload, rest))
    decreases |s|
  {
    match ReadFrame(s)
    case Broken =>
      tail := s;
      forall payload, rest ensures !StartsWithFrame(tail, payload, rest) {
        FrameMeaning(s, payload, rest);
      }
    case Payload(p, rest) =>
      FrameMeaning(s, p, rest);
      tail := ReadAllMeaning(rest);
      assert ReadAll(s)[1..] == ReadAll(rest);
  }

  // ---------------------------------------------------------------- replies

  datatype Reply = Okay | Fail(message: Bytes)
  datatype Verdict = Accepted | Rejected(message: Bytes) | Malformed

  const OKAY: Bytes := [79, 75, 65, 89]
  const FAIL: Bytes := [70, 65, 73, 76]

  /** What the ADB server sends. */
  function Respond(r: Reply): Bytes {
    match r
    case Okay => OKAY
    case Fail(m) => FAIL + Frame(m)
  }

  /** Reads one reply: the verdict and what is left of the stream. */
  function CheckOkay(s: Bytes): (Verdict, Bytes) {
    if |s| < 4 then (Malformed, [])
    else if s[..4] == OKAY then (Accepted, s[4..])
    else if s[..4] == FAIL then
      if |s| < 8 then (Malformed, [])
      else
        var length := ParseHexLength(s[4..8]);
        if length.None? then (Malformed, s[8..])
        else if |s| - 8 < length.value then (Malformed, [])
        else (Rejected(s[8..8 + length.value]), s[8 + length.value..])
    else (Malformed, s[4..])
  }

  /** A reply is understood and consumed to its last byte, whatever follows. */
  lemma ReplyRoundTrip(r: Reply, rest: Bytes)
    requires r.Fail? ==> |r.message| <= MAX_PAYLOAD
    ensures CheckOkay(Respond(r) + rest)
            == (if r.Okay? then Accepted else Rejected(r.message), rest)
  {
    var s := Respond(r) + rest;
    match r
    case Okay =>
      AcceptedMeaning(s, rest);
    case Fail(m) =>
      FailText(s, m, rest);
      FrameRoundTrip(m, rest);
      FrameMeaning(s[4..], m, rest);
      RejectedMeaning(s, m, rest);
  }

  lemma FailText(s: Bytes, m: Bytes, rest: Bytes)
    requires s == FAIL + Frame(m) + rest
    ensures |s| >= 4 && s[..4] == [70, 65, 73, 76] && s[4..] == Frame(m) + rest
  {
  }

  /** For every byte string: the reply is accepted exactly if it starts with the text OKAY. */
  lemma AcceptedMeaning(s: Bytes, rest: Bytes)
    ensures CheckOkay(s) == (Accepted, rest) <==> s == [79, 75, 65, 89] + rest
    ensures CheckOkay(s).0 == Accepted <==> [79, 75, 65, 89] <= s
  {
    if |s| >= 4 {
      assert s == s[..4] + s[4..];
      assert [79, 75, 65, 89] <= s <==> s[..4] == [79, 75, 65, 89];
    }
  }

  /** And rejected with a message exactly if it starts with the text FAIL and a frame of that message. */
  lemma RejectedMeaning(s: Bytes, message: Bytes, rest: Bytes)
    ensures CheckOkay(s) == (Rejected(message), rest)
            <==> |s| >= 4 && s[..4] == [70, 65, 73, 76] && StartsWithFrame(s[4..], message, rest)
  {
    if |s| >= 4 && s[..4] == [70, 65, 73, 76] {
      assert s[0] == 70 && [79, 75, 65, 89][0] == 79 && s[..4][0] == s[0];
      FrameMeaning(s[4..], message, rest);
      if |s| >= 8 {
        assert s[4..][..4] == s[4..8];
        var length := ParseHexLength(s[4..8]);
        if length.Some? && length.value <= |s| - 8 {
          assert s[4..][4..4 + length.value] == s[8..8 + length.value];
          assert s[4..][4 + length.value..] == s[8 + length.value..];
        }
      }
    }
  }

  /** After the handshake the reader is aligned on the first frame. */
  lemma HandshakeThenFrames(payloads: seq<Bytes>)
    requires Sendable(payloads)
    ensures CheckOkay(Respond(Okay) + Frames(payloads)).0 == Accepted
    ensures ReadAll(CheckOkay(Respond(Okay) + Frames(payloads)).1) == payloads
  {
    ReplyRoundTrip(Okay, Frames(payloads));
    StreamRoundTrip(payloads);
  }

  /** Reading one frame more moves one payload from the stream to what has been read. */
  lemma ReadOn(done: seq<Bytes>, s: Bytes)
    ensures match ReadFrame(s)
            case Broken => done + ReadAll(s) == done
            case Payload(p, rest) => (done + [p]) + ReadAll(rest) == done + ReadAll(s) && |rest| < |s|
  {
    match ReadFrame(s)
    case Broken =>
      assert ReadAll(s) == [];
    case Payload(p, rest) =>
      ReadOne(s, p, rest);
      Regroup(done, p, ReadAll(rest));
  }

  lemma ReadOne(s: Bytes, p: Bytes, rest: Bytes)
    requires ReadFrame(s) == Payload(p, rest)
    ensures ReadAll(s) == [p] + ReadAll(rest) && |rest| < |s|
  {
  }

  lemma Regroup(done: seq<Bytes>, p: Bytes, rest: seq<Bytes>)
    ensures (done + [p]) + rest == done + ([p] + rest)
  {
  }

  // ------------------------------------------------------- the code in place

  /** The receiving side of a connection; the bytes after `pos` are still to be read. */
  class Connection {
    const data: Bytes
    var pos: nat

    ghost predicate Valid()
      reads this
    {
      pos <= |data|
    }

    ghost function Unread(): Bytes
      reads this
      requires Valid()
    {
      data[pos..]
    }

    constructor (data: Bytes)
      ensures Valid() && Unread() == data
    {
      this.data, pos := data, 0;
    }

    /** Fills a buffer, or uses up the stream and fails. */
    method ReadFull(n: nat) returns (r: Option<Bytes>)
      requires Valid()
      modifies this
      ensures Valid()
      ensures r.Some? <==> n <= |old(Unread())|
      ensures r.Some? ==> r.value == old(Unread())[..n] && Unread() == old(Unread())[n..]
      ensures r.None? ==> Unread() == []
    {
      if pos + n <= |data| {
        r := Some(data[pos..pos + n]);
        pos := pos + n;
      } else {
        r := None;
        pos := |data|;
      }
    }

    /** Reads and verifies one reply. */
    method Check() returns (verdict: Verdict)
      requires Valid()
      modifies this
      ensures Valid() && (verdict, Unread()) == CheckOkay(old(Unread()))
      ensures verdict == Accepted <==> [79, 75, 65, 89] <= old(Unread())
      ensures verdict == Accepted ==> old(Unread()) == [79, 75, 65, 89] + Unread()
      ensures verdict.Rejected? ==>
                && |old(Unread())| >= 4 && old(Unread())[..4] == [70, 65, 73, 76]
                && StartsWithFrame(old(Unread())[4..], verdict.message, Unread())
    {
      ghost var s := Unread();
      verdict := ReadReply();
      AcceptedMeaning(s, Unread());
      if verdict.Rejected? {
        RejectedMeaning(s, verdict.message, Unread());
      }
    }

    method ReadReply() returns (verdict: Verdict)
      requires Valid()
      modifies this
      ensures Valid() && (verdict, Unread()) == CheckOkay(old(Unread()))
    {
      ghost var s := Unread();
      var status := ReadFull(4);
      if status.None? { return Malformed; }
      if status.value == OKAY { return Accepted; }
      if status.value == FAIL {
        var lenBuf := ReadFull(4);
        if lenBuf.None? { return Malformed; }
        assert lenBuf.value == s[4..8];
        var length := ParseHexLength(lenBuf.value);
        if length.None? { return Malformed; }
        assert Unread() == s[8..];
        var message := ReadFull(length.value);
        assert message.Some? ==> message.value == s[8..8 + length.value];
        if message.None? { return Malformed; }
        return Rejected(message.value);
      }
      return Malformed;
    }

    /** Reads one frame. */
    method ReadNext() returns (r: Option<Bytes>)
      requires Valid()
      modifies this
      ensures Valid()
      ensures match ReadFrame(old(Unread()))
              case Broken => r.None?
              case Payload(p, rest) => r == Some(p) && Unread() == rest
    {
      ghost var s := Unread();
      r := ReadFull(4);
      if r.None? { return; }
      var length := ParseHexLength(r.value);
      if length.None? { return None; }
      r := ReadFull(length.value);
      if r.Some? {
        assert r.value == s[4..4 + length.value] && Unread() == s[4 + length.value..];
      }
    }

    /** Reads the next payload of a stream of which `done` has been read already. */
    method TakeNext(ghost all: seq<Bytes>, ghost done: seq<Bytes>) returns (r: Option<Bytes>)
      requires Valid() && done + ReadAll(Unread()) == all
      modifies this
      ensures Valid()
      ensures r.Some? ==> (done + [r.value]) + ReadAll(Unread()) == all && pos > old(pos)
      ensures r.None? ==> done == all
    {
      ReadOn(done, Unread());
      r := ReadNext();
    }

    /** The tracking loop's reads: frame after frame until the stream ends or is malformed. */
    method ReadPayloads() returns (payloads: seq<Bytes>)
      requires Valid()
      modifies this
      ensures Valid() && payloads == ReadAll(old(Unread()))
    {
      payloads := [];
      ghost var all := ReadAll(Unread());
      while true
        invariant Valid() && payloads + ReadAll(Unread()) == all
        decreases |data| - pos
      {
        var payload := TakeNext(all, payloads);
        if payload.None? {
          return;
        }
        payloads := payloads + [payload.value];
      }
    }
  }
}
