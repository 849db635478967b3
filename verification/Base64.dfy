/** Standard Base64 with padding (section 4 of RFC 4648), with the decoder's tolerance for line
    breaks and for non-zero bits after the last byte. */
module Base64 {
  import opened Prelude

  function Symbol(n: Sextet): (c: char)
    ensures Value(c) == Some(n) && c != '='
  {
    if n < 26 then 'A' + n as char
    else if n < 52 then 'a' + (n - 26) as char
    else if n < 62 then '0' + (n - 52) as char
    else if n == 62 then '+'
    else '/'
  }

  function Value(c: char): Option<Sextet>
  {
    if 'A' <= c <= 'Z' then Some(c as int - 'A' as int)
    else if 'a' <= c <= 'z' then Some(c as int - 'a' as int + 26)
    else if '0' <= c <= '9' then Some(c as int - '0' as int + 52)
    else if c == '+' then Some(62)
    else if c == '/' then Some(63)
    else None
  }

  type Sextet = n: int | 0 <= n < 64

  /** The four sextets of three bytes. */
  function S0(b0: byte): Sextet { b0 / 4 }
  function S1(b0: byte, b1: byte): Sextet { b0 % 4 * 16 + b1 / 16 }
  function S2(b1: byte, b2: byte): Sextet { b1 % 16 * 4 + b2 / 64 }
  function S3(b2: byte): Sextet { b2 % 64 }

  /** The three bytes of four sextets. */
  function B0(s0: Sextet, s1: Sextet): byte { s0 * 4 + s1 / 16 }
  function B1(s1: Sextet, s2: Sextet): byte { s1 % 16 * 16 + s2 / 4 }
  function B2(s2: Sextet, s3: Sextet): byte { s2 % 4 * 64 + s3 }

  lemma Unpack(b0: byte, b1: byte, b2: byte)
    ensures B0(S0(b0), S1(b0, b1)) == b0
    ensures B1(S1(b0, b1), S2(b1, b2)) == b1
    ensures B2(S2(b1, b2), S3(b2)) == b2
  {
  }

  lemma Repack(s0: Sextet, s1: Sextet, s2: Sextet, s3: Sextet)
    ensures var b0, b1, b2 := B0(s0, s1), B1(s1, s2), B2(s2, s3);
            S0(b0) == s0 && S1(b0, b1) == s1 && S2(b1, b2) == s2 && S3(b2) == s3
    ensures S2(B1(s1, s2), 0) == s2 <==> s2 % 4 == 0
  {
  }

  lemma RepackOne(s0: Sextet, s1: Sextet)
    ensures S0(B0(s0, s1)) == s0
    ensures S1(B0(s0, s1), 0) == s1 <==> s1 % 16 == 0
  {
  }

  /** The symbols of a group of one to three bytes. */
  function EncodeGroup(group: seq<byte>): (text: string)
    requires 1 <= |group| <= 3
    ensures |text| == 4
  {
    if |group| == 1 then
      [Symbol(S0(group[0])), Symbol(S1(group[0], 0)), '=', '=']
    else if |group| == 2 then
      [Symbol(S0(group[0])), Symbol(S1(group[0], group[1])), Symbol(S2(group[1], 0)), '=']
    else
      [Symbol(S0(group[0])), Symbol(S1(group[0], group[1])), Symbol(S2(group[1], group[2])), Symbol(S3(group[2]))]
  }

  function Encode(data: seq<byte>): string {
    if |data| == 0 then ""
    else if |data| <= 3 then EncodeGroup(data)
    else EncodeGroup(data[..3]) + Encode(data[3..])
  }

  predicate LineBreak(c: char) {
    c == '\r' || c == '\n'
  }

  function WithoutLineBreaks(s: string): string {
    if s == "" then ""
    else if LineBreak(s[0]) then WithoutLineBreaks(s[1..])
    else [s[0]] + WithoutLineBreaks(s[1..])
  }

  /** The one to three bytes of four symbols, the last two of which may be padding. */
  function DecodeGroup(text: string): (group: Option<seq<byte>>)
    requires |text| == 4
    ensures group.Some? ==> 1 <= |group.value| <= 3
  {
    var s0, s1, s2, s3 := Value(text[0]), Value(text[1]), Value(text[2]), Value(text[3]);
    if s0.None? || s1.None? then None
    else if text[2] == '=' then
      if text[3] == '=' then Some([B0(s0.value, s1.value)]) else None
    else if s2.None? then None
    else if text[3] == '=' then Some([B0(s0.value, s1.value), B1(s1.value, s2.value)])
    else if s3.None? then None
    else Some([B0(s0.value, s1.value), B1(s1.value, s2.value), B2(s2.value, s3.value)])
  }

  /** Decodes group after group; only the last one may be padded. */
  function DecodeGroups(s: string): Option<seq<byte>> {
    if s == "" then Some([])
    else if |s| < 4 then None
    else
      var group := DecodeGroup(s[..4]);
      if group.None? then None
      else if |s| == 4 then group
      else if |group.value| < 3 then None
      else
        var rest := DecodeGroups(s[4..]);
        if rest.None? then None else Some(group.value + rest.value)
  }

  function Decode(s: string): Option<seq<byte>> {
    DecodeGroups(WithoutLineBreaks(s))
  }

  // ----------------------------------------------------------- round trips

  lemma SingleDecodes(s0: Sextet, s1: Sextet)
    ensures DecodeGroup([Symbol(s0), Symbol(s1), '=', '=']) == Some([B0(s0, s1)])
  {
  }

  lemma SingleRoundTrip(b0: byte)
    ensures DecodeGroup(EncodeGroup([b0])) == Some([b0])
  {
    SingleDecodes(S0(b0), S1(b0, 0));
    assert B0(S0(b0), S1(b0, 0)) == b0;
  }

  lemma PairRoundTrip(b0: byte, b1: byte)
    ensures DecodeGroup(EncodeGroup([b0, b1])) == Some([b0, b1])
  {
    Unpack(b0, b1, 0);
    var text := EncodeGroup([b0, b1]);
    assert Value(text[0]) == Some(S0(b0)) && Value(text[1]) == Some(S1(b0, b1));
    assert Value(text[2]) == Some(S2(b1, 0));
  }

  lemma TripleRoundTrip(b0: byte, b1: byte, b2: byte)
    ensures DecodeGroup(EncodeGroup([b0, b1, b2])) == Some([b0, b1, b2])
  {
    Unpack(b0, b1, b2);
    var text := EncodeGroup([b0, b1, b2]);
    assert Value(text[0]) == Some(S0(b0)) && Value(text[1]) == Some(S1(b0, b1));
    assert Value(text[2]) == Some(S2(b1, b2)) && Value(text[3]) == Some(S3(b2));
  }

  lemma GroupRoundTrip(group: seq<byte>)
    requires 1 <= |group| <= 3
    ensures DecodeGroup(EncodeGroup(group)) == Some(group)
  {
    if |group| == 1 {
      assert group == [group[0]];
      SingleRoundTrip(group[0]);
    } else if |group| == 2 {
      assert group == [group[0], group[1]];
      PairRoundTrip(group[0], group[1]);
    } else {
      assert group == [group[0], group[1], group[2]];
      TripleRoundTrip(group[0], group[1], group[2]);
    }
  }

  lemma {:induction false} GroupsRoundTrip(data: seq<byte>)
    ensures DecodeGroups(Encode(data)) == Some(data)
  {
    if |data| > 3 {
      GroupRoundTrip(data[..3]);
      GroupsRoundTrip(data[3..]);
      assert Encode(data)[..4] == EncodeGroup(data[..3]) && Encode(data)[4..] == Encode(data[3..]);
      assert |Encode(data[3..])| > 0;
      assert data[..3] + data[3..] == data;
    } else if data != [] {
      GroupRoundTrip(data);
      assert Encode(data)[..4] == Encode(data);
    }
  }

  lemma GroupHasNoLineBreaks(group: seq<byte>)
    requires 1 <= |group| <= 3
    ensures forall i :: 0 <= i < 4 ==> !LineBreak(EncodeGroup(group)[i])
  {
  }

  lemma {:induction false} EncodeHasNoLineBreaks(data: seq<byte>)
    ensures forall i :: 0 <= i < |Encode(data)| ==> !LineBreak(Encode(data)[i])
  {
    if |data| > 3 {
      GroupHasNoLineBreaks(data[..3]);
      EncodeHasNoLineBreaks(data[3..]);
    } else if data != [] {
      GroupHasNoLineBreaks(data);
    }
  }

  lemma {:induction false} NothingToStrip(s: string)
    requires forall i :: 0 <= i < |s| ==> !LineBreak(s[i])
    ensures WithoutLineBreaks(s) == s
  {
    if s != "" {
      NothingToStrip(s[1..]);
    }
  }

  /** Decoding what was encoded gives back the bytes. */
  lemma DecodeEncode(data: seq<byte>)
    ensures Decode(Encode(data)) == Some(data)
  {
    EncodeHasNoLineBreaks(data);
    NothingToStrip(Encode(data));
    GroupsRoundTrip(data);
  }

  /** No bits are set in a group's last symbol beyond its last byte. */
  predicate ZeroTail(text: string)
    requires |text| == 4
  {
    if text[3] != '=' then true
    else if text[2] == '=' then Value(text[1]).Some? ==> Value(text[1]).value % 16 == 0
    else Value(text[2]).Some? ==> Value(text[2]).value % 4 == 0
  }

  lemma SymbolOfValue(c: char)
    requires Value(c).Some?
    ensures Symbol(Value(c).value) == c
  {
  }

  lemma PaddedTwiceReencodes(text: string)
    requires |text| == 4 && DecodeGroup(text).Some? && text[2] == '='
    ensures EncodeGroup(DecodeGroup(text).value) == text <==> ZeroTail(text)
  {
    SymbolOfValue(text[0]);
    SymbolOfValue(text[1]);
    var s0, s1 := Value(text[0]).value, Value(text[1]).value;
    RepackOne(s0, s1);
    var again := EncodeGroup([B0(s0, s1)]);
    assert again == [text[0], Symbol(S1(B0(s0, s1), 0)), '=', '='];
    assert again == text <==> again[1] == text[1];
  }

  lemma PaddedOnceReencodes(text: string)
    requires |text| == 4 && DecodeGroup(text).Some? && text[2] != '=' && text[3] == '='
    ensures EncodeGroup(DecodeGroup(text).value) == text <==> ZeroTail(text)
  {
    SymbolOfValue(text[0]);
    SymbolOfValue(text[1]);
    SymbolOfValue(text[2]);
    var s0, s1, s2 := Value(text[0]).value, Value(text[1]).value, Value(text[2]).value;
    Repack(s0, s1, s2, 0);
    var again := EncodeGroup([B0(s0, s1), B1(s1, s2)]);
    assert again == [text[0], text[1], Symbol(S2(B1(s1, s2), 0)), '='];
    assert again == text <==> again[2] == text[2];
  }

  lemma FullReencodes(text: string)
    requires |text| == 4 && DecodeGroup(text).Some? && text[2] != '=' && text[3] != '='
    ensures EncodeGroup(DecodeGroup(text).value) == text
  {
    SymbolOfValue(text[0]);
    SymbolOfValue(text[1]);
    SymbolOfValue(text[2]);
    SymbolOfValue(text[3]);
    Repack(Value(text[0]).value, Value(text[1]).value, Value(text[2]).value, Value(text[3]).value);
  }

  lemma GroupReencodes(text: string)
    requires |text| == 4 && DecodeGroup(text).Some?
    ensures EncodeGroup(DecodeGroup(text).value) == text <==> ZeroTail(text)
  {
    if text[2] == '=' {
      PaddedTwiceReencodes(text);
    } else if text[3] == '=' {
      PaddedOnceReencodes(text);
    } else {
      FullReencodes(text);
    }
  }

  lemma {:induction false} GroupsReencode(s: string)
    requires DecodeGroups(s).Some?
    ensures Encode(DecodeGroups(s).value) == s <==> (s == "" || ZeroTail(s[|s| - 4..]))
  {
    if |s| == 4 {
      assert s[..4] == s && s[0..] == s;
      GroupReencodes(s);
    } else if s != "" {
      var group, data := DecodeGroup(s[..4]).value, DecodeGroups(s).value;
      GroupReencodes(s[..4]);
      GroupsReencode(s[4..]);
      assert |group| == 3 && data[..3] == group && data[3..] == DecodeGroups(s[4..]).value;
      assert s[3] != '=' by { assert s[..4][3] == s[3]; }
      assert s == s[..4] + s[4..];
      assert (s[..4] + Encode(data[3..]))[4..] == Encode(data[3..]);
      assert s[4..][|s[4..]| - 4..] == s[|s| - 4..];
    }
  }

  ghost predicate OneLine(s: string) {
    forall i :: 0 <= i < |s| ==> !LineBreak(s[i])
  }

  /** The canonical texts: on one line, with no stray bits after the last byte. */
  ghost predicate Canonical(s: string) {
    OneLine(s) && (s == "" || (|s| >= 4 && ZeroTail(s[|s| - 4..])))
  }

  /** Encoding what was decoded gives back the text exactly when that is canonical: many accepted texts
      stand for the same bytes, and only one of them is their encoding. */
  lemma EncodeDecodeIff(s: string)
    requires Decode(s).Some?
    ensures Encode(Decode(s).value) == s <==> Canonical(s)
  {
    EncodeHasNoLineBreaks(Decode(s).value);
    if OneLine(s) {
      NothingToStrip(s);
      GroupsReencode(s);
    }
  }

  // ----------------------------------------------- section 4 of RFC 4648, spelled

  /** Consecutive characters. */
  function Letters(first: char, n: nat): string
    requires first as int + n < 128
  {
    seq(n, i requires 0 <= i < n => (first as int + i) as char)
  }

  /** The alphabet in order: A to Z, a to z, 0 to 9, plus and slash. */
  const ALPHABET: string := Letters('A', 26) + Letters('a', 26) + Letters('0', 10) + "+/"

  lemma SymbolMeaning(n: Sextet)
    ensures |ALPHABET| == 64 && Symbol(n) == ALPHABET[n]
  {
  }

  /** The character is in the alphabet, at this place. */
  predicate InAlphabet(c: char, n: int) {
    0 <= n < 64 && n < |ALPHABET| && ALPHABET[n] == c
  }

  lemma ValueMeaning(c: char, n: Sextet)
    ensures Value(c) == Some(n) <==> InAlphabet(c, n)
  {
    SymbolMeaning(n);
    if Value(c).Some? {
      SymbolOfValue(c);
    }
  }

  lemma Sextets(b0: byte, b1: byte, b2: byte)
    ensures var n := 65536 * b0 as int + 256 * b1 as int + b2 as int;
            && S0(b0) == n / 262144 && S1(b0, b1) == n / 4096 % 64
            && S2(b1, b2) == n / 64 % 64 && S3(b2) == n % 64
  {
    var a: int, b: int, c: int := b0, b1, b2;
    var n := 65536 * a + 256 * b + c;
    Digits(n / 64, a, b, c / 64);
    assert n == 64 * (1024 * a + 4 * b + c / 64) + c % 64;
  }

  /** The upper three sextets, the lowest having been split off. */
  lemma Digits(m: int, a: int, b: int, c: int)
    requires 0 <= a < 256 && 0 <= b < 256 && 0 <= c < 4 && m == 1024 * a + 4 * b + c
    ensures m % 64 == b % 16 * 4 + c && m / 64 % 64 == a % 4 * 16 + b / 16 && m / 64 / 64 == a / 4
  {
    Split(m, 16 * a + b / 16, b % 16 * 4 + c);
    Split(16 * a + b / 16, a / 4, a % 4 * 16 + b / 16);
  }

  lemma Split(m: int, q: int, r: int)
    requires m == 64 * q + r && 0 <= r < 64
    ensures m / 64 == q && m % 64 == r
  {
  }

  /** A group is one number of 24 bits, its missing bytes zero, written as four sextets with the most
      significant first; a sextet without a byte of its own is written as padding. */
  lemma GroupMeaning(group: seq<byte>)
    requires 1 <= |group| <= 3
    ensures |ALPHABET| == 64
    ensures var b1: int, b2: int := (if |group| > 1 then group[1] else 0), (if |group| > 2 then group[2] else 0);
            var n := 65536 * group[0] as int + 256 * b1 + b2;
            EncodeGroup(group) == [ALPHABET[n / 262144], ALPHABET[n / 4096 % 64],
                                   if |group| > 1 then ALPHABET[n / 64 % 64] else '=',
                                   if |group| > 2 then ALPHABET[n % 64] else '=']
  {
    var b1: byte, b2: byte := (if |group| > 1 then group[1] else 0), (if |group| > 2 then group[2] else 0);
    Sextets(group[0], b1, b2);
    SymbolMeaning(S0(group[0]));
    SymbolMeaning(S1(group[0], b1));
    SymbolMeaning(S2(b1, b2));
    SymbolMeaning(S3(b2));
  }

  /** The bytes of group `g`. */
  function Group(data: seq<byte>, g: nat): seq<byte>
    requires 3 * g < |data|
  {
    data[3 * g..if 3 * g + 3 <= |data| then 3 * g + 3 else |data|]
  }

  lemma NextGroup(data: seq<byte>, g: nat)
    requires 0 < g && 3 * g < |data|
    ensures Group(data, g) == Group(data[3..], g - 1)
  {
    var rest, end := data[3..], if 3 * g + 3 <= |data| then 3 * g + 3 else |data|;
    assert rest[3 * (g - 1)..end - 3] == data[3 * g..end];
  }

  lemma NextSymbols(head: string, tail: string, k: nat)
    requires |head| == 4 && k + 4 <= |tail|
    ensures (head + tail)[k + 4..k + 8] == tail[k..k + 4]
  {
  }

  /** The bytes are written group by group, three at a time. */
  lemma {:induction false} EncodeAt(data: seq<byte>, g: nat)
    requires 3 * g < |data|
    ensures 4 * g + 4 <= |Encode(data)| && Encode(data)[4 * g..4 * g + 4] == EncodeGroup(Group(data, g))
    decreases g
  {
    if g == 0 {
      FirstGroup(data);
    } else {
      EncodeAt(data[3..], g - 1);
      NextGroup(data, g);
      NextSymbols(EncodeGroup(data[..3]), Encode(data[3..]), 4 * (g - 1));
    }
  }

  lemma FirstGroup(data: seq<byte>)
    requires data != []
    ensures |Encode(data)| >= 4 && Encode(data)[0..4] == EncodeGroup(Group(data, 0))
  {
    if |data| <= 3 {
      assert Group(data, 0) == data;
    } else {
      assert Group(data, 0) == data[..3];
    }
  }

  /** And nothing else is written. */
  lemma {:induction false} EncodeLength(data: seq<byte>)
    ensures |Encode(data)| == 4 * ((|data| + 2) / 3)
  {
    if |data| > 3 {
      EncodeLength(data[3..]);
      assert (|data| + 2) / 3 == (|data[3..]| + 2) / 3 + 1;
    } else if data != [] {
      assert (|data| + 2) / 3 == 1;
    }
  }

  // ---------------------------------------------- which texts are accepted

  /** Only carriage returns and line feeds are passed over. */
  lemma {:induction false} StripsBreaks(a: string, b: string, c: char)
    ensures WithoutLineBreaks(a + b) == WithoutLineBreaks(a) + WithoutLineBreaks(b)
    ensures WithoutLineBreaks([c]) == if c == '\r' || c == '\n' then "" else [c]
  {
    assert [c][1..] == "";
    if a == "" {
      assert a + b == b;
    } else {
      assert (a + b)[1..] == a[1..] + b;
      StripsBreaks(a[1..], b, c);
    }
  }

  /** The text is symbols of the alphabet followed by `pad` padding characters, in groups of four. */
  ghost predicate WellFormed(t: string, pad: int) {
    && |t| % 4 == 0 && 0 <= pad <= 2 && pad <= |t|
    && (forall i :: 0 <= i < |t| - pad ==> Value(t[i]).Some?)
    && (forall i :: 0 <= i < |t| && |t| - pad <= i ==> t[i] == '=')
  }

  ghost predicate IsAccepted(t: string) {
    exists pad :: WellFormed(t, pad)
  }

  lemma GroupAccepted(text: string)
    requires |text| == 4
    ensures DecodeGroup(text).Some? <==> exists pad :: WellFormed(text, pad)
    ensures forall pad :: WellFormed(text, pad) ==> |DecodeGroup(text).value| == 3 - pad
  {
    assert Value('=').None?;
    if DecodeGroup(text).Some? {
      var pad := if text[2] == '=' then 2 else if text[3] == '=' then 1 else 0;
      assert WellFormed(text, pad);
    }
    forall pad | WellFormed(text, pad) ensures DecodeGroup(text).Some? && |DecodeGroup(text).value| == 3 - pad {
      assert text[0] == text[0] && text[1] == text[1] && text[2] == text[2] && text[3] == text[3];
    }
  }

  lemma WellFormedTail(t: string, pad: int)
    requires |t| > 4
    ensures WellFormed(t, pad) <==> WellFormed(t[..4], 0) && WellFormed(t[4..], pad)
  {
    var head, tail := t[..4], t[4..];
    assert forall i :: 0 <= i < |tail| ==> tail[i] == t[i + 4];
    assert forall i :: 4 <= i < |t| ==> t[i] == tail[i - 4];
    assert forall i :: 0 <= i < 4 ==> head[i] == t[i];
  }

  lemma {:induction false} GroupsAccepted(t: string)
    ensures DecodeGroups(t).Some? <==> IsAccepted(t)
  {
    if t == "" {
      assert WellFormed(t, 0);
    } else if |t| == 4 {
      assert t[..4] == t;
      GroupAccepted(t);
    } else if |t| > 4 {
      GroupAccepted(t[..4]);
      GroupsAccepted(t[4..]);
      if DecodeGroups(t).Some? {
        var p0 :| WellFormed(t[..4], p0);
        assert p0 == 0;
        var pad :| WellFormed(t[4..], pad);
        WellFormedTail(t, pad);
      }
      if pad :| WellFormed(t, pad) {
        WellFormedTail(t, pad);
      }
    }
  }

  /** The decoder accepts exactly the texts that, line breaks aside, are groups of four symbols with at most
      two padding characters at the very end. */
  lemma DecodeAcceptsIff(s: string)
    ensures Decode(s).Some? <==> IsAccepted(WithoutLineBreaks(s))
  {
    GroupsAccepted(WithoutLineBreaks(s));
  }
}
