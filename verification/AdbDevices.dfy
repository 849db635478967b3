/** Device lists of the ADB tracking stream: parsing a payload and turning consecutive
    snapshots into online and offline events. */
module AdbDevices {
  import opened Prelude
  import opened AdbWire

  type Serial = Bytes

  const TAB: byte := 9
  const NEWLINE: byte := 10
  const DEVICE: Bytes := [100, 101, 118, 105, 99, 101]

  // ---------------------------------------------------------------- parsing

  /** How many bytes of white space (one Unicode space, in UTF-8) the text starts with. */
  function SpaceWidth(s: Bytes): (w: nat)
    ensures w <= |s|
  {
    if s == [] then 0
    else if 9 <= s[0] <= 13 || s[0] == 32 then 1
    else if |s| == 1 then 0
    else if s[0] == 0xC2 && (s[1] == 0x85 || s[1] == 0xA0) then 2
    else if |s| == 2 then 0
    else if s[0] == 0xE1 && s[1] == 0x9A && s[2] == 0x80 then 3
    else if s[0] == 0xE2 && s[1] == 0x80 && (0x80 <= s[2] <= 0x8A || 0xA8 <= s[2] <= 0xA9 || s[2] == 0xAF) then 3
    else if s[0] == 0xE2 && s[1] == 0x81 && s[2] == 0x9F then 3
    else if s[0] == 0xE3 && s[1] == 0x80 && s[2] == 0x80 then 3
    else 0
  }

  function NonEmpty(token: Bytes): seq<Bytes> {
    if token == [] then [] else [token]
  }

  /** The fields of `token + s`, where `token` is the part of the current field already seen. */
  function FieldsFrom(token: Bytes, s: Bytes): seq<Bytes>
    decreases |s|
  {
    if s == [] then NonEmpty(token)
    else
      var w := SpaceWidth(s);
      if w > 0 then NonEmpty(token) + FieldsFrom([], s[w..])
      else FieldsFrom(token + [s[0]], s[1..])
  }

  function Fields(line: Bytes): seq<Bytes> {
    FieldsFrom([], line)
  }

  function SplitFrom(line: Bytes, s: Bytes): seq<Bytes>
    decreases |s|
  {
    if s == [] then [line]
    else if s[0] == NEWLINE then [line] + SplitFrom([], s[1..])
    else SplitFrom(line + [s[0]], s[1..])
  }

  function Lines(payload: Bytes): seq<Bytes> {
    SplitFrom([], payload)
  }

  datatype Entry = Entry(serial: Serial, state: Bytes)

  /** A line with fewer than two fields says nothing; further fields are ignored. */
  function ParseLine(line: Bytes): seq<Entry> {
    var parts := Fields(line);
    if |parts| < 2 then [] else [Entry(parts[0], parts[1])]
  }

  function ParseLines(lines: seq<Bytes>): seq<Entry> {
    if lines == [] then [] else ParseLine(lines[0]) + ParseLines(lines[1..])
  }

  function Entries(payload: Bytes): seq<Entry> {
    ParseLines(Lines(payload))
  }

  // ------------------------------------------- parsing what a server prints

  /** A field as a server may print it: not empty and without white space. */
  ghost predicate Clean(token: Bytes) {
    token != [] && forall i :: 0 <= i < |token| ==> SpaceWidth(token[i..]) == 0
  }

  ghost predicate Printable(devices: seq<Entry>) {
    forall i :: 0 <= i < |devices| ==> Clean(devices[i].serial) && Clean(devices[i].state)
  }

  function Print(devices: seq<Entry>): Bytes {
    if devices == [] then []
    else devices[0].serial + [TAB] + devices[0].state + [NEWLINE] + Print(devices[1..])
  }

  /** An ASCII byte after a text cannot complete a space in it. */
  lemma SpaceStable(u: Bytes, b: byte, rest: Bytes)
    requires u != [] && SpaceWidth(u) == 0 && b < 128
    ensures SpaceWidth(u + [b] + rest) == 0
  {
    var s := u + [b] + rest;
    assert s[0] == u[0] && (|u| >= 2 ==> s[1] == u[1]) && (|u| >= 3 ==> s[2] == u[2]);
    assert |u| == 1 ==> s[1] == b;
    assert |u| == 2 ==> s[2] == b;
  }

  lemma {:induction false} FieldsToken(seen: Bytes, token: Bytes, b: byte, rest: Bytes)
    requires forall i :: 0 <= i < |token| ==> SpaceWidth(token[i..]) == 0
    requires b == TAB || b == NEWLINE
    ensures FieldsFrom(seen, token + [b] + rest) == NonEmpty(seen + token) + FieldsFrom([], rest)
    decreases |token|
  {
    var s := token + [b] + rest;
    if token == [] {
      assert s == [b] + rest && s[1..] == rest;
      assert seen + token == seen;
    } else {
      assert token[0..] == token;
      SpaceStable(token, b, rest);
      assert s[1..] == token[1..] + [b] + rest;
      forall i | 0 <= i < |token[1..]| ensures SpaceWidth(token[1..][i..]) == 0 {
        assert token[1..][i..] == token[i + 1..];
      }
      FieldsToken(seen + [token[0]], token[1..], b, rest);
      assert seen + [token[0]] + token[1..] == seen + token;
    }
  }

  lemma {:induction false} FieldsEnd(seen: Bytes, token: Bytes)
    requires forall i :: 0 <= i < |token| ==> SpaceWidth(token[i..]) == 0
    ensures FieldsFrom(seen, token) == NonEmpty(seen + token)
    decreases |token|
  {
    if token == [] {
      assert seen + token == seen;
    } else {
      assert token[0..] == token;
      forall i | 0 <= i < |token[1..]| ensures SpaceWidth(token[1..][i..]) == 0 {
        assert token[1..][i..] == token[i + 1..];
      }
      FieldsEnd(seen + [token[0]], token[1..]);
      assert seen + [token[0]] + token[1..] == seen + token;
    }
  }

  lemma LineParses(e: Entry)
    requires Clean(e.serial) && Clean(e.state)
    ensures ParseLine(e.serial + [TAB] + e.state) == [e]
  {
    FieldsToken([], e.serial, TAB, e.state);
    FieldsEnd([], e.state);
    assert [] + e.serial == e.serial && [] + e.state == e.state;
  }

  lemma {:induction false} LineSplits(seen: Bytes, line: Bytes, rest: Bytes)
    requires NEWLINE !in line
    ensures SplitFrom(seen, line + [NEWLINE] + rest) == [seen + line] + SplitFrom([], rest)
    decreases |line|
  {
    var s := line + [NEWLINE] + rest;
    if line == [] {
      assert s[1..] == rest && seen + line == seen;
    } else {
      assert s[1..] == line[1..] + [NEWLINE] + rest;
      LineSplits(seen + [line[0]], line[1..], rest);
      assert seen + [line[0]] + line[1..] == seen + line;
    }
  }

  lemma CleanHasNoNewline(token: Bytes)
    requires Clean(token)
    ensures NEWLINE !in token
  {
    forall i | 0 <= i < |token| ensures token[i] != NEWLINE {
      assert SpaceWidth(token[i..]) == 0;
    }
  }

  /** A printed device list parses back as the list. */
  lemma {:induction false} PrintParses(devices: seq<Entry>)
    requires Printable(devices)
    ensures Entries(Print(devices)) == devices
  {
    if devices != [] {
      var e, rest := devices[0], Print(devices[1..]);
      CleanHasNoNewline(e.serial);
      CleanHasNoNewline(e.state);
      var line := e.serial + [TAB] + e.state;
      LineSplits([], line, rest);
      assert Print(devices) == line + [NEWLINE] + rest;
      assert [] + line == line;
      assert Lines(Print(devices)) == [line] + Lines(rest);
      LineParses(e);
      assert ([line] + Lines(rest))[1..] == Lines(rest);
      PrintParses(devices[1..]);
    }
  }

  // ---------------------------------- lines and fields, said without parsing

  /** The lines joined again, a newline between any two. */
  ghost function Joined(lines: seq<Bytes>): Bytes
    requires lines != []
  {
    if |lines| == 1 then lines[0] else lines[0] + [10] + Joined(lines[1..])
  }

  /** The lines of a payload: the stretches without a newline between its newlines and ends. */
  ghost predicate IsLines(payload: Bytes, lines: seq<Bytes>) {
    lines != [] && (forall i :: 0 <= i < |lines| ==> 10 !in lines[i]) && Joined(lines) == payload
  }

  lemma {:induction false} LastLineSplits(seen: Bytes, line: Bytes)
    requires NEWLINE !in line
    ensures SplitFrom(seen, line) == [seen + line]
    decreases |line|
  {
    if line == [] {
      assert seen + line == seen;
    } else {
      LastLineSplits(seen + [line[0]], line[1..]);
      assert seen + [line[0]] + line[1..] == seen + line;
    }
  }

  lemma {:induction false} JoinedSplits(lines: seq<Bytes>)
    requires lines != [] && (forall i :: 0 <= i < |lines| ==> 10 !in lines[i])
    ensures Lines(Joined(lines)) == lines
  {
    if |lines| == 1 {
      LastLineSplits([], lines[0]);
      assert [] + lines[0] == lines[0];
    } else {
      JoinedSplits(lines[1..]);
      LineSplits([], lines[0], Joined(lines[1..]));
      assert [] + lines[0] == lines[0];
      assert lines == [lines[0]] + lines[1..];
    }
  }

  lemma {:induction false} SplitJoins(line: Bytes, s: Bytes)
    requires 10 !in line
    ensures IsLines(line + s, SplitFrom(line, s))
    decreases |s|
  {
    if s == [] {
      assert line + s == line;
    } else if s[0] == NEWLINE {
      SplitJoins([], s[1..]);
      var rest := SplitFrom([], s[1..]);
      assert [] + s[1..] == s[1..];
      assert ([line] + rest)[1..] == rest;
      assert line + s == line + [10] + s[1..];
    } else {
      SplitJoins(line + [s[0]], s[1..]);
      assert line + [s[0]] + s[1..] == line + s;
    }
  }

  /** Splitting yields exactly the lines, with or without a newline at the end. */
  lemma LinesMeaning(payload: Bytes, lines: seq<Bytes>)
    ensures Lines(payload) == lines <==> IsLines(payload, lines)
  {
    SplitJoins([], payload);
    assert [] + payload == payload;
    if IsLines(payload, lines) {
      JoinedSplits(lines);
    }
  }

  /** The white space characters of Unicode. */
  predicate IsSpace(c: int) {
    || 0x09 <= c <= 0x0D || c == 0x20 || c == 0x85 || c == 0xA0 || c == 0x1680 || 0x2000 <= c <= 0x200A
    || c == 0x2028 || c == 0x2029 || c == 0x202F || c == 0x205F || c == 0x3000
  }

  /** A character below U+10000 in UTF-8. */
  function Utf8(c: int): Bytes
    requires 0 <= c < 0x10000
  {
    if c < 0x80 then [c]
    else if c < 0x800 then [0xC0 + c / 64, 0x80 + c % 64]
    else [0xE0 + c / 4096, 0x80 + c / 64 % 64, 0x80 + c % 64]
  }

  /** The text starts with this white space character. */
  predicate SpaceIs(s: Bytes, c: int) {
    IsSpace(c) && Utf8(c) <= s
  }

  ghost predicate StartsWithSpace(s: Bytes) {
    exists c :: SpaceIs(s, c)
  }

  lemma SpaceWidthOf(s: Bytes, c: int)
    requires SpaceIs(s, c)
    ensures SpaceWidth(s) == |Utf8(c)|
  {
    assert forall i :: 0 <= i < |Utf8(c)| ==> s[i] == Utf8(c)[i];
    assert c < 0x80 ==> s[0] == c;
    if c >= 0x80 {
      assert |s| >= 2;
      if c >= 0x800 {
        assert |s| >= 3;
      }
    }
  }

  lemma SpaceFound(s: Bytes) returns (c: int)
    requires SpaceWidth(s) > 0
    ensures SpaceIs(s, c)
  {
    if SpaceWidth(s) == 1 {
      c := s[0];
    } else if SpaceWidth(s) == 2 {
      c := s[1];
      assert s[..2] == [0xC2, s[1]];
      assert Utf8(c) == s[..2];
    } else {
      var b0: int, b1: int, b2: int := s[0], s[1], s[2];
      c := (b0 - 0xE0) * 4096 + (b1 - 0x80) * 64 + (b2 - 0x80);
      assert Utf8(c) == [s[0], s[1], s[2]];
      assert s[..3] == [s[0], s[1], s[2]];
    }
  }

  lemma SpaceMeaning(s: Bytes)
    ensures SpaceWidth(s) > 0 <==> StartsWithSpace(s)
  {
    if SpaceWidth(s) > 0 {
      var c := SpaceFound(s);
    }
    if StartsWithSpace(s) {
      var c :| SpaceIs(s, c);
      SpaceWidthOf(s, c);
    }
  }

  /** White space and nothing else. */
  ghost predicate AllSpace(s: Bytes)
    decreases |s|
  {
    s == [] || exists c :: SpaceIs(s, c) && AllSpace(s[|Utf8(c)|..])
  }

  /** Not empty, and no white space starts in it. */
  ghost predicate NoSpace(token: Bytes) {
    token != [] && forall i :: 0 <= i < |token| ==> !StartsWithSpace(token[i..])
  }

  /** The fields of a text: the stretches without white space between its white space and ends. */
  ghost predicate IsFields(s: Bytes, fields: seq<Bytes>)
    decreases |fields|
  {
    if fields == [] then AllSpace(s)
    else exists gap, rest :: FirstField(s, gap, fields[0], rest) && IsFields(rest, fields[1..])
  }

  /** The text is white space, a field, and the end or more white space. */
  ghost predicate FirstField(s: Bytes, gap: Bytes, field: Bytes, rest: Bytes) {
    && AllSpace(gap) && NoSpace(field) && s == gap + field + rest
    && (rest == [] || StartsWithSpace(rest))
  }

  /** Text after a white space character, or behind a text that starts with one, does not change that. */
  lemma SpaceKept(u: Bytes, v: Bytes)
    requires SpaceWidth(u) > 0
    ensures SpaceWidth(u + v) == SpaceWidth(u)
  {
    var s := u + v;
    assert s[0] == u[0] && (|u| >= 2 ==> s[1] == u[1]) && (|u| >= 3 ==> s[2] == u[2]);
  }

  /** White space cannot begin in one text and end in white space that follows. */
  lemma SpaceNotSplit(u: Bytes, v: Bytes)
    requires u != [] && SpaceWidth(u) == 0 && (v == [] || SpaceWidth(v) > 0)
    ensures SpaceWidth(u + v) == 0
  {
    var s := u + v;
    if v == [] {
      assert s == u;
    } else {
      assert s[0] == u[0] && (|u| >= 2 ==> s[1] == u[1]) && (|u| >= 3 ==> s[2] == u[2]);
      assert |u| == 1 ==> s[1] == v[0];
      assert |u| == 2 ==> s[2] == v[0];
    }
  }

  lemma Suffix(a: Bytes, b: Bytes, w: nat)
    requires w <= |a|
    ensures (a + b)[w..] == a[w..] + b
  {
  }

  lemma {:induction false} GapSkipped(gap: Bytes, rest: Bytes)
    requires AllSpace(gap)
    ensures FieldsFrom([], gap + rest) == FieldsFrom([], rest)
    decreases |gap|
  {
    if gap == [] {
      assert gap + rest == rest;
    } else {
      var c :| SpaceIs(gap, c) && AllSpace(gap[|Utf8(c)|..]);
      var w := |Utf8(c)|;
      SpaceWidthOf(gap, c);
      SpaceKept(gap, rest);
      Suffix(gap, rest, w);
      GapSkipped(gap[w..], rest);
    }
  }

  lemma {:induction false} TokenTaken(seen: Bytes, token: Bytes, rest: Bytes)
    requires forall i :: 0 <= i < |token| ==> SpaceWidth(token[i..]) == 0
    requires rest == [] || SpaceWidth(rest) > 0
    ensures FieldsFrom(seen, token + rest) == NonEmpty(seen + token) + FieldsFrom([], rest)
    decreases |token|
  {
    if token == [] {
      assert token + rest == rest && seen + token == seen;
    } else {
      assert token[0..] == token;
      SpaceNotSplit(token, rest);
      assert (token + rest)[1..] == token[1..] + rest;
      forall i | 0 <= i < |token[1..]| ensures SpaceWidth(token[1..][i..]) == 0 {
        assert token[1..][i..] == token[i + 1..];
      }
      TokenTaken(seen + [token[0]], token[1..], rest);
      assert seen + [token[0]] + token[1..] == seen + token;
    }
  }

  lemma Associates(a: Bytes, b: Bytes, c: Bytes)
    ensures a + b + c == a + (b + c)
  {
  }

  lemma FirstTaken(s: Bytes, gap: Bytes, field: Bytes, rest: Bytes)
    requires FirstField(s, gap, field, rest)
    ensures Fields(s) == [field] + Fields(rest)
  {
    Associates(gap, field, rest);
    GapSkipped(gap, field + rest);
    SpaceMeaning(rest);
    forall i | 0 <= i < |field| ensures SpaceWidth(field[i..]) == 0 {
      SpaceMeaning(field[i..]);
    }
    TokenTaken([], field, rest);
    assert [] + field == field;
  }

  lemma OnlyGap(s: Bytes)
    requires AllSpace(s)
    ensures Fields(s) == []
  {
    GapSkipped(s, []);
    assert s + [] == s;
  }

  lemma {:induction false} FieldsOfParts(s: Bytes, fields: seq<Bytes>)
    requires IsFields(s, fields)
    ensures Fields(s) == fields
    decreases |fields|
  {
    if fields == [] {
      OnlyGap(s);
    } else {
      var gap, rest :| FirstField(s, gap, fields[0], rest) && IsFields(rest, fields[1..]);
      FirstTaken(s, gap, fields[0], rest);
      FieldsOfParts(rest, fields[1..]);
    }
  }

  lemma GapGrows(s: Bytes, gap: Bytes, c: int)
    requires SpaceIs(s, c) && AllSpace(gap)
    ensures AllSpace(s[..|Utf8(c)|] + gap)
  {
    var w := |Utf8(c)|;
    var all := s[..w] + gap;
    assert all[w..] == gap && all[..w] == Utf8(c);
    assert SpaceIs(all, c);
  }

  lemma FirstFieldSpaced(s: Bytes, w: nat, gap: Bytes, field: Bytes, rest: Bytes, c: int)
    requires SpaceIs(s, c) && w == |Utf8(c)| && FirstField(s[w..], gap, field, rest)
    ensures FirstField(s, s[..w] + gap, field, rest)
  {
    GapGrows(s, gap, c);
    PrefixMoves(s, w, gap, field, rest);
  }

  lemma PrefixMoves(s: Bytes, w: nat, a: Bytes, b: Bytes, c: Bytes)
    requires w <= |s| && s[w..] == a + b + c
    ensures s == s[..w] + a + b + c
  {
    assert s == s[..w] + s[w..];
  }

  /** White space in front belongs to the first gap. */
  lemma SpaceInFront(s: Bytes, fields: seq<Bytes>, w: nat)
    requires w == SpaceWidth(s) && w > 0 && IsFields(s[w..], fields)
    ensures IsFields(s, fields)
  {
    var c := SpaceFound(s);
    SpaceWidthOf(s, c);
    if fields != [] {
      var gap, rest :| FirstField(s[w..], gap, fields[0], rest) && IsFields(rest, fields[1..]);
      FirstFieldSpaced(s, w, gap, fields[0], rest, c);
    }
  }

  /** A token in front, followed by white space or the end, is the first field. */
  lemma TokenInFront(token: Bytes, rest: Bytes, fields: seq<Bytes>)
    requires NoSpace(token) && (rest == [] || StartsWithSpace(rest)) && IsFields(rest, fields)
    ensures IsFields(token + rest, [token] + fields)
  {
    var all := [token] + fields;
    assert all[1..] == fields && all[0] == token;
    assert token + rest == [] + token + rest;
    assert FirstField(token + rest, [], all[0], rest) && IsFields(rest, all[1..]);
  }

  /** No white space starts in `seen`, whatever of `s` follows it. */
  ghost predicate Unspaced(seen: Bytes, s: Bytes) {
    forall i :: 0 <= i < |seen| ==> SpaceWidth((seen + s)[i..]) == 0
  }

  lemma UnspacedToken(seen: Bytes, s: Bytes)
    requires Unspaced(seen, s) && seen != []
    ensures NoSpace(seen)
  {
    forall i | 0 <= i < |seen| ensures !StartsWithSpace(seen[i..]) {
      SpaceMeaning(seen[i..]);
      assert (seen + s)[i..] == seen[i..] + s;
      if SpaceWidth(seen[i..]) > 0 {
        SpaceKept(seen[i..], s);
      }
    }
  }

  lemma {:induction false} ScanYieldsFields(seen: Bytes, s: Bytes)
    requires Unspaced(seen, s)
    ensures IsFields(seen + s, FieldsFrom(seen, s))
    decreases |s|
  {
    if s == [] {
      assert seen + s == seen;
      assert AllSpace([]) && IsFields([], []);
      if seen != [] {
        UnspacedToken(seen, s);
        TokenInFront(seen, [], []);
        assert [seen] + [] == [seen];
      }
    } else if SpaceWidth(s) > 0 {
      var w := SpaceWidth(s);
      ScanYieldsFields([], s[w..]);
      assert [] + s[w..] == s[w..];
      SpaceInFront(s, FieldsFrom([], s[w..]), w);
      if seen != [] {
        UnspacedToken(seen, s);
        SpaceMeaning(s);
        TokenInFront(seen, s, FieldsFrom([], s[w..]));
      } else {
        assert seen + s == s && NonEmpty(seen) + FieldsFrom([], s[w..]) == FieldsFrom([], s[w..]);
      }
    } else {
      var seen' := seen + [s[0]];
      assert seen' + s[1..] == seen + s;
      assert (seen + s)[|seen|..] == s;
      ScanYieldsFields(seen', s[1..]);
    }
  }

  /** Scanning yields exactly the fields. */
  lemma FieldsMeaning(s: Bytes, fields: seq<Bytes>)
    ensures Fields(s) == fields <==> IsFields(s, fields)
  {
    ScanYieldsFields([], s);
    assert [] + s == s;
    if IsFields(s, fields) {
      FieldsOfParts(s, fields);
    }
  }

  /** The line has at least two fields, and the first two are these. */
  ghost predicate Says(line: Bytes, serial: Serial, state: Bytes) {
    exists fields :: IsFields(line, fields) && |fields| >= 2 && fields[0] == serial && fields[1] == state
  }

  lemma SaysMeaning(line: Bytes, serial: Serial, state: Bytes)
    ensures Says(line, serial, state) <==> ParseLine(line) == [Entry(serial, state)]
  {
    FieldsMeaning(line, Fields(line));
    if Says(line, serial, state) {
      var fields :| IsFields(line, fields) && |fields| >= 2 && fields[0] == serial && fields[1] == state;
      FieldsMeaning(line, fields);
    }
  }

  // ----------------------------------------------------------------- events

  datatype Event = Online(serial: Serial) | Offline(serial: Serial)

  /** The set of devices after the events. */
  function Apply(active: set<Serial>, events: seq<Event>): set<Serial> {
    if events == [] then active
    else
      var before, e := Apply(active, events[..|events| - 1]), events[|events| - 1];
      if e.Online? then before + {e.serial} else before - {e.serial}
  }

  /** Every event changes the set: only absent devices come online, only present ones go offline. */
  ghost predicate Genuine(active: set<Serial>, events: seq<Event>) {
    events != [] ==>
      var before, e := Apply(active, events[..|events| - 1]), events[|events| - 1];
      && Genuine(active, events[..|events| - 1])
      && (e.Online? <==> e.serial !in before)
  }

  lemma {:induction false} ApplyConcat(active: set<Serial>, xs: seq<Event>, ys: seq<Event>)
    ensures Apply(active, xs + ys) == Apply(Apply(active, xs), ys)
    ensures Genuine(active, xs) && Genuine(Apply(active, xs), ys) ==> Genuine(active, xs + ys)
  {
    if ys == [] {
      assert xs + ys == xs;
    } else {
      assert (xs + ys)[..|xs + ys| - 1] == xs + ys[..|ys| - 1];
      ApplyConcat(active, xs, ys[..|ys| - 1]);
    }
  }

  lemma ApplyAppend(active: set<Serial>, events: seq<Event>, e: Event)
    ensures Apply(active, events + [e])
            == if e.Online? then Apply(active, events) + {e.serial} else Apply(active, events) - {e.serial}
    ensures Genuine(active, events) && (e.Online? <==> e.serial !in Apply(active, events))
            ==> Genuine(active, events + [e])
  {
    assert (events + [e])[..|events|] == events;
  }

  /** The events of one device. */
  function Of(serial: Serial, events: seq<Event>): seq<Event> {
    if events == [] then []
    else
      var init, e := Of(serial, events[..|events| - 1]), events[|events| - 1];
      if e.serial == serial then init + [e] else init
  }

  /** Genuine events of a device alternate, starting with online. */
  lemma {:induction false} GenuineAlternates(events: seq<Event>, serial: Serial)
    requires Genuine({}, events)
    ensures forall i :: 0 <= i < |Of(serial, events)| ==>
              Of(serial, events)[i] == if i % 2 == 0 then Online(serial) else Offline(serial)
    ensures serial in Apply({}, events) <==> |Of(serial, events)| % 2 == 1
  {
    if events != [] {
      GenuineAlternates(events[..|events| - 1], serial);
    }
  }

  // ------------------------------------------------------------ one payload

  /** What the last line about a device says. */
  function LastState(entries: seq<Entry>, serial: Serial): Option<Bytes> {
    if entries == [] then None
    else if entries[|entries| - 1].serial == serial then Some(entries[|entries| - 1].state)
    else LastState(entries[..|entries| - 1], serial)
  }

  /** The devices whose last line says "device". */
  function OnlineSet(entries: seq<Entry>): set<Serial> {
    set i | 0 <= i < |entries| && LastState(entries, entries[i].serial) == Some(DEVICE) :: entries[i].serial
  }

  lemma {:induction false} LastStateMember(entries: seq<Entry>, serial: Serial)
    requires LastState(entries, serial).Some?
    ensures exists i :: 0 <= i < |entries| && entries[i].serial == serial
  {
    if entries[|entries| - 1].serial != serial {
      LastStateMember(entries[..|entries| - 1], serial);
    }
  }

  lemma OnlineSetMeaning(entries: seq<Entry>, serial: Serial)
    ensures serial in OnlineSet(entries) <==> LastState(entries, serial) == Some(DEVICE)
  {
    if LastState(entries, serial) == Some(DEVICE) {
      LastStateMember(entries, serial);
    }
  }

  lemma {:induction false} LastStateConcat(a: seq<Entry>, b: seq<Entry>, serial: Serial)
    ensures LastState(a + b, serial)
            == if LastState(b, serial).Some? then LastState(b, serial) else LastState(a, serial)
  {
    if b == [] {
      assert a + b == a;
    } else {
      assert (a + b)[..|a + b| - 1] == a + b[..|b| - 1];
      LastStateConcat(a, b[..|b| - 1], serial);
    }
  }

  /** The last of these lines that is about the device says this state of it. */
  ghost predicate LastSays(lines: seq<Bytes>, serial: Serial, state: Bytes) {
    exists i :: 0 <= i < |lines| && Says(lines[i], serial, state) && SilentAfter(lines, i, serial)
  }

  ghost predicate SilentAfter(lines: seq<Bytes>, i: int, serial: Serial) {
    forall j, state :: 0 <= j && i < j < |lines| ==> !Says(lines[j], serial, state)
  }

  lemma LineState(line: Bytes, serial: Serial)
    ensures forall state :: Says(line, serial, state) <==> LastState(ParseLine(line), serial) == Some(state)
  {
    var entries := ParseLine(line);
    assert entries == [] || entries[..0] == [];
    forall state ensures Says(line, serial, state) <==> LastState(entries, serial) == Some(state) {
      SaysMeaning(line, serial, state);
    }
  }

  lemma {:induction false} LinesState(lines: seq<Bytes>, serial: Serial, state: Bytes)
    ensures LastState(ParseLines(lines), serial) == Some(state) <==> LastSays(lines, serial, state)
    ensures LastState(ParseLines(lines), serial).None? <==> SilentAfter(lines, -1, serial)
  {
    if lines != [] {
      var rest := lines[1..];
      LinesState(rest, serial, state);
      LineState(lines[0], serial);
      LastStateConcat(ParseLine(lines[0]), ParseLines(rest), serial);
      FirstLine(lines, serial, state);
    }
  }

  /** How the first line matters to the last word. */
  lemma FirstLine(lines: seq<Bytes>, serial: Serial, state: Bytes)
    requires lines != []
    ensures SilentAfter(lines, -1, serial)
            <==> SilentAfter(lines[1..], -1, serial) && forall st :: !Says(lines[0], serial, st)
    ensures LastSays(lines, serial, state)
            <==> LastSays(lines[1..], serial, state)
                 || (Says(lines[0], serial, state) && SilentAfter(lines[1..], -1, serial))
  {
    var rest := lines[1..];
    assert forall j :: 0 <= j < |rest| ==> rest[j] == lines[j + 1];
    assert forall j :: 0 < j < |lines| ==> lines[j] == rest[j - 1];
    forall i | -1 <= i < |rest| ensures SilentAfter(rest, i, serial) <==> SilentAfter(lines, i + 1, serial) {
      SilentShift(lines, i, serial);
    }
    if LastSays(rest, serial, state) {
      var i :| 0 <= i < |rest| && Says(rest[i], serial, state) && SilentAfter(rest, i, serial);
      assert Says(lines[i + 1], serial, state) && SilentAfter(lines, i + 1, serial);
    }
    if LastSays(lines, serial, state) {
      var i :| 0 <= i < |lines| && Says(lines[i], serial, state) && SilentAfter(lines, i, serial);
      if i > 0 {
        assert Says(rest[i - 1], serial, state) && SilentAfter(rest, i - 1, serial);
      }
    }
  }

  lemma SilentShift(lines: seq<Bytes>, i: int, serial: Serial)
    requires lines != [] && -1 <= i < |lines| - 1
    ensures SilentAfter(lines[1..], i, serial) <==> SilentAfter(lines, i + 1, serial)
  {
    var rest := lines[1..];
    if SilentAfter(rest, i, serial) {
      forall j, state | i + 1 < j < |lines| ensures !Says(lines[j], serial, state) {
        assert lines[j] == rest[j - 1];
      }
    }
    if SilentAfter(lines, i + 1, serial) {
      forall j, state | i < j < |rest| ensures !Says(rest[j], serial, state) {
        assert rest[j] == lines[j + 1];
      }
    }
  }

  /** For every payload, whatever its bytes: a device is online exactly if the last line about it, among
      those with at least two fields, has the word "device" as its second field. */
  lemma OnlineMeaning(payload: Bytes, lines: seq<Bytes>, serial: Serial)
    requires IsLines(payload, lines)
    ensures serial in OnlineSet(Entries(payload))
            <==> LastSays(lines, serial, [100, 101, 118, 105, 99, 101])
  {
    LinesMeaning(payload, lines);
    OnlineSetMeaning(Entries(payload), serial);
    LinesState(lines, serial, DEVICE);
  }

  lemma OnlineLines(payload: Bytes)
    ensures forall lines, serial :: IsLines(payload, lines) ==>
              (serial in OnlineSet(Entries(payload)) <==> LastSays(lines, serial, [100, 101, 118, 105, 99, 101]))
  {
    forall lines, serial | IsLines(payload, lines)
      ensures serial in OnlineSet(Entries(payload)) <==> LastSays(lines, serial, [100, 101, 118, 105, 99, 101])
    {
      OnlineMeaning(payload, lines, serial);
    }
  }

  /** The newest of some payloads. */
  function Newest(payloads: seq<Bytes>): Bytes
    requires payloads != []
  {
    payloads[|payloads| - 1]
  }

  /** The active set after the lines alone. */
  function AfterLines(active: set<Serial>, entries: seq<Entry>): set<Serial> {
    if entries == [] then active
    else
      var before, e := AfterLines(active, entries[..|entries| - 1]), entries[|entries| - 1];
      if e.state == DEVICE then before + {e.serial} else before - {e.serial}
  }

  /** The devices some line of the payload reports as online. */
  function Listed(entries: seq<Entry>): set<Serial> {
    if entries == [] then {}
    else
      var before, e := Listed(entries[..|entries| - 1]), entries[|entries| - 1];
      if e.state == DEVICE then before + {e.serial} else before
  }

  lemma OneLineMore(active: set<Serial>, entries: seq<Entry>, i: nat)
    requires i < |entries|
    ensures var e, before := entries[i], AfterLines(active, entries[..i]);
            AfterLines(active, entries[..i + 1]) == if e.state == DEVICE then before + {e.serial} else before - {e.serial}
    ensures var e, before := entries[i], Listed(entries[..i]);
            Listed(entries[..i + 1]) == if e.state == DEVICE then before + {e.serial} else before
  {
    assert entries[..i + 1][..i] == entries[..i];
  }

  /** The lines followed by the sweep leave the devices whose last line says "device". */
  lemma {:induction false} LinesThenSweep(active: set<Serial>, entries: seq<Entry>, serial: Serial)
    ensures serial in AfterLines(active, entries) * Listed(entries) <==> LastState(entries, serial) == Some(DEVICE)
    ensures LastState(entries, serial).None? ==> serial !in Listed(entries)
  {
    if entries != [] {
      LinesThenSweep(active, entries[..|entries| - 1], serial);
    }
  }

  lemma SweptIsOnline(active: set<Serial>, entries: seq<Entry>)
    ensures AfterLines(active, entries) * Listed(entries) == OnlineSet(entries)
  {
    forall s ensures s in AfterLines(active, entries) * Listed(entries) <==> s in OnlineSet(entries) {
      OnlineSetMeaning(entries, s);
      LinesThenSweep(active, entries, s);
    }
  }

  /** The tracker's maps hold only true, so they are sets here; `out` is what it has emitted. */
  class DeviceTracker {
    var activeDevices: set<Serial>
    var out: seq<Event>

    constructor ()
      ensures activeDevices == {} && out == []
    {
      activeDevices, out := {}, [];
    }

    /** One line: a device line brings its device online, any other takes it offline. */
    method HandleLine(e: Entry) returns (ghost events: seq<Event>)
      modifies this
      ensures activeDevices == if e.state == DEVICE then old(activeDevices) + {e.serial} else old(activeDevices) - {e.serial}
      ensures out == old(out) + events
      ensures Genuine(old(activeDevices), events) && Apply(old(activeDevices), events) == activeDevices
    {
      events := [];
      if e.state == DEVICE {
        if e.serial !in activeDevices {
          activeDevices := activeDevices + {e.serial};
          events := [Online(e.serial)];
          out := out + [Online(e.serial)];
        }
      } else if e.serial in activeDevices {
        activeDevices := activeDevices - {e.serial};
        events := [Offline(e.serial)];
        out := out + [Offline(e.serial)];
      }
      assert events != [] ==> events[..0] == [];
    }

    /** The lines in order, collecting the devices reported as online. */
    method HandleLines(entries: seq<Entry>) returns (current: set<Serial>, ghost events: seq<Event>)
      modifies this
      ensures current == Listed(entries) && activeDevices == AfterLines(old(activeDevices), entries)
      ensures out == old(out) + events
      ensures Genuine(old(activeDevices), events) && Apply(old(activeDevices), events) == activeDevices
    {
      current, events := {}, [];
      var i := 0;
      while i < |entries|
        invariant 0 <= i <= |entries|
        invariant current == Listed(entries[..i])
        invariant activeDevices == AfterLines(old(activeDevices), entries[..i])
        invariant out == old(out) + events
        invariant Genuine(old(activeDevices), events)
        invariant Apply(old(activeDevices), events) == activeDevices
      {
        OneLineMore(old(activeDevices), entries, i);
        if entries[i].state == DEVICE {
          current := current + {entries[i].serial};
        }
        ghost var more := HandleLine(entries[i]);
        ApplyConcat(old(activeDevices), events, more);
        events := events + more;
        i := i + 1;
      }
      assert entries[..i] == entries;
    }

    /** Devices the payload did not list go offline, in whatever order the map yields them. */
    method Sweep(current: set<Serial>) returns (ghost events: seq<Event>)
      modifies this
      ensures activeDevices == old(activeDevices) * current
      ensures out == old(out) + events
      ensures Genuine(old(activeDevices), events) && Apply(old(activeDevices), events) == activeDevices
    {
      var todo := activeDevices;
      events := [];
      while todo != {}
        invariant todo <= activeDevices && todo <= old(activeDevices)
        invariant activeDevices == todo + (old(activeDevices) - todo) * current
        invariant out == old(out) + events
        invariant Genuine(old(activeDevices), events)
        invariant Apply(old(activeDevices), events) == activeDevices
        decreases todo
      {
        var serial :| serial in todo;
        if serial !in current {
          ApplyAppend(old(activeDevices), events, Offline(serial));
          events := events + [Offline(serial)];
          activeDevices := activeDevices - {serial};
          out := out + [Offline(serial)];
        }
        todo := todo - {serial};
      }
    }

    /** The entries of one payload. */
    method HandleEntries(entries: seq<Entry>) returns (ghost events: seq<Event>)
      modifies this
      ensures activeDevices == OnlineSet(entries)
      ensures out == old(out) + events
      ensures Emits(old(activeDevices), entries, events)
    {
      var current;
      ghost var lines, sweep;
      current, lines := HandleLines(entries);
      sweep := Sweep(current);
      events := lines + sweep;
      ApplyConcat(old(activeDevices), lines, sweep);
      SweptIsOnline(old(activeDevices), entries);
      assert out == old(out) + events;
    }

    /** One payload: afterwards exactly the devices whose last well-formed line says "device" are
        active, and the events emitted turn the old set into the new one, each by a real change. */
    method HandlePayload(payload: Bytes) returns (ghost events: seq<Event>)
      modifies this
      ensures activeDevices == OnlineSet(Entries(payload))
      ensures forall lines, serial :: IsLines(payload, lines) ==>
                (serial in activeDevices <==> LastSays(lines, serial, [100, 101, 118, 105, 99, 101]))
      ensures out == old(out) + events
      ensures Emits(old(activeDevices), Entries(payload), events)
    {
      events := HandleEntries(Entries(payload));
      OnlineLines(payload);
    }

    /** The stream so far: `payloads` have been read of `all`, and have led to `events`. */
    ghost predicate Tracked(conn: Connection, all: seq<Bytes>, before: seq<Event>,
                            payloads: seq<Bytes>, events: seq<seq<Event>>)
      reads this, conn
    {
      && conn.Valid() && payloads + ReadAll(conn.Unread()) == all
      && IsRun(payloads, events) && activeDevices == ActiveAfter(payloads)
      && out == before + Flatten(events)
    }

    /** One turn of the tracking loop: reads a frame and handles its payload, or finds the stream
        ended or malformed. The ghost arguments are what happened on the stream before. */
    method TrackNext(conn: Connection, ghost all: seq<Bytes>, ghost before: seq<Event>,
                     ghost payloads: seq<Bytes>, ghost events: seq<seq<Event>>)
      returns (payload: Option<Bytes>, ghost more: seq<Event>)
      requires Tracked(conn, all, before, payloads, events)
      modifies this, conn
      ensures payload.Some? ==>
                && Tracked(conn, all, before, payloads + [payload.value], events + [more])
                && conn.pos > old(conn.pos)
      ensures payload.None? ==>
                payloads == all && out == old(out) && activeDevices == old(activeDevices)
    {
      more := [];
      payload := conn.TakeNext(all, payloads);
      if payload.Some? {
        more := HandlePayload(payload.value);
        RunGrows(payloads, events, payload.value, more);
        Regrouped(before, Flatten(events), more);
      }
    }

    /** The tracking goroutine on one stream: it reads frame after frame until the stream ends or turns
        malformed, and handles each payload. What it emits is a run in the sense of `SnapshotDiff`. */
    method TrackStream(conn: Connection) returns (ghost events: seq<seq<Event>>)
      requires conn.Valid() && activeDevices == {}
      modifies this, conn
      ensures IsRun(ReadAll(old(conn.Unread())), events)
      ensures out == old(out) + Flatten(events)
      ensures activeDevices == ActiveAfter(ReadAll(old(conn.Unread())))
      ensures forall lines, serial ::
                ReadAll(old(conn.Unread())) != [] && IsLines(Newest(ReadAll(old(conn.Unread()))), lines) ==>
                  (serial in activeDevices <==> LastSays(lines, serial, [100, 101, 118, 105, 99, 101]))
    {
      ghost var all, payloads := ReadAll(conn.Unread()), [];
      events := [];
      while true
        invariant Tracked(conn, all, old(out), payloads, events)
        decreases |conn.data| - conn.pos
      {
        ghost var more;
        var payload;
        payload, more := TrackNext(conn, all, old(out), payloads, events);
        if payload.None? {
          if all != [] {
            OnlineLines(Newest(all));
          }
          return;
        }
        payloads, events := payloads + [payload.value], events + [more];
      }
    }
  }

  lemma Regrouped(a: seq<Event>, b: seq<Event>, c: seq<Event>)
    ensures (a + b) + c == a + (b + c)
  {
  }

  lemma RunGrows(payloads: seq<Bytes>, events: seq<seq<Event>>, payload: Bytes, more: seq<Event>)
    requires IsRun(payloads, events) && Emits(ActiveAfter(payloads), Entries(payload), more)
    ensures IsRun(payloads + [payload], events + [more])
    ensures Flatten(events + [more]) == Flatten(events) + more
    ensures ActiveAfter(payloads + [payload]) == OnlineSet(Entries(payload))
  {
    var payloads', events' := payloads + [payload], events + [more];
    assert payloads'[..|payloads|] == payloads && events'[..|events|] == events;
  }

  // ------------------------------------------------------- runs of payloads

  /** Events that a tracker with these active devices may emit for these entries. */
  ghost predicate Emits(active: set<Serial>, entries: seq<Entry>, events: seq<Event>) {
    Genuine(active, events) && Apply(active, events) == OnlineSet(entries)
  }

  /** The active set after a run of payloads on one stream. */
  function ActiveAfter(payloads: seq<Bytes>): set<Serial> {
    if payloads == [] then {} else OnlineSet(Entries(Newest(payloads)))
  }

  /** `events[i]` is what payload `i` made the tracker of one stream emit. */
  ghost predicate IsRun(payloads: seq<Bytes>, events: seq<seq<Event>>) {
    && |payloads| == |events|
    && (payloads != [] ==>
          var n := |payloads| - 1;
          && IsRun(payloads[..n], events[..n])
          && Emits(ActiveAfter(payloads[..n]), Entries(payloads[n]), events[n]))
  }

  function Flatten(events: seq<seq<Event>>): seq<Event> {
    if events == [] then [] else Flatten(events[..|events| - 1]) + events[|events| - 1]
  }

  /** Snapshot diff, for every run of payloads, repeated and malformed lines included: all events
      together turn the empty set into the devices whose last well-formed line in the newest payload
      says "device", and the events of each device strictly alternate, starting with online. */
  lemma {:induction false} SnapshotDiff(payloads: seq<Bytes>, events: seq<seq<Event>>, serial: Serial)
    requires IsRun(payloads, events)
    ensures Genuine({}, Flatten(events))
    ensures Apply({}, Flatten(events)) == ActiveAfter(payloads)
    ensures payloads != [] ==>
              (serial in ActiveAfter(payloads) <==>
                 LastState(Entries(payloads[|payloads| - 1]), serial) == Some(DEVICE))
    ensures var mine := Of(serial, Flatten(events));
            forall i :: 0 <= i < |mine| ==> mine[i] == if i % 2 == 0 then Online(serial) else Offline(serial)
  {
    if payloads != [] {
      var n := |payloads| - 1;
      SnapshotDiff(payloads[..n], events[..n], serial);
      ApplyConcat({}, Flatten(events[..n]), events[n]);
      OnlineSetMeaning(Entries(payloads[n]), serial);
    }
    GenuineAlternates(Flatten(events), serial);
  }

  /** From bytes to devices: whatever lists of devices a server prints and frames after its OKAY, the
      reader gets exactly those lists, in order. */
  lemma WireToDevices(snapshots: seq<seq<Entry>>, payloads: seq<Bytes>)
    requires |payloads| == |snapshots| && Sendable(payloads)
    requires forall i :: 0 <= i < |snapshots| ==> Printable(snapshots[i]) && payloads[i] == Print(snapshots[i])
    ensures var read := ReadAll(CheckOkay(Respond(Okay) + Frames(payloads)).1);
            && |read| == |snapshots|
            && (forall i :: 0 <= i < |read| ==> Entries(read[i]) == snapshots[i])
            && (snapshots != [] ==> ActiveAfter(read) == OnlineSet(snapshots[|snapshots| - 1]))
  {
    HandshakeThenFrames(payloads);
    forall i | 0 <= i < |payloads| ensures Entries(payloads[i]) == snapshots[i] {
      PrintParses(snapshots[i]);
    }
  }
}
