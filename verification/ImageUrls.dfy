/** Images as data URLs: built by the artwork and icon extractors, taken apart again by the
    ConnectRPC server. A data URL is "data:" media type ";base64," text (section 3 of RFC 2397). */
module ImageUrls {
  import opened Prelude
  import opened Base64
  import opened MediaPlayers

  // --------------------------------------------------------------- strings

  predicate HasPrefix(s: string, p: string) {
    |p| <= |s| && s[..|p|] == p
  }

  predicate Contains(s: string, sub: string) {
    HasPrefix(s, sub) || (s != "" && Contains(s[1..], sub))
  }

  /** The position of the first comma, or the length when there is none. */
  function FirstComma(s: string): (n: nat)
    ensures n <= |s| && ',' !in s[..n] && (n < |s| ==> s[n] == ',')
  {
    if s == "" || s[0] == ',' then 0
    else
      var n := FirstComma(s[1..]);
      assert s[..n + 1] == [s[0]] + s[1..][..n];
      n + 1
  }

  lemma {:induction false} ContainsAt(before: string, sub: string, after: string)
    ensures Contains(before + sub + after, sub)
  {
    var s := before + sub + after;
    if before == "" {
      assert s[..|sub|] == sub;
    } else {
      assert s[1..] == before[1..] + sub + after;
      ContainsAt(before[1..], sub, after);
    }
  }

  lemma {:induction false} FirstCommaAt(before: string, after: string)
    requires ',' !in before
    ensures FirstComma(before + "," + after) == |before|
  {
    var s := before + "," + after;
    if before != "" {
      assert s[1..] == before[1..] + "," + after;
      FirstCommaAt(before[1..], after);
    }
  }

  // --------------------------------------------------------------- building

  datatype Extractor = Artwork | Icon

  /** The media type for a lower-cased file extension; the icon extractor knows fewer. */
  function MediaType(x: Extractor, ext: string): (t: string)
    ensures ',' !in t
  {
    if ext == ".png" then "image/png"
    else if ext == ".jpg" || ext == ".jpeg" then "image/jpeg"
    else if ext == ".svg" then "image/svg+xml"
    else if x.Artwork? && ext == ".gif" then "image/gif"
    else if x.Artwork? && ext == ".webp" then "image/webp"
    else "image/png"
  }

  /** The media types both extractors know. */
  const COMMON_TYPES: map<string, string> :=
    map[".png" := "image/png", ".jpg" := "image/jpeg", ".jpeg" := "image/jpeg", ".svg" := "image/svg+xml"]

  /** Those the artwork extractor knows. */
  const ARTWORK_TYPES: map<string, string> := COMMON_TYPES[".gif" := "image/gif"][".webp" := "image/webp"]

  /** A file has the media type of its extension, and that of a PNG image if the extension is unknown. */
  lemma MediaTypeMeaning(x: Extractor, ext: string)
    ensures var types := if x.Artwork? then ARTWORK_TYPES else COMMON_TYPES;
            MediaType(x, ext) == if ext in types then types[ext] else "image/png"
  {
  }

  function DataUrl(x: Extractor, ext: string, data: seq<byte>): (url: string)
    ensures url != ""
  {
    "data:" + MediaType(x, ext) + ";base64," + Encode(data)
  }

  // ----------------------------------------------------------- taking apart

  /** What a client is sent: raw bytes, or a URL to fetch itself. */
  datatype Image = Image(raw: Option<seq<byte>>, url: string)

  function DecodeBase64Image(dataUrl: string): Image {
    if dataUrl == "" then Image(None, "")
    else if !HasPrefix(dataUrl, "data:") then Image(None, dataUrl)
    else
      var comma := FirstComma(dataUrl);
      if comma == |dataUrl| then Image(None, dataUrl)
      else if !Contains(dataUrl[..comma], ";base64") then Image(None, dataUrl)
      else
        var decoded := Decode(dataUrl[comma + 1..]);
        if decoded.None? then Image(None, dataUrl) else Image(decoded, "")
  }

  /** A Base64 data URL of any media type without a comma decodes to its bytes. */
  lemma InlineDecodes(mediaType: string, data: seq<byte>)
    requires ',' !in mediaType
    ensures DecodeBase64Image("data:" + mediaType + ";base64," + Encode(data)) == Image(Some(data), "")
  {
    var header := "data:" + mediaType + ";base64";
    var url := "data:" + mediaType + ";base64," + Encode(data);
    assert url == header + "," + Encode(data);
    assert HasPrefix(url, "data:");
    FirstCommaAt(header, Encode(data));
    assert url[..|header|] == header && url[|header| + 1..] == Encode(data);
    ContainsAt("data:" + mediaType, ";base64", "");
    assert "data:" + mediaType + ";base64" + "" == header;
    DecodeEncode(data);
  }

  /** Image transport round trip: for every byte string and extension, the server turns the data URL
      built by either extractor back into the bytes, and clears the URL. */
  lemma TransportRoundTrip(x: Extractor, ext: string, data: seq<byte>)
    ensures DecodeBase64Image(DataUrl(x, ext, data)) == Image(Some(data), "")
  {
    InlineDecodes(MediaType(x, ext), data);
  }

  /** Every other string keeps its URL and carries no bytes; and bytes come out exactly for data URLs
      that are marked as Base64 before their first comma and decode after it. */
  lemma BytesOrUrl(dataUrl: string)
    ensures var r, comma := DecodeBase64Image(dataUrl), FirstComma(dataUrl);
            && (r.raw.None? ==> r.url == dataUrl)
            && (r.raw.Some? ==> r.url == "")
            && (r.raw.Some? <==> Inline(dataUrl))
  {
    assert dataUrl == "" ==> !HasPrefix(dataUrl, "data:");
  }

  predicate Inline(url: string) {
    var comma := FirstComma(url);
    && HasPrefix(url, "data:") && comma < |url|
    && Contains(url[..comma], ";base64")
    && Decode(url[comma + 1..]).Some?
  }

  lemma {:induction false} ContainsMeaning(s: string, sub: string)
    ensures Contains(s, sub) <==> exists i :: OccursAt(s, sub, i)
  {
    if HasPrefix(s, sub) {
      assert OccursAt(s, sub, 0);
    }
    if s != "" {
      ContainsMeaning(s[1..], sub);
      if i :| OccursAt(s[1..], sub, i) {
        assert OccursAt(s, sub, i + 1);
      }
      if i :| OccursAt(s, sub, i) {
        if i > 0 {
          assert OccursAt(s[1..], sub, i - 1);
        }
      }
    }
  }

  predicate OccursAt(s: string, sub: string, i: int) {
    0 <= i && i + |sub| <= |s| && s[i..i + |sub|] == sub
  }

  /** The string is a data URL marked as Base64: "data:" at its start, the marker somewhere before its first
      comma, and the body after that. */
  ghost predicate IsInline(url: string, header: string, body: string) {
    && url == header + "," + body && ',' !in header && "data:" <= header
    && exists i :: OccursAt(header, ";base64", i)
  }

  lemma HeaderOf(url: string, header: string, body: string)
    requires url == header + "," + body && ',' !in header
    ensures FirstComma(url) == |header| && url[..|header|] == header && url[|header| + 1..] == body
    ensures HasPrefix(url, "data:") <==> "data:" <= header
  {
    FirstCommaAt(header, body);
    assert "data:"[0] != ',' && "data:"[1] != ',' && "data:"[2] != ',' && "data:"[3] != ',' && "data:"[4] != ',';
    assert url[|header|] == ',';
    assert HasPrefix(url, "data:") ==> forall i :: 0 <= i < 5 ==> url[i] == url[..5][i] == "data:"[i];
  }

  /** For every string: bytes come out exactly for an inline URL whose body decodes, and they are what the
      body decodes to. */
  lemma InlineMeaning(url: string, header: string, body: string)
    requires url == header + "," + body && ',' !in header
    ensures IsInline(url, header, body) && Decode(body).Some? ==> DecodeBase64Image(url) == Image(Decode(body), "")
    ensures !(IsInline(url, header, body) && Decode(body).Some?) ==> DecodeBase64Image(url) == Image(None, url)
  {
    HeaderOf(url, header, body);
    ContainsMeaning(header, ";base64");
  }

  /** And a string without a comma keeps its URL. */
  lemma NoCommaKept(url: string)
    requires ',' !in url
    ensures DecodeBase64Image(url) == Image(None, url)
  {
    assert FirstComma(url) == |url|;
  }

  // -------------------------------------------------- the artwork cache

  /** What the file system answers: no readable file, or its bytes. */
  datatype File = Unreadable | Contents(data: seq<byte>)

  /** The largest file each extractor inlines, in bytes. */
  function SizeCap(x: Extractor): nat {
    if x.Artwork? then 2097152 else 153600
  }

  predicate Usable(x: Extractor, file: File) {
    file.Contents? && |file.data| <= SizeCap(x)
  }

  /** A call of the artwork extractor: a URL that is not local, or a cleaned local path. Only the
      goroutine that handles media signals calls it, so its calls do not overlap. */
  datatype Request = Remote(url: string) | Local(path: string, ext: string, file: File)

  function Answer(cache: map<string, string>, r: Request): string {
    match r
    case Remote(url) => url
    case Local(path, ext, file) =>
      if path in cache then cache[path]
      else if !Usable(Artwork, file) then ""
      else DataUrl(Artwork, ext, file.data)
  }

  function Remember(cache: map<string, string>, r: Request): map<string, string> {
    if r.Local? && r.path !in cache && Usable(Artwork, r.file)
    then cache[r.path := DataUrl(Artwork, r.ext, r.file.data)]
    else cache
  }

  /** The extractor object. */
  class ArtworkExtractor {
    var cache: map<string, string>

    constructor ()
      ensures cache == map[]
    {
      cache := map[];
    }

    method Extract(r: Request) returns (url: string)
      modifies this
      ensures url == Answer(old(cache), r)
      ensures cache == Remember(old(cache), r)
      ensures r.Remote? ==> url == r.url && cache == old(cache)
      ensures r.Local? && r.path in old(cache) ==> url == old(cache)[r.path] && cache == old(cache)
      ensures r.Local? && r.path !in old(cache) ==>
                if r.file.Contents? && |r.file.data| <= 2 * 1024 * 1024 then
                  DecodeBase64Image(url) == Image(Some(r.file.data), "") && cache == old(cache)[r.path := url]
                else url == "" && cache == old(cache)
    {
      if r.Local? && r.file.Contents? {
        TransportRoundTrip(Artwork, r.ext, r.file.data);
      }
      match r
      case Remote(u) => url := u;
      case Local(path, ext, file) =>
        if path in cache { return cache[path]; }
        if file.Unreadable? { return ""; }
        if |file.data| > SizeCap(Artwork) { return ""; }
        url := DataUrl(Artwork, ext, file.data);
        cache := cache[path := url];
    }
  }

  function CacheAfter(requests: seq<Request>): map<string, string> {
    if requests == [] then map[]
    else Remember(CacheAfter(requests[..|requests| - 1]), requests[|requests| - 1])
  }

  /** The bytes of the first usable read of a path. */
  function FirstRead(requests: seq<Request>, path: string): Option<seq<byte>> {
    if requests == [] then None
    else
      var before, r := FirstRead(requests[..|requests| - 1], path), requests[|requests| - 1];
      if before.Some? then before
      else if r.Local? && r.path == path && Usable(Artwork, r.file) then Some(r.file.data)
      else None
  }

  lemma {:induction false} CacheHoldsFirstRead(requests: seq<Request>, path: string)
    ensures var cache := CacheAfter(requests);
            && (path in cache <==> FirstRead(requests, path).Some?)
            && (path in cache ==> DecodeBase64Image(cache[path]) == Image(FirstRead(requests, path), ""))
  {
    if requests != [] {
      CacheHoldsFirstRead(requests[..|requests| - 1], path);
      var r := requests[|requests| - 1];
      if r.Local? && Usable(Artwork, r.file) {
        TransportRoundTrip(Artwork, r.ext, r.file.data);
      }
    }
  }

  /** From file to client, over every run of artwork requests: a local path yields the bytes of its first
      usable read, this one included, or nothing if there was none; any other URL passes through. */
  lemma ExtractThenDecode(requests: seq<Request>, r: Request)
    ensures var image := DecodeBase64Image(Answer(CacheAfter(requests), r));
            && (r.Local? ==> image == Image(FirstRead(requests + [r], r.path), ""))
            && (r.Remote? && !HasPrefix(r.url, "data:") ==> image == Image(None, r.url))
  {
    if r.Local? {
      assert (requests + [r])[..|requests|] == requests;
      CacheHoldsFirstRead(requests, r.path);
      if Usable(Artwork, r.file) {
        TransportRoundTrip(Artwork, r.ext, r.file.data);
      }
    }
  }

  // ---------------------------------------------------------- media payload

  /** A player as a client is sent it: the state of the manager, with the artwork taken apart. */
  datatype PlayerPayload = PlayerPayload(player: PlayerState, artRaw: Option<seq<byte>>)

  /** The payload shows what the manager knows: everything but the artwork unchanged, and the artwork as
      bytes without a URL or as the URL it was. */
  ghost predicate ShowsPlayer(sent: PlayerPayload, p: PlayerState) {
    && sent.player.(metadata := p.metadata) == p
    && sent.player.metadata.(artUrl := p.metadata.artUrl) == p.metadata
    && (if Inline(p.metadata.artUrl) then
          sent.artRaw.Some? && sent.player.metadata.artUrl == ""
          && DecodeBase64Image(p.metadata.artUrl).raw == sent.artRaw
        else sent.artRaw.None? && sent.player.metadata.artUrl == p.metadata.artUrl)
  }

  /** Fills the payload slice, one entry for each player in the same place. */
  method MapMediaEvent(activePlayers: seq<PlayerState>) returns (players: array<PlayerPayload>)
    ensures fresh(players) && players.Length == |activePlayers|
    ensures forall i :: 0 <= i < |activePlayers| ==> ShowsPlayer(players[i], activePlayers[i])
  {
    players := new PlayerPayload[|activePlayers|](
      i requires 0 <= i < |activePlayers| => PlayerPayload(activePlayers[i], None));
    for i := 0 to |activePlayers|
      invariant forall k :: 0 <= k < i ==> ShowsPlayer(players[k], activePlayers[k])
    {
      var p := activePlayers[i];
      BytesOrUrl(p.metadata.artUrl);
      var art := DecodeBase64Image(p.metadata.artUrl);
      players[i] := PlayerPayload(p.(metadata := p.metadata.(artUrl := art.url)), art.raw);
    }
  }
}
