/** The MPRIS manager's registry of players and its artwork cache.

    Players are keyed by bus owner. Artwork is cached per track under a joined text key, so that
    a later update of the same track without artwork still shows it. */
module ArtworkCache {
  import opened Prelude
  import opened MediaPlayers

  type Owner = string

  // ------------------------------------------------------------------- keys

  function Join(parts: seq<string>, separator: string): string {
    if |parts| == 0 then ""
    else if |parts| == 1 then parts[0]
    else parts[0] + separator + Join(parts[1..], separator)
  }

  /** What identifies a track: its id, title, album and joined artists. */
  datatype Track = Track(id: string, title: string, album: string, artists: string)

  function TrackOf(m: Metadata): Track {
    Track(m.trackId, m.title, m.album, Join(m.artist, ","))
  }

  function Key(t: Track): string {
    t.id + "|" + t.title + "|" + t.album + "|" + t.artists
  }

  /** The fields before the last separator contain no separator. */
  predicate Separable(t: Track) {
    '|' !in t.id && '|' !in t.title && '|' !in t.album
  }

  /** Texts without a bar are determined by what precedes the first bar of a whole. */
  lemma {:induction false} FirstBar(a: string, x: string, b: string, y: string)
    requires '|' !in a && '|' !in b && a + "|" + x == b + "|" + y
    ensures a == b && x == y
  {
    var s := a + "|" + x;
    assert s[|a|] == '|' && s[|b|] == '|';
    forall i | 0 <= i < |a| ensures s[i] != '|' { assert s[i] == a[i]; }
    forall i | 0 <= i < |b| ensures s[i] != '|' { assert s[i] == b[i]; }
    assert a == s[..|a|] && b == s[..|b|];
    assert x == s[|a| + 1..] && y == s[|b| + 1..];
  }

  /** Equal keys of separable tracks mean equal tracks. */
  lemma KeyInjective(t: Track, u: Track)
    requires Separable(t) && Separable(u) && Key(t) == Key(u)
    ensures t == u
  {
    var t2, u2 := t.album + "|" + t.artists, u.album + "|" + u.artists;
    var t1, u1 := t.title + "|" + t2, u.title + "|" + u2;
    assert Key(t) == t.id + "|" + t1 && Key(u) == u.id + "|" + u1;
    FirstBar(t.id, t1, u.id, u1);
    FirstBar(t.title, t2, u.title, u2);
    FirstBar(t.album, t.artists, u.album, u.artists);
  }

  function Bars(s: string): nat {
    if s == "" then 0 else (if s[0] == '|' then 1 else 0) + Bars(s[1..])
  }

  lemma {:induction false} BarsConcat(a: string, b: string)
    ensures Bars(a + b) == Bars(a) + Bars(b)
  {
    if a == "" {
      assert a + b == b;
    } else {
      assert (a + b)[1..] == a[1..] + b;
      BarsConcat(a[1..], b);
    }
  }

  lemma {:induction false} NoBars(s: string)
    ensures Bars(s) == 0 <==> '|' !in s
  {
    if s != "" {
      NoBars(s[1..]);
      assert s == [s[0]] + s[1..];
    }
  }

  lemma KeyBars(t: Track)
    ensures Bars(Key(t)) == 3 + Bars(t.id) + Bars(t.title) + Bars(t.album) + Bars(t.artists)
  {
    var bar := "|";
    assert Bars(bar) == 1 by { assert bar[1..] == ""; }
    BarsConcat(t.id, bar);
    BarsConcat(t.id + bar, t.title);
    BarsConcat(t.id + bar + t.title, bar);
    BarsConcat(t.id + bar + t.title + bar, t.album);
    BarsConcat(t.id + bar + t.title + bar + t.album, bar);
    BarsConcat(t.id + bar + t.title + bar + t.album + bar, t.artists);
  }

  lemma SplitAtBar(s: string) returns (a: string, b: string)
    requires '|' in s
    ensures s == a + "|" + b && |a| < |s|
  {
    var i :| 0 <= i < |s| && s[i] == '|';
    a, b := s[..i], s[i + 1..];
  }

  /** A track shares its key with no other track if and only if none of its texts contains a bar. */
  lemma TrackKeyUniqueIff(t: Track)
    ensures (forall u :: Key(u) == Key(t) ==> u == t)
            <==> Separable(t) && '|' !in t.artists
  {
    if Separable(t) && '|' !in t.artists {
      forall u | Key(u) == Key(t) ensures u == t {
        KeyBars(t);
        KeyBars(u);
        NoBars(t.id); NoBars(t.title); NoBars(t.album); NoBars(t.artists);
        NoBars(u.id); NoBars(u.title); NoBars(u.album); NoBars(u.artists);
        KeyInjective(t, u);
      }
    } else {
      var u := Collision(t);
      assert Key(u) == Key(t) && u != t;
    }
  }

  /** Moves one bar across a field boundary. */
  lemma Collision(t: Track) returns (u: Track)
    requires !(Separable(t) && '|' !in t.artists)
    ensures Key(u) == Key(t) && u != t
  {
    if '|' in t.id {
      var a, b := SplitAtBar(t.id);
      u := Track(a, b + "|" + t.title, t.album, t.artists);
      assert Key(u) == Key(t);
    } else if '|' in t.title {
      var a, b := SplitAtBar(t.title);
      u := Track(t.id, a, b + "|" + t.album, t.artists);
      assert Key(u) == Key(t);
    } else if '|' in t.album {
      var a, b := SplitAtBar(t.album);
      u := Track(t.id, t.title, a, b + "|" + t.artists);
      assert Key(u) == Key(t);
    } else {
      var a, b := SplitAtBar(t.artists);
      u := Track(t.id, t.title, t.album + "|" + a, b);
      assert Key(u) == Key(t);
    }
  }

  // --------------------------------------------- keys of metadata as it comes

  function KeyOf(m: Metadata): string {
    Key(TrackOf(m))
  }

  /** The metadata names the same track, with the same list of artists. */
  predicate SameTrack(m: Metadata, n: Metadata) {
    m.trackId == n.trackId && m.title == n.title && m.album == n.album && m.artist == n.artist
  }

  function MetadataOf(t: Track, artUrl: string): Metadata {
    Metadata(t.id, t.title, [t.artists], t.album, artUrl, 0)
  }

  /** Joining loses the list: only a single artist without a comma joins to a text in one way. */
  lemma JoinedOnce(artists: seq<string>, name: string)
    requires name != "" && ',' !in name && Join(artists, ",") == name
    ensures artists == [name]
  {
    JoinedComma(artists);
  }

  lemma JoinedComma(artists: seq<string>)
    ensures |artists| >= 2 ==> ',' in Join(artists, ",")
  {
    if |artists| >= 2 {
      assert Join(artists, ",")[|artists[0]|] == ',';
    }
  }

  /** Another list of artists that joins to the same text. */
  lemma JoinedOtherwise(artists: seq<string>) returns (other: seq<string>)
    requires !(|artists| == 1 && artists[0] != "" && ',' !in artists[0])
    ensures other != artists && Join(other, ",") == Join(artists, ",")
  {
    if |artists| == 0 {
      other := [""];
    } else if |artists| >= 2 {
      other := [Join(artists, ",")];
    } else if artists[0] == "" {
      other := [];
    } else {
      var i :| 0 <= i < |artists[0]| && artists[0][i] == ',';
      other := [artists[0][..i], artists[0][i + 1..]];
      assert other[1..] == [artists[0][i + 1..]];
      assert Join(other, ",") == artists[0][..i] + "," + artists[0][i + 1..];
    }
  }

  /** Metadata that no other track can be mistaken for. */
  predicate Unmistakable(m: Metadata) {
    && '|' !in m.trackId && '|' !in m.title && '|' !in m.album && '|' !in Join(m.artist, ",")
    && |m.artist| == 1 && m.artist[0] != "" && ',' !in m.artist[0]
  }

  /** Other metadata with the same key. */
  lemma Mistaken(m: Metadata) returns (n: Metadata)
    requires !Unmistakable(m)
    ensures KeyOf(n) == KeyOf(m) && !SameTrack(m, n)
  {
    var t := TrackOf(m);
    if Separable(t) && '|' !in t.artists {
      var artists := JoinedOtherwise(m.artist);
      n := m.(artist := artists);
    } else {
      var u := Collision(t);
      n := MetadataOf(u, "");
      assert TrackOf(n) == u;
    }
  }

  /** The key stands for one track only if and only if its id, title, album and joined artists have no bar
      and there is exactly one artist, with a name that is not empty and has no comma. */
  lemma KeyUniqueIff(m: Metadata)
    ensures (forall n :: KeyOf(n) == KeyOf(m) ==> SameTrack(m, n)) <==> Unmistakable(m)
  {
    if Unmistakable(m) {
      forall n | KeyOf(n) == KeyOf(m) ensures SameTrack(m, n) {
        TrackKeyUniqueIff(TrackOf(m));
        assert TrackOf(n) == TrackOf(m);
        JoinedOnce(n.artist, m.artist[0]);
      }
    } else {
      var n := Mistaken(m);
      assert KeyOf(n) == KeyOf(m) && !SameTrack(m, n);
    }
  }

  // --------------------------------------------------------------- registry

  datatype Registry = Registry(
    players: map<Owner, PlayerState>,
    services: map<Owner, string>,
    art: map<string, string>)

  /** What the buses report: a player appears, changes, exits, or has its position polled. */
  datatype Event =
    | Registered(owner: Owner, service: string, player: PlayerState)
    | Changed(owner: Owner, status: Option<string>, volume: Option<real>, metadata: Option<Metadata>)
    | Exited(owner: Owner)
    | Polled(owner: Owner, position: int)

  /** The metadata with artwork from the cache if it brings none. */
  function Resolve(art: map<string, string>, m: Metadata): Metadata {
    var key := Key(TrackOf(m));
    if m.artUrl == "" && key in art then m.(artUrl := art[key]) else m
  }

  function Record(art: map<string, string>, m: Metadata): map<string, string> {
    if m.artUrl != "" then art[Key(TrackOf(m)) := m.artUrl] else art
  }

  function GetOr<T>(o: Option<T>, default: T): T {
    if o.Some? then o.value else default
  }

  function Step(r: Registry, e: Event): Registry {
    match e
    case Registered(owner, service, p) =>
      Registry(r.players[owner := p.(metadata := Resolve(r.art, p.metadata))],
               r.services[owner := service], Record(r.art, p.metadata))
    case Changed(owner, status, volume, metadata) =>
      if owner !in r.players then r
      else
        var p := r.players[owner].(playbackStatus := GetOr(status, r.players[owner].playbackStatus),
                                   volume := GetOr(volume, r.players[owner].volume));
        if metadata.None? then r.(players := r.players[owner := p])
        else
          Registry(r.players[owner := p.(metadata := Resolve(r.art, metadata.value))],
                   r.services, Record(r.art, metadata.value))
    case Exited(owner) => r.(players := r.players - {owner}, services := r.services - {owner})
    case Polled(owner, position) =>
      if owner !in r.players then r
      else r.(players := r.players[owner := r.players[owner].(positionMicro := position)])
  }

  /** The player is as given, its metadata aside. */
  predicate SameButMetadata(p: PlayerState, given: PlayerState) {
    && p.playerName == given.playerName && p.identity == given.identity && p.desktopEntry == given.desktopEntry
    && p.playbackStatus == given.playbackStatus && p.volume == given.volume && p.positionMicro == given.positionMicro
  }

  /** The metadata is as given, with its own artwork, or else the cached one of its key, or none. */
  predicate ShownFor(shown: Metadata, given: Metadata, art: map<string, string>) {
    var key := given.trackId + "|" + given.title + "|" + given.album + "|" + Join(given.artist, ",");
    && SameTrack(shown, given) && shown.lengthMicro == given.lengthMicro
    && shown.artUrl == if given.artUrl != "" then given.artUrl else if key in art then art[key] else ""
  }

  /** The other players are as they were. */
  ghost predicate OthersKept(before: map<Owner, PlayerState>, now: map<Owner, PlayerState>, owner: Owner) {
    forall o :: o != owner ==> (o in now <==> o in before) && (o in now ==> now[o] == before[o])
  }

  /** The manager object; its mutex makes each method one step. */
  class MediaManager {
    var activePlayers: map<Owner, PlayerState>
    var ownerToService: map<Owner, string>
    var trackArtCache: map<string, string>

    ghost function View(): Registry
      reads this
    {
      Registry(activePlayers, ownerToService, trackArtCache)
    }

    constructor ()
      ensures View() == Registry(map[], map[], map[])
    {
      activePlayers, ownerToService, trackArtCache := map[], map[], map[];
    }

    /** Stores artwork, or completes metadata that has none. */
    method ResolveArt(m: Metadata) returns (resolved: Metadata)
      modifies this`trackArtCache
      ensures resolved == Resolve(old(trackArtCache), m)
      ensures trackArtCache == Record(old(trackArtCache), m)
    {
      resolved := m;
      var key := Key(TrackOf(m));
      if m.artUrl != "" {
        trackArtCache := trackArtCache[key := m.artUrl];
      } else if key in trackArtCache {
        resolved := m.(artUrl := trackArtCache[key]);
      }
    }

    method Register(owner: Owner, service: string, player: PlayerState)
      modifies this
      ensures View() == Step(old(View()), Registered(owner, service, player))
      ensures owner in activePlayers && SameButMetadata(activePlayers[owner], player)
      ensures ShownFor(activePlayers[owner].metadata, player.metadata, old(trackArtCache))
      ensures ownerToService == old(ownerToService)[owner := service]
      ensures OthersKept(old(activePlayers), activePlayers, owner)
    {
      var metadata := ResolveArt(player.metadata);
      activePlayers := activePlayers[owner := player.(metadata := metadata)];
      ownerToService := ownerToService[owner := service];
    }

    method PropertiesChanged(owner: Owner, status: Option<string>, volume: Option<real>, metadata: Option<Metadata>)
      modifies this
      ensures View() == Step(old(View()), Changed(owner, status, volume, metadata))
      ensures activePlayers.Keys == old(activePlayers.Keys) && ownerToService == old(ownerToService)
      ensures OthersKept(old(activePlayers), activePlayers, owner)
      ensures owner !in activePlayers ==> trackArtCache == old(trackArtCache)
      ensures owner in activePlayers ==>
                var before, now := old(activePlayers)[owner], activePlayers[owner];
                && now.playerName == before.playerName && now.identity == before.identity
                && now.desktopEntry == before.desktopEntry && now.positionMicro == before.positionMicro
                && now.playbackStatus == (if status.Some? then status.value else before.playbackStatus)
                && now.volume == (if volume.Some? then volume.value else before.volume)
                && (if metadata.Some? then ShownFor(now.metadata, metadata.value, old(trackArtCache))
                    else now.metadata == before.metadata && trackArtCache == old(trackArtCache))
    {
      if owner !in activePlayers { return; }
      var player := activePlayers[owner];
      if status.Some? { player := player.(playbackStatus := status.value); }
      if volume.Some? { player := player.(volume := volume.value); }
      if metadata.Some? {
        var resolved := ResolveArt(metadata.value);
        player := player.(metadata := resolved);
      }
      activePlayers := activePlayers[owner := player];
    }

    /** The player is gone; the other players and all artwork stay. */
    method Unregister(owner: Owner)
      modifies this
      ensures View() == Step(old(View()), Exited(owner))
      ensures owner !in activePlayers && owner !in ownerToService && trackArtCache == old(trackArtCache)
      ensures forall o :: o in old(activePlayers) && o != owner ==>
                o in activePlayers && activePlayers[o] == old(activePlayers)[o]
    {
      activePlayers := activePlayers - {owner};
      ownerToService := ownerToService - {owner};
    }

    /** Only the position changes, and only if the player is still there. */
    method SetPosition(owner: Owner, position: int)
      modifies this
      ensures View() == Step(old(View()), Polled(owner, position))
      ensures activePlayers.Keys == old(activePlayers.Keys) && trackArtCache == old(trackArtCache)
      ensures forall o :: o in activePlayers ==>
                activePlayers[o] == if o == owner then old(activePlayers)[o].(positionMicro := position)
                                    else old(activePlayers)[o]
    {
      if owner in activePlayers {
        activePlayers := activePlayers[owner := activePlayers[owner].(positionMicro := position)];
      }
    }
  }

  // ------------------------------------------------------------------- runs

  function Run(events: seq<Event>): Registry {
    if events == [] then Registry(map[], map[], map[])
    else Step(Run(events[..|events| - 1]), events[|events| - 1])
  }

  /** The metadata an event brings to the registry in this state. */
  function Brings(r: Registry, e: Event): Option<Metadata> {
    match e
    case Registered(_, _, p) => Some(p.metadata)
    case Changed(owner, _, _, metadata) => if owner in r.players then metadata else None
    case _ => None
  }

  /** The artwork last brought for a track, keyed by the track itself. */
  function LastArt(events: seq<Event>, t: Track): Option<string> {
    if events == [] then None
    else
      var init := events[..|events| - 1];
      var m := Brings(Run(init), events[|events| - 1]);
      if m.Some? && m.value.artUrl != "" && TrackOf(m.value) == t then Some(m.value.artUrl)
      else LastArt(init, t)
  }

  /** The metadata an event carries, whether or not the registry takes it. */
  function Carries(e: Event): Option<Metadata> {
    match e
    case Registered(_, _, p) => Some(p.metadata)
    case Changed(_, _, _, metadata) => metadata
    case _ => None
  }

  /** No other track of the run shares the key of `t`. */
  ghost predicate Apart(events: seq<Event>, t: Track) {
    forall i :: 0 <= i < |events| && Carries(events[i]).Some? ==>
      var u := TrackOf(Carries(events[i]).value);
      Key(u) == Key(t) ==> u == t
  }

  /** The text-keyed cache agrees with the track-keyed one on `t`. */
  ghost predicate Refines(events: seq<Event>, t: Track) {
    var art := Run(events).art;
    LastArt(events, t) == if Key(t) in art then Some(art[Key(t)]) else None
  }

  lemma {:induction false} CacheRefines(events: seq<Event>, t: Track)
    requires Apart(events, t)
    ensures Refines(events, t)
  {
    if events != [] {
      var init, e := events[..|events| - 1], events[|events| - 1];
      CacheRefines(init, t);
      var m := Brings(Run(init), e);
      assert Run(events).art == if m.Some? then Record(Run(init).art, m.value) else Run(init).art;
      assert m.Some? ==> Carries(e) == m;
    }
  }

  /** Artwork cache: over every run of registrations, changes and exits, each event that brings metadata
      of a track whose key no other track of the run shares shows its own artwork, or else the last
      artwork brought for that track, or none; the rest of the metadata is shown as it came. */
  lemma ShowsOwnOrLastArt(events: seq<Event>, e: Event)
    requires Brings(Run(events), e).Some? && Apart(events, TrackOf(Brings(Run(events), e).value))
    ensures var m, r := Brings(Run(events), e).value, Run(events + [e]);
            && e.owner in r.players
            && r.players[e.owner].metadata
               == m.(artUrl := if m.artUrl != "" then m.artUrl else GetOr(LastArt(events, TrackOf(m)), ""))
  {
    var m := Brings(Run(events), e).value;
    assert (events + [e])[..|events|] == events;
    CacheRefines(events, TrackOf(m));
  }

  /** Exits and polls leave the artwork alone: a track that comes back without artwork still shows the last
      it had. */
  lemma ArtworkSurvives(events: seq<Event>, e: Event, t: Track)
    requires e.Exited? || e.Polled?
    ensures Run(events + [e]).art == Run(events).art
    ensures LastArt(events + [e], t) == LastArt(events, t)
    ensures Run(events + [e]).players.Keys == Run(events).players.Keys - if e.Exited? then {e.owner} else {}
  {
    assert (events + [e])[..|events|] == events;
  }

  // ------------------------------------------------- which tracks are safe

  /** Every track of the run is one of `tracks`. */
  ghost predicate OnlyTracks(events: seq<Event>, tracks: set<Track>) {
    forall i :: 0 <= i < |events| && Carries(events[i]).Some? ==> TrackOf(Carries(events[i]).value) in tracks
  }

  ghost predicate KeysDistinct(tracks: set<Track>) {
    forall t, u :: t in tracks && u in tracks && Key(t) == Key(u) ==> t == u
  }

  /** Tracks whose id, title and album have no bar are always safe together. */
  lemma SeparableKeysDistinct(tracks: set<Track>)
    requires forall t :: t in tracks ==> Separable(t)
    ensures KeysDistinct(tracks)
  {
    forall t, u | t in tracks && u in tracks && Key(t) == Key(u) ensures t == u {
      KeyInjective(t, u);
    }
  }

  function Playing(name: string, m: Metadata): Event {
    Registered(name, "org.mpris.MediaPlayer2." + name, PlayerState(name, name, name, "Playing", 1.0, 0, m))
  }

  /** Artwork of one track is shown for another with the same key: `n` is registered with artwork, then
      `m` without any. */
  lemma SharedKeyShowsOthersArt(m: Metadata, n: Metadata) returns (events: seq<Event>)
    requires KeyOf(m) == KeyOf(n) && m.artUrl == "" && n.artUrl != ""
    ensures events == [Playing("n", n), Playing("m", m)]
    ensures "m" in Run(events).players && Run(events).players["m"].metadata == m.(artUrl := n.artUrl)
    ensures Run(events).art == map[KeyOf(m) := n.artUrl]
  {
    var first, second := Playing("n", n), Playing("m", m);
    events := [first, second];
    assert events[..1] == [first] && [first][..0] == [];
    assert Run([first]) == Step(Run([]), first);
    assert Run([first]).art == map[KeyOf(n) := n.artUrl];
    assert Run(events) == Step(Run([first]), second);
  }

  /** So a track can be shown artwork that was never brought for it. */
  lemma CollisionShowsOthersArt(t: Track, u: Track, artUrl: string) returns (events: seq<Event>)
    requires t != u && Key(t) == Key(u) && artUrl != ""
    ensures OnlyTracks(events, {t, u})
    ensures "m" in Run(events).players && Run(events).players["m"].metadata == MetadataOf(t, artUrl)
    ensures LastArt(events, t) == None && !Refines(events, t)
  {
    var m, n := MetadataOf(t, ""), MetadataOf(u, artUrl);
    assert TrackOf(n) == u && TrackOf(m) == t;
    events := SharedKeyShowsOthersArt(m, n);
    assert events[..1] == [Playing("n", n)] && [Playing("n", n)][..0] == [];
    assert LastArt([Playing("n", n)], t) == LastArt([], t);
  }

  /** The exact condition: the cache keeps the artwork of these tracks apart in every run if and only if
      their keys are distinct. */
  lemma RefinesIffKeysDistinct(tracks: set<Track>)
    ensures (forall events, t :: t in tracks && OnlyTracks(events, tracks) ==> Refines(events, t))
            <==> KeysDistinct(tracks)
  {
    if KeysDistinct(tracks) {
      forall events, t | t in tracks && OnlyTracks(events, tracks) ensures Refines(events, t) {
        CacheRefines(events, t);
      }
    } else {
      var t, u :| t in tracks && u in tracks && Key(t) == Key(u) && t != u;
      var events := CollisionShowsOthersArt(t, u, "art");
      assert OnlyTracks(events, tracks) && !Refines(events, t);
    }
  }
}
