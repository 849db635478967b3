/** The icon extractor's cache, shared by one goroutine per notification.

    A request for a file path looks the path up, and if it is not cached reads the file and stores
    its data URL. A themed request looks up "app:icon" in the same map, searches the icon
    libraries, extracts the file it finds, and stores the result again under the themed key. Each
    lookup, read and store is one step, and the steps of all requests interleave freely. */
module IconCache {
  import opened Prelude
  import opened ImageUrls

  type Id = nat    // one request

  predicate IsAbs(path: string) {
    path != "" && path[0] == '/'
  }

  /** The path without a file URI prefix. */
  function Strip(raw: string): string {
    if HasPrefix(raw, "file://") then raw[7..] else raw
  }

  lemma StripMeaning(raw: string)
    ensures raw == Strip(raw) || raw == "file://" + Strip(raw)
    ensures "file://" <= raw ==> raw == "file://" + Strip(raw)
  {
  }

  function ThemeKey(app: string, icon: string): (key: string)
    ensures key == app + ":" + icon && ':' in key
  {
    assert (app + ":" + icon)[|app|] == ':';
    app + ":" + icon
  }

  /** How far a request has come; `theme` is the key under which its result is to be stored again. */
  datatype Call =
    | Searching(key: string)
    | Missed(path: string, theme: Option<string>)
    | Loaded(path: string, url: string, theme: Option<string>)
    | Keying(key: string, url: string)

  /** A finished request: the path or themed key it asked for, and the URL it was given. */
  datatype Answer = Answer(key: string, url: string)

  datatype State = State(cache: map<string, string>, calls: map<Id, Call>, answers: map<Id, Answer>)

  datatype Action =
    | Lookup(id: Id, raw: string)
    | LookupTheme(id: Id, app: string, icon: string)
    | Resolve(id: Id, raw: string)
    | GiveUp(id: Id)
    | Read(id: Id, path: string, ext: string, file: File)
    | Store(id: Id)
    | StoreTheme(id: Id)

  function Start(): State {
    State(map[], map[], map[])
  }

  predicate OnPath(c: Call, path: string) {
    (c.Missed? || c.Loaded?) && c.path == path
  }

  /** Some request has missed this path and has not stored it yet. */
  predicate Busy(s: State, path: string) {
    exists i :: i in s.calls && OnPath(s.calls[i], path)
  }

  function Reply(s: State, id: Id, key: string, url: string): State {
    s.(calls := s.calls - {id}, answers := s.answers[id := Answer(key, url)])
  }

  /** The path request ends with `url`; a themed request goes on to store a result. */
  function Return(s: State, id: Id, path: string, url: string, theme: Option<string>): State {
    if theme.None? then Reply(s, id, path, url)
    else if url == "" then Reply(s, id, theme.value, "")
    else s.(calls := s.calls[id := Keying(theme.value, url)])
  }

  /** The cache lookup of a path request. With `exclusive`, requests for one path do not overlap. */
  function Load(exclusive: bool, s: State, id: Id, raw: string, theme: Option<string>): Option<State> {
    var path := Strip(raw);
    if !IsAbs(path) then Some(Return(s, id, path, "", theme))
    else if path in s.cache then Some(Return(s, id, path, s.cache[path], theme))
    else if exclusive && Busy(s, path) then None
    else Some(s.(calls := s.calls[id := Missed(path, theme)]))
  }

  function Next(exclusive: bool, s: State, a: Action): Option<State> {
    match a
    case Lookup(id, raw) =>
      if id in s.calls || id in s.answers then None else Load(exclusive, s, id, raw, None)
    case LookupTheme(id, app, icon) =>
      if id in s.calls || id in s.answers then None
      else
        var key := ThemeKey(app, icon);
        if app == "" && icon == "" then Some(Reply(s, id, key, ""))
        else if key in s.cache then Some(Reply(s, id, key, s.cache[key]))
        else Some(s.(calls := s.calls[id := Searching(key)]))
    case Resolve(id, raw) =>
      if id !in s.calls || !s.calls[id].Searching? then None
      else Load(exclusive, s, id, raw, Some(s.calls[id].key))
    case GiveUp(id) =>
      if id !in s.calls || !s.calls[id].Searching? then None
      else Some(Reply(s, id, s.calls[id].key, ""))
    case Read(id, path, ext, file) =>
      if id !in s.calls || !s.calls[id].Missed? || s.calls[id].path != path then None
      else if !Usable(Icon, file) then Some(Return(s, id, path, "", s.calls[id].theme))
      else Some(s.(calls := s.calls[id := Loaded(path, DataUrl(Icon, ext, file.data), s.calls[id].theme)]))
    case Store(id) =>
      if id !in s.calls || !s.calls[id].Loaded? then None
      else
        var c := s.calls[id];
        Some(Return(s.(cache := s.cache[c.path := c.url]), id, c.path, c.url, c.theme))
    case StoreTheme(id) =>
      if id !in s.calls || !s.calls[id].Keying? then None
      else
        var c := s.calls[id];
        Some(Reply(s.(cache := s.cache[c.key := c.url]), id, c.key, c.url))
  }

  function Run(exclusive: bool, actions: seq<Action>): Option<State> {
    if actions == [] then Some(Start())
    else
      var before := Run(exclusive, actions[..|actions| - 1]);
      if before.None? then None else Next(exclusive, before.value, actions[|actions| - 1])
  }

  // ------------------------------------------------------------------ reads

  predicate UsableRead(a: Action, path: string) {
    a.Read? && a.path == path && Usable(Icon, a.file)
  }

  /** Some usable read of the path gave these bytes. */
  ghost predicate WasRead(actions: seq<Action>, path: string, data: seq<byte>) {
    exists i :: 0 <= i < |actions| && UsableRead(actions[i], path) && actions[i].file.data == data
  }

  /** The bytes of the first usable read of the path. */
  function FirstIcon(actions: seq<Action>, path: string): Option<seq<byte>> {
    if actions == [] then None
    else
      var before, a := FirstIcon(actions[..|actions| - 1], path), actions[|actions| - 1];
      if before.Some? then before
      else if UsableRead(a, path) then Some(a.file.data)
      else None
  }

  /** The client is shown bytes that were read from this path. */
  ghost predicate ShowsOwn(actions: seq<Action>, path: string, url: string) {
    var image := DecodeBase64Image(url);
    image.url == "" && image.raw.Some? && WasRead(actions, path, image.raw.value)
  }

  /** The client is shown the bytes that were read from this path first. */
  ghost predicate ShowsFirst(actions: seq<Action>, path: string, url: string) {
    FirstIcon(actions, path).Some? && DecodeBase64Image(url) == Image(FirstIcon(actions, path), "")
  }

  lemma ReadStays(actions: seq<Action>, a: Action, path: string, url: string)
    requires ShowsOwn(actions, path, url)
    ensures ShowsOwn(actions + [a], path, url)
  {
    var data := DecodeBase64Image(url).raw.value;
    var i :| 0 <= i < |actions| && UsableRead(actions[i], path) && actions[i].file.data == data;
    assert (actions + [a])[i] == actions[i];
  }

  lemma NewReadShows(actions: seq<Action>, a: Action)
    requires a.Read? && Usable(Icon, a.file)
    ensures ShowsOwn(actions + [a], a.path, DataUrl(Icon, a.ext, a.file.data))
  {
    TransportRoundTrip(Icon, a.ext, a.file.data);
    assert (actions + [a])[|actions|] == a;
  }

  // -------------------------------------------------------------- own bytes

  ghost predicate CallInv(actions: seq<Action>, c: Call, path: string) {
    && (c.Loaded? && c.path == path ==> ShowsOwn(actions, path, c.url))
    && (c.Searching? || c.Keying? ==> ':' in c.key)
    && ((c.Missed? || c.Loaded?) && c.theme.Some? ==> ':' in c.theme.value)
  }

  ghost predicate OwnInv(actions: seq<Action>, s: State, path: string) {
    && (path in s.cache ==> ShowsOwn(actions, path, s.cache[path]))
    && (forall i :: i in s.calls ==> CallInv(actions, s.calls[i], path))
    && (forall i :: i in s.answers && s.answers[i].key == path ==>
          s.answers[i].url == "" || ShowsOwn(actions, path, s.answers[i].url))
  }

  /** The history may grow. */
  lemma OwnLater(actions: seq<Action>, a: Action, s: State, path: string)
    requires OwnInv(actions, s, path)
    ensures OwnInv(actions + [a], s, path)
  {
    if path in s.cache {
      ReadStays(actions, a, path, s.cache[path]);
    }
    forall i | i in s.calls ensures CallInv(actions + [a], s.calls[i], path) {
      assert CallInv(actions, s.calls[i], path);
      if s.calls[i].Loaded? && s.calls[i].path == path {
        ReadStays(actions, a, path, s.calls[i].url);
      }
    }
    forall i | i in s.answers && s.answers[i].key == path && s.answers[i].url != ""
      ensures ShowsOwn(actions + [a], path, s.answers[i].url)
    {
      ReadStays(actions, a, path, s.answers[i].url);
    }
  }

  lemma OwnReturn(actions: seq<Action>, s: State, id: Id, asked: string, url: string, theme: Option<string>, path: string)
    requires OwnInv(actions, s, path) && ':' !in path
    requires theme.Some? ==> ':' in theme.value
    requires asked == path && theme.None? ==> url == "" || ShowsOwn(actions, path, url)
    ensures OwnInv(actions, Return(s, id, asked, url, theme), path)
  {
  }

  lemma OwnLoad(exclusive: bool, actions: seq<Action>, s: State, id: Id, raw: string, theme: Option<string>, path: string)
    requires OwnInv(actions, s, path) && ':' !in path && Load(exclusive, s, id, raw, theme).Some?
    requires theme.Some? ==> ':' in theme.value
    ensures OwnInv(actions, Load(exclusive, s, id, raw, theme).value, path)
  {
    var asked := Strip(raw);
    if !IsAbs(asked) {
      OwnReturn(actions, s, id, asked, "", theme, path);
    } else if asked in s.cache {
      OwnReturn(actions, s, id, asked, s.cache[asked], theme, path);
    }
  }

  /** Steps of a themed request that are not steps of its path request. */
  lemma OwnTheme(exclusive: bool, actions: seq<Action>, s: State, a: Action, path: string)
    requires OwnInv(actions, s, path) && ':' !in path && Next(exclusive, s, a).Some?
    requires a.LookupTheme? || a.GiveUp? || a.StoreTheme?
    ensures OwnInv(actions, Next(exclusive, s, a).value, path)
  {
    if a.id in s.calls {
      assert CallInv(actions, s.calls[a.id], path);
    }
    if a.LookupTheme? {
      assert ThemeKey(a.app, a.icon) != path;
    }
  }

  lemma OwnRead(exclusive: bool, actions: seq<Action>, s: State, a: Action, path: string)
    requires OwnInv(actions + [a], s, path) && ':' !in path && a.Read? && Next(exclusive, s, a).Some?
    ensures OwnInv(actions + [a], Next(exclusive, s, a).value, path)
  {
    assert CallInv(actions + [a], s.calls[a.id], path);
    if Usable(Icon, a.file) {
      NewReadShows(actions, a);
    } else {
      OwnReturn(actions + [a], s, a.id, a.path, "", s.calls[a.id].theme, path);
    }
  }

  lemma OwnStore(exclusive: bool, actions: seq<Action>, s: State, id: Id, path: string)
    requires OwnInv(actions, s, path) && ':' !in path && Next(exclusive, s, Store(id)).Some?
    ensures OwnInv(actions, Next(exclusive, s, Store(id)).value, path)
  {
    var c := s.calls[id];
    assert CallInv(actions, c, path);
    OwnReturn(actions, s.(cache := s.cache[c.path := c.url]), id, c.path, c.url, c.theme, path);
  }

  lemma OwnStep(exclusive: bool, actions: seq<Action>, s: State, a: Action, path: string)
    requires OwnInv(actions, s, path) && ':' !in path && Next(exclusive, s, a).Some?
    ensures OwnInv(actions + [a], Next(exclusive, s, a).value, path)
  {
    OwnLater(actions, a, s, path);
    var now := actions + [a];
    match a
    case Lookup(id, raw) => OwnLoad(exclusive, now, s, id, raw, None, path);
    case Resolve(id, raw) =>
      assert CallInv(now, s.calls[id], path);
      OwnLoad(exclusive, now, s, id, raw, Some(s.calls[id].key), path);
    case Read(id, asked, ext, file) => OwnRead(exclusive, actions, s, a, path);
    case Store(id) => OwnStore(exclusive, now, s, id, path);
    case _ => OwnTheme(exclusive, now, s, a, path);
  }

  lemma {:induction false} OwnRun(exclusive: bool, actions: seq<Action>, path: string)
    requires ':' !in path && Run(exclusive, actions).Some?
    ensures OwnInv(actions, Run(exclusive, actions).value, path)
  {
    if actions != [] {
      var init, a := actions[..|actions| - 1], actions[|actions| - 1];
      OwnRun(exclusive, init, path);
      OwnStep(exclusive, init, Run(exclusive, init).value, a, path);
      assert init + [a] == actions;
    }
  }

  /** In every interleaving, a request for a path without a colon is answered with nothing or with
      bytes that were read from that very path, and so is its cache entry. */
  lemma AnswersOwnBytes(actions: seq<Action>, path: string, id: Id)
    requires ':' !in path && Run(false, actions).Some?
    ensures var s := Run(false, actions).value;
            && (path in s.cache ==> ShowsOwn(actions, path, s.cache[path]))
            && (id in s.answers && s.answers[id].key == path ==>
                  s.answers[id].url == "" || ShowsOwn(actions, path, s.answers[id].url))
  {
    OwnRun(false, actions, path);
  }

  /** Wherever the schedule leads, the entry of the path shows bytes read from the path. */
  ghost predicate KeepsOwn(actions: seq<Action>, path: string) {
    var r := Run(false, actions);
    r.Some? && path in r.value.cache ==> ShowsOwn(actions, path, r.value.cache[path])
  }

  lemma Extend(exclusive: bool, past: seq<Action>, s: State, a: Action, t: State)
    requires Run(exclusive, past) == Some(s) && Next(exclusive, s, a) == Some(t)
    ensures Run(exclusive, past + [a]) == Some(t)
  {
    assert (past + [a])[..|past|] == past;
  }

  lemma AbsKept(path: string)
    requires IsAbs(path)
    ensures Strip(path) == path
  {
    assert "file://"[0] != '/';
  }

  /** A request that has missed reads a usable file, */
  lemma ReadStep(exclusive: bool, past: seq<Action>, s: State, id: Id, path: string, ext: string, file: File)
    requires Run(exclusive, past) == Some(s) && Usable(Icon, file)
    requires id in s.calls && s.calls[id].Missed? && s.calls[id].path == path
    ensures Run(exclusive, past + [Read(id, path, ext, file)])
            == Some(s.(calls := s.calls[id := Loaded(path, DataUrl(Icon, ext, file.data), s.calls[id].theme)]))
  {
    Extend(exclusive, past, s, Read(id, path, ext, file), Next(exclusive, s, Read(id, path, ext, file)).value);
  }

  /** and stores it. */
  lemma StoreStep(exclusive: bool, past: seq<Action>, s: State, id: Id, c: Call)
    requires Run(exclusive, past) == Some(s) && id in s.calls && s.calls[id] == c && c.Loaded?
    ensures Run(exclusive, past + [Store(id)])
            == Some(Return(s.(cache := s.cache[c.path := c.url]), id, c.path, c.url, c.theme))
  {
    Extend(exclusive, past, s, Store(id), Next(exclusive, s, Store(id)).value);
  }

  /** A themed request misses and finds a file that is not cached either. */
  lemma ThemeMisses(key: string, app: string, icon: string, other: string) returns (actions: seq<Action>)
    requires key == ThemeKey(app, icon) && !(app == "" && icon == "") && IsAbs(other)
    ensures actions == [LookupTheme(0, app, icon), Resolve(0, other)]
    ensures Run(false, actions) == Some(State(map[], map[0 := Missed(other, Some(key))], map[]))
  {
    AbsKept(other);
    var s1 := State(map[], map[0 := Searching(key)], map[]);
    Extend(false, [], Start(), LookupTheme(0, app, icon), s1);
    var s2 := State(map[], map[0 := Missed(other, Some(key))], map[]);
    assert s1.calls[0 := s2.calls[0]] == s2.calls;
    Extend(false, [] + [LookupTheme(0, app, icon)], s1, Resolve(0, other), s2);
    actions := [] + [LookupTheme(0, app, icon)] + [Resolve(0, other)];
  }

  /** It reads and stores that file, and has its result to store under its own key. */
  lemma ThemeReads(key: string, app: string, icon: string, other: string, ext: string)
    returns (actions: seq<Action>, url: string)
    requires key == ThemeKey(app, icon) && !(app == "" && icon == "") && IsAbs(other)
    ensures Run(false, actions) == Some(State(map[other := url], map[0 := Keying(key, url)], map[]))
    ensures actions == [LookupTheme(0, app, icon), Resolve(0, other), Read(0, other, ext, Contents([])), Store(0)]
  {
    var past := ThemeMisses(key, app, icon, other);
    url := DataUrl(Icon, ext, []);
    var s2 := State(map[], map[0 := Missed(other, Some(key))], map[]);
    ReadStep(false, past, s2, 0, other, ext, Contents([]));
    var c := Loaded(other, url, Some(key));
    var s3 := State(map[], map[0 := c], map[]);
    assert s2.calls[0 := c] == s3.calls;
    StoreStep(false, past + [Read(0, other, ext, Contents([]))], s3, 0, c);
    assert s3.calls[0 := Keying(key, url)] == map[0 := Keying(key, url)];
    actions := past + [Read(0, other, ext, Contents([]))] + [Store(0)];
  }

  /** For every absolute path with a colon, a themed request can fill its entry from another file. */
  lemma ThemeTakesPath(path: string) returns (actions: seq<Action>)
    requires IsAbs(path) && ':' in path
    ensures !KeepsOwn(actions, path)
  {
    var i :| 0 <= i < |path| && path[i] == ':';
    var other := path + "x";
    assert i > 0 && ThemeKey(path[..i], path[i + 1..]) == path;
    var past, url := ThemeReads(path, path[..i], path[i + 1..], other, ".png");
    var s := Run(false, past).value;
    var t := Next(false, s, StoreTheme(0)).value;
    Extend(false, past, s, StoreTheme(0), t);
    actions := past + [StoreTheme(0)];
    assert path in t.cache && other != path;
    assert forall k :: 0 <= k < |actions| ==> !UsableRead(actions[k], path);
  }

  /** The exact condition: an absolute path keeps its own bytes in every run if and only if it has no
      colon, since exactly the paths with a colon are also themed keys. */
  lemma KeepsOwnIffNoColon(path: string)
    requires IsAbs(path)
    ensures (forall actions :: KeepsOwn(actions, path)) <==> ':' !in path
  {
    if ':' in path {
      var actions := ThemeTakesPath(path);
      assert !KeepsOwn(actions, path);
    } else {
      forall actions ensures KeepsOwn(actions, path) {
        if Run(false, actions).Some? {
          OwnRun(false, actions, path);
        }
      }
    }
  }

  // ------------------------------------------------------------ first bytes

  /** What holds while requests for the path do not overlap. */
  ghost predicate FirstInv(actions: seq<Action>, s: State, path: string) {
    && (forall i, j :: i in s.calls && j in s.calls && OnPath(s.calls[i], path) && OnPath(s.calls[j], path) ==> i == j)
    && (forall i :: i in s.calls && OnPath(s.calls[i], path) ==>
          && path !in s.cache
          && (s.calls[i].Missed? ==> FirstIcon(actions, path).None?)
          && (s.calls[i].Loaded? ==> ShowsFirst(actions, path, s.calls[i].url)))
    && (path in s.cache ==> ShowsFirst(actions, path, s.cache[path]))
    && (forall i :: i in s.answers && s.answers[i].key == path ==>
          s.answers[i].url == "" || ShowsFirst(actions, path, s.answers[i].url))
    && (FirstIcon(actions, path).Some? ==> path in s.cache || Busy(s, path))
  }

  lemma FirstAppend(actions: seq<Action>, a: Action, path: string)
    ensures FirstIcon(actions + [a], path)
            == if FirstIcon(actions, path).Some? then FirstIcon(actions, path)
               else if UsableRead(a, path) then Some(a.file.data) else None
  {
    assert (actions + [a])[..|actions|] == actions;
  }

  lemma FirstReturn(actions: seq<Action>, s: State, id: Id, asked: string, url: string, theme: Option<string>, path: string)
    requires FirstInv(actions, s, path) && (theme.Some? ==> theme.value != path)
    requires asked == path && theme.None? ==> url == "" || ShowsFirst(actions, path, url)
    requires id in s.calls && OnPath(s.calls[id], path) ==> FirstIcon(actions, path).None?
    ensures FirstInv(actions, Return(s, id, asked, url, theme), path)
  {
    var t := Return(s, id, asked, url, theme);
    assert forall i :: i in t.calls && OnPath(t.calls[i], path) ==> i in s.calls && t.calls[i] == s.calls[i];
    if FirstIcon(actions, path).Some? && path !in s.cache {
      var i :| i in s.calls && OnPath(s.calls[i], path);
      assert i in t.calls && OnPath(t.calls[i], path);
    }
  }

  lemma FirstLoad(actions: seq<Action>, s: State, id: Id, raw: string, theme: Option<string>, path: string)
    requires FirstInv(actions, s, path) && Load(true, s, id, raw, theme).Some?
    requires (id in s.calls ==> s.calls[id].Searching?) && (theme.Some? ==> theme.value != path)
    ensures FirstInv(actions, Load(true, s, id, raw, theme).value, path)
  {
    var asked := Strip(raw);
    if !IsAbs(asked) {
      FirstReturn(actions, s, id, asked, "", theme, path);
    } else if asked in s.cache {
      FirstReturn(actions, s, id, asked, s.cache[asked], theme, path);
    } else {
      var t := s.(calls := s.calls[id := Missed(asked, theme)]);
      assert asked == path ==> !Busy(s, path);
      if FirstIcon(actions, path).Some? && path !in s.cache {
        var i :| i in s.calls && OnPath(s.calls[i], path);
        assert i in t.calls && OnPath(t.calls[i], path);
      }
    }
  }

  /** The first usable read of the path. */
  lemma FirstUsable(actions: seq<Action>, s: State, a: Action, path: string)
    requires FirstInv(actions, s, path) && Next(true, s, a).Some? && UsableRead(a, path)
    ensures FirstInv(actions + [a], Next(true, s, a).value, path)
  {
    var t := Next(true, s, a).value;
    assert OnPath(s.calls[a.id], path);
    FirstAppend(actions, a, path);
    TransportRoundTrip(Icon, a.ext, a.file.data);
    assert OnPath(t.calls[a.id], path);
  }

  lemma FirstStore(actions: seq<Action>, s: State, id: Id, path: string)
    requires FirstInv(actions, s, path) && Next(true, s, Store(id)).Some?
    requires s.calls[id].theme.Some? ==> s.calls[id].theme.value != path
    ensures FirstInv(actions, Next(true, s, Store(id)).value, path)
  {
    var c := s.calls[id];
    if c.path == path {
      assert OnPath(c, path);
    } else {
      FirstReturn(actions, s.(cache := s.cache[c.path := c.url]), id, c.path, c.url, c.theme, path);
    }
  }

  lemma FirstOther(actions: seq<Action>, s: State, a: Action, path: string)
    requires FirstInv(actions, s, path) && OwnInv(actions, s, path) && ':' !in path
    requires Next(true, s, a).Some? && !UsableRead(a, path)
    ensures FirstInv(actions, Next(true, s, a).value, path)
  {
    if a.id in s.calls {
      assert CallInv(actions, s.calls[a.id], path);
    }
    match a
    case Lookup(id, raw) => FirstLoad(actions, s, id, raw, None, path);
    case LookupTheme(id, app, icon) => FirstTheme(actions, s, a, path);
    case Resolve(id, raw) => FirstLoad(actions, s, id, raw, Some(s.calls[id].key), path);
    case GiveUp(id) => FirstTheme(actions, s, a, path);
    case Read(id, asked, ext, file) =>
      if Usable(Icon, file) {
        FirstTheme(actions, s, a, path);
      } else {
        FirstReturn(actions, s, id, asked, "", s.calls[id].theme, path);
      }
    case Store(id) => FirstStore(actions, s, id, path);
    case StoreTheme(id) => FirstTheme(actions, s, a, path);
  }

  /** The requests for the path are the same, and so is what they led to. */
  lemma FirstFrame(actions: seq<Action>, s: State, t: State, path: string)
    requires FirstInv(actions, s, path)
    requires forall i :: i in t.calls && OnPath(t.calls[i], path) ==> i in s.calls && t.calls[i] == s.calls[i]
    requires forall i :: i in s.calls && OnPath(s.calls[i], path) ==> i in t.calls && t.calls[i] == s.calls[i]
    requires path in t.cache <==> path in s.cache
    requires path in t.cache ==> t.cache[path] == s.cache[path]
    requires forall i :: i in t.answers && t.answers[i].key == path ==> i in s.answers && t.answers[i] == s.answers[i]
    ensures FirstInv(actions, t, path)
  {
    if FirstIcon(actions, path).Some? && path !in s.cache {
      var i :| i in s.calls && OnPath(s.calls[i], path);
      assert i in t.calls && OnPath(t.calls[i], path);
    }
  }

  /** Steps that move no request for the path and store nothing under it. */
  lemma FirstTheme(actions: seq<Action>, s: State, a: Action, path: string)
    requires FirstInv(actions, s, path) && ':' !in path && Next(true, s, a).Some?
    requires a.LookupTheme? || a.GiveUp? || a.StoreTheme? || (a.Read? && a.path != path && Usable(Icon, a.file))
    requires a.id in s.calls ==> CallInv(actions, s.calls[a.id], path)
    ensures FirstInv(actions, Next(true, s, a).value, path)
  {
    var t := Next(true, s, a).value;
    if a.LookupTheme? {
      assert ThemeKey(a.app, a.icon) != path;
    }
    FirstFrame(actions, s, t, path);
  }

  lemma FirstStep(actions: seq<Action>, s: State, a: Action, path: string)
    requires FirstInv(actions, s, path) && OwnInv(actions, s, path) && ':' !in path && Next(true, s, a).Some?
    ensures FirstInv(actions + [a], Next(true, s, a).value, path)
  {
    FirstAppend(actions, a, path);
    if UsableRead(a, path) {
      FirstUsable(actions, s, a, path);
    } else {
      FirstOther(actions, s, a, path);
    }
  }

  lemma {:induction false} FirstRun(actions: seq<Action>, path: string)
    requires ':' !in path && Run(true, actions).Some?
    ensures FirstInv(actions, Run(true, actions).value, path)
  {
    if actions != [] {
      var init, a := actions[..|actions| - 1], actions[|actions| - 1];
      FirstRun(init, path);
      OwnRun(true, init, path);
      FirstStep(init, Run(true, init).value, a, path);
      assert init + [a] == actions;
    }
  }

  /** While requests for one path do not overlap, a path without a colon is answered with nothing or
      with the bytes of its first usable read, and so is its cache entry. */
  lemma AnswersFirstBytes(actions: seq<Action>, path: string, id: Id)
    requires ':' !in path && Run(true, actions).Some?
    ensures var s := Run(true, actions).value;
            && (path in s.cache ==> ShowsFirst(actions, path, s.cache[path]))
            && (id in s.answers && s.answers[id].key == path ==>
                  s.answers[id].url == "" || ShowsFirst(actions, path, s.answers[id].url))
  {
    FirstRun(actions, path);
  }

  /** Wherever the schedule leads, the entry of the path shows the first bytes read from it. */
  ghost predicate KeepsFirst(exclusive: bool, actions: seq<Action>, path: string) {
    var r := Run(exclusive, actions);
    r.Some? && path in r.value.cache ==> ShowsFirst(actions, path, r.value.cache[path])
  }

  /** Every usable read of the path gives `a` or `b`. */
  ghost predicate OnlyContents(actions: seq<Action>, path: string, a: seq<byte>, b: seq<byte>) {
    forall i :: 0 <= i < |actions| && UsableRead(actions[i], path) ==>
      actions[i].file.data == a || actions[i].file.data == b
  }

  lemma {:induction false} SomeReadIsFirst(actions: seq<Action>, path: string, a: seq<byte>)
    requires OnlyContents(actions, path, a, a) && (exists i :: 0 <= i < |actions| && UsableRead(actions[i], path))
    ensures FirstIcon(actions, path) == Some(a)
  {
    var init, last := actions[..|actions| - 1], actions[|actions| - 1];
    var i :| 0 <= i < |actions| && UsableRead(actions[i], path);
    if exists j :: 0 <= j < |init| && UsableRead(init[j], path) {
      SomeReadIsFirst(init, path, a);
    } else {
      assert i == |init|;
      NoReadNoFirst(init, path);
    }
  }

  lemma {:induction false} NoReadNoFirst(actions: seq<Action>, path: string)
    requires forall i :: 0 <= i < |actions| ==> !UsableRead(actions[i], path)
    ensures FirstIcon(actions, path).None?
  {
    if actions != [] {
      NoReadNoFirst(actions[..|actions| - 1], path);
    }
  }

  /** Two requests miss together. */
  lemma BothMiss(path: string) returns (actions: seq<Action>)
    requires IsAbs(path)
    ensures actions == [Lookup(0, path), Lookup(1, path)]
    ensures Run(false, actions)
            == Some(State(map[], map[0 := Missed(path, None), 1 := Missed(path, None)], map[]))
  {
    AbsKept(path);
    var m := Missed(path, None);
    var s1 := State(map[], map[0 := m], map[]);
    Extend(false, [], Start(), Lookup(0, path), s1);
    Extend(false, [] + [Lookup(0, path)], s1, Lookup(1, path), State(map[], map[0 := m, 1 := m], map[]));
    actions := [] + [Lookup(0, path)] + [Lookup(1, path)];
  }

  /** Then each reads the file. */
  lemma BothRead(path: string, a: seq<byte>, b: seq<byte>, ext: string)
    returns (actions: seq<Action>, ua: string, ub: string)
    requires IsAbs(path) && |a| <= SizeCap(Icon) && |b| <= SizeCap(Icon)
    ensures OnlyContents(actions, path, a, b) && FirstIcon(actions, path) == Some(a)
    ensures Run(false, actions)
            == Some(State(map[], map[0 := Loaded(path, ua, None), 1 := Loaded(path, ub, None)], map[]))
    ensures DecodeBase64Image(ub) == Image(Some(b), "")
  {
    var past := BothMiss(path);
    ua, ub := DataUrl(Icon, ext, a), DataUrl(Icon, ext, b);
    var m := Missed(path, None);
    var s2 := State(map[], map[0 := m, 1 := m], map[]);
    ReadStep(false, past, s2, 0, path, ext, Contents(a));
    var s3 := State(map[], map[0 := Loaded(path, ua, None), 1 := m], map[]);
    assert s2.calls[0 := s3.calls[0]] == s3.calls;
    NoReadNoFirst(past, path);
    FirstAppend(past, Read(0, path, ext, Contents(a)), path);
    past := past + [Read(0, path, ext, Contents(a))];
    ReadStep(false, past, s3, 1, path, ext, Contents(b));
    assert s3.calls[1 := Loaded(path, ub, None)] == map[0 := Loaded(path, ua, None), 1 := Loaded(path, ub, None)];
    FirstAppend(past, Read(1, path, ext, Contents(b)), path);
    actions := past + [Read(1, path, ext, Contents(b))];
    TransportRoundTrip(Icon, ext, b);
  }

  /** The file changes between their reads, and the later store wins. */
  lemma OverlapKeepsLater(path: string, a: seq<byte>, b: seq<byte>) returns (actions: seq<Action>)
    requires IsAbs(path) && a != b && |a| <= SizeCap(Icon) && |b| <= SizeCap(Icon)
    ensures OnlyContents(actions, path, a, b) && !KeepsFirst(false, actions, path)
  {
    var a4, ua, ub := BothRead(path, a, b, ".png");
    var s4 := Run(false, a4).value;
    var s5 := State(map[path := ua], map[1 := Loaded(path, ub, None)], map[0 := Answer(path, ua)]);
    assert s4.calls - {0} == s5.calls;
    Extend(false, a4, s4, Store(0), s5);
    FirstAppend(a4, Store(0), path);
    var a5 := a4 + [Store(0)];
    var s6 := Next(false, s5, Store(1)).value;
    Extend(false, a5, s5, Store(1), s6);
    FirstAppend(a5, Store(1), path);
    actions := a5 + [Store(1)];
    assert s6.cache[path] == ub;
  }

  /** The exact condition: the entry of a path without a colon shows its first usable read in every run
      in which the file holds `a` or `b`, if and only if requests for one path do not overlap or the
      file does not change. */
  lemma KeepsFirstIff(exclusive: bool, path: string, a: seq<byte>, b: seq<byte>)
    requires IsAbs(path) && ':' !in path && |a| <= SizeCap(Icon) && |b| <= SizeCap(Icon)
    ensures (forall actions :: OnlyContents(actions, path, a, b) ==> KeepsFirst(exclusive, actions, path))
            <==> exclusive || a == b
  {
    if exclusive || a == b {
      forall actions | OnlyContents(actions, path, a, b) ensures KeepsFirst(exclusive, actions, path) {
        KeepsFirstIf(exclusive, actions, path, a, b);
      }
    } else {
      var actions := OverlapKeepsLater(path, a, b);
      assert !KeepsFirst(exclusive, actions, path);
    }
  }

  lemma KeepsFirstIf(exclusive: bool, actions: seq<Action>, path: string, a: seq<byte>, b: seq<byte>)
    requires ':' !in path && OnlyContents(actions, path, a, b) && (exclusive || a == b)
    ensures KeepsFirst(exclusive, actions, path)
  {
    var r := Run(exclusive, actions);
    if r.Some? && path in r.value.cache {
      if exclusive {
        FirstRun(actions, path);
      } else {
        OwnRun(false, actions, path);
        SomeReadIsFirst(actions, path, a);
      }
    }
  }

  // ----------------------------------------------------- empty answers

  /** A reason to answer with nothing: no absolute path, no usable file, no icon found, no name given. */
  predicate Excuses(a: Action, id: Id) {
    && a.id == id
    && (match a
        case Lookup(_, raw) => !IsAbs(Strip(raw))
        case Resolve(_, raw) => !IsAbs(Strip(raw))
        case Read(_, _, _, file) => file.Unreadable? || |file.data| > 150 * 1024
        case GiveUp(_) => true
        case LookupTheme(_, app, icon) => app == "" && icon == ""
        case _ => false)
  }

  ghost predicate Excused(actions: seq<Action>, id: Id) {
    exists i :: 0 <= i < |actions| && Excuses(actions[i], id)
  }

  ghost predicate FullInv(actions: seq<Action>, s: State) {
    && (forall p :: p in s.cache ==> s.cache[p] != "")
    && (forall i :: i in s.calls && (s.calls[i].Loaded? || s.calls[i].Keying?) ==> s.calls[i].url != "")
    && (forall i :: i in s.answers && s.answers[i].url == "" ==> Excused(actions, i))
  }

  lemma ExcusedLater(actions: seq<Action>, a: Action, id: Id)
    ensures Excused(actions, id) ==> Excused(actions + [a], id)
    ensures Excuses(a, id) ==> Excused(actions + [a], id)
  {
    if Excused(actions, id) {
      var i :| 0 <= i < |actions| && Excuses(actions[i], id);
      assert (actions + [a])[i] == actions[i];
    }
    assert (actions + [a])[|actions|] == a;
  }

  lemma FullReturn(actions: seq<Action>, s: State, id: Id, path: string, url: string, theme: Option<string>)
    requires FullInv(actions, s) && (url == "" ==> Excused(actions, id))
    ensures FullInv(actions, Return(s, id, path, url, theme))
  {
  }

  lemma FullStep(exclusive: bool, actions: seq<Action>, s: State, a: Action)
    requires FullInv(actions, s) && Next(exclusive, s, a).Some?
    ensures FullInv(actions + [a], Next(exclusive, s, a).value)
  {
    var now := actions + [a];
    forall i ensures Excused(actions, i) ==> Excused(now, i) {
      ExcusedLater(actions, a, i);
    }
    ExcusedLater(actions, a, a.id);
    assert FullInv(now, s);
    FullMoved(exclusive, now, s, a);
  }

  lemma FullMoved(exclusive: bool, actions: seq<Action>, s: State, a: Action)
    requires FullInv(actions, s) && Next(exclusive, s, a).Some? && (Excuses(a, a.id) ==> Excused(actions, a.id))
    ensures FullInv(actions, Next(exclusive, s, a).value)
  {
    match a
    case Lookup(id, raw) => FullLoad(exclusive, actions, s, id, raw, None);
    case Resolve(id, raw) => FullLoad(exclusive, actions, s, id, raw, Some(s.calls[id].key));
    case Read(id, path, ext, file) =>
      if !Usable(Icon, file) {
        FullReturn(actions, s, id, path, "", s.calls[id].theme);
      }
    case Store(id) =>
      var c := s.calls[id];
      FullReturn(actions, s.(cache := s.cache[c.path := c.url]), id, c.path, c.url, c.theme);
    case _ =>
  }

  lemma FullLoad(exclusive: bool, actions: seq<Action>, s: State, id: Id, raw: string, theme: Option<string>)
    requires FullInv(actions, s) && Load(exclusive, s, id, raw, theme).Some?
    requires !IsAbs(Strip(raw)) ==> Excused(actions, id)
    ensures FullInv(actions, Load(exclusive, s, id, raw, theme).value)
  {
    var path := Strip(raw);
    if !IsAbs(path) {
      FullReturn(actions, s, id, path, "", theme);
    } else if path in s.cache {
      FullReturn(actions, s, id, path, s.cache[path], theme);
    }
  }

  /** In every interleaving a request is answered with nothing only for a reason of its own; in particular
      never when the cache has an entry for an absolute path. */
  lemma {:induction false} NothingOnlyForAReason(exclusive: bool, actions: seq<Action>)
    requires Run(exclusive, actions).Some?
    ensures FullInv(actions, Run(exclusive, actions).value)
  {
    if actions != [] {
      var init, a := actions[..|actions| - 1], actions[|actions| - 1];
      NothingOnlyForAReason(exclusive, init);
      FullStep(exclusive, init, Run(exclusive, init).value, a);
      assert init + [a] == actions;
    }
  }

  /** A request that has begun can always be answered, whatever the others are doing. */
  lemma CanAnswer(exclusive: bool, past: seq<Action>, s: State, id: Id) returns (actions: seq<Action>, t: State)
    requires Run(exclusive, past) == Some(s) && id in s.calls
    ensures Run(exclusive, actions) == Some(t) && id in t.answers && id !in t.calls
  {
    var c := s.calls[id];
    match c
    case Searching(key) =>
      actions, t := Take(exclusive, past, s, GiveUp(id));
    case Keying(key, url) =>
      actions, t := Take(exclusive, past, s, StoreTheme(id));
    case Missed(path, theme) =>
      actions, t := Take(exclusive, past, s, Read(id, path, "", Unreadable));
    case Loaded(path, url, theme) =>
      actions, t := Take(exclusive, past, s, Store(id));
      if theme.Some? && url != "" {
        actions, t := Take(exclusive, actions, t, StoreTheme(id));
      }
  }

  lemma Take(exclusive: bool, past: seq<Action>, s: State, a: Action) returns (actions: seq<Action>, t: State)
    requires Run(exclusive, past) == Some(s) && Next(exclusive, s, a).Some?
    ensures actions == past + [a] && Run(exclusive, actions) == Some(t) && Some(t) == Next(exclusive, s, a)
  {
    actions, t := past + [a], Next(exclusive, s, a).value;
    Extend(exclusive, past, s, a, t);
  }

  // ------------------------------------------------------- the code in place

  /** The extractor object, with one request at a time; `answers` and `actions` record what it did. */
  class IconExtractor {
    var cache: map<string, string>
    ghost var answers: map<Id, Answer>
    ghost var actions: seq<Action>

    ghost predicate Valid()
      reads this
    {
      Run(true, actions) == Some(State(cache, map[], answers))
    }

    constructor ()
      ensures Valid() && actions == []
    {
      cache, answers, actions := map[], map[], [];
    }

    /** The steps of one request have been taken and lead to this state. */
    ghost method Took(steps: seq<Action>, s: State)
      requires s.calls == map[] && s.cache == cache && Run(true, actions + steps) == Some(s)
      modifies this`answers, this`actions
      ensures Valid() && actions == old(actions) + steps && answers == s.answers
    {
      answers, actions := s.answers, actions + steps;
    }

    /** A path request: it is answered from the cache, or from the file as it is now. */
    method ExtractFromPath(ghost id: Id, raw: string, ext: string, file: File) returns (url: string)
      requires Valid() && id !in answers
      modifies this
      ensures Valid() && id in answers && answers[id] == Answer(Strip(raw), url) && old(actions) <= actions
      ensures var path := Strip(raw);
              if !IsAbs(path) then url == "" && cache == old(cache)
              else if path in old(cache) then url == old(cache)[path] && cache == old(cache)
              else if file.Contents? && |file.data| <= 150 * 1024 then
                DecodeBase64Image(url) == Image(Some(file.data), "") && cache == old(cache)[path := url]
              else url == "" && cache == old(cache)
    {
      if file.Contents? {
        TransportRoundTrip(Icon, ext, file.data);
      }
      var path := Strip(raw);
      ghost var s := State(cache, map[], answers);
      if !IsAbs(path) || path in cache {
        url := if IsAbs(path) then cache[path] else "";
        assert s.calls - {id} == map[];
        Extend(true, actions, s, Lookup(id, raw), Reply(s, id, path, url));
        Took([Lookup(id, raw)], Reply(s, id, path, url));
        return;
      }
      if file.Unreadable? || |file.data| > SizeCap(Icon) {
        ghost var steps := MissUnusable(actions, s, id, raw, ext, file);
        Took(steps, Reply(s, id, path, ""));
        return "";
      }
      url := DataUrl(Icon, ext, file.data);
      ghost var steps := MissStored(actions, s, id, raw, ext, file);
      cache := cache[path := url];
      Took(steps, Reply(s.(cache := cache), id, path, url));
    }
  }

  lemma MissStep(past: seq<Action>, s: State, id: Id, raw: string)
    requires Run(true, past) == Some(s) && s.calls == map[] && id !in s.answers
    requires IsAbs(Strip(raw)) && Strip(raw) !in s.cache
    ensures Run(true, past + [Lookup(id, raw)]) == Some(s.(calls := map[id := Missed(Strip(raw), None)]))
  {
    Extend(true, past, s, Lookup(id, raw), s.(calls := map[id := Missed(Strip(raw), None)]));
  }

  /** A request that misses and finds no usable file. */
  lemma MissUnusable(past: seq<Action>, s: State, id: Id, raw: string, ext: string, file: File)
    returns (steps: seq<Action>)
    requires Run(true, past) == Some(s) && s.calls == map[] && id !in s.answers
    requires IsAbs(Strip(raw)) && Strip(raw) !in s.cache && !Usable(Icon, file)
    ensures Run(true, past + steps) == Some(Reply(s, id, Strip(raw), ""))
  {
    var path := Strip(raw);
    MissStep(past, s, id, raw);
    var s1 := s.(calls := map[id := Missed(path, None)]);
    assert s1.calls - {id} == s.calls - {id};
    Extend(true, past + [Lookup(id, raw)], s1, Read(id, path, ext, file), Reply(s, id, path, ""));
    steps := [Lookup(id, raw)] + [Read(id, path, ext, file)];
    assert past + [Lookup(id, raw)] + [Read(id, path, ext, file)] == past + steps;
  }

  /** A request that has missed reads the file and stores it. */
  lemma LoadStored(past: seq<Action>, s: State, id: Id, path: string, ext: string, file: File)
    requires Run(true, past) == Some(s.(calls := map[id := Missed(path, None)])) && s.calls == map[] && Usable(Icon, file)
    ensures var url := DataUrl(Icon, ext, file.data);
            Run(true, past + [Read(id, path, ext, file)] + [Store(id)])
            == Some(Reply(s.(cache := s.cache[path := url]), id, path, url))
  {
    var url := DataUrl(Icon, ext, file.data);
    var s1, s2 := s.(calls := map[id := Missed(path, None)]), s.(calls := map[id := Loaded(path, url, None)]);
    ReadStep(true, past, s1, id, path, ext, file);
    assert s1.calls[id := s2.calls[id]] == s2.calls && s2.calls - {id} == s.calls - {id};
    StoreStep(true, past + [Read(id, path, ext, file)], s2, id, Loaded(path, url, None));
  }

  lemma MissStored(past: seq<Action>, s: State, id: Id, raw: string, ext: string, file: File)
    returns (steps: seq<Action>)
    requires Run(true, past) == Some(s) && s.calls == map[] && id !in s.answers
    requires IsAbs(Strip(raw)) && Strip(raw) !in s.cache && Usable(Icon, file)
    ensures var path, url := Strip(raw), DataUrl(Icon, ext, file.data);
            Run(true, past + steps) == Some(Reply(s.(cache := s.cache[path := url]), id, path, url))
  {
    var path := Strip(raw);
    MissStep(past, s, id, raw);
    LoadStored(past + [Lookup(id, raw)], s, id, path, ext, file);
    steps := [Lookup(id, raw)] + [Read(id, path, ext, file)] + [Store(id)];
    assert past + [Lookup(id, raw)] + [Read(id, path, ext, file)] + [Store(id)] == past + steps;
  }
}
