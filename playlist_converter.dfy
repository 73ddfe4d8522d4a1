/** PlaylistConverter.ConvertLegacyPlaylist
    (BinaryBlister.Conversion/PlaylistConverter.cs): a legacy JSON playlist,
    already deserialised, turned into a binary playlist object.

    The helpers the converter calls but that are not part of this model
    (Utils.ParseBase64Image, MimeType.GetMimeType, string.ToLower,
    Utils.ValidHash, Utils.ParseKey and the string constructors of
    HashBeatmap and KeyBeatmap) are fields of an `Environment`, and the
    clock is a parameter. */
module PlaylistConverter {
  import opened Wrappers
  import opened BinaryIO
  import opened Beatmaps
  import opened ConversionFlags
  import opened FlagUtils
  import Playlists

  // ---------------------------------------------------------------------
  // The legacy input (Types/LegacySong.cs, Types/LegacyPlaylist.cs)

  /** A legacy song: each identification field may be missing (null). */
  datatype LegacySong = LegacySong(key: Option<Text>, hash: Option<Text>, levelId: Option<Text>)

  /** A legacy playlist. `songs` is a C# array: the array itself and each
      of its elements may be null. */
  datatype LegacyPlaylist = LegacyPlaylist(
    playlistTitle: Text,
    playlistAuthor: Text,
    playlistDescription: Option<Text>,
    image: Option<Text>,
    songs: Option<seq<Option<LegacySong>>>)

  // ---------------------------------------------------------------------
  // What the converter relies on

  /** What MimeType.GetMimeType says about a decoded cover. */
  datatype MimeType = Png | Jpg | OtherMime(name: Text)

  datatype Environment = Environment(
    /** Utils.ParseBase64Image: `None` when it throws InvalidBase64Exception. */
    parseBase64Image: Option<Text> -> Option<seq<byte>>,
    getMimeType: seq<byte> -> MimeType,
    /** string.ToLower on a hash. */
    toLower: Text -> Text,
    validHash: Text -> bool,
    /** Utils.ParseKey: `None` when it returns null. */
    parseKey: Text -> Option<Text>,
    /** The 20 bytes new HashBeatmap(string) stores. */
    hashOf: Text -> seq<byte>,
    /** The number new KeyBeatmap(string) stores. */
    keyOf: Text -> u32)

  /** The exceptions a conversion can end in. */
  datatype ConversionError =
    | InvalidBase64              // InvalidBase64Exception, rethrown
    | InvalidCover(mimeType: Text)
    | InvalidMapHash(hash: Text) // carries the lower-cased hash
    | InvalidMapKey(key: Text)   // carries the key as given
    | NullReference              // a null `Songs` array or a null song

  /** The three booleans computed from the flags before anything else. */
  datatype Leniency = Leniency(ignoreInvalidHashes: bool, ignoreInvalidKeys: bool, ignoreInvalidCover: bool)

  function LeniencyOf(flags: Flags): (l: Leniency)
    ensures l.ignoreInvalidHashes <==> flags & 1 != 0
    ensures l.ignoreInvalidKeys <==> flags & 2 != 0
    ensures l.ignoreInvalidCover <==> l.ignoreInvalidHashes && l.ignoreInvalidKeys
  {
    Leniency(
      HasFlag(flags, IgnoreInvalidHashes),
      HasFlag(flags, IgnoreInvalidKeys),
      HasFlag(flags, IgnoreInvalidCover))
  }

  // ---------------------------------------------------------------------
  // The cover

  /** The try/catch around the cover: only a base64 failure can be
      forgiven; an unknown image type always fails. */
  function ConvertCover(image: Option<Text>, l: Leniency, env: Environment): (r: Result<Option<seq<byte>>, ConversionError>)
    ensures r.Ok? ==> r.value == env.parseBase64Image(image)
    ensures r.Err? ==> r.error == InvalidBase64 || r.error.InvalidCover?
  {
    match env.parseBase64Image(image)
    case None => if l.ignoreInvalidCover then Ok(None) else Err(InvalidBase64)
    case Some(cover) =>
      match env.getMimeType(cover)
      case OtherMime(name) => Err(InvalidCover(name))
      case _ => Ok(Some(cover))
  }

  // ---------------------------------------------------------------------
  // The songs

  /** The entry a song asks for, before it is stamped with a time. */
  datatype Target = ByHash(hash: Text) | ByKey(key: Text) | ByLevelId(levelId: Text)

  /** What one iteration of the loop does with a song. */
  datatype SongOutcome = Add(target: Target) | Skip | Throw(error: ConversionError)

  /** The body of the foreach: a hash decides first, then a key, then a
      level id; an invalid hash or key is skipped (`continue`) or thrown
      as the flags say, and a song with none of the three adds nothing. */
  function Decide(song: Option<LegacySong>, l: Leniency, env: Environment): (o: SongOutcome)
    ensures song.None? <==> o == Throw(NullReference)
  {
    match song
    case None => Throw(NullReference)
    case Some(s) =>
      if s.hash.Some? then
        var hash := env.toLower(s.hash.value);
        if !env.validHash(hash) then
          if l.ignoreInvalidHashes then Skip else Throw(InvalidMapHash(hash))
        else Add(ByHash(s.hash.value))
      else if s.key.Some? then
        if env.parseKey(s.key.value).None? then
          if l.ignoreInvalidKeys then Skip else Throw(InvalidMapKey(s.key.value))
        else Add(ByKey(s.key.value))
      else if s.levelId.Some? then Add(ByLevelId(s.levelId.value))
      else Skip
  }

  /** The entry the loop adds for `t`, its DateAdded set to `time`. The
      hash and key entries are built from the song's own strings, not
      from the lower-cased hash or the parsed key. */
  function Stamp(t: Target, time: UnixSeconds, env: Environment): Beatmap {
    match t
    case ByHash(h) => HashBeatmap(time, env.hashOf(h))
    case ByKey(k) => KeyBeatmap(time, env.keyOf(k))
    case ByLevelId(id) => LevelIdBeatmap(time, id)
  }

  /** The loop over the songs: the targets of the songs that are added, in
      song order, or the error of the first song that throws. */
  function Kept(songs: seq<Option<LegacySong>>, l: Leniency, env: Environment): (r: Result<seq<Target>, ConversionError>)
    ensures r.Ok? ==> |r.value| <= |songs|
  {
    if songs == [] then Ok([])
    else
      match Decide(songs[0], l, env)
      case Throw(e) => Err(e)
      case Skip => Kept(songs[1..], l, env)
      case Add(t) =>
        match Kept(songs[1..], l, env)
        case Err(e) => Err(e)
        case Ok(ts) => Ok([t] + ts)
  }

  /** The targets of the added songs, failures ignored: the filter the
      loop applies when nothing throws. */
  function Targets(songs: seq<Option<LegacySong>>, l: Leniency, env: Environment): seq<Target> {
    if songs == [] then []
    else
      match Decide(songs[0], l, env)
      case Add(t) => [t] + Targets(songs[1..], l, env)
      case _ => Targets(songs[1..], l, env)
  }

  /** Entry `k` is stamped with `clock(k)`: the time DateTime.Now gives
      when the `k`-th entry is added. */
  function StampAll(ts: seq<Target>, clock: nat -> UnixSeconds, env: Environment): seq<Beatmap> {
    seq(|ts|, k requires 0 <= k < |ts| => Stamp(ts[k], clock(k), env))
  }

  /** Adding one more entry stamps it with the next reading of the clock. */
  lemma StampAllSnoc(ts: seq<Target>, t: Target, clock: nat -> UnixSeconds, env: Environment)
    ensures StampAll(ts + [t], clock, env) == StampAll(ts, clock, env) + [Stamp(t, clock(|ts|), env)]
  {
  }

  /** ConvertLegacyPlaylist as a function of its inputs. */
  function Convert(legacy: LegacyPlaylist, flags: Flags, env: Environment, clock: nat -> UnixSeconds): (r: Result<Playlists.PlaylistData, ConversionError>)
    ensures r.Ok? ==> legacy.songs.Some? && |r.value.maps| <= |legacy.songs.value|
  {
    var l := LeniencyOf(flags);
    match ConvertCover(legacy.image, l, env)
    case Err(e) => Err(e)
    case Ok(cover) =>
      match legacy.songs
      case None => Err(NullReference)
      case Some(songs) =>
        match Kept(songs, l, env)
        case Err(e) => Err(e)
        case Ok(ts) =>
          Ok(Playlists.PlaylistData(legacy.playlistTitle, legacy.playlistAuthor, legacy.playlistDescription,
            cover, StampAll(ts, clock, env)))
  }

  // ---------------------------------------------------------------------
  // The loop, song by song

  /** The songs `a` then the songs `b`: the first error wins, otherwise
      the targets of `a` come before those of `b`. */
  lemma {:induction false} KeptAppend(a: seq<Option<LegacySong>>, b: seq<Option<LegacySong>>, l: Leniency, env: Environment)
    ensures Kept(a + b, l, env) ==
      match Kept(a, l, env)
      case Err(e) => Err(e)
      case Ok(x) =>
        match Kept(b, l, env)
        case Err(e) => Err(e)
        case Ok(y) => Ok(x + y)
    decreases |a|
  {
    if a == [] {
      assert a + b == b;
      match Kept(b, l, env)
      case Err(_) =>
      case Ok(y) => assert [] + y == y;
    } else {
      assert (a + b)[1..] == a[1..] + b;
      KeptAppend(a[1..], b, l, env);
      match Decide(a[0], l, env)
      case Throw(_) =>
      case Skip =>
      case Add(t) =>
        match Kept(a[1..], l, env)
        case Err(_) =>
        case Ok(x) =>
          match Kept(b, l, env)
          case Err(_) =>
          case Ok(y) => assert [t] + (x + y) == ([t] + x) + y;
    }
  }

  /** One more song after the songs `a`. */
  lemma KeptSnoc(a: seq<Option<LegacySong>>, song: Option<LegacySong>, l: Leniency, env: Environment)
    ensures Kept(a + [song], l, env) ==
      match Kept(a, l, env)
      case Err(e) => Err(e)
      case Ok(ts) =>
        match Decide(song, l, env)
        case Throw(e) => Err(e)
        case Skip => Ok(ts)
        case Add(t) => Ok(ts + [t])
  {
    KeptAppend(a, [song], l, env);
    assert [song][1..] == [];
    match Decide(song, l, env)
    case Throw(_) =>
    case Skip =>
      assert Kept([song], l, env) == Ok([]);
      if Kept(a, l, env).Ok? {
        assert Kept(a, l, env).value + [] == Kept(a, l, env).value;
      }
    case Add(t) =>
      assert [t] + [] == [t];
      assert Kept([song], l, env) == Ok([t]);
  }

  /** A song that fails ends the loop: nothing after it is looked at. */
  lemma KeptStopsAt(songs: seq<Option<LegacySong>>, i: nat, l: Leniency, env: Environment)
    requires i <= |songs| && Kept(songs[..i], l, env).Err?
    ensures Kept(songs, l, env) == Kept(songs[..i], l, env)
  {
    assert songs == songs[..i] + songs[i..];
    KeptAppend(songs[..i], songs[i..], l, env);
  }

  // ---------------------------------------------------------------------
  // What the conversion promises

  /** The loop fails exactly when some song fails, and then with the error
      of the first one. */
  lemma {:induction false} KeptFails(songs: seq<Option<LegacySong>>, l: Leniency, env: Environment, e: ConversionError)
    ensures Kept(songs, l, env) == Err(e) <==>
      exists j :: 0 <= j < |songs| && Decide(songs[j], l, env) == Throw(e) &&
        forall i :: 0 <= i < j ==> !Decide(songs[i], l, env).Throw?
    decreases |songs|
  {
    if songs != [] {
      KeptFails(songs[1..], l, env, e);
      if Kept(songs, l, env) == Err(e) {
        if !Decide(songs[0], l, env).Throw? {
          var j :| 0 <= j < |songs[1..]| && Decide(songs[1..][j], l, env) == Throw(e) &&
            forall i :: 0 <= i < j ==> !Decide(songs[1..][i], l, env).Throw?;
          assert Decide(songs[j + 1], l, env) == Throw(e);
          forall i | 0 <= i < j + 1
            ensures !Decide(songs[i], l, env).Throw?
          {
            if i > 0 {
              assert songs[i] == songs[1..][i - 1];
            }
          }
        }
      }
      if exists j :: 0 <= j < |songs| && Decide(songs[j], l, env) == Throw(e) &&
          forall i :: 0 <= i < j ==> !Decide(songs[i], l, env).Throw? {
        var j :| 0 <= j < |songs| && Decide(songs[j], l, env) == Throw(e) &&
          forall i :: 0 <= i < j ==> !Decide(songs[i], l, env).Throw?;
        if j > 0 {
          forall i | 0 <= i < j - 1
            ensures !Decide(songs[1..][i], l, env).Throw?
          {
            assert songs[1..][i] == songs[i + 1];
          }
          assert Decide(songs[1..][j - 1], l, env) == Throw(e);
        }
      }
    }
  }

  /** When no song fails, the loop adds the targets of the added songs,
      in song order. */
  lemma {:induction false} KeptSucceeds(songs: seq<Option<LegacySong>>, l: Leniency, env: Environment)
    requires forall i :: 0 <= i < |songs| ==> !Decide(songs[i], l, env).Throw?
    ensures Kept(songs, l, env) == Ok(Targets(songs, l, env))
    decreases |songs|
  {
    if songs != [] {
      assert !Decide(songs[0], l, env).Throw?;
      forall i | 0 <= i < |songs[1..]|
        ensures !Decide(songs[1..][i], l, env).Throw?
      {
        assert songs[1..][i] == songs[i + 1];
      }
      KeptSucceeds(songs[1..], l, env);
    }
  }

  /** A song that is skipped, by `continue` or for having no field at
      all, adds nothing wherever it stands. */
  lemma SkipAddsNothing(a: seq<Option<LegacySong>>, song: Option<LegacySong>, b: seq<Option<LegacySong>>, l: Leniency, env: Environment)
    requires Decide(song, l, env) == Skip
    ensures Kept(a + [song] + b, l, env) == Kept(a + b, l, env)
  {
    KeptAppend(a + [song], b, l, env);
    KeptSnoc(a, song, l, env);
    KeptAppend(a, b, l, env);
  }

  /** A song with no hash, key or level id is always skipped. */
  lemma EmptySongSkipped(l: Leniency, env: Environment)
    ensures Decide(Some(LegacySong(None, None, None)), l, env) == Skip
  {
  }

  /** The priority rule: once a hash is present the key and level id are
      not looked at, and once a key is present the level id is not. */
  lemma LaterFieldsIgnored(s: LegacySong, key: Option<Text>, levelId: Option<Text>, l: Leniency, env: Environment)
    ensures s.hash.Some? ==> Decide(Some(s), l, env) == Decide(Some(s.(key := key, levelId := levelId)), l, env)
    ensures s.hash.None? && s.key.Some? ==> Decide(Some(s), l, env) == Decide(Some(s.(levelId := levelId)), l, env)
  {
  }

  /** The hash branch: the lower-cased hash is validated; a valid one adds
      an entry built from the hash as given; an invalid one is skipped
      when IgnoreInvalidHashes is set and otherwise throws InvalidMapHash
      with the lower-cased hash. */
  lemma HashRule(s: LegacySong, flags: Flags, env: Environment)
    requires s.hash.Some?
    ensures var o := Decide(Some(s), LeniencyOf(flags), env);
      var lower := env.toLower(s.hash.value);
      && (env.validHash(lower) <==> o == Add(ByHash(s.hash.value)))
      && (!env.validHash(lower) ==>
            o == if HasFlag(flags, IgnoreInvalidHashes) then Skip else Throw(InvalidMapHash(lower)))
  {
  }

  /** The key branch: a key Utils.ParseKey rejects is skipped exactly when
      IgnoreInvalidKeys is set, and fails otherwise; an accepted key adds
      an entry built from the key as given. */
  lemma KeyRule(s: LegacySong, flags: Flags, env: Environment)
    requires s.hash.None? && s.key.Some?
    ensures var o := Decide(Some(s), LeniencyOf(flags), env);
      && (env.parseKey(s.key.value).Some? <==> o == Add(ByKey(s.key.value)))
      && (env.parseKey(s.key.value).None? ==>
            o == if HasFlag(flags, IgnoreInvalidKeys) then Skip else Throw(InvalidMapKey(s.key.value)))
  {
  }

  /** Level ids are taken as they are: they never fail and never skip. */
  lemma LevelIdRule(s: LegacySong, l: Leniency, env: Environment)
    requires s.hash.None? && s.key.None? && s.levelId.Some?
    ensures Decide(Some(s), l, env) == Add(ByLevelId(s.levelId.value))
  {
  }

  /** Title, author and description are copied as they are. */
  lemma MetadataCopied(legacy: LegacyPlaylist, flags: Flags, env: Environment, clock: nat -> UnixSeconds)
    requires Convert(legacy, flags, env, clock).Ok?
    ensures var d := Convert(legacy, flags, env, clock).value;
      d.title == legacy.playlistTitle && d.author == legacy.playlistAuthor &&
      d.description == legacy.playlistDescription
  {
  }

  /** The cover rule: a cover that decodes to an unknown image type fails
      whatever the flags are; a base64 failure fails unless
      IgnoreInvalidCover is set, and then the cover is absent; a PNG or JPG
      cover is stored as the decoded bytes. Nothing about the songs can
      turn a cover failure into anything else. */
  lemma CoverRule(legacy: LegacyPlaylist, flags: Flags, env: Environment, clock: nat -> UnixSeconds)
    ensures var decoded := env.parseBase64Image(legacy.image);
      var r := Convert(legacy, flags, env, clock);
      && (decoded.Some? && env.getMimeType(decoded.value).OtherMime? ==>
            r == Err(InvalidCover(env.getMimeType(decoded.value).name)))
      && (decoded.None? && !HasFlag(flags, IgnoreInvalidCover) ==> r == Err(InvalidBase64))
      && (r.Ok? ==> r.value.cover == decoded)
      && (r.Ok? && decoded.Some? ==> env.getMimeType(decoded.value) == Png || env.getMimeType(decoded.value) == Jpg)
      && (r.Ok? && decoded.None? ==> HasFlag(flags, IgnoreInvalidCover))
      && (decoded.None? && HasFlag(flags, IgnoreInvalidCover) ==> r != Err(InvalidBase64))
  {
    var l := LeniencyOf(flags);
    if legacy.songs.Some? && Kept(legacy.songs.value, l, env) == Err(InvalidBase64) {
      KeptFails(legacy.songs.value, l, env, InvalidBase64);
      var j :| 0 <= j < |legacy.songs.value| && Decide(legacy.songs.value[j], l, env) == Throw(InvalidBase64);
      SongErrors(legacy.songs.value[j], l, env);
    }
  }

  /** A song throws only a null reference, an invalid hash or an invalid
      key: cover errors never come from the loop. */
  lemma SongErrors(song: Option<LegacySong>, l: Leniency, env: Environment)
    ensures var o := Decide(song, l, env);
      o.Throw? ==> o.error == NullReference || o.error.InvalidMapHash? || o.error.InvalidMapKey?
  {
  }

  /** An added entry is built from the song's own field: the hash if
      there is one, else the key, else the level id. */
  lemma AddedFromSong(song: Option<LegacySong>, l: Leniency, env: Environment)
    ensures var o := Decide(song, l, env);
      && (o.Add? ==> song.Some?)
      && (o.Add? && o.target.ByHash? ==> song.value.hash == Some(o.target.hash))
      && (o.Add? && o.target.ByKey? ==> song.value.hash.None? && song.value.key == Some(o.target.key))
      && (o.Add? && o.target.ByLevelId? ==>
            song.value.hash.None? && song.value.key.None? && song.value.levelId == Some(o.target.levelId))
  {
  }

  /** Exactly when a conversion succeeds: the image decodes to a PNG or
      JPG, or fails base64 decoding with IgnoreInvalidCover set; the song
      array is there; and no song throws. */
  lemma ConvertSucceeds(legacy: LegacyPlaylist, flags: Flags, env: Environment, clock: nat -> UnixSeconds)
    ensures var decoded := env.parseBase64Image(legacy.image);
      Convert(legacy, flags, env, clock).Ok? <==>
        && (decoded.None? ==> HasFlag(flags, IgnoreInvalidCover))
        && (decoded.Some? ==> !env.getMimeType(decoded.value).OtherMime?)
        && legacy.songs.Some?
        && forall i :: 0 <= i < |legacy.songs.value| ==> !Decide(legacy.songs.value[i], LeniencyOf(flags), env).Throw?
  {
    var l := LeniencyOf(flags);
    if legacy.songs.Some? {
      var songs := legacy.songs.value;
      if Kept(songs, l, env).Ok? {
        KeptOkNoFailure(songs, l, env);
      } else if forall i :: 0 <= i < |songs| ==> !Decide(songs[i], l, env).Throw? {
        KeptSucceeds(songs, l, env);
      }
    }
  }

  /** A loop that succeeds met no failing song. */
  lemma {:induction false} KeptOkNoFailure(songs: seq<Option<LegacySong>>, l: Leniency, env: Environment)
    requires Kept(songs, l, env).Ok?
    ensures forall i :: 0 <= i < |songs| ==> !Decide(songs[i], l, env).Throw?
    decreases |songs|
  {
    if songs != [] {
      KeptOkNoFailure(songs[1..], l, env);
      forall i | 0 < i < |songs|
        ensures !Decide(songs[i], l, env).Throw?
      {
        assert songs[i] == songs[1..][i - 1];
      }
    }
  }

  /** The entries of a converted playlist: the targets of the added songs
      in song order, entry `k` stamped with the `k`-th reading of the
      clock, and as many entries as songs at most. */
  lemma EntriesInSongOrder(legacy: LegacyPlaylist, flags: Flags, env: Environment, clock: nat -> UnixSeconds)
    requires Convert(legacy, flags, env, clock).Ok?
    ensures legacy.songs.Some?
    ensures var maps := Convert(legacy, flags, env, clock).value.maps;
      var ts := Targets(legacy.songs.value, LeniencyOf(flags), env);
      && |maps| == |ts| <= |legacy.songs.value|
      && forall k :: 0 <= k < |maps| ==> maps[k] == Stamp(ts[k], clock(k), env) && maps[k].dateAdded == clock(k)
  {
    var songs := legacy.songs.value;
    KeptOkNoFailure(songs, LeniencyOf(flags), env);
    KeptSucceeds(songs, LeniencyOf(flags), env);
  }

  /** Default sets none of the three ignore bits: converting with it is
      converting strictly. */
  lemma DefaultIsStrictConversion(legacy: LegacyPlaylist, env: Environment, clock: nat -> UnixSeconds)
    ensures Convert(legacy, Default, env, clock) == Convert(legacy, Strict, env, clock)
    ensures LeniencyOf(Default) == Leniency(false, false, false)
  {
    FlagUtils.DefaultIsStrict();
  }

  /** Loose ignores everything it can: no invalid hash, key or base64
      cover fails a Loose conversion. */
  lemma LooseForgives(legacy: LegacyPlaylist, env: Environment, clock: nat -> UnixSeconds)
    ensures LeniencyOf(Loose) == Leniency(true, true, true)
    ensures var r := Convert(legacy, Loose, env, clock);
      r.Err? ==> r.error.InvalidCover? || r.error == NullReference
  {
    var l := LeniencyOf(Loose);
    assert l == Leniency(true, true, true);
    match legacy.songs
    case None =>
    case Some(songs) =>
      if Kept(songs, l, env).Err? {
        var e := Kept(songs, l, env).error;
        KeptFails(songs, l, env, e);
      }
  }

  // ---------------------------------------------------------------------
  // The method

  method ConvertLegacyPlaylist(legacy: LegacyPlaylist, env: Environment, clock: nat -> UnixSeconds, flags: Flags := Default)
    returns (r: Result<Playlists.Playlist, ConversionError>)
    ensures match Convert(legacy, flags, env, clock)
      case Ok(d) => r.Ok? && fresh(r.value) && r.value.Data() == d
      case Err(e) => r == Err(e)
  {
    var ignoreInvalidHashes := HasFlag(flags, IgnoreInvalidHashes);
    var ignoreInvalidKeys := HasFlag(flags, IgnoreInvalidKeys);
    var ignoreInvalidCover := HasFlag(flags, IgnoreInvalidCover);
    ghost var l := LeniencyOf(flags);
    var playlist := new Playlists.Playlist(legacy.playlistTitle, legacy.playlistAuthor, legacy.playlistDescription);
    var decoded := env.parseBase64Image(legacy.image);
    if decoded.None? {
      if ignoreInvalidCover {
        playlist.cover := None;
      } else {
        return Err(InvalidBase64);
      }
    } else {
      var cover := decoded.value;
      var mimeType := env.getMimeType(cover);
      if mimeType.OtherMime? {
        return Err(InvalidCover(mimeType.name));
      }
      playlist.cover := Some(cover);
    }
    if legacy.songs.None? {
      return Err(NullReference);
    }
    var songs := legacy.songs.value;
    ghost var cover := playlist.cover;
    ghost var targets: seq<Target> := [];
    for i := 0 to |songs|
      invariant Kept(songs[..i], l, env) == Ok(targets)
      invariant playlist.title == legacy.playlistTitle && playlist.author == legacy.playlistAuthor
      invariant playlist.description == legacy.playlistDescription && playlist.cover == cover
      invariant playlist.maps == StampAll(targets, clock, env)
    {
      assert songs[..i + 1] == songs[..i] + [songs[i]];
      KeptSnoc(songs[..i], songs[i], l, env);
      if songs[i].None? {
        KeptStopsAt(songs, i + 1, l, env);
        return Err(NullReference);
      }
      var song := songs[i].value;
      var entry: Beatmap;
      ghost var target: Target;
      if song.hash.Some? {
        var hash := env.toLower(song.hash.value);
        var isValid := env.validHash(hash);
        if !isValid {
          if ignoreInvalidHashes {
            continue;
          } else {
            KeptStopsAt(songs, i + 1, l, env);
            return Err(InvalidMapHash(hash));
          }
        }
        entry := HashBeatmap(MinUnixSeconds, env.hashOf(song.hash.value));
        target := ByHash(song.hash.value);
      } else if song.key.Some? {
        var key := env.parseKey(song.key.value);
        if key.None? {
          if ignoreInvalidKeys {
            continue;
          } else {
            KeptStopsAt(songs, i + 1, l, env);
            return Err(InvalidMapKey(song.key.value));
          }
        }
        entry := KeyBeatmap(MinUnixSeconds, env.keyOf(song.key.value));
        target := ByKey(song.key.value);
      } else if song.levelId.Some? {
        entry := LevelIdBeatmap(MinUnixSeconds, song.levelId.value);
        target := ByLevelId(song.levelId.value);
      } else {
        continue;
      }
      entry := WithDateAdded(entry, clock(|playlist.maps|));
      assert entry == Stamp(target, clock(|targets|), env);
      StampAllSnoc(targets, target, clock, env);
      playlist.maps := playlist.maps + [entry];
      targets := targets + [target];
    }
    assert songs[..|songs|] == songs;
    r := Ok(playlist);
  }
}
