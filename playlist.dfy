/** The playlist document (BinaryBlister/Playlist.cs): metadata plus an
    ordered list of beatmaps, framed by the uncompressed magic number
    "Blist.v3". The GZip envelope around the body is not modelled: the
    body bytes follow the magic number directly. */
module Playlists {
  import opened Wrappers
  import opened BinaryIO
  import Beatmaps
  import Repeated

  type Beatmap = Beatmaps.Beatmap

  const MagicNumberString: string := "Blist.v3"

  /** Encoding.UTF8.GetBytes(MagicNumberString). */
  const MagicNumber: seq<byte> := [0x42, 0x6C, 0x69, 0x73, 0x74, 0x2E, 0x76, 0x33]

  /** The value of a playlist: what its five public fields hold. */
  datatype PlaylistData = PlaylistData(
    title: Text,
    author: Text,
    description: Option<Text>,
    cover: Option<seq<byte>>,
    maps: seq<Beatmap>)

  /** A playlist the (reconstructed) writer can put on the wire: every
      length fits its prefix, `Maps.Count` is a C# `int`, and every entry
      is writable. */
  predicate Writable(d: PlaylistData) {
    HeaderWritable(HeaderOf(d)) && forall i :: 0 <= i < |d.maps| ==> Beatmaps.Encodable(d.maps[i])
  }

  /** What a playlist reads back as: an empty description or cover is
      written with the length 0, which reads as absent. */
  function Normalized(d: PlaylistData): PlaylistData {
    d.(description := AbsentIfEmpty(d.description), cover := AbsentIfEmpty(d.cover))
  }

  /** The fields Playlist(Stream) reads before the entries, `count` being
      the declared number of entries. */
  datatype Header = Header(
    title: Text,
    author: Text,
    description: Option<Text>,
    cover: Option<seq<byte>>,
    count: nat)

  function HeaderOf(d: PlaylistData): Header {
    Header(d.title, d.author, d.description, d.cover, |d.maps|)
  }

  predicate HeaderWritable(h: Header) {
    && |h.title| < 256
    && |h.author| < 256
    && (h.description.Some? ==> |h.description.value| < 0x1_0000)
    && (h.cover.Some? ==> |h.cover.value| < 0x1_0000_0000)
    && h.count < 0x8000_0000
  }

  // ---------------------------------------------------------------------
  // The magic number

  lemma MagicNumberIsAscii()
    ensures |MagicNumber| == |MagicNumberString| == 8
    ensures forall i :: 0 <= i < 8 ==> MagicNumber[i] as int == MagicNumberString[i] as int
  {
  }

  /** The `j`-th byte of the stream from `pos` is there and is the `j`-th
      magic byte. */
  predicate MagicByteMatches(data: seq<byte>, pos: nat, j: nat)
    requires j < 8
  {
    pos + j < |data| && data[pos + j] == MagicNumber[j]
  }

  /** The index of the first of the 8 magic bytes that the stream at `pos`
      does not match (because it differs or the stream has ended), or 8 if
      all of them match; `from` is where the search starts. */
  function FirstMismatch(data: seq<byte>, pos: nat, from: nat): (k: nat)
    requires from <= 8
    decreases 8 - from
    ensures from <= k <= 8
    ensures forall j :: from <= j < k ==> MagicByteMatches(data, pos, j)
    ensures k < 8 ==> !MagicByteMatches(data, pos, k)
  {
    if from == 8 then 8
    else if MagicByteMatches(data, pos, from) then FirstMismatch(data, pos, from + 1)
    else from
  }

  lemma NoMismatchIsMagic(data: seq<byte>, pos: nat)
    ensures FirstMismatch(data, pos, 0) == 8 <==> IsAt(data, pos, MagicNumber)
  {
    var k := FirstMismatch(data, pos, 0);
    if k == 8 {
      assert data[pos..pos + 8] == MagicNumber by {
        forall j | 0 <= j < 8 ensures data[pos..pos + 8][j] == MagicNumber[j] {
          assert MagicByteMatches(data, pos, j);
        }
      }
    }
  }

  // ---------------------------------------------------------------------
  // Reading the body, as functions of the input and the position

  /** The C# `(int)` cast of a u32: values from 2^31 on wrap to negative. */
  function AsInt32(u: nat): (s: int)
    requires u < 0x1_0000_0000
    ensures -0x8000_0000 <= s < 0x8000_0000
    ensures s < 0 <==> u >= 0x8000_0000
    ensures s >= 0 ==> s == u
  {
    if u < 0x8000_0000 then u else u - 0x1_0000_0000
  }

  function DecodeHeader(data: seq<byte>, pos: nat): (r: Result<Parsed<Header>, DecodeError>)
    ensures r.Ok? ==> r.value.value.count < 0x1_0000_0000
  {
    Pow256Widths();
    match ParseShortString(data, pos)
    case Err(e) => Err(e)
    case Ok(title) =>
      match ParseShortString(data, title.next)
      case Err(e) => Err(e)
      case Ok(author) =>
        match ParseOptionalLongString(data, author.next)
        case Err(e) => Err(e)
        case Ok(description) =>
          match ParseOptionalBytes(data, description.next)
          case Err(e) => Err(e)
          case Ok(cover) =>
            match ParseUInt(data, cover.next, 4)
            case Err(e) => Err(e)
            case Ok(count) =>
              Ok(Parsed(Header(title.value, author.value, description.value, cover.value, count.value), count.next))
  }

  /** The body read by Playlist(Stream), after the magic number. */
  function DecodeBody(data: seq<byte>, pos: nat): (r: Result<Parsed<PlaylistData>, DecodeError>)
    ensures r.Ok? ==> DecodeHeader(data, pos).Ok? && |r.value.value.maps| == DecodeHeader(data, pos).value.value.count < 0x8000_0000
  {
    match DecodeHeader(data, pos)
    case Err(e) => Err(e)
    case Ok(header) =>
      var h := header.value;
      var mapCount := AsInt32(h.count);
      if mapCount < 0 then Err(NegativeCapacity)
      else
        match Repeated.ParseMany(Beatmaps.ParseBeatmap, data, header.next, mapCount)
        case Err(e) => Err(e)
        case Ok(maps) =>
          Ok(Parsed(PlaylistData(h.title, h.author, h.description, h.cover, maps.value), maps.next))
  }

  /** Playlist(Stream): the magic number, then the body. */
  function DecodePlaylist(data: seq<byte>, pos: nat): (r: Result<PlaylistData, DecodeError>)
    ensures !IsAt(data, pos, MagicNumber) ==> r == Err(InvalidMagicNumber)
    ensures r.Ok? ==> IsAt(data, pos, MagicNumber) && |r.value.maps| < 0x8000_0000
  {
    if !IsAt(data, pos, MagicNumber) then Err(InvalidMagicNumber)
    else
      match DecodeBody(data, pos + 8)
      case Err(e) => Err(e)
      case Ok(body) =>
        Ok(body.value)
  }

  // ---------------------------------------------------------------------
  // Writing, as functions of the value

  /** The fields Write(Stream) writes before the entries, in their order. */
  function EncodeHeader(h: Header): seq<byte>
    requires HeaderWritable(h)
  {
    Pow256Widths();
    EncodeShortString(h.title) +
    (EncodeShortString(h.author) +
    (EncodeLongString(h.description) +
    (EncodeBytes(h.cover) +
    ToLE(h.count, 4))))
  }

  /** Write(Stream): the magic number, the header, then every entry. */
  function EncodePlaylist(d: PlaylistData): (bytes: seq<byte>)
    requires Writable(d)
  {
    MagicNumber + (EncodeHeader(HeaderOf(d)) + Repeated.EncodeMany(Beatmaps.EncodeBeatmap, d.maps))
  }

  // ---------------------------------------------------------------------
  // What the codec promises

  /** The 8 ASCII bytes of "Blist.v3" come before any body byte. */
  lemma MagicNumberFirst(d: PlaylistData)
    requires Writable(d)
    ensures |EncodePlaylist(d)| > 8
    ensures EncodePlaylist(d)[..8] == MagicNumber
    ensures forall i :: 0 <= i < 8 ==> EncodePlaylist(d)[i] as int == MagicNumberString[i] as int
  {
  }

  /** A stream that does not start with the magic number is rejected,
      whatever follows. */
  lemma BadMagicNumberFails(data: seq<byte>, pos: nat)
    requires FirstMismatch(data, pos, 0) < 8
    ensures DecodePlaylist(data, pos) == Err(InvalidMagicNumber)
  {
    NoMismatchIsMagic(data, pos);
  }

  /** A declared count of 2^31 or more turns negative at the `(int)` cast
      and fails before any entry is read. */
  lemma CountTooLargeFails(data: seq<byte>, pos: nat)
    requires DecodeHeader(data, pos).Ok? && DecodeHeader(data, pos).value.value.count >= 0x8000_0000
    ensures DecodeBody(data, pos) == Err(NegativeCapacity)
  {
  }

  /** The header is read in the order it is written: title, author,
      description, cover, then the u32 count. */
  lemma HeaderLayout(data: seq<byte>, pos: nat)
    requires DecodeHeader(data, pos).Ok?
    ensures
      var h := DecodeHeader(data, pos).value;
      exists p1: nat, p2: nat, p3: nat, p4: nat ::
        && ParseShortString(data, pos) == Ok(Parsed(h.value.title, p1))
        && ParseShortString(data, p1) == Ok(Parsed(h.value.author, p2))
        && ParseOptionalLongString(data, p2) == Ok(Parsed(h.value.description, p3))
        && ParseOptionalBytes(data, p3) == Ok(Parsed(h.value.cover, p4))
        && ParseUInt(data, p4, 4) == Ok(Parsed(h.value.count, h.next))
  {
    var title := ParseShortString(data, pos).value;
    var author := ParseShortString(data, title.next).value;
    var description := ParseOptionalLongString(data, author.next).value;
    var cover := ParseOptionalBytes(data, description.next).value;
    assert ParseUInt(data, cover.next, 4) == Ok(Parsed(DecodeHeader(data, pos).value.value.count, DecodeHeader(data, pos).value.next));
  }

  /** After the header come exactly as many entries as it declares, read in
      stream order; the playlist holds them in that order, and any failing
      entry fails the whole body. */
  lemma BodyLayout(data: seq<byte>, pos: nat)
    ensures DecodeBody(data, pos).Ok? ==>
      var h := DecodeHeader(data, pos);
      var d := DecodeBody(data, pos).value;
      && h.Ok? && h.value.value.count == |d.value.maps| < 0x8000_0000
      && h.value.value == Header(d.value.title, d.value.author, d.value.description, d.value.cover, |d.value.maps|)
      && Repeated.ParseMany(Beatmaps.ParseBeatmap, data, h.value.next, |d.value.maps|) == Ok(Parsed(d.value.maps, d.next))
    ensures DecodeHeader(data, pos).Ok? && DecodeHeader(data, pos).value.value.count < 0x8000_0000 ==>
      var h := DecodeHeader(data, pos).value;
      (DecodeBody(data, pos).Err? <==> Repeated.ParseMany(Beatmaps.ParseBeatmap, data, h.next, h.value.count).Err?)
  {
  }

  /** Each entry reads back as written, whatever follows it. */
  lemma EntryRoundTrip()
    ensures Repeated.RecordRoundTrip(Beatmaps.ParseBeatmap, Beatmaps.EncodeBeatmap)
  {
    forall b, data: seq<byte>, pos: nat | Beatmaps.Encodable(b) && IsAt(data, pos, Beatmaps.EncodeBeatmap(b))
      ensures ParsesTo(Beatmaps.ParseBeatmap(data, pos), b, pos + |Beatmaps.EncodeBeatmap(b)|)
    {
      Beatmaps.BeatmapRoundTrip(data, pos, b);
    }
  }

  /** DecodeHeader, given what each of its five reads returns. */
  lemma DecodeHeaderOf(data: seq<byte>, pos: nat, h: Header, p1: nat, p2: nat, p3: nat, p4: nat, p5: nat)
    requires ParsesTo(ParseShortString(data, pos), h.title, p1)
    requires ParsesTo(ParseShortString(data, p1), h.author, p2)
    requires ParsesTo(ParseOptionalLongString(data, p2), h.description, p3)
    requires ParsesTo(ParseOptionalBytes(data, p3), h.cover, p4)
    requires ParsesTo(ParseUInt(data, p4, 4), h.count, p5)
    ensures ParsesTo(DecodeHeader(data, pos), h, p5)
  {
  }

  /** The optional fields and the count, read back from where they were
      written. */
  lemma HeaderTailRoundTrip(data: seq<byte>, pos: nat, description: Option<Text>, cover: Option<seq<byte>>, count: nat)
    returns (p3: nat, p4: nat)
    requires description.Some? ==> |description.value| < 0x1_0000
    requires cover.Some? ==> |cover.value| < 0x1_0000_0000
    requires count < 0x1_0000_0000
    requires IsAt(data, pos, EncodeLongString(description) + (EncodeBytes(cover) + ToLE(count, 4)))
    ensures ParsesTo(ParseOptionalLongString(data, pos), AbsentIfEmpty(description), p3)
    ensures ParsesTo(ParseOptionalBytes(data, p3), AbsentIfEmpty(cover), p4)
    ensures ParsesTo(ParseUInt(data, p4, 4), count, pos + |EncodeLongString(description) + (EncodeBytes(cover) + ToLE(count, 4))|)
  {
    Pow256Widths();
    var n := ToLE(count, 4);
    p3 := LongStringThen(data, pos, description, EncodeBytes(cover) + n);
    p4 := OptionalBytesThen(data, p3, cover, n);
    UIntRoundTrip(data, p4, count, 4);
  }

  lemma HeaderLength(h: Header)
    requires HeaderWritable(h)
    ensures |EncodeHeader(h)| ==
      |EncodeShortString(h.title)| + |EncodeShortString(h.author)| +
      |EncodeLongString(h.description) + (EncodeBytes(h.cover) + ToLE(h.count, 4))|
  {
  }

  lemma HeaderRoundTrip(data: seq<byte>, pos: nat, h: Header)
    requires HeaderWritable(h) && IsAt(data, pos, EncodeHeader(h))
    ensures ParsesTo(DecodeHeader(data, pos),
      h.(description := AbsentIfEmpty(h.description), cover := AbsentIfEmpty(h.cover)), pos + |EncodeHeader(h)|)
  {
    Pow256Widths();
    var s := EncodeLongString(h.description) + (EncodeBytes(h.cover) + ToLE(h.count, 4));
    var p1 := ShortStringThen(data, pos, h.title, EncodeShortString(h.author) + s);
    var p2 := ShortStringThen(data, p1, h.author, s);
    var p3, p4 := HeaderTailRoundTrip(data, p2, h.description, h.cover, h.count);
    HeaderLength(h);
    DecodeHeaderOf(data, pos, Header(h.title, h.author, AbsentIfEmpty(h.description), AbsentIfEmpty(h.cover), h.count),
      p1, p2, p3, p4, p2 + |s|);
  }

  /** The entries read back as written, in their order. */
  lemma EntriesRoundTrip(data: seq<byte>, pos: nat, maps: seq<Beatmap>)
    requires forall i :: 0 <= i < |maps| ==> Beatmaps.Encodable(maps[i])
    requires IsAt(data, pos, Repeated.EncodeMany(Beatmaps.EncodeBeatmap, maps))
    ensures ParsesTo(Repeated.ParseMany(Beatmaps.ParseBeatmap, data, pos, |maps|),
      maps, pos + |Repeated.EncodeMany(Beatmaps.EncodeBeatmap, maps)|)
  {
    EntryRoundTrip();
    Repeated.ManyRoundTrip(Beatmaps.ParseBeatmap, Beatmaps.EncodeBeatmap, data, pos, maps);
  }

  /** DecodeBody, given what the header read and where the entries are. */
  lemma DecodeBodyOf(data: seq<byte>, pos: nat, d: PlaylistData, p: nat)
    requires Writable(d)
    requires ParsesTo(DecodeHeader(data, pos), HeaderOf(Normalized(d)), p)
    requires IsAt(data, p, Repeated.EncodeMany(Beatmaps.EncodeBeatmap, d.maps))
    ensures ParsesTo(DecodeBody(data, pos), Normalized(d), p + |Repeated.EncodeMany(Beatmaps.EncodeBeatmap, d.maps)|)
  {
    EntriesRoundTrip(data, p, d.maps);
  }

  /** The header, then the entries, read back from where they were
      written. */
  lemma BodyRoundTrip(data: seq<byte>, pos: nat, d: PlaylistData)
    requires Writable(d)
    requires IsAt(data, pos, EncodeHeader(HeaderOf(d)) + Repeated.EncodeMany(Beatmaps.EncodeBeatmap, d.maps))
    ensures ParsesTo(DecodeBody(data, pos),
      Normalized(d), pos + |EncodeHeader(HeaderOf(d))| + |Repeated.EncodeMany(Beatmaps.EncodeBeatmap, d.maps)|)
  {
    var h := HeaderOf(d);
    var p := pos + |EncodeHeader(h)|;
    IsAtSplit(data, pos, EncodeHeader(h), Repeated.EncodeMany(Beatmaps.EncodeBeatmap, d.maps));
    HeaderRoundTrip(data, pos, h);
    assert h.(description := AbsentIfEmpty(h.description), cover := AbsentIfEmpty(h.cover)) == HeaderOf(Normalized(d));
    DecodeBodyOf(data, pos, d, p);
  }

  /** Decoding what Write(Stream) wrote gives the playlist back, except
      that an empty description or cover comes back absent. */
  lemma PlaylistRoundTrip(data: seq<byte>, pos: nat, d: PlaylistData)
    requires Writable(d) && IsAt(data, pos, EncodePlaylist(d))
    ensures DecodePlaylist(data, pos) == Ok(Normalized(d))
  {
    IsAtSplit(data, pos, MagicNumber, EncodeHeader(HeaderOf(d)) + Repeated.EncodeMany(Beatmaps.EncodeBeatmap, d.maps));
    BodyRoundTrip(data, pos + 8, d);
  }

  /** The round trip the unit test checks: title, author, description,
      cover length and entry count survive, here with the whole entries. */
  lemma WriteAndRead(d: PlaylistData)
    requires Writable(d) && d.description != Some([]) && d.cover != Some([])
    ensures DecodePlaylist(EncodePlaylist(d), 0) == Ok(d)
  {
    assert EncodePlaylist(d)[0..|EncodePlaylist(d)|] == EncodePlaylist(d);
    PlaylistRoundTrip(EncodePlaylist(d), 0, d);
  }

  // ---------------------------------------------------------------------
  // The magic number on a stream

  method ReadMagicNumber(stream: Reader) returns (r: Outcome<DecodeError>)
    requires stream.Valid()
    modifies stream
    ensures stream.Valid()
    ensures r == if IsAt(stream.data, old(stream.pos), MagicNumber) then Pass else Fail(InvalidMagicNumber)
    ensures var k := FirstMismatch(stream.data, old(stream.pos), 0);
      stream.pos == old(stream.pos) + (if k < 8 && old(stream.pos) + k < |stream.data| then k + 1 else k)
  {
    NoMismatchIsMagic(stream.data, stream.pos);
    ghost var start := stream.pos;
    for i := 0 to 8
      invariant stream.Valid() && stream.pos == start + i
      invariant FirstMismatch(stream.data, start, 0) == FirstMismatch(stream.data, start, i)
    {
      var b := stream.StreamReadByte();
      if b != MagicNumber[i] as int {
        return Fail(InvalidMagicNumber);
      }
    }
    r := Pass;
  }

  method WriteMagicNumber(stream: Writer)
    modifies stream
    ensures stream.bytes == old(stream.bytes) + MagicNumber
  {
    for i := 0 to 8
      invariant stream.bytes == old(stream.bytes) + MagicNumber[..i]
    {
      stream.WriteByte(MagicNumber[i]);
    }
  }

  /** One more entry written after the first `i`. */
  lemma EntriesWritten(header: seq<byte>, maps: seq<Beatmap>, i: nat)
    requires i < |maps| && forall j :: 0 <= j < |maps| ==> Beatmaps.Encodable(maps[j])
    ensures header + Repeated.EncodeMany(Beatmaps.EncodeBeatmap, maps[..i]) + Beatmaps.EncodeBeatmap(maps[i]) ==
      header + Repeated.EncodeMany(Beatmaps.EncodeBeatmap, maps[..i + 1])
  {
    assert maps[..i + 1] == maps[..i] + [maps[i]];
    Repeated.EncodeManySnoc(Beatmaps.EncodeBeatmap, maps[..i], maps[i]);
    AppendAssoc(header, Repeated.EncodeMany(Beatmaps.EncodeBeatmap, maps[..i]), Beatmaps.EncodeBeatmap(maps[i]));
  }

  /** DecodePlaylist step by step, in the order Playlist(Stream) reads:
      the magic number, the header, the capacity check, the entries. */
  lemma DecodePlaylistSteps(data: seq<byte>, pos: nat)
    requires IsAt(data, pos, MagicNumber)
    ensures var header := DecodeHeader(data, pos + 8);
      && (header.Err? ==> DecodePlaylist(data, pos) == Err(header.error))
      && (header.Ok? && AsInt32(header.value.value.count) < 0 ==> DecodePlaylist(data, pos) == Err(NegativeCapacity))
      && (header.Ok? && AsInt32(header.value.value.count) >= 0 ==>
            var h := header.value.value;
            var maps := Repeated.ParseMany(Beatmaps.ParseBeatmap, data, header.value.next, AsInt32(h.count));
            && (maps.Err? ==> DecodePlaylist(data, pos) == Err(maps.error))
            && (maps.Ok? ==> DecodePlaylist(data, pos) == Ok(PlaylistData(h.title, h.author, h.description, h.cover, maps.value.value))))
  {
  }

  /** The magic number, the header and the entries, one after the other. */
  lemma PlaylistWritten(before: seq<byte>, d: PlaylistData)
    requires Writable(d)
    ensures before + MagicNumber + EncodeHeader(HeaderOf(d)) + Repeated.EncodeMany(Beatmaps.EncodeBeatmap, d.maps) ==
      before + EncodePlaylist(d)
  {
    AppendAssoc(before + MagicNumber, EncodeHeader(HeaderOf(d)), Repeated.EncodeMany(Beatmaps.EncodeBeatmap, d.maps));
    AppendAssoc(before, MagicNumber, EncodeHeader(HeaderOf(d)) + Repeated.EncodeMany(Beatmaps.EncodeBeatmap, d.maps));
  }

  // ---------------------------------------------------------------------
  // The playlist object

  class Playlist {
    var title: Text
    var author: Text
    var description: Option<Text>
    var cover: Option<seq<byte>>
    var maps: seq<Beatmap>

    function Data(): PlaylistData
      reads this
    {
      PlaylistData(title, author, description, cover, maps)
    }

    /** Playlist(title, author, description = null, cover = null). */
    constructor (title: Text, author: Text, description: Option<Text> := None, cover: Option<seq<byte>> := None)
      ensures Data() == PlaylistData(title, author, description, cover, [])
    {
      this.title := title;
      this.author := author;
      this.description := description;
      this.cover := cover;
      maps := [];
    }

    /** The header part of Playlist(Stream): the field reads in order. */
    static method ReadHeader(stream: Reader) returns (r: Result<Header, DecodeError>)
      requires stream.Valid()
      modifies stream
      ensures stream.Valid() && stream.Yields(r, DecodeHeader(stream.data, old(stream.pos)))
    {
      Pow256Widths();
      var title := stream.ReadShortString();
      if title.Err? {
        return Err(title.error);
      }
      var author := stream.ReadShortString();
      if author.Err? {
        return Err(author.error);
      }
      var description := stream.ReadOptionalLongString();
      if description.Err? {
        return Err(description.error);
      }
      var cover := stream.ReadOptionalBytes();
      if cover.Err? {
        return Err(cover.error);
      }
      var count := stream.ReadUInt(4);
      if count.Err? {
        return Err(count.error);
      }
      r := Ok(Header(title.value, author.value, description.value, cover.value, count.value));
    }

    /** The loop of Playlist(Stream): `mapCount` entries appended in
        stream order; the first failing entry aborts the loop. */
    static method ReadMaps(stream: Reader, mapCount: nat) returns (r: Result<seq<Beatmap>, DecodeError>)
      requires stream.Valid()
      modifies stream
      ensures stream.Valid() && stream.Yields(r, Repeated.ParseMany(Beatmaps.ParseBeatmap, stream.data, old(stream.pos), mapCount))
    {
      ghost var start := stream.pos;
      ghost var left := mapCount;
      var maps: seq<Beatmap> := [];
      Repeated.ReadSoFarStart(Beatmaps.ParseBeatmap, stream.data, start, mapCount);
      for i := 0 to mapCount
        invariant stream.Valid() && left == mapCount - i
        invariant Repeated.ReadSoFar(Beatmaps.ParseBeatmap, stream.data, start, mapCount, maps, stream.pos, left)
      {
        Repeated.ReadSoFarStep(Beatmaps.ParseBeatmap, stream.data, start, mapCount, maps, stream.pos, left);
        var entry := Beatmaps.Read(stream);
        if entry.Err? {
          return Err(entry.error);
        }
        maps := maps + [entry.value];
        left := left - 1;
      }
      Repeated.ReadSoFarDone(Beatmaps.ParseBeatmap, stream.data, start, mapCount, maps, stream.pos);
      r := Ok(maps);
    }

    /** Playlist(Stream): the whole read fails on the first error, so no
        partial playlist is ever returned. */
    static method Read(stream: Reader) returns (r: Result<Playlist, DecodeError>)
      requires stream.Valid()
      modifies stream
      ensures stream.Valid()
      ensures match DecodePlaylist(stream.data, old(stream.pos))
        case Ok(d) => r.Ok? && fresh(r.value) && r.value.Data() == d
        case Err(e) => r == Err(e)
    {
      ghost var start := stream.pos;
      ghost var decoded := DecodePlaylist(stream.data, start);
      var magic := ReadMagicNumber(stream);
      if magic.Fail? {
        return Err(magic.error);
      }
      assert stream.pos == start + 8;
      DecodePlaylistSteps(stream.data, start);
      var header := ReadHeader(stream);
      if header.Err? {
        assert decoded == Err(header.error);
        return Err(header.error);
      }
      var h := header.value;
      var mapCount := AsInt32(h.count);
      if mapCount < 0 {
        assert decoded == Err(NegativeCapacity);
        return Err(NegativeCapacity);
      }
      var maps := ReadMaps(stream, mapCount);
      if maps.Err? {
        assert decoded == Err(maps.error);
        return Err(maps.error);
      }
      assert decoded == Ok(PlaylistData(h.title, h.author, h.description, h.cover, maps.value));
      var playlist := new Playlist(h.title, h.author, h.description, h.cover);
      playlist.maps := maps.value;
      r := Ok(playlist);
    }

    /** The header part of Write(Stream). */
    method WriteHeader(stream: Writer)
      requires HeaderWritable(HeaderOf(Data()))
      modifies stream
      ensures stream.bytes == old(stream.bytes) + EncodeHeader(HeaderOf(Data()))
    {
      Pow256Widths();
      ghost var start := stream.bytes;
      stream.WriteShortString(title);
      ghost var t := EncodeShortString(title);
      stream.WriteShortString(author);
      ghost var a := EncodeShortString(author);
      stream.WriteLongString(description);
      ghost var s := EncodeLongString(description);
      stream.WriteBytes(cover);
      ghost var c := EncodeBytes(cover);
      stream.WriteUInt(|maps|, 4);
      ghost var n := ToLE(|maps|, 4);
      AppendAssoc(((start + t) + a) + s, c, n);
      AppendAssoc((start + t) + a, s, c + n);
      AppendAssoc(start + t, a, s + (c + n));
      AppendAssoc(start, t, a + (s + (c + n)));
    }

    /** Write(Stream): magic number, then the fields in their order, then
        `Maps.Count` and every entry in list order. */
    method Write(stream: Writer)
      requires Writable(Data())
      modifies stream
      ensures stream.bytes == old(stream.bytes) + EncodePlaylist(Data())
    {
      WriteMagicNumber(stream);
      WriteHeader(stream);
      ghost var header := stream.bytes;
      for i := 0 to |maps|
        invariant stream.bytes == header + Repeated.EncodeMany(Beatmaps.EncodeBeatmap, maps[..i])
      {
        Beatmaps.Write(maps[i], stream);
        EntriesWritten(header, maps, i);
      }
      assert maps[..|maps|] == maps;
      PlaylistWritten(old(stream.bytes), Data());
    }
  }
}
