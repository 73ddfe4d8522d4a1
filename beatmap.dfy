/** The beatmap entries of a playlist (BinaryBlister/Beatmap.cs): a tagged
    union of four identification schemes, each carrying the time it was
    added. On the wire an entry is a tag byte, the u64 Unix-seconds
    timestamp, then the payload the tag selects. */
module Beatmaps {
  import opened Wrappers
  import opened BinaryIO

  /** The range DateTimeOffset.FromUnixTimeSeconds accepts: 0001-01-01
      to 9999-12-31T23:59:59, in seconds from the Unix epoch. */
  const MinUnixSeconds: int := -62135596800
  const MaxUnixSeconds: int := 253402300799

  /** A DateTimeOffset, in whole seconds since the Unix epoch. */
  type UnixSeconds = x: int | MinUnixSeconds <= x <= MaxUnixSeconds witness 0

  datatype Beatmap =
    | KeyBeatmap(dateAdded: UnixSeconds, key: u32)
    | HashBeatmap(dateAdded: UnixSeconds, hash: seq<byte>)
    | ZipBeatmap(dateAdded: UnixSeconds, zip: seq<byte>)
    | LevelIdBeatmap(dateAdded: UnixSeconds, levelId: Text)

  /** The entry with its public DateAdded field set to `t`. */
  function WithDateAdded(b: Beatmap, t: UnixSeconds): Beatmap {
    b.(dateAdded := t)
  }

  /** The `Type` constant of each variant class. */
  const KeyType: byte := 0
  const HashType: byte := 1
  const ZipType: byte := 2
  const LevelIdType: byte := 3

  function TypeOf(b: Beatmap): byte {
    match b
    case KeyBeatmap(_, _) => KeyType
    case HashBeatmap(_, _) => HashType
    case ZipBeatmap(_, _) => ZipType
    case LevelIdBeatmap(_, _) => LevelIdType
  }

  /** What the (reconstructed) writer can put on the wire so that it reads
      back: a 20-byte hash, a zip whose length fits a u32 and a level id
      whose length fits a u8. */
  predicate Encodable(b: Beatmap) {
    match b
    case KeyBeatmap(_, _) => true
    case HashBeatmap(_, hash) => |hash| == 20
    case ZipBeatmap(_, zip) => |zip| < 0x1_0000_0000
    case LevelIdBeatmap(_, id) => |id| < 256
  }

  // ---------------------------------------------------------------------
  // The timestamp

  /** The C# `(long)` cast of a u64: values from 2^63 on wrap to negative. */
  function AsInt64(u: nat): (s: int)
    requires u < 0x1_0000_0000_0000_0000
    ensures -0x8000_0000_0000_0000 <= s < 0x8000_0000_0000_0000
    ensures (s - u) % 0x1_0000_0000_0000_0000 == 0
  {
    if u < 0x8000_0000_0000_0000 then u else u - 0x1_0000_0000_0000_0000
  }

  /** The `(ulong)` cast the writer applies to ToUnixTimeSeconds(). */
  function AsUInt64(s: int): (u: nat)
    requires -0x8000_0000_0000_0000 <= s < 0x8000_0000_0000_0000
    ensures u < 0x1_0000_0000_0000_0000
    ensures AsInt64(u) == s
  {
    if s >= 0 then s else s + 0x1_0000_0000_0000_0000
  }

  /** The base constructor Beatmap(reader): a u64 read as whole Unix
      seconds through the (long) cast and FromUnixTimeSeconds. */
  function ParseDateAdded(data: seq<byte>, pos: nat): Result<Parsed<UnixSeconds>, DecodeError> {
    Pow256Widths();
    match ParseUInt(data, pos, 8)
    case Err(e) => Err(e)
    case Ok(raw) =>
      var seconds := AsInt64(raw.value);
      if MinUnixSeconds <= seconds <= MaxUnixSeconds then Ok(Parsed(seconds, raw.next))
      else Err(TimestampOutOfRange)
  }

  function EncodeDateAdded(t: UnixSeconds): seq<byte> {
    Pow256Widths();
    ToLE(AsUInt64(t), 8)
  }

  // ---------------------------------------------------------------------
  // The four variant reader constructors and the dispatch on the tag

  function ParseKeyBeatmap(data: seq<byte>, pos: nat): Result<Parsed<Beatmap>, DecodeError> {
    Pow256Widths();
    match ParseDateAdded(data, pos)
    case Err(e) => Err(e)
    case Ok(date) =>
      match ParseUInt(data, date.next, 4)
      case Err(e) => Err(e)
      case Ok(key) =>
        Ok(Parsed(KeyBeatmap(date.value, key.value), key.next))
  }

  function ParseHashBeatmap(data: seq<byte>, pos: nat): Result<Parsed<Beatmap>, DecodeError> {
    match ParseDateAdded(data, pos)
    case Err(e) => Err(e)
    case Ok(date) =>
      var hash := ParseFixed(data, date.next, 20);
      Ok(Parsed(HashBeatmap(date.value, hash.value), hash.next))
  }

  function ParseZipBeatmap(data: seq<byte>, pos: nat): Result<Parsed<Beatmap>, DecodeError> {
    match ParseDateAdded(data, pos)
    case Err(e) => Err(e)
    case Ok(date) =>
      match ParseBytes(data, date.next)
      case Err(e) => Err(e)
      case Ok(zip) =>
        Ok(Parsed(ZipBeatmap(date.value, zip.value), zip.next))
  }

  function ParseLevelIdBeatmap(data: seq<byte>, pos: nat): Result<Parsed<Beatmap>, DecodeError> {
    match ParseDateAdded(data, pos)
    case Err(e) => Err(e)
    case Ok(date) =>
      match ParseShortString(data, date.next)
      case Err(e) => Err(e)
      case Ok(id) =>
        Ok(Parsed(LevelIdBeatmap(date.value, id.value), id.next))
  }

  /** Beatmap.Read. An unknown tag fails before the timestamp is read,
      since the switch throws before any variant constructor runs. */
  function ParseBeatmap(data: seq<byte>, pos: nat): (r: Result<Parsed<Beatmap>, DecodeError>)
    ensures r.Ok? ==> pos < |data| && TypeOf(r.value.value) == data[pos] && pos + 9 <= r.value.next
  {
    match ParseByte(data, pos)
    case Err(e) => Err(e)
    case Ok(tag) =>
      if tag.value == KeyType then ParseKeyBeatmap(data, tag.next)
      else if tag.value == HashType then ParseHashBeatmap(data, tag.next)
      else if tag.value == ZipType then ParseZipBeatmap(data, tag.next)
      else if tag.value == LevelIdType then ParseLevelIdBeatmap(data, tag.next)
      else Err(InvalidBeatmapType)
  }

  function EncodePayload(b: Beatmap): seq<byte>
    requires Encodable(b)
  {
    Pow256Widths();
    match b
    case KeyBeatmap(_, key) => ToLE(key, 4)
    case HashBeatmap(_, hash) => hash
    case ZipBeatmap(_, zip) => EncodeBytes(Some(zip))
    case LevelIdBeatmap(_, id) => EncodeShortString(id)
  }

  /** Beatmap.Write (reconstructed): tag, timestamp, payload. */
  function EncodeBeatmap(b: Beatmap): seq<byte>
    requires Encodable(b)
  {
    [TypeOf(b)] + EncodeDateAdded(b.dateAdded) + EncodePayload(b)
  }

  // ---------------------------------------------------------------------
  // What decoding an entry means

  lemma DateAddedRoundTrip(data: seq<byte>, pos: nat, t: UnixSeconds)
    requires IsAt(data, pos, EncodeDateAdded(t))
    ensures ParseDateAdded(data, pos) == Ok(Parsed(t, pos + 8))
  {
    Pow256Widths();
    UIntRoundTrip(data, pos, AsUInt64(t), 8);
  }

  /** Every tag byte from 4 to 255 fails, whatever follows it. */
  lemma UnknownTagFails(data: seq<byte>, pos: nat)
    requires pos < |data| && data[pos] > LevelIdType
    ensures ParseBeatmap(data, pos) == Err(InvalidBeatmapType)
  {
  }

  /** A decoded entry: its variant is the one its tag byte names, its
      timestamp is the u64 right after the tag, read as whole seconds, and
      its payload starts right after the timestamp: one u32 for a key,
      20 raw bytes for a hash (fewer, without an error, when the stream
      ends first), a u32-prefixed blob for a zip and a short string for a
      level id. */
  lemma BeatmapLayout(data: seq<byte>, pos: nat)
    requires ParseBeatmap(data, pos).Ok?
    ensures pos + 9 <= |data|
    ensures var p := ParseBeatmap(data, pos).value;
      && data[pos] == TypeOf(p.value)
      && p.value.dateAdded == AsInt64(FromLE(data[pos + 1..pos + 9]))
      && match p.value
         case KeyBeatmap(_, key) => p.next == pos + 13 && key == FromLE(data[pos + 9..pos + 13])
         case HashBeatmap(_, hash) =>
           && |hash| <= 20 && p.next == pos + 9 + |hash| && hash == data[pos + 9..p.next]
           && (pos + 29 <= |data| <==> |hash| == 20)
           && (|hash| < 20 ==> p.next == |data|)
         case ZipBeatmap(_, zip) => ParseBytes(data, pos + 9) == Ok(Parsed(zip, p.next))
         case LevelIdBeatmap(_, id) => ParseShortString(data, pos + 9) == Ok(Parsed(id, p.next))
  {
    Pow256Widths();
  }

  /** Writing an entry and reading it back gives the same entry. */
  lemma BeatmapRoundTrip(data: seq<byte>, pos: nat, b: Beatmap)
    requires Encodable(b) && IsAt(data, pos, EncodeBeatmap(b))
    ensures ParsesTo(ParseBeatmap(data, pos), b, pos + |EncodeBeatmap(b)|)
  {
    Pow256Widths();
    var head := [TypeOf(b)] + EncodeDateAdded(b.dateAdded);
    var payload := EncodePayload(b);
    IsAtSplit(data, pos, head, payload);
    IsAtSplit(data, pos, [TypeOf(b)], EncodeDateAdded(b.dateAdded));
    DateAddedRoundTrip(data, pos + 1, b.dateAdded);
    match b
    case KeyBeatmap(_, key) =>
      UIntRoundTrip(data, pos + 9, key, 4);
    case HashBeatmap(_, hash) =>
    case ZipBeatmap(_, zip) =>
      BytesRoundTrip(data, pos + 9, zip);
    case LevelIdBeatmap(_, id) =>
      ShortStringRoundTrip(data, pos + 9, id);
  }

  // ---------------------------------------------------------------------
  // The reader constructors, advancing a Reader

  /** The base constructor Beatmap(reader). */
  method ReadDateAdded(reader: Reader) returns (r: Result<UnixSeconds, DecodeError>)
    requires reader.Valid()
    modifies reader
    ensures reader.Valid() && reader.Yields(r, ParseDateAdded(reader.data, old(reader.pos)))
  {
    Pow256Widths();
    var raw := reader.ReadUInt(8);
    if raw.Err? {
      return Err(raw.error);
    }
    var seconds := AsInt64(raw.value);
    if MinUnixSeconds <= seconds <= MaxUnixSeconds {
      r := Ok(seconds);
    } else {
      r := Err(TimestampOutOfRange);
    }
  }

  method ReadKeyBeatmap(reader: Reader) returns (r: Result<Beatmap, DecodeError>)
    requires reader.Valid()
    modifies reader
    ensures reader.Valid() && reader.Yields(r, ParseKeyBeatmap(reader.data, old(reader.pos)))
  {
    Pow256Widths();
    var date := ReadDateAdded(reader);
    if date.Err? {
      return Err(date.error);
    }
    var key := reader.ReadUInt(4);
    if key.Err? {
      return Err(key.error);
    }
    r := Ok(KeyBeatmap(date.value, key.value));
  }

  method ReadHashBeatmap(reader: Reader) returns (r: Result<Beatmap, DecodeError>)
    requires reader.Valid()
    modifies reader
    ensures reader.Valid() && reader.Yields(r, ParseHashBeatmap(reader.data, old(reader.pos)))
  {
    var date := ReadDateAdded(reader);
    if date.Err? {
      return Err(date.error);
    }
    var hash := reader.ReadFixed(20);
    r := Ok(HashBeatmap(date.value, hash));
  }

  method ReadZipBeatmap(reader: Reader) returns (r: Result<Beatmap, DecodeError>)
    requires reader.Valid()
    modifies reader
    ensures reader.Valid() && reader.Yields(r, ParseZipBeatmap(reader.data, old(reader.pos)))
  {
    var date := ReadDateAdded(reader);
    if date.Err? {
      return Err(date.error);
    }
    var zip := reader.ReadBytes();
    if zip.Err? {
      return Err(zip.error);
    }
    r := Ok(ZipBeatmap(date.value, zip.value));
  }

  method ReadLevelIdBeatmap(reader: Reader) returns (r: Result<Beatmap, DecodeError>)
    requires reader.Valid()
    modifies reader
    ensures reader.Valid() && reader.Yields(r, ParseLevelIdBeatmap(reader.data, old(reader.pos)))
  {
    var date := ReadDateAdded(reader);
    if date.Err? {
      return Err(date.error);
    }
    var id := reader.ReadShortString();
    if id.Err? {
      return Err(id.error);
    }
    r := Ok(LevelIdBeatmap(date.value, id.value));
  }

  /** Beatmap.Read. */
  method Read(reader: Reader) returns (r: Result<Beatmap, DecodeError>)
    requires reader.Valid()
    modifies reader
    ensures reader.Valid() && reader.Yields(r, ParseBeatmap(reader.data, old(reader.pos)))
  {
    var tag := reader.ReadByte();
    if tag.Err? {
      return Err(tag.error);
    }
    if tag.value == KeyType {
      r := ReadKeyBeatmap(reader);
    } else if tag.value == HashType {
      r := ReadHashBeatmap(reader);
    } else if tag.value == ZipType {
      r := ReadZipBeatmap(reader);
    } else if tag.value == LevelIdType {
      r := ReadLevelIdBeatmap(reader);
    } else {
      r := Err(InvalidBeatmapType);
    }
  }

  /** The payload part of Beatmap.Write (reconstructed). */
  method WritePayload(b: Beatmap, writer: Writer)
    requires Encodable(b)
    modifies writer
    ensures writer.bytes == old(writer.bytes) + EncodePayload(b)
  {
    Pow256Widths();
    if b.KeyBeatmap? {
      writer.WriteUInt(b.key, 4);
    } else if b.HashBeatmap? {
      writer.WriteRaw(b.hash);
    } else if b.ZipBeatmap? {
      writer.WriteBytes(Some(b.zip));
    } else {
      writer.WriteShortString(b.levelId);
    }
  }

  /** Beatmap.Write (reconstructed). */
  method Write(b: Beatmap, writer: Writer)
    requires Encodable(b)
    modifies writer
    ensures writer.bytes == old(writer.bytes) + EncodeBeatmap(b)
  {
    Pow256Widths();
    ghost var head := old(writer.bytes) + [TypeOf(b)] + EncodeDateAdded(b.dateAdded);
    writer.WriteByte(TypeOf(b));
    writer.WriteUInt(AsUInt64(b.dateAdded), 8);
    assert writer.bytes == head;
    WritePayload(b, writer);
  }
}
