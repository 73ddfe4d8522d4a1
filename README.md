# BinaryBlister in Dafny

This project models the core of BinaryBlister, a library for Beat Saber playlists in the "Blist.v3" binary format, and proves properties of the model. It covers three parts.

- **The Blist.v3 codec.**
  - The 8-byte magic number "Blist.v3".
  - The playlist body: title, author, optional description, optional cover, a u32 entry count, then the entries.
  - Each entry records how a beatmap is identified: a tag byte, a u64 Unix-seconds timestamp and a payload. The payload is a key, a 20-byte hash, a zip blob or a level id.
  - The length-prefixed strings and blobs those fields are made of.

  Reading goes through a `Reader` class: a byte sequence and a position. Writing goes through a `Writer` class whose byte sequence only grows. The playlist is a `Playlist` class with the five public fields of the C# class. Every reading and writing method is proved against a function of the input (`ParseShortString`, `ParseBeatmap`, `DecodeBody`, `EncodePlaylist`, …). Round trips, layouts and error cases are proved about those functions.
- **The legacy converter.** `ConvertLegacyPlaylist` turns a deserialised legacy JSON playlist into a playlist object. It checks the cover, then decides song by song. A hash is used first, then a key, then a level id. Each invalid hash or key is skipped or thrown, as the conversion flags say. The method keeps the C# foreach, with its `continue` and its updates of the new playlist's `Cover` and `Maps`. It is proved against `Convert`, which is built from:
  - `ConvertCover`;
  - `Decide`, for one song;
  - `Kept`, the loop over the songs.
- **The conversion flags.** These are the byte values of `ConversionFlags`, and `FlagUtils.HasFlag`, the subset test `(a & b) == b` on a `bv8`.

Text (a C# `string`) is modelled as its UTF-8 bytes. Integers are unbounded, so the C# casts are written out: the `(int)` of the u32 count in `AsInt32`, and the `(long)` of the u64 timestamp in `AsInt64`. The accepted range of `DateTimeOffset.FromUnixTimeSeconds` is written out too. The GZip envelope is not modelled: the body bytes follow the magic number directly.

The code of the writer side, `BinaryBlisterWriter` and `Beatmap.Write`, is not part of this model. Neither is the code of the reader methods `ReadBytes()` and `ReadOptionalBytes`. Their behaviour is reconstructed here as the mirror of the readers in BinaryBlister/IO.cs and Beatmap.cs, in the order `Write(Stream)` calls them:
- a blob is a u32 length, then its bytes;
- an absent or empty optional string or blob is written as the length 0.

**Behaviour of the code worth knowing:**
- An empty description does not survive a round trip. `ReadOptionalLongString` returns null for the length 0, so "" comes back absent (`Playlists.Normalized`).
- The converter tests a song's hash, key and level id with `!= null`, not for being non-empty (BinaryBlister.Conversion/PlaylistConverter.cs:74, 85, 95).

**Truncated streams.** .NET's `BinaryReader.ReadBytes(n)` returns fewer bytes when the stream ends first; it does not throw. The model keeps this behaviour.
- Only `ReadByte` and the fixed-width integer reads fail with end of stream.
- So a short string, a long string, a hash or a zip blob cut short by the end of the stream is read as the shorter value, without an error.
- `BinaryIO.LongStringNeverEmpty` states the one case in which "" comes back from `ReadOptionalLongString`: a non-zero prefix at the very end of the stream.

## Model

| member | source | states |
|---|---|---|
| `BinaryIO.FromLEToLE` | BinaryBlister/Playlist.cs:14 | reading back the little-endian bytes of a number gives the number |
| `BinaryIO.ToLEFromLE` | BinaryBlister/Playlist.cs:14 | any byte sequence is the little-endian encoding of the number it is read as |
| `BinaryIO.ParseUInt` | BinaryBlister/Playlist.cs:77 | a u16/u32/u64 read is below 2^(8·width) |
| `BinaryIO.UIntRoundTrip` | BinaryBlister/Playlist.cs:123 | an unsigned integer written little-endian is read back with the same width and value, consuming exactly `width` bytes |
| `BinaryIO.ShortStringConsumes` | BinaryBlister/IO.cs:11-20 | ReadShortString fails only when the length byte is missing. Length 0 gives "" and consumes one byte. Otherwise it gives the next `n` ≤ 255 bytes, exactly `n` when the stream has them, fewer only at the end of the stream, and the position moves past them |
| `BinaryIO.LongStringConsumes` | BinaryBlister/IO.cs:22-31 | ReadOptionalLongString fails only when the u16 prefix is missing. Prefix 0 gives null and consumes two bytes. Otherwise it gives the next `n` ≤ 65535 bytes, exactly `n` when the stream has them, fewer only at the end of the stream |
| `BinaryIO.LongStringNeverEmpty` | BinaryBlister/IO.cs:24-28 | a zero prefix always means absent; "" is read back only from a non-zero prefix that ends the stream |
| `BinaryIO.ShortStringRoundTrip` | BinaryBlister/IO.cs:11-20 | a short string written after its length byte is read back unchanged, whatever follows it |
| `BinaryIO.LongStringRoundTrip` | BinaryBlister/IO.cs:22-31 | a long string written after its u16 length is read back unchanged; null and "" both come back null |
| `BinaryIO.OptionalBytesRoundTrip` | BinaryBlister/Playlist.cs:75 | an optional blob written after its u32 length is read back unchanged; null and an empty blob both come back null |
| `BinaryIO.BytesRoundTrip` | BinaryBlister/Beatmap.cs:58 | a mandatory blob written after its u32 length is read back unchanged, the empty blob included |
| `BinaryIO.Reader.constructor` | BinaryBlister/IO.cs:7-9 | a new reader starts at position 0 of its input |
| `BinaryIO.Reader.StreamReadByte` | BinaryBlister/Playlist.cs:155 | Stream.ReadByte returns the next byte and advances by one, or returns -1 at the end of the stream and stays there |
| `BinaryIO.Reader.ReadByte` | BinaryBlister/IO.cs:13 | returns the value and moves to the position that `ParseByte` gives, or gives its error |
| `BinaryIO.Reader.ReadUInt` | BinaryBlister/IO.cs:24 | returns the value and moves to the position that `ParseUInt` gives, or gives its error |
| `BinaryIO.ParseFixed` | BinaryBlister/IO.cs:18 | ReadBytes(n) gives at most `n` bytes, the ones at the position, and moves past them. It gives exactly `n` when the stream holds them, and fewer only when it ends first; a short read is not an error |
| `BinaryIO.Reader.ReadFixed` | BinaryBlister/IO.cs:18 | returns the bytes that `ParseFixed` gives and moves past them |
| `BinaryIO.Reader.ReadShortString` | BinaryBlister/IO.cs:11-20 | returns the value and moves to the position that `ParseShortString` gives, or gives its error |
| `BinaryIO.Reader.ReadOptionalLongString` | BinaryBlister/IO.cs:22-31 | returns the value and moves to the position that `ParseOptionalLongString` gives, or gives its error |
| `BinaryIO.Reader.ReadBytes` | BinaryBlister/Beatmap.cs:58 | returns the value and moves to the position that `ParseBytes` gives, or gives its error |
| `BinaryIO.Reader.ReadOptionalBytes` | BinaryBlister/Playlist.cs:75 | returns the value and moves to the position that `ParseOptionalBytes` gives, or gives its error |
| `BinaryIO.Writer.constructor` | BinaryBlister/Playlist.cs:116 | a new writer has written nothing |
| `BinaryIO.Writer.WriteRaw` | BinaryBlister/Beatmap.cs:47 | appends exactly the given bytes with no length prefix, the mirror of the `ReadBytes(20)` that reads a hash back |
| `BinaryIO.Writer.WriteByte` | BinaryBlister/Playlist.cs:166 | appends exactly the byte |
| `BinaryIO.Writer.WriteUInt` | BinaryBlister/Playlist.cs:123 | appends the `width` little-endian bytes of the value |
| `BinaryIO.Writer.WriteShortString` | BinaryBlister/Playlist.cs:118 | appends the u8 length, then the bytes |
| `BinaryIO.Writer.WriteLongString` | BinaryBlister/Playlist.cs:120 | appends the u16 length, then the bytes; null is the length 0 |
| `BinaryIO.Writer.WriteBytes` | BinaryBlister/Playlist.cs:121 | appends the u32 length, then the bytes; null is the length 0 |
| `Beatmaps.AsInt64` | BinaryBlister/Beatmap.cs:11 | the `(long)` cast of a u64 lies in the signed 64-bit range and is congruent to it mod 2^64 |
| `Beatmaps.AsUInt64` | BinaryBlister/Beatmap.cs:11 | the writer's `(ulong)` cast is undone by the reader's `(long)` cast |
| `Beatmaps.DateAddedRoundTrip` | BinaryBlister/Beatmap.cs:9-13 | a timestamp written as a u64 is read back as the same whole number of Unix seconds, consuming 8 bytes |
| `Beatmaps.UnknownTagFails` | BinaryBlister/Beatmap.cs:24 | every tag byte from 4 to 255 fails with InvalidBeatmapType, whatever follows it |
| `Beatmaps.ParseBeatmap` | BinaryBlister/Beatmap.cs:15-26 | a decoded entry's variant is the one the tag byte at the position names, and the entry takes at least the tag and the 8-byte timestamp |
| `Beatmaps.BeatmapLayout` | BinaryBlister/Beatmap.cs:15-70 | a decoded entry's variant is the one its tag names: 0 is Key, 1 is Hash, 2 is Zip, 3 is LevelId. Its timestamp is the u64 right after the tag, read through the `(long)` cast. Its payload comes right after the timestamp: one u32 key; 20 raw bytes of hash (fewer only at the end of the stream, and then the hash takes the rest of it); a u32-prefixed zip; a short-string level id |
| `Beatmaps.BeatmapRoundTrip` | BinaryBlister/Beatmap.cs:15-26 | an entry written by the reconstructed Beatmap.Write is read back unchanged, consuming exactly its bytes |
| `Beatmaps.ReadDateAdded` | BinaryBlister/Beatmap.cs:9-13 | the base constructor reads what `ParseDateAdded` says, failing on a timestamp outside DateTimeOffset's range |
| `Beatmaps.ReadKeyBeatmap` | BinaryBlister/Beatmap.cs:34-37 | reads what `ParseKeyBeatmap` says: the timestamp, then the u32 key |
| `Beatmaps.ReadHashBeatmap` | BinaryBlister/Beatmap.cs:45-48 | reads what `ParseHashBeatmap` says: the timestamp, then ReadBytes(20) |
| `Beatmaps.ReadZipBeatmap` | BinaryBlister/Beatmap.cs:56-59 | reads what `ParseZipBeatmap` says: the timestamp, then the blob |
| `Beatmaps.ReadLevelIdBeatmap` | BinaryBlister/Beatmap.cs:67-70 | reads what `ParseLevelIdBeatmap` says: the timestamp, then the short string |
| `Beatmaps.Read` | BinaryBlister/Beatmap.cs:15-26 | Beatmap.Read reads what `ParseBeatmap` says: the tag, then the variant it names |
| `Beatmaps.WritePayload` | BinaryBlister/Playlist.cs:126 | appends exactly the payload encoding of the entry |
| `Beatmaps.Write` | BinaryBlister/Playlist.cs:126 | appends the tag, the u64 timestamp and the payload |
| `Repeated.ParseMany` | BinaryBlister/Playlist.cs:79-82 | reading `count` entries in a row gives exactly `count` entries, or the error of the first entry that fails |
| `Repeated.ParseManySplit` | BinaryBlister/Playlist.cs:79-82 | reading `m + n` entries is reading `m` entries and then `n` more from where they end, in stream order |
| `Repeated.EncodeManySnoc` | BinaryBlister/Playlist.cs:124-127 | writing one more entry appends exactly its encoding |
| `Repeated.ManyRoundTrip` | BinaryBlister/Playlist.cs:79-82 | entries written one after another are read back in the same order, consuming exactly their bytes |
| `Playlists.MagicNumberIsAscii` | BinaryBlister/Playlist.cs:13-17 | the magic number is the 8 ASCII bytes of "Blist.v3" |
| `Playlists.FirstMismatch` | BinaryBlister/Playlist.cs:151-160 | it gives the first of the 8 magic bytes that the stream does not match, because the byte differs or the stream has ended; all bytes before it match |
| `Playlists.NoMismatchIsMagic` | BinaryBlister/Playlist.cs:151-160 | no mismatch among the 8 bytes is exactly the stream starting with the magic number |
| `Playlists.AsInt32` | BinaryBlister/Playlist.cs:77 | the `(int)` cast of the u32 count is negative exactly when the count is at least 2^31, and is the count otherwise |
| `Playlists.DecodeHeader` | BinaryBlister/Playlist.cs:72-77 | the declared count is a u32 |
| `Playlists.DecodeBody` | BinaryBlister/Playlist.cs:72-83 | a decoded body follows a decoded header, and holds exactly the declared number of entries, which is below 2^31 |
| `Playlists.DecodePlaylist` | BinaryBlister/Playlist.cs:65-83 | a stream without the magic number fails with InvalidMagicNumber; a decoded playlist was preceded by it and holds fewer than 2^31 entries |
| `Playlists.DecodePlaylistSteps` | BinaryBlister/Playlist.cs:65-83 | after the magic number, the read fails with the header's error, or with NegativeCapacity for a count the `(int)` cast turns negative, or with the first failing entry's error; otherwise it gives the header's fields and the entries. This is the proof step that `Playlists.Playlist.Read` relies on to return each error in that order |
| `Playlists.MagicNumberFirst` | BinaryBlister/Playlist.cs:111-128 | what Write(Stream) produces starts with the 8 bytes of "Blist.v3" |
| `Playlists.BadMagicNumberFails` | BinaryBlister/Playlist.cs:151-160 | a stream that mismatches any of the first 8 bytes, or ends within them, fails with InvalidMagicNumber, whatever follows |
| `Playlists.CountTooLargeFails` | BinaryBlister/Playlist.cs:77-78 | a declared count of 2^31 or more fails at the list allocation, before any entry is read |
| `Playlists.HeaderLayout` | BinaryBlister/Playlist.cs:72-77 | the header is read as title, author, description, cover and u32 count, each field starting where the previous one ended |
| `Playlists.BodyLayout` | BinaryBlister/Playlist.cs:72-83 | a decoded body holds exactly the declared number of entries (below 2^31), read in stream order right after the header. With a valid count, the body fails exactly when reading the entries fails |
| `Playlists.EntryRoundTrip` | BinaryBlister/Playlist.cs:81 | every entry reads back as written, whatever follows it |
| `Playlists.HeaderRoundTrip` | BinaryBlister/Playlist.cs:72-77 | the header written by Write(Stream) reads back with the same title, author and count; an empty description or cover comes back absent |
| `Playlists.EntriesRoundTrip` | BinaryBlister/Playlist.cs:79-82 | the entries written by Write(Stream) are read back in list order |
| `Playlists.BodyRoundTrip` | BinaryBlister/Playlist.cs:72-83 | the body written by Write(Stream) decodes to the same playlist, up to the empty-to-absent collapse, ending exactly after its bytes |
| `Playlists.PlaylistRoundTrip` | BinaryBlister/Playlist.cs:65-89 | decoding what Write(Stream) wrote gives the playlist back, up to that collapse, wherever in the input it starts |
| `Playlists.WriteAndRead` | BinaryBlister.Test/UnitTest.cs:16-33 | a playlist with a non-empty description and cover reads back whole: its title, author, description, cover and every entry, not only the cover length and the entry count |
| `Playlists.ReadMagicNumber` | BinaryBlister/Playlist.cs:151-160 | passes exactly when the 8 magic bytes are there; on a mismatch it reads nothing past the mismatching byte |
| `Playlists.WriteMagicNumber` | BinaryBlister/Playlist.cs:162-168 | appends exactly the 8 magic bytes |
| `Playlists.Playlist.constructor` | BinaryBlister/Playlist.cs:51-58 | stores the given metadata, with description and cover absent by default, and starts with no entries |
| `Playlists.Playlist.ReadHeader` | BinaryBlister/Playlist.cs:72-77 | reads what `DecodeHeader` says |
| `Playlists.Playlist.ReadMaps` | BinaryBlister/Playlist.cs:77-83 | the loop reads what `ParseMany` says: `mapCount` entries in stream order, stopping at the first failing one |
| `Playlists.Playlist.Read` | BinaryBlister/Playlist.cs:65-89 | Playlist(Stream) builds a new playlist equal to what `DecodePlaylist` gives, or fails with its error; no partial playlist is returned |
| `Playlists.Playlist.WriteHeader` | BinaryBlister/Playlist.cs:118-123 | appends title, author, description, cover and `Maps.Count`, in that order |
| `Playlists.Playlist.Write` | BinaryBlister/Playlist.cs:111-128 | appends exactly `EncodePlaylist` of the playlist: magic number, header, then every entry in list order |
| `ConversionFlags.NamedValues` | BinaryBlister.Conversion/Types/ConversionFlags.cs:6-14 | the six values are 0, 1, 2, 3, 7 and 4, and each fits a byte |
| `ConversionFlags.CoverIsHashesAndKeys` | BinaryBlister.Conversion/Types/ConversionFlags.cs:9-11 | IgnoreInvalidCover is IgnoreInvalidHashes | IgnoreInvalidKeys, and those two share no bit |
| `ConversionFlags.LooseAndDefaultBits` | BinaryBlister.Conversion/Types/ConversionFlags.cs:12-13 | Loose holds every bit of every named value; Default shares no bit with the three ignore values |
| `FlagUtils.HasFlag` | BinaryBlister.Conversion/Types/FlagUtils.cs:5 | holds exactly when every bit set in `b` is set in `a` |
| `FlagUtils.BitsDecide` | BinaryBlister.Conversion/Types/FlagUtils.cs:5 | `(a & b) == b` is the bit-by-bit subset test, both ways |
| `FlagUtils.HasStrict` | BinaryBlister.Conversion/Types/FlagUtils.cs:5 | every value has Strict |
| `FlagUtils.HasFlagReflexive` | BinaryBlister.Conversion/Types/FlagUtils.cs:5 | every value has itself |
| `FlagUtils.HasFlagTransitive` | BinaryBlister.Conversion/Types/FlagUtils.cs:5 | if `a` has `b` and `b` has `c`, then `a` has `c` |
| `FlagUtils.CoverNeedsBoth` | BinaryBlister.Conversion/Types/FlagUtils.cs:5 | a value has IgnoreInvalidCover exactly when it has both IgnoreInvalidHashes and IgnoreInvalidKeys |
| `FlagUtils.LooseHasAll` | BinaryBlister.Conversion/Types/FlagUtils.cs:5 | Loose has every named value |
| `FlagUtils.DefaultIsStrict` | BinaryBlister.Conversion/Types/ConversionFlags.cs:13 | Default has none of the three ignore flags, like Strict |
| `PlaylistConverter.LeniencyOf` | BinaryBlister.Conversion/PlaylistConverter.cs:47-49 | the three booleans computed before the conversion starts: hashes are ignored exactly when bit 0 of the flags is set, keys exactly when bit 1 is set, and an invalid cover exactly when both are set |
| `PlaylistConverter.ConvertCover` | BinaryBlister.Conversion/PlaylistConverter.cs:51-64 | an accepted cover is exactly the decoded image, absent when base64 decoding failed; the cover step fails only with InvalidBase64 or InvalidCover |
| `PlaylistConverter.Decide` | BinaryBlister.Conversion/PlaylistConverter.cs:66-98 | a song throws NullReference exactly when it is null, since reading its hash dereferences it |
| `PlaylistConverter.Convert` | BinaryBlister.Conversion/PlaylistConverter.cs:45-106 | a completed conversion had a song array, and has no more entries than songs |
| `PlaylistConverter.Kept` | BinaryBlister.Conversion/PlaylistConverter.cs:65-104 | the loop adds at most one entry per song |
| `PlaylistConverter.KeptAppend` | BinaryBlister.Conversion/PlaylistConverter.cs:65-104 | converting songs `a` then `b` gives the entries of `a` followed by those of `b`; an error in `a` wins over anything in `b` |
| `PlaylistConverter.KeptStopsAt` | BinaryBlister.Conversion/PlaylistConverter.cs:78-92 | once a song throws, no song after it changes the outcome |
| `PlaylistConverter.KeptFails` | BinaryBlister.Conversion/PlaylistConverter.cs:65-104 | the loop fails with `e` exactly when some song throws `e` and no earlier song throws |
| `PlaylistConverter.KeptSucceeds` | BinaryBlister.Conversion/PlaylistConverter.cs:65-104 | when no song throws, the loop adds the entries of the added songs, in song order |
| `PlaylistConverter.KeptOkNoFailure` | BinaryBlister.Conversion/PlaylistConverter.cs:65-104 | a loop that completes met no song that throws |
| `PlaylistConverter.SkipAddsNothing` | BinaryBlister.Conversion/PlaylistConverter.cs:99-103 | a song that is skipped, by `continue` or for having no field, adds nothing, wherever it stands in the list |
| `PlaylistConverter.EmptySongSkipped` | BinaryBlister.Conversion/PlaylistConverter.cs:95-103 | a song whose hash, key and level id are all null adds nothing and throws nothing |
| `PlaylistConverter.LaterFieldsIgnored` | BinaryBlister.Conversion/PlaylistConverter.cs:74-98 | a present hash decides; the key and level id are then not looked at. A present key, with no hash, decides; the level id is then not looked at |
| `PlaylistConverter.HashRule` | BinaryBlister.Conversion/PlaylistConverter.cs:74-84 | the lower-cased hash is validated. Valid: the song adds a hash entry built from the hash as given. Invalid: the song is skipped exactly when IgnoreInvalidHashes is set, and otherwise throws InvalidMapHash with the lower-cased hash |
| `PlaylistConverter.KeyRule` | BinaryBlister.Conversion/PlaylistConverter.cs:85-94 | a key that ParseKey accepts adds a key entry built from the key as given. A rejected key is skipped exactly when IgnoreInvalidKeys is set, and otherwise throws InvalidMapKey |
| `PlaylistConverter.LevelIdRule` | BinaryBlister.Conversion/PlaylistConverter.cs:95-98 | a level id, the only field present, is always added unvalidated |
| `PlaylistConverter.MetadataCopied` | BinaryBlister.Conversion/PlaylistConverter.cs:50 | title, author and description are copied unchanged |
| `PlaylistConverter.CoverRule` | BinaryBlister.Conversion/PlaylistConverter.cs:51-64 | an image that decodes to anything but PNG or JPG fails with InvalidCover whatever the flags are. A base64 failure fails with InvalidBase64 unless IgnoreInvalidCover is set. When that flag is set, the conversion never fails with InvalidBase64, and a completed conversion has no cover. A completed conversion stores exactly the decoded cover |
| `PlaylistConverter.SongErrors` | BinaryBlister.Conversion/PlaylistConverter.cs:74-98 | a song throws only a null reference, an invalid hash or an invalid key |
| `PlaylistConverter.AddedFromSong` | BinaryBlister.Conversion/PlaylistConverter.cs:74-103 | an added entry comes from the song's own field: the hash when there is one, else the key, else the level id |
| `PlaylistConverter.ConvertSucceeds` | BinaryBlister.Conversion/PlaylistConverter.cs:45-106 | a conversion succeeds exactly when all of these hold: the image decodes to a PNG or JPG, or fails base64 decoding with IgnoreInvalidCover set; the song array is not null; and no song throws |
| `PlaylistConverter.EntriesInSongOrder` | BinaryBlister.Conversion/PlaylistConverter.cs:99-103 | the entries of a converted playlist are those of the added songs in song order, entry `k` stamped with the `k`-th reading of the clock; there are no more entries than songs |
| `PlaylistConverter.DefaultIsStrictConversion` | BinaryBlister.Conversion/PlaylistConverter.cs:45-49 | converting with the default flags is converting with Strict: nothing is ignored |
| `PlaylistConverter.LooseForgives` | BinaryBlister.Conversion/PlaylistConverter.cs:47-49 | with Loose, no invalid hash, key or base64 cover fails the conversion; only an unknown cover type or a null reference can |
| `PlaylistConverter.ConvertLegacyPlaylist` | BinaryBlister.Conversion/PlaylistConverter.cs:45-106 | the method returns a new playlist equal to what `Convert` gives, or fails with its error |

## Left out

- The GZip envelope (BinaryBlister/Playlist.cs:69, 115) is a library codec. The body is the already-decompressed byte sequence, placed right after the magic number.
- Stream, file and buffer plumbing is left out: the buffer and file constructors, the `dispose` flag and the `Write()` and `Write(string)` overloads. They only move bytes between a stream and a file or a buffer.
- UTF-8 encoding and decoding are left out; text is its UTF-8 bytes. `Encoding.GetString` replaces invalid sequences, and the model does not capture that.
- The code of `BinaryBlisterWriter`, `Beatmap.Write`, `ReadBytes()` and `ReadOptionalBytes` is not part of this model. Their behaviour is reconstructed.
- `Playlists.Playlist.Write`: requires every length to fit its prefix (`Writable`), because the behaviour of the writer, whose code is not modelled, on over-long fields is unknown.
- `Beatmaps.Write`: requires a 20-byte hash, a zip whose length fits a u32 and a level id whose length fits a u8 (`Encodable`), for the same reason. The same holds for `Beatmaps.WritePayload`.
- `BinaryIO.Writer.WriteShortString`: requires a length below 256, for the same reason. `WriteLongString` requires a length below 2^16 and `WriteBytes` one below 2^32.
- `Playlists.DecodeBody`: does not model the OutOfMemoryException that `new List<Beatmap>(mapCount)` can throw for a large positive count (BinaryBlister/Playlist.cs:78). Whether it throws depends on the runtime's array-length limit and on the memory available, so the model reads the entries instead. Only the negative capacity that the `(int)` cast gives for counts of 2^31 and more is modelled.
- `UnsupportedEndiannessException` is declared but never thrown by the modelled code; the model is little-endian throughout.
- JSON deserialisation (BinaryBlister.Conversion/PlaylistConverter.cs:13-43) belongs to Newtonsoft.Json. Only the shapes of `LegacyPlaylist` and `LegacySong` are kept.
- The helpers the converter calls are outside this model, so they are fields of an `Environment` with no properties assumed: `Utils.ParseBase64Image`, `MimeType.GetMimeType`, `string.ToLower`, `Utils.ValidHash`, `Utils.ParseKey`, and the `HashBeatmap(string)` and `KeyBeatmap(string)` constructors. These helpers are assumed to throw nothing except the InvalidBase64Exception of `ParseBase64Image`. `PlaylistConverter.HashRule`, `PlaylistConverter.KeyRule` and `PlaylistConverter.LooseForgives` rest on that assumption: lines 69 and 71 call the `HashBeatmap(string)` and `KeyBeatmap(string)` constructors on a hash or key that is not yet validated, before the skip checks at lines 80 and 90.
- Lines 67-72 of PlaylistConverter.cs build an entry that the rest of the loop always replaces or discards, so they are not modelled. If the string constructors, which are not modelled, could throw, an exception from those lines would be missed.
- `Beatmaps.BeatmapRoundTrip`, `Playlists.PlaylistRoundTrip` and `Playlists.WriteAndRead`: a timestamp is modelled as whole Unix seconds at offset zero (`UnixSeconds`), so "unchanged" is claimed only for such values. The program's `DateAdded` is a `DateTimeOffset`. Writing it keeps only the whole seconds, and reading it back through `FromUnixTimeSeconds` (BinaryBlister/Beatmap.cs:12) gives offset zero. So an entry with sub-second ticks or a non-zero offset, such as one stamped with `DateTime.Now` by the converter (BinaryBlister.Conversion/PlaylistConverter.cs:101), does not read back unchanged.
- `DateTime.Now` is a clock parameter: `clock(k)` is the time read when the `k`-th entry is added. Sub-second precision and the local time zone are left out.
- Null strings are not modelled where the model uses plain text. A playlist's title and author and a `LevelIdBeatmap`'s level id are never null in the model. Every nullable field is an `Option`: the description, the cover, the legacy image, a song's hash, key and level id, the `Songs` array and each of its elements.
- The converter uses the class name `LevelIDBeatmap`, while BinaryBlister/Beatmap.cs declares `LevelIdBeatmap`; both are the model's `LevelIdBeatmap`.
