/** The primitive codec of the "Blist.v3" body: little-endian integers,
    length-prefixed strings and blobs, read through a `Reader` (the
    `BinaryBlisterReader` of BinaryBlister/IO.cs) and written through a
    `Writer` (its `BinaryBlisterWriter` counterpart, whose code is outside
    this model and is reconstructed here as the mirror of the reader).

    Text is modelled by its UTF-8 bytes, so a C# `string` is a `Text`. */
module BinaryIO {
  import opened Wrappers

  newtype byte = x: int | 0 <= x < 256

  /** A string, as the UTF-8 bytes it is written as. */
  type Text = seq<byte>

  type u32 = x: nat | x < 0x1_0000_0000

  /** The exceptions a read can end in. Both `NegativeCapacity` and
      `TimestampOutOfRange` are `ArgumentOutOfRangeException`s in .NET. */
  datatype DecodeError =
    | EndOfStream            // EndOfStreamException from ReadByte or ReadUInt16/32/64
    | InvalidMagicNumber     // InvalidMagicNumberException
    | InvalidBeatmapType     // InvalidBeatmapTypeException
    | TimestampOutOfRange    // DateTimeOffset.FromUnixTimeSeconds out of range
    | NegativeCapacity       // new List<T>(n) with n < 0

  /** A decoded value and the position just after the bytes it used. */
  datatype Parsed<+T> = Parsed(value: T, next: nat)

  /** `r` is a successful read of `v` that ends just before `next`. */
  ghost predicate ParsesTo<T>(r: Result<Parsed<T>, DecodeError>, v: T, next: nat) {
    r.Ok? && r.value.value == v && r.value.next == next
  }

  // ---------------------------------------------------------------------
  // Little-endian unsigned integers

  function Pow256(n: nat): (r: nat)
    ensures r > 0
  {
    if n == 0 then 1 else 256 * Pow256(n - 1)
  }

  lemma Pow256Widths()
    ensures Pow256(2) == 0x1_0000 && Pow256(4) == 0x1_0000_0000
    ensures Pow256(8) == 0x1_0000_0000_0000_0000
  {
  }

  /** The unsigned value of `s`, least significant byte first. */
  function FromLE(s: seq<byte>): (r: nat)
    ensures r < Pow256(|s|)
  {
    if s == [] then 0
    else
      var rest := FromLE(s[1..]);
      assert s[0] as nat + 256 * rest <= 255 + 256 * (Pow256(|s| - 1) - 1);
      s[0] as nat + 256 * rest
  }

  /** The `n` little-endian bytes of `x`. */
  function ToLE(x: nat, n: nat): (r: seq<byte>)
    requires x < Pow256(n)
    ensures |r| == n
  {
    if n == 0 then []
    else
      assert x / 256 < Pow256(n - 1);
      [(x % 256) as byte] + ToLE(x / 256, n - 1)
  }

  lemma {:induction false} FromLEToLE(x: nat, n: nat)
    requires x < Pow256(n)
    ensures FromLE(ToLE(x, n)) == x
  {
    if n > 0 {
      FromLEToLE(x / 256, n - 1);
      assert ToLE(x, n)[1..] == ToLE(x / 256, n - 1);
    }
  }

  lemma {:induction false} ToLEFromLE(s: seq<byte>)
    ensures ToLE(FromLE(s), |s|) == s
  {
    if s != [] {
      ToLEFromLE(s[1..]);
      var x := FromLE(s);
      assert x % 256 == s[0] as nat && x / 256 == FromLE(s[1..]);
    }
  }

  // ---------------------------------------------------------------------
  // Positions in a byte sequence

  predicate IsAt(data: seq<byte>, pos: nat, e: seq<byte>) {
    pos + |e| <= |data| && data[pos..pos + |e|] == e
  }

  lemma IsAtSplit(data: seq<byte>, pos: nat, a: seq<byte>, b: seq<byte>)
    requires IsAt(data, pos, a + b)
    ensures IsAt(data, pos, a) && IsAt(data, pos + |a|, b)
  {
    assert data[pos..pos + |a|] == (a + b)[..|a|];
    assert data[pos + |a|..pos + |a| + |b|] == (a + b)[|a|..];
  }

  lemma AppendAssoc(a: seq<byte>, b: seq<byte>, c: seq<byte>)
    ensures (a + b) + c == a + (b + c)
  {
  }

  /** An optional blob or string that is empty reads back as absent. */
  function AbsentIfEmpty<T>(o: Option<seq<T>>): (r: Option<seq<T>>)
    ensures r != Some([])
    ensures r.Some? ==> r == o
    ensures o.Some? && o.value != [] ==> r == o
  {
    if o == Some([]) then None else o
  }

  // ---------------------------------------------------------------------
  // Reading, as functions of the input and the position

  /** BinaryReader.ReadBytes(n): the next `n` bytes, or only the bytes
      that are left when the stream ends first. A short read is not an
      error: it returns a shorter array. */
  function ParseFixed(data: seq<byte>, pos: nat, n: nat): (r: Parsed<seq<byte>>)
    ensures |r.value| <= n && r.next == pos + |r.value|
    ensures pos <= |data| ==>
      && r.next <= |data| && r.value == data[pos..r.next]
      && (|r.value| == n <==> pos + n <= |data|)
      && (|r.value| < n ==> r.next == |data|)
  {
    if pos + n <= |data| then Parsed(data[pos..pos + n], pos + n)
    else if pos <= |data| then Parsed(data[pos..], |data|)
    else Parsed([], pos)
  }

  /** BinaryReader.ReadByte. */
  function ParseByte(data: seq<byte>, pos: nat): Result<Parsed<byte>, DecodeError> {
    if pos < |data| then Ok(Parsed(data[pos], pos + 1)) else Err(EndOfStream)
  }

  /** BinaryReader.ReadUInt16/32/64 for `width` = 2, 4, 8. */
  function ParseUInt(data: seq<byte>, pos: nat, width: nat): (r: Result<Parsed<nat>, DecodeError>)
    ensures r.Ok? ==> r.value.value < Pow256(width)
  {
    if pos + width <= |data| then Ok(Parsed(FromLE(data[pos..pos + width]), pos + width))
    else Err(EndOfStream)
  }

  /** ReadShortString: a u8 length, then that many bytes; 0 is "". */
  function ParseShortString(data: seq<byte>, pos: nat): Result<Parsed<Text>, DecodeError> {
    match ParseByte(data, pos)
    case Err(e) => Err(e)
    case Ok(length) =>
      if length.value == 0 then Ok(Parsed([], length.next))
      else Ok(ParseFixed(data, length.next, length.value as nat))
  }

  /** ReadOptionalLongString: a u16 length, then that many bytes; 0 is null. */
  function ParseOptionalLongString(data: seq<byte>, pos: nat): Result<Parsed<Option<Text>>, DecodeError> {
    match ParseUInt(data, pos, 2)
    case Err(e) => Err(e)
    case Ok(length) =>
      if length.value == 0 then Ok(Parsed(None, length.next))
      else
        var bytes := ParseFixed(data, length.next, length.value);
        Ok(Parsed(Some(bytes.value), bytes.next))
  }

  /** ReadBytes() (reconstructed): a u32 length, then that many bytes. */
  function ParseBytes(data: seq<byte>, pos: nat): Result<Parsed<seq<byte>>, DecodeError> {
    match ParseUInt(data, pos, 4)
    case Err(e) => Err(e)
    case Ok(length) =>
      Ok(ParseFixed(data, length.next, length.value))
  }

  /** ReadOptionalBytes (reconstructed): a u32 length, then that many
      bytes; 0 is null. */
  function ParseOptionalBytes(data: seq<byte>, pos: nat): Result<Parsed<Option<seq<byte>>>, DecodeError> {
    match ParseUInt(data, pos, 4)
    case Err(e) => Err(e)
    case Ok(length) =>
      if length.value == 0 then Ok(Parsed(None, length.next))
      else
        var bytes := ParseFixed(data, length.next, length.value);
        Ok(Parsed(Some(bytes.value), bytes.next))
  }

  // ---------------------------------------------------------------------
  // Writing (reconstructed), as functions of the value

  function EncodeShortString(s: Text): seq<byte>
    requires |s| < 256
  {
    [|s| as byte] + s
  }

  /** WriteLongString: null and "" both write the length 0. */
  function EncodeLongString(s: Option<Text>): seq<byte>
    requires s.Some? ==> |s.value| < 0x1_0000
  {
    match s
    case None => ToLE(0, 2)
    case Some(t) => ToLE(|t|, 2) + t
  }

  /** WriteBytes: null and an empty blob both write the length 0. */
  function EncodeBytes(b: Option<seq<byte>>): seq<byte>
    requires b.Some? ==> |b.value| < 0x1_0000_0000
  {
    match b
    case None => ToLE(0, 4)
    case Some(v) => ToLE(|v|, 4) + v
  }

  // ---------------------------------------------------------------------
  // What the readers promise

  lemma UIntRoundTrip(data: seq<byte>, pos: nat, x: nat, width: nat)
    requires x < Pow256(width) && IsAt(data, pos, ToLE(x, width))
    ensures ParseUInt(data, pos, width) == Ok(Parsed(x, pos + width))
  {
    FromLEToLE(x, width);
  }

  /** A short string with length byte `n`: `n` = 0 is "" and consumes one
      byte; otherwise the value is the next `n` bytes (n <= 255), or fewer
      when the stream ends first. Only a missing length byte fails. */
  lemma ShortStringConsumes(data: seq<byte>, pos: nat)
    ensures ParseShortString(data, pos).Ok? <==> pos < |data|
    ensures pos < |data| && data[pos] == 0 ==> ParseShortString(data, pos) == Ok(Parsed([], pos + 1))
    ensures ParseShortString(data, pos).Ok? ==>
      var p := ParseShortString(data, pos).value;
      var n := data[pos] as int;
      && n <= 255 && |p.value| <= n
      && p.next == pos + 1 + |p.value| && p.value == data[pos + 1..p.next]
      && (pos + 1 + n <= |data| <==> |p.value| == n)
      && (|p.value| < n ==> p.next == |data|)
    ensures ParseShortString(data, pos).Err? ==> ParseShortString(data, pos).error == EndOfStream
  {
  }

  /** A long string with u16 length `n`: `n` = 0 is null and consumes two
      bytes; otherwise the value is the next `n` bytes (n <= 65535), or
      fewer when the stream ends first. Only a missing prefix fails. */
  lemma LongStringConsumes(data: seq<byte>, pos: nat)
    ensures ParseOptionalLongString(data, pos).Ok? <==> pos + 2 <= |data|
    ensures pos + 2 <= |data| && FromLE(data[pos..pos + 2]) == 0 ==>
      ParseOptionalLongString(data, pos) == Ok(Parsed(None, pos + 2))
    ensures ParseOptionalLongString(data, pos).Ok? ==>
      var p := ParseOptionalLongString(data, pos).value;
      var n := FromLE(data[pos..pos + 2]);
      && n < 0x1_0000
      && (n > 0 ==>
            && p.value.Some? && |p.value.value| <= n
            && p.next == pos + 2 + |p.value.value| && p.value == Some(data[pos + 2..p.next])
            && (pos + 2 + n <= |data| <==> |p.value.value| == n)
            && (|p.value.value| < n ==> p.next == |data|))
    ensures ParseOptionalLongString(data, pos).Err? ==> ParseOptionalLongString(data, pos).error == EndOfStream
  {
    if pos + 2 <= |data| {
      assert Pow256(2) == 0x1_0000;
      assert data[pos + 2..] == data[pos + 2..|data|];
    }
  }

  /** A zero prefix always means absent, so "" is never read back from a
      complete stream: it only comes from a non-zero prefix with nothing
      after it. */
  lemma LongStringNeverEmpty(data: seq<byte>, pos: nat)
    requires ParseOptionalLongString(data, pos).Ok?
    ensures ParseOptionalLongString(data, pos).value.value == Some([]) ==>
      FromLE(data[pos..pos + 2]) > 0 && ParseOptionalLongString(data, pos).value.next == pos + 2 == |data|
  {
  }

  lemma ShortStringRoundTrip(data: seq<byte>, pos: nat, s: Text)
    requires |s| < 256 && IsAt(data, pos, EncodeShortString(s))
    ensures ParseShortString(data, pos) == Ok(Parsed(s, pos + |EncodeShortString(s)|))
  {
    IsAtSplit(data, pos, [|s| as byte], s);
  }

  /** Writing then reading a long string gives it back, except that ""
      comes back as null. */
  lemma LongStringRoundTrip(data: seq<byte>, pos: nat, s: Option<Text>)
    requires s.Some? ==> |s.value| < 0x1_0000
    requires IsAt(data, pos, EncodeLongString(s))
    ensures ParseOptionalLongString(data, pos) == Ok(Parsed(AbsentIfEmpty(s), pos + |EncodeLongString(s)|))
  {
    match s
    case None =>
      UIntRoundTrip(data, pos, 0, 2);
    case Some(t) =>
      IsAtSplit(data, pos, ToLE(|t|, 2), t);
      UIntRoundTrip(data, pos, |t|, 2);
  }

  /** Writing then reading an optional blob gives it back, except that an
      empty blob comes back as null. */
  lemma OptionalBytesRoundTrip(data: seq<byte>, pos: nat, b: Option<seq<byte>>)
    requires b.Some? ==> |b.value| < 0x1_0000_0000
    requires IsAt(data, pos, EncodeBytes(b))
    ensures ParseOptionalBytes(data, pos) == Ok(Parsed(AbsentIfEmpty(b), pos + |EncodeBytes(b)|))
  {
    match b
    case None =>
      UIntRoundTrip(data, pos, 0, 4);
    case Some(v) =>
      IsAtSplit(data, pos, ToLE(|v|, 4), v);
      UIntRoundTrip(data, pos, |v|, 4);
  }

  /** A short string followed by `rest`: the string is read back, and
      `rest` is what comes after it. */
  lemma ShortStringThen(data: seq<byte>, pos: nat, s: Text, rest: seq<byte>) returns (next: nat)
    requires |s| < 256 && IsAt(data, pos, EncodeShortString(s) + rest)
    ensures next == pos + |EncodeShortString(s)|
    ensures ParsesTo(ParseShortString(data, pos), s, next) && IsAt(data, next, rest)
  {
    IsAtSplit(data, pos, EncodeShortString(s), rest);
    ShortStringRoundTrip(data, pos, s);
    next := pos + |EncodeShortString(s)|;
  }

  lemma LongStringThen(data: seq<byte>, pos: nat, s: Option<Text>, rest: seq<byte>) returns (next: nat)
    requires s.Some? ==> |s.value| < 0x1_0000
    requires IsAt(data, pos, EncodeLongString(s) + rest)
    ensures next == pos + |EncodeLongString(s)|
    ensures ParsesTo(ParseOptionalLongString(data, pos), AbsentIfEmpty(s), next) && IsAt(data, next, rest)
  {
    IsAtSplit(data, pos, EncodeLongString(s), rest);
    LongStringRoundTrip(data, pos, s);
    next := pos + |EncodeLongString(s)|;
  }

  lemma OptionalBytesThen(data: seq<byte>, pos: nat, b: Option<seq<byte>>, rest: seq<byte>) returns (next: nat)
    requires b.Some? ==> |b.value| < 0x1_0000_0000
    requires IsAt(data, pos, EncodeBytes(b) + rest)
    ensures next == pos + |EncodeBytes(b)|
    ensures ParsesTo(ParseOptionalBytes(data, pos), AbsentIfEmpty(b), next) && IsAt(data, next, rest)
  {
    IsAtSplit(data, pos, EncodeBytes(b), rest);
    OptionalBytesRoundTrip(data, pos, b);
    next := pos + |EncodeBytes(b)|;
  }

  /** Writing then reading a mandatory blob gives it back, empty included. */
  lemma BytesRoundTrip(data: seq<byte>, pos: nat, b: seq<byte>)
    requires |b| < 0x1_0000_0000
    requires IsAt(data, pos, EncodeBytes(Some(b)))
    ensures ParseBytes(data, pos) == Ok(Parsed(b, pos + |EncodeBytes(Some(b))|))
  {
    IsAtSplit(data, pos, ToLE(|b|, 4), b);
    UIntRoundTrip(data, pos, |b|, 4);
  }

  // ---------------------------------------------------------------------
  // The reader: a stream with a position

  class Reader {
    const data: seq<byte>
    var pos: nat

    ghost predicate Valid()
      reads this
    {
      pos <= |data|
    }

    /** The read returned what `spec` says, and the position moved to where
        `spec` says; a failed read may leave the position anywhere. */
    ghost predicate Yields<T>(r: Result<T, DecodeError>, spec: Result<Parsed<T>, DecodeError>)
      reads this
    {
      match spec
      case Ok(p) => r == Ok(p.value) && pos == p.next
      case Err(e) => r == Err(e)
    }

    constructor (data: seq<byte>)
      ensures Valid() && this.data == data && pos == 0
    {
      this.data := data;
      pos := 0;
    }

    /** Stream.ReadByte: the next byte, or -1 at the end of the stream. */
    method StreamReadByte() returns (b: int)
      requires Valid()
      modifies this
      ensures Valid()
      ensures old(pos) < |data| ==> b == data[old(pos)] as int && pos == old(pos) + 1
      ensures old(pos) == |data| ==> b == -1 && pos == old(pos)
    {
      if pos < |data| {
        b := data[pos] as int;
        pos := pos + 1;
      } else {
        b := -1;
      }
    }

    method ReadByte() returns (r: Result<byte, DecodeError>)
      requires Valid()
      modifies this
      ensures Valid() && Yields(r, ParseByte(data, old(pos)))
    {
      if pos < |data| {
        r := Ok(data[pos]);
        pos := pos + 1;
      } else {
        r := Err(EndOfStream);
      }
    }

    method ReadUInt(width: nat) returns (r: Result<nat, DecodeError>)
      requires Valid()
      modifies this
      ensures Valid() && Yields(r, ParseUInt(data, old(pos), width))
    {
      if pos + width <= |data| {
        r := Ok(FromLE(data[pos..pos + width]));
        pos := pos + width;
      } else {
        r := Err(EndOfStream);
      }
    }

    /** BinaryReader.ReadBytes(n). */
    method ReadFixed(n: nat) returns (bytes: seq<byte>)
      requires Valid()
      modifies this
      ensures Valid() && bytes == ParseFixed(data, old(pos), n).value && pos == ParseFixed(data, old(pos), n).next
    {
      if pos + n <= |data| {
        bytes := data[pos..pos + n];
        pos := pos + n;
      } else {
        bytes := data[pos..];
        pos := |data|;
      }
    }

    method ReadShortString() returns (r: Result<Text, DecodeError>)
      requires Valid()
      modifies this
      ensures Valid() && Yields(r, ParseShortString(data, old(pos)))
    {
      var length := ReadByte();
      if length.Err? {
        return Err(length.error);
      }
      if length.value == 0 {
        return Ok([]);
      }
      var bytes := ReadFixed(length.value as nat);
      r := Ok(bytes);
    }

    method ReadOptionalLongString() returns (r: Result<Option<Text>, DecodeError>)
      requires Valid()
      modifies this
      ensures Valid() && Yields(r, ParseOptionalLongString(data, old(pos)))
    {
      var length := ReadUInt(2);
      if length.Err? {
        return Err(length.error);
      }
      if length.value == 0 {
        return Ok(None);
      }
      var bytes := ReadFixed(length.value);
      r := Ok(Some(bytes));
    }

    /** ReadBytes() (reconstructed). */
    method ReadBytes() returns (r: Result<seq<byte>, DecodeError>)
      requires Valid()
      modifies this
      ensures Valid() && Yields(r, ParseBytes(data, old(pos)))
    {
      var length := ReadUInt(4);
      if length.Err? {
        return Err(length.error);
      }
      var bytes := ReadFixed(length.value);
      r := Ok(bytes);
    }

    /** ReadOptionalBytes (reconstructed). */
    method ReadOptionalBytes() returns (r: Result<Option<seq<byte>>, DecodeError>)
      requires Valid()
      modifies this
      ensures Valid() && Yields(r, ParseOptionalBytes(data, old(pos)))
    {
      var length := ReadUInt(4);
      if length.Err? {
        return Err(length.error);
      }
      if length.value == 0 {
        return Ok(None);
      }
      var bytes := ReadFixed(length.value);
      r := Ok(Some(bytes));
    }
  }

  // ---------------------------------------------------------------------
  // The writer (reconstructed): a stream that only grows

  class Writer {
    var bytes: seq<byte>

    constructor ()
      ensures bytes == []
    {
      bytes := [];
    }

    method WriteByte(b: byte)
      modifies this
      ensures bytes == old(bytes) + [b]
    {
      bytes := bytes + [b];
    }

    method WriteUInt(x: nat, width: nat)
      requires x < Pow256(width)
      modifies this
      ensures bytes == old(bytes) + ToLE(x, width)
    {
      bytes := bytes + ToLE(x, width);
    }

    method WriteRaw(b: seq<byte>)
      modifies this
      ensures bytes == old(bytes) + b
    {
      bytes := bytes + b;
    }

    method WriteShortString(s: Text)
      requires |s| < 256
      modifies this
      ensures bytes == old(bytes) + EncodeShortString(s)
    {
      WriteByte(|s| as byte);
      WriteRaw(s);
    }

    method WriteLongString(s: Option<Text>)
      requires s.Some? ==> |s.value| < 0x1_0000
      modifies this
      ensures bytes == old(bytes) + EncodeLongString(s)
    {
      assert Pow256(2) == 0x1_0000;
      if s.None? {
        WriteUInt(0, 2);
      } else {
        WriteUInt(|s.value|, 2);
        WriteRaw(s.value);
      }
    }

    method WriteBytes(b: Option<seq<byte>>)
      requires b.Some? ==> |b.value| < 0x1_0000_0000
      modifies this
      ensures bytes == old(bytes) + EncodeBytes(b)
    {
      assert Pow256(4) == 0x1_0000_0000;
      if b.None? {
        WriteUInt(0, 4);
      } else {
        WriteUInt(|b.value|, 4);
        WriteRaw(b.value);
      }
    }
  }
}
