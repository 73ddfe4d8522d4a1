/** A counted run of records read one after the other, as the entry loop of
    Playlist(Stream) reads its beatmaps (the first failing read aborts the
    run), and the run written back in list order, as Write(Stream) writes
    them. The record codec is a parameter. */
module Repeated {
  import opened Wrappers
  import opened BinaryIO

  /** A record reader: from a position, the record and where it ends. */
  type Parser<T> = (seq<byte>, nat) -> Result<Parsed<T>, DecodeError>

  /** `count` records read one after the other; the first failure aborts. */
  function ParseMany<T>(parse: Parser<T>, data: seq<byte>, pos: nat, count: nat): (r: Result<Parsed<seq<T>>, DecodeError>)
    decreases count
    ensures r.Ok? ==> |r.value.value| == count
  {
    if count == 0 then Ok(Parsed([], pos))
    else
      var first := parse(data, pos);
      if first.Err? then Err(first.error)
      else
        var rest := ParseMany(parse, data, first.value.next, count - 1);
        if rest.Err? then Err(rest.error)
        else Ok(Parsed([first.value.value] + rest.value.value, rest.value.next))
  }

  /** `prefix` before whatever `r` read; an error stays the same error. */
  function Prepend<T>(prefix: seq<T>, r: Result<Parsed<seq<T>>, DecodeError>): Result<Parsed<seq<T>>, DecodeError> {
    match r
    case Ok(p) => Ok(Parsed(prefix + p.value, p.next))
    case Err(e) => Err(e)
  }

  /** The records written one after the other, in list order. */
  function EncodeMany<T>(encode: T --> seq<byte>, xs: seq<T>): seq<byte>
    requires forall i :: 0 <= i < |xs| ==> encode.requires(xs[i])
  {
    if xs == [] then [] else encode(xs[0]) + EncodeMany(encode, xs[1..])
  }

  /** The record codec reads back what it writes, whatever follows it. */
  ghost predicate RecordRoundTrip<T(!new)>(parse: Parser<T>, encode: T --> seq<byte>) {
    forall x, data: seq<byte>, pos: nat ::
      encode.requires(x) && IsAt(data, pos, encode(x)) ==> ParsesTo(parse(data, pos), x, pos + |encode(x)|)
  }

  /** One record, then the other `k`, read from where it ends. */
  lemma ParseManyUnfold<T>(parse: Parser<T>, data: seq<byte>, pos: nat, count: nat, k: nat)
    requires count == k + 1
    ensures ParseMany(parse, data, pos, count) ==
      var first := parse(data, pos);
      if first.Err? then Err(first.error)
      else Prepend([first.value.value], ParseMany(parse, data, first.value.next, k))
  {
  }

  lemma PrependNothing<T>(r: Result<Parsed<seq<T>>, DecodeError>)
    ensures Prepend([], r) == r
  {
    if r.Ok? {
      assert [] + r.value.value == r.value.value;
    }
  }

  lemma PrependPrepend<T>(a: seq<T>, b: seq<T>, r: Result<Parsed<seq<T>>, DecodeError>)
    ensures Prepend(a, Prepend(b, r)) == Prepend(a + b, r)
  {
    if r.Ok? {
      assert a + (b + r.value.value) == (a + b) + r.value.value;
    }
  }

  /** A loop that has read `done` and is at `pos` with `left` records to
      go is on its way to reading what `count` records from `start` read. */
  ghost predicate ReadSoFar<T>(parse: Parser<T>, data: seq<byte>, start: nat, count: nat, done: seq<T>, pos: nat, left: nat) {
    Prepend(done, ParseMany(parse, data, pos, left)) == ParseMany(parse, data, start, count)
  }

  lemma ReadSoFarStart<T>(parse: Parser<T>, data: seq<byte>, start: nat, count: nat)
    ensures ReadSoFar(parse, data, start, count, [], start, count)
  {
    PrependNothing(ParseMany(parse, data, start, count));
  }

  /** One step of the loop: a failing record is the failure of the whole
      run, and a record that reads joins `done`. */
  lemma ReadSoFarStep<T>(parse: Parser<T>, data: seq<byte>, start: nat, count: nat, done: seq<T>, pos: nat, left: nat)
    requires left > 0 && ReadSoFar(parse, data, start, count, done, pos, left)
    ensures parse(data, pos).Err? ==> ParseMany(parse, data, start, count) == Err(parse(data, pos).error)
    ensures parse(data, pos).Ok? ==>
      ReadSoFar(parse, data, start, count, done + [parse(data, pos).value.value], parse(data, pos).value.next, left - 1)
  {
    ParseManyUnfold(parse, data, pos, left, left - 1);
    var first := parse(data, pos);
    if first.Ok? {
      PrependPrepend(done, [first.value.value], ParseMany(parse, data, first.value.next, left - 1));
    }
  }

  /** With nothing left, the loop has read the whole run. */
  lemma ReadSoFarDone<T>(parse: Parser<T>, data: seq<byte>, start: nat, count: nat, done: seq<T>, pos: nat)
    requires ReadSoFar(parse, data, start, count, done, pos, 0)
    ensures ParseMany(parse, data, start, count) == Ok(Parsed(done, pos))
  {
    assert done + [] == done;
  }

  /** Reading m + n records is reading m, then n more from where they end;
      a failure among the first m is the failure of the whole run. */
  lemma {:induction false} ParseManySplit<T>(parse: Parser<T>, data: seq<byte>, pos: nat, m: nat, n: nat)
    ensures ParseMany(parse, data, pos, m + n) ==
      var first := ParseMany(parse, data, pos, m);
      if first.Err? then Err(first.error)
      else Prepend(first.value.value, ParseMany(parse, data, first.value.next, n))
    decreases m
  {
    if m == 0 {
      PrependNothing(ParseMany(parse, data, pos, n));
    } else {
      ParseManyUnfold(parse, data, pos, m + n, (m - 1) + n);
      ParseManyUnfold(parse, data, pos, m, m - 1);
      match parse(data, pos)
      case Err(_) =>
      case Ok(b) =>
        ParseManySplit(parse, data, b.next, m - 1, n);
        match ParseMany(parse, data, b.next, m - 1)
        case Err(_) =>
        case Ok(rest) =>
          PrependPrepend([b.value], rest.value, ParseMany(parse, data, rest.next, n));
    }
  }

  lemma {:induction false} EncodeManySnoc<T>(encode: T --> seq<byte>, xs: seq<T>, x: T)
    requires forall i :: 0 <= i < |xs| ==> encode.requires(xs[i])
    requires encode.requires(x)
    ensures EncodeMany(encode, xs + [x]) == EncodeMany(encode, xs) + encode(x)
  {
    if xs == [] {
      assert [x][1..] == [];
    } else {
      assert (xs + [x])[1..] == xs[1..] + [x];
      EncodeManySnoc(encode, xs[1..], x);
      AppendAssoc(encode(xs[0]), EncodeMany(encode, xs[1..]), encode(x));
    }
  }

  /** Reading back a written run gives the records back and ends where the
      run ends. */
  lemma {:induction false} ManyRoundTrip<T(!new)>(parse: Parser<T>, encode: T --> seq<byte>, data: seq<byte>, pos: nat, xs: seq<T>)
    requires RecordRoundTrip(parse, encode)
    requires forall i :: 0 <= i < |xs| ==> encode.requires(xs[i])
    requires IsAt(data, pos, EncodeMany(encode, xs))
    ensures ParsesTo(ParseMany(parse, data, pos, |xs|), xs, pos + |EncodeMany(encode, xs)|)
    decreases xs
  {
    if xs != [] {
      var e := encode(xs[0]);
      var rest := EncodeMany(encode, xs[1..]);
      IsAtSplit(data, pos, e, rest);
      ManyRoundTrip(parse, encode, data, pos + |e|, xs[1..]);
      ParseManyUnfold(parse, data, pos, |xs|, |xs[1..]|);
      assert [xs[0]] + xs[1..] == xs;
    }
  }
}
