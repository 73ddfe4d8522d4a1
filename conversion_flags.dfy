/** The ConversionFlags enumeration (BinaryBlister.Conversion/Types/
    ConversionFlags.cs): a `[Flags]` enum whose underlying type is `byte`. */
module ConversionFlags {

  /** A value of the enum: any byte, since a C# enum may hold any value of
      its underlying type, named or not. */
  type Flags = bv8

  const Strict: Flags := 0
  const IgnoreInvalidHashes: Flags := 1
  const IgnoreInvalidKeys: Flags := 2
  const IgnoreInvalidCover: Flags := 3
  const Loose: Flags := 7
  const Default: Flags := 4

  /** The six named values, in declaration order. */
  const Named: seq<Flags> := [Strict, IgnoreInvalidHashes, IgnoreInvalidKeys, IgnoreInvalidCover, Loose, Default]

  /** The values as the integers they are declared with: each fits a byte. */
  lemma NamedValues()
    ensures Named == [0, 1, 2, 3, 7, 4]
    ensures forall i :: 0 <= i < |Named| ==> 0 <= Named[i] as int < 256
  {
  }

  /** IgnoreInvalidCover is not a bit of its own: it is the union of the
      hash and key bits. */
  lemma CoverIsHashesAndKeys()
    ensures IgnoreInvalidCover == IgnoreInvalidHashes | IgnoreInvalidKeys
    ensures IgnoreInvalidHashes & IgnoreInvalidKeys == Strict
  {
  }

  /** Loose has every bit of every named value; Default shares no bit with
      the three ignore values. */
  lemma LooseAndDefaultBits()
    ensures forall i :: 0 <= i < |Named| ==> Loose & Named[i] == Named[i]
    ensures Default & IgnoreInvalidHashes == 0
    ensures Default & IgnoreInvalidKeys == 0
    ensures Default & IgnoreInvalidCover == 0
  {
  }
}

/** FlagUtils.HasFlag (BinaryBlister.Conversion/Types/FlagUtils.cs). */
module FlagUtils {
  import opened ConversionFlags

  /** Bit `i` of `x` is set. */
  predicate Bit(x: Flags, i: nat)
    requires i < 8
  {
    (x >> i) & 1 == 1
  }

  /** `(a & b) == b`: every bit set in `b` is set in `a`. */
  function HasFlag(a: Flags, b: Flags): (r: bool)
    ensures r <==> forall i :: 0 <= i < 8 ==> (Bit(b, i) ==> Bit(a, i))
  {
    BitsDecide(a, b);
    a & b == b
  }

  /** The subset test, bit by bit. */
  lemma BitsDecide(a: Flags, b: Flags)
    ensures a & b == b <==> forall i :: 0 <= i < 8 ==> (Bit(b, i) ==> Bit(a, i))
  {
    if a & b != b {
      assert exists i :: 0 <= i < 8 && Bit(b, i) && !Bit(a, i) by {
        if Bit(b, 0) && !Bit(a, 0) {
        } else if Bit(b, 1) && !Bit(a, 1) {
        } else if Bit(b, 2) && !Bit(a, 2) {
        } else if Bit(b, 3) && !Bit(a, 3) {
        } else if Bit(b, 4) && !Bit(a, 4) {
        } else if Bit(b, 5) && !Bit(a, 5) {
        } else if Bit(b, 6) && !Bit(a, 6) {
        } else {
          assert Bit(b, 7) && !Bit(a, 7);
        }
      }
    }
  }

  lemma HasStrict(a: Flags)
    ensures HasFlag(a, Strict)
  {
  }

  lemma HasFlagReflexive(a: Flags)
    ensures HasFlag(a, a)
  {
  }

  lemma HasFlagTransitive(a: Flags, b: Flags, c: Flags)
    requires HasFlag(a, b) && HasFlag(b, c)
    ensures HasFlag(a, c)
  {
  }

  /** Asking for IgnoreInvalidCover is asking for both other ignore flags. */
  lemma CoverNeedsBoth(a: Flags)
    ensures HasFlag(a, IgnoreInvalidCover) <==> HasFlag(a, IgnoreInvalidHashes) && HasFlag(a, IgnoreInvalidKeys)
  {
  }

  lemma LooseHasAll(f: Flags)
    requires f in Named
    ensures HasFlag(Loose, f)
  {
  }

  /** The default conversion ignores nothing: it is as strict as Strict. */
  lemma DefaultIsStrict()
    ensures !HasFlag(Default, IgnoreInvalidHashes)
    ensures !HasFlag(Default, IgnoreInvalidKeys)
    ensures !HasFlag(Default, IgnoreInvalidCover)
    ensures forall f :: f in [IgnoreInvalidHashes, IgnoreInvalidKeys, IgnoreInvalidCover] ==>
      HasFlag(Default, f) == HasFlag(Strict, f)
  {
  }
}
