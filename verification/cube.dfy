/** A colour table of fixed shape: `Cube` and the input-range parser beside it. */
module Cubes {
  import opened Wrappers
  import opened Text

  /** An IEEE-754 single-precision value, kept as its bit pattern; `0.0` is all zeros. */
  type F32 = bv32

  const ZERO: F32 := 0

  /** One `[f32; 3]` row of colour data. */
  type Rgb = s: seq<F32> | |s| == 3 witness [0, 0, 0]

  /** `str::parse::<f32>`, which the model takes as given. */
  type F32Parser = seq<Byte> -> Option<F32>

  /** `min..=max`; nothing orders the two bounds. */
  datatype InputRange = InputRange(min: F32, max: F32)

  /** The value held by a `Cube` at one moment. */
  datatype CubeValue = CubeValue(dim: nat, size: nat, inputRange: Option<InputRange>, rgbs: seq<F32>)

  /** Number of floats in a table: three per entry, `size` entries in 1D, `size^3` in 3D. */
  function TableLength(dim: nat, size: nat): nat
  {
    if dim == 1 then size * 3 else size * size * size * 3
  }

  /** A shape the constructors can produce: dimension 1 or 3 and a buffer of matching length. */
  predicate WellShaped(c: CubeValue)
  {
    && (c.dim == 1 || c.dim == 3)
    && c.size < 0x1_0000
    && |c.rgbs| == TableLength(c.dim, c.size)
  }

  predicate AllZero(s: seq<F32>)
  {
    forall k :: 0 <= k < |s| ==> s[k] == ZERO
  }

  /** The cube `one_d(size)` builds. */
  function OneDValue(size: U16): (c: CubeValue)
    ensures WellShaped(c) && c.dim == 1 && c.size == size && c.inputRange == None
    ensures |c.rgbs| == size * 3 && AllZero(c.rgbs)
  {
    CubeValue(1, size, None, seq(size * 3, _ => ZERO))
  }

  /** The cube `three_d(size)` builds. */
  function ThreeDValue(size: U16): (c: CubeValue)
    ensures WellShaped(c) && c.dim == 3 && c.size == size && c.inputRange == None
    ensures |c.rgbs| == size * size * size * 3 && AllZero(c.rgbs)
  {
    CubeValue(3, size, None, seq(size * size * size * 3, _ => ZERO))
  }

  /** Every table a constructor builds holds whole RGB triples. */
  lemma WholeTriples(c: CubeValue)
    requires WellShaped(c)
    ensures |c.rgbs| % 3 == 0
  {
    if c.dim == 3 {
      assert |c.rgbs| == (c.size * c.size * c.size) * 3;
    }
  }

  /**
   * `parse_input_range`: split at the first delimiter, then parse the text
   * before it as `min` and the text after it as `max`. The delimiters are
   * ASCII, so matching them byte by byte is matching them character by character.
   */
  function ParseInputRange(s: seq<Byte>, delimiters: set<Byte>, parseF32: F32Parser): (r: Option<InputRange>)
    requires forall d :: d in delimiters ==> IsAscii(d)
    ensures (forall k :: 0 <= k < |s| ==> s[k] !in delimiters) ==> r.None?
  {
    match SplitOnce(s, delimiters)
    case None => None
    case Some((min, max)) =>
      match (parseF32(min), parseF32(max))
      case (Some(lo), Some(hi)) => Some(InputRange(lo, hi))
      case _ => None
  }

  /**
   * With the delimiter at `|x|`, the range is `x..=y` exactly when both
   * halves parse, whatever their order.
   */
  lemma ParseInputRangeAt(x: seq<Byte>, d: Byte, y: seq<Byte>, delimiters: set<Byte>, parseF32: F32Parser)
    requires forall e :: e in delimiters ==> IsAscii(e)
    requires d in delimiters
    requires forall k :: 0 <= k < |x| ==> x[k] !in delimiters
    ensures ParseInputRange(x + [d] + y, delimiters, parseF32) ==
      if parseF32(x).Some? && parseF32(y).Some?
      then Some(InputRange(parseF32(x).value, parseF32(y).value))
      else None
  {
    SplitOnceAt(x, d, y, delimiters);
  }

  /**
   * `Cube`: the shape never changes after construction; `input_range` can be
   * replaced, and the buffer is written in place by a collector.
   */
  class Cube {
    const dim: nat
    const size: U16
    var inputRange: Option<InputRange>
    const rgbs: array<F32>

    ghost function Value(): CubeValue
      reads this, rgbs
    {
      CubeValue(dim, size, inputRange, rgbs[..])
    }

    ghost predicate Valid()
      reads this, rgbs
    {
      WellShaped(Value())
    }

    /** `Cube::one_d` */
    constructor OneD(size: U16)
      ensures Value() == OneDValue(size) && Valid()
      ensures fresh(rgbs)
    {
      this.dim := 1;
      this.size := size;
      this.inputRange := None;
      this.rgbs := new F32[size * 3](_ => ZERO);
    }

    /** `Cube::three_d` */
    constructor ThreeD(size: U16)
      ensures Value() == ThreeDValue(size) && Valid()
      ensures fresh(rgbs)
    {
      this.dim := 3;
      this.size := size;
      this.inputRange := None;
      this.rgbs := new F32[size * size * size * 3](_ => ZERO);
    }

    /** `set_input_range`: replaces the range and nothing else. */
    method SetInputRange(val: Option<InputRange>)
      modifies this
      ensures Value() == old(Value()).(inputRange := val)
    {
      inputRange := val;
    }

    /** `raw`: the buffer, read-only. */
    function Raw(): (s: seq<F32>)
      reads this, rgbs
      ensures |s| == RLen()
      ensures forall k :: 0 <= k < |s| ==> s[k] == rgbs[k]
    {
      rgbs[..]
    }

    /** `r_len`: the length of the buffer, a whole number of triples for every built cube. */
    function RLen(): (n: nat)
      reads this, rgbs
      ensures n == |Value().rgbs|
      ensures Valid() ==> n % 3 == 0 && n == TableLength(dim, size)
    {
      assert Valid() ==> rgbs.Length % 3 == 0 by {
        if Valid() { WholeTriples(Value()); }
      }
      rgbs.Length
    }
  }
}
