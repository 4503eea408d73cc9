/** Small helpers of src/core/utils.js: clamping, zero-padded formatting, coordinate/tile
    conversion, the field-bounds test, and the two random helpers with the draws made explicit. */
module Utils {
  import opened Config
  import opened Random

  function Min(a: int, b: int): int { if a <= b then a else b }
  function Max(a: int, b: int): int { if a >= b then a else b }
  function RMin(a: real, b: real): real { if a <= b then a else b }
  function RMax(a: real, b: real): real { if a >= b then a else b }
  function Abs(v: real): real { if v < 0.0 then -v else v }

  // ---------------------------------------------------------------- clamp

  /** `Math.max(min, Math.min(max, value))`. */
  function Clamp(value: real, min: real, max: real): (r: real)
    ensures min <= r
    ensures min <= max ==> r <= max
    ensures min <= value <= max ==> r == value
    ensures r == value || r == min || r == max
  {
    RMax(min, RMin(max, value))
  }

  // ---------------------------------------------------------------- decimal formatting

  predicate IsDigit(c: char) { '0' <= c <= '9' }

  predicate AllDigits(s: string) { forall i :: 0 <= i < |s| ==> IsDigit(s[i]) }

  function DigitChar(d: nat): (c: char)
    requires d < 10
    ensures IsDigit(c)
    ensures c as int - '0' as int == d
  {
    "0123456789"[d]
  }

  function DigitValue(c: char): nat
    requires IsDigit(c)
  {
    c as int - '0' as int
  }

  /** The numeric value of a string of decimal digits (leading zeros allowed). */
  function ParseDecimal(s: string): nat
    requires AllDigits(s)
  {
    if |s| == 0 then 0 else ParseDecimal(s[..|s| - 1]) * 10 + DigitValue(s[|s| - 1])
  }

  /** `n.toString()` for a non-negative integer: its decimal digits, without leading zeros. */
  function Decimal(n: nat): (s: string)
    ensures 1 <= |s|
    ensures AllDigits(s)
    ensures n > 0 ==> s[0] != '0'
    decreases n
  {
    if n < 10 then [DigitChar(n)] else Decimal(n / 10) + [DigitChar(n % 10)]
  }

  /** `String.prototype.padStart(width, fill)`: never truncates. */
  function PadStart(s: string, width: nat, fill: char): (r: string)
    ensures |r| == Max(width, |s|)
    ensures r[|r| - |s|..] == s
    ensures forall i :: 0 <= i < |r| - |s| ==> r[i] == fill
  {
    if |s| >= width then s else seq(width - |s|, _ => fill) + s
  }

  /** The score display: the decimal of `value`, left-padded with '0' to 6 characters. */
  function FormatScore(value: nat): (r: string)
    ensures |r| == Max(6, |Decimal(value)|)
    ensures r[|r| - |Decimal(value)|..] == Decimal(value)
    ensures forall i :: 0 <= i < |r| - |Decimal(value)| ==> r[i] == '0'
    ensures AllDigits(r) && ParseDecimal(r) == value
  {
    var r := PadStart(Decimal(value), 6, '0');
    PaddedDecimalValue(value, 6);
    r
  }

  /** The stage display: the decimal of `value`, left-padded with '0' to 2 characters. */
  function FormatStage(value: nat): (r: string)
    ensures |r| == Max(2, |Decimal(value)|)
    ensures r[|r| - |Decimal(value)|..] == Decimal(value)
    ensures forall i :: 0 <= i < |r| - |Decimal(value)| ==> r[i] == '0'
    ensures AllDigits(r) && ParseDecimal(r) == value
  {
    var r := PadStart(Decimal(value), 2, '0');
    PaddedDecimalValue(value, 2);
    r
  }

  /** Reading back the digits of `n` gives `n`. */
  lemma {:induction false} DecimalRoundTrip(n: nat)
    ensures ParseDecimal(Decimal(n)) == n
    decreases n
  {
    if n >= 10 {
      DecimalRoundTrip(n / 10);
      var s := Decimal(n);
      assert s[..|s| - 1] == Decimal(n / 10);
    }
  }

  /** Leading zeros do not change the value of a digit string. */
  lemma {:induction false} LeadingZerosIgnored(k: nat, s: string)
    requires AllDigits(s)
    ensures AllDigits(seq(k, _ => '0') + s)
    ensures ParseDecimal(seq(k, _ => '0') + s) == ParseDecimal(s)
    decreases |s|
  {
    var z := seq(k, _ => '0');
    var t := z + s;
    assert forall i :: 0 <= i < |t| ==> IsDigit(t[i]) by {
      forall i | 0 <= i < |t| ensures IsDigit(t[i]) {
        if i < k { assert t[i] == '0'; } else { assert t[i] == s[i - k]; }
      }
    }
    if |s| == 0 {
      assert t == z;
      ZerosParseToZero(k);
    } else {
      var s' := s[..|s| - 1];
      LeadingZerosIgnored(k, s');
      assert t[..|t| - 1] == z + s';
      assert t[|t| - 1] == s[|s| - 1];
    }
  }

  lemma {:induction false} ZerosParseToZero(k: nat)
    ensures AllDigits(seq(k, _ => '0'))
    ensures ParseDecimal(seq(k, _ => '0')) == 0
  {
    if k > 0 {
      ZerosParseToZero(k - 1);
      assert seq(k, _ => '0')[..k - 1] == seq(k - 1, _ => '0');
    }
  }

  lemma PaddedDecimalValue(n: nat, width: nat)
    ensures AllDigits(PadStart(Decimal(n), width, '0'))
    ensures ParseDecimal(PadStart(Decimal(n), width, '0')) == n
  {
    var d := Decimal(n);
    DecimalRoundTrip(n);
    if |d| < width {
      LeadingZerosIgnored(width - |d|, d);
    }
  }

  // ---------------------------------------------------------------- coordinates and tiles

  /** The field coordinate of the top-left corner of tile `tile`. */
  function TileToCoord(tile: int): real
  {
    tile as real * TileSize as real
  }

  /** `Math.floor(coord / TILE_SIZE)`: the tile that contains coordinate `coord`. */
  function CoordToTile(coord: real): (t: int)
    ensures TileToCoord(t) <= coord < TileToCoord(t + 1)
  {
    (coord / TileSize as real).Floor
  }

  /** Converting a tile to its coordinate and back is the identity. */
  lemma TileCoordRoundTrip(t: int)
    ensures CoordToTile(TileToCoord(t)) == t
  {
    var c := TileToCoord(t);
    var u := CoordToTile(c);
    assert TileToCoord(u) <= c < TileToCoord(u + 1);
  }

  /** A larger coordinate never lies in an earlier tile. */
  lemma CoordToTileMonotone(a: real, b: real)
    requires a <= b
    ensures CoordToTile(a) <= CoordToTile(b)
  {
    var ta, tb := CoordToTile(a), CoordToTile(b);
    assert TileToCoord(ta) <= a <= b < TileToCoord(tb + 1);
  }

  /** A point lies on the field exactly when both its tile indices are cells of the grid. */
  function IsInsideField(x: real, y: real): (r: bool)
    ensures r <==> 0 <= CoordToTile(x) < GridSize && 0 <= CoordToTile(y) < GridSize
  {
    x >= 0.0 && y >= 0.0 && x < (GridSize * TileSize) as real && y < (GridSize * TileSize) as real
  }

  // ---------------------------------------------------------------- random helpers

  /** `Math.floor(draw * n)`: the index a draw selects among `n` values. */
  function ChoiceIndex(n: nat, draw: Draw): (i: nat)
    requires n > 0
    ensures i < n
  {
    var f := (draw * n as real).Floor;
    assert 0.0 <= draw * n as real < n as real;
    f
  }

  /** Index `i` is chosen exactly by the draws in [i/n, (i+1)/n): the choice is uniform. */
  lemma ChoiceIndexInterval(n: nat, draw: Draw, i: nat)
    requires n > 0 && i < n
    ensures ChoiceIndex(n, draw) == i <==> i as real <= draw * n as real < (i + 1) as real
  {
  }

  /** `randomChoice(values)` with its `Math.random()` draw supplied. */
  function RandomChoice<T>(values: seq<T>, draw: Draw): (v: T)
    requires |values| > 0
    ensures v in values
  {
    values[ChoiceIndex(|values|, draw)]
  }

  /** Every element is reachable: the draw i/n picks element i. */
  lemma {:induction false} EveryChoiceReachable<T>(values: seq<T>, i: nat)
    requires i < |values|
    ensures var d := i as real / |values| as real;
            0.0 <= d < 1.0 && RandomChoice(values, d as Draw) == values[i]
  {
    var n := |values| as real;
    var d := i as real / n;
    assert d * n == i as real;
    assert 0.0 <= d < 1.0;
    assert (d * n).Floor == i;
    assert ChoiceIndex(|values|, d) == i;
  }

  /** The Fisher-Yates `shuffle`: swaps from the last index down to 1, one draw per swap.
      The input is a value and is never modified. */
  method Shuffle<T>(values: seq<T>, rng: Source) returns (result: seq<T>, rng': Source)
    ensures |result| == |values|
    ensures multiset(result) == multiset(values)
    ensures rng'.cursor == rng.cursor + (if |values| > 0 then |values| - 1 else 0)
  {
    result := values;
    rng' := rng;
    var i := |result| - 1;
    while i > 0
      invariant -1 <= i < |values|
      invariant |values| > 0 ==> 0 <= i
      invariant |result| == |values|
      invariant multiset(result) == multiset(values)
      invariant rng'.cursor == rng.cursor + (|values| - 1 - i)
    {
      var (d, next) := Next(rng');
      rng' := next;
      var j := ChoiceIndex(i + 1, d);
      var a, b := result[i], result[j];
      result := result[i := b][j := a];
      i := i - 1;
    }
  }
}
