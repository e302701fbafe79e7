/** Affine group-wise int4 quantization of a weight matrix, and its packing two codes to a byte. */
module Int4Quant {
  import opened Wrappers
  import opened Blocks
  import opened Nibbles

  // --------------------------------------------------------------------- rounding

  /** To the nearest integer, ties to even. */
  function Round(x: real): (n: int)
    ensures -0.5 <= n as real - x <= 0.5
    ensures x == x.Floor as real ==> n == x.Floor
    ensures n as real - x == 0.5 || x - n as real == 0.5 ==> n % 2 == 0
  {
    var f := x.Floor;
    var rest := x - f as real;
    if rest < 0.5 || (rest == 0.5 && f % 2 == 0) then f else f + 1
  }

  function Clamp(n: int, low: int, high: int): int {
    if n < low then low else if n > high then high else n
  }

  function Distance(a: real, b: real): real { if a < b then b - a else a - b }

  /** Clamping a rounded value that was at most half a step outside keeps it within half a step. */
  lemma ClampedRound(x: real, low: int, high: int)
    requires low <= high && low as real - 0.5 <= x <= high as real + 0.5
    ensures Distance(Clamp(Round(x), low, high) as real, x) <= 0.5
  {}

  /** The clamped rounding is a nearest integer of the range, wherever x lies. */
  lemma ClampedRoundNearest(x: real, low: int, high: int, c: int)
    requires low <= c <= high
    ensures Distance(Clamp(Round(x), low, high) as real, x) <= Distance(c as real, x)
  {
    hide Round;
    var n := Round(x);
    assert n < low ==> n as real <= low as real - 1.0;
    assert n > high ==> n as real >= high as real + 1.0;
    assert c < n ==> c as real <= n as real - 1.0;
    assert c > n ==> c as real >= n as real + 1.0;
    assert low as real <= c as real <= high as real;
  }

  // -------------------------------------------------------------- one group's scale

  function Least(g: seq<real>): (m: real)
    requires g != []
    ensures forall i | 0 <= i < |g| :: m <= g[i]
    ensures m in g
  {
    var last := g[|g| - 1];
    if |g| == 1 then last
    else
      var m := Least(g[..|g| - 1]);
      assert forall i | 0 <= i < |g| - 1 :: g[..|g| - 1][i] == g[i];
      if last < m then last else m
  }

  function Greatest(g: seq<real>): (m: real)
    requires g != []
    ensures forall i | 0 <= i < |g| :: g[i] <= m
    ensures m in g
  {
    var last := g[|g| - 1];
    if |g| == 1 then last
    else
      var m := Greatest(g[..|g| - 1]);
      assert forall i | 0 <= i < |g| - 1 :: g[..|g| - 1][i] == g[i];
      if last > m then last else m
  }

  const CODES: int := 15

  const SMALLEST_SCALE: real := 0.000000000001

  function Low(g: seq<real>): real
    requires g != []
  {
    if Least(g) > 0.0 then 0.0 else Least(g)
  }

  function High(g: seq<real>): real
    requires g != []
  {
    if Greatest(g) < 0.0 then 0.0 else Greatest(g)
  }

  function Scale(g: seq<real>): (s: real)
    requires g != []
    ensures s >= SMALLEST_SCALE && High(g) - Low(g) <= 15.0 * s
  {
    var s := (High(g) - Low(g)) / 15.0;
    if s < SMALLEST_SCALE then SMALLEST_SCALE else s
  }

  /** The scale is the smallest that is not below the floor and whose fifteen steps span the group and zero. */
  lemma ScaleIsLeast(g: seq<real>, s: real)
    requires g != []
    ensures s >= Scale(g) <==> s >= 0.000000000001 && forall i, j | 0 <= i < |g| && 0 <= j < |g| ::
              g[i] - g[j] <= 15.0 * s && g[i] <= 15.0 * s && -g[j] <= 15.0 * s
  {
    hide Scale;
    ScaleSpans(g, s);
    var i, j :| 0 <= i < |g| && 0 <= j < |g| && g[i] == Greatest(g) && g[j] == Least(g);
  }

  lemma ScaleSpans(g: seq<real>, s: real)
    requires g != []
    ensures s >= Scale(g) <==> s >= SMALLEST_SCALE && High(g) - Low(g) <= 15.0 * s
  {}

  /** The code of weight zero. */
  function Zero(g: seq<real>): (z: int)
    requires g != []
    ensures 0 <= z <= CODES
  {
    Clamp(Round(-Low(g) / Scale(g)), 0, CODES)
  }

  function Code(g: seq<real>, w: real): (q: int)
    requires g != []
    ensures 0 <= q <= CODES
  {
    Clamp(Round(w / Scale(g) + Zero(g) as real), 0, CODES)
  }

  function Decode(scale: real, zero: int, q: int): real { (q - zero) as real * scale }

  // ------------------------------------------------------------------ error bounds

  lemma QuotientBounds(a: real, b: real, s: real, c: real)
    requires s > 0.0 && a <= b && b - a <= c * s
    ensures a / s <= b / s && b / s - a / s <= c
  {
    assert b / s - a / s == (b - a) / s;
    assert (b - a) / s <= c * s / s;
  }

  /** Neither clamp ever moves a value by more than the rounding already may: the zero point is in
      range before clamping, and the scaled weight at most half a step out. */
  lemma ScaledInRange(g: seq<real>, w: real)
    requires g != [] && Low(g) <= w <= High(g)
    ensures Zero(g) == Round(-Low(g) / Scale(g))
    ensures -0.5 <= w / Scale(g) + Zero(g) as real <= 15.5
  {
    hide Low, High, Scale;
    var s := Scale(g);
    var low, high := Low(g) / s, High(g) / s;
    LowHigh(g);
    QuotientBounds(Low(g), 0.0, s, 15.0);
    QuotientBounds(Low(g), High(g), s, 15.0);
    QuotientBounds(Low(g), w, s, 15.0);
    QuotientBounds(w, High(g), s, 15.0);
    assert -Low(g) / s == -low;
    RoundWithin(-low, 0, 15);
  }

  lemma RoundWithin(x: real, low: int, high: int)
    requires low as real <= x <= high as real
    ensures low <= Round(x) <= high
  {}

  lemma LowHigh(g: seq<real>)
    requires g != []
    ensures Low(g) <= 0.0 <= High(g)
    ensures forall i | 0 <= i < |g| :: Low(g) <= g[i] <= High(g)
  {}

  lemma ScaleBack(q: int, zero: int, w: real, s: real)
    requires s > 0.0
    ensures Distance(Decode(s, zero, q), w) == Distance(q as real, w / s + zero as real) * s
  {
    assert w / s * s == w;
    assert (q - zero) as real * s - w == (q as real - (w / s + zero as real)) * s;
  }

  /** Every weight of a group is recovered to within half its scale. */
  lemma ErrorBound(g: seq<real>, i: nat)
    requires i < |g|
    ensures Distance(Decode(Scale(g), Zero(g), Code(g, g[i])), g[i]) <= Scale(g) / 2.0
  {
    hide Scale, Zero, Decode, Low, High, Distance, Clamp;
    var x := g[i] / Scale(g) + Zero(g) as real;
    LowHigh(g);
    ScaledInRange(g, g[i]);
    ClampedRound(x, 0, CODES);
    ScaleBack(Code(g, g[i]), Zero(g), g[i], Scale(g));
    HalfScale(Distance(Code(g, g[i]) as real, x), Scale(g));
  }

  lemma HalfScale(d: real, s: real)
    requires d <= 0.5 && s > 0.0
    ensures d * s <= s / 2.0
  {}

  /** No other code would have been closer. */
  lemma CodeIsNearest(g: seq<real>, w: real, c: int)
    requires g != [] && 0 <= c <= CODES
    ensures Distance(Decode(Scale(g), Zero(g), Code(g, w)), w) <= Distance(Decode(Scale(g), Zero(g), c), w)
  {
    hide Scale, Zero, Decode, Low, High, Distance, Clamp;
    var x := w / Scale(g) + Zero(g) as real;
    ClampedRoundNearest(x, 0, CODES, c);
    ScaleBack(Code(g, w), Zero(g), w, Scale(g));
    ScaleBack(c, Zero(g), w, Scale(g));
    GrowWithScale(Distance(Code(g, w) as real, x), Distance(c as real, x), Scale(g));
  }

  lemma GrowWithScale(a: real, b: real, s: real)
    requires a <= b && s > 0.0
    ensures a * s <= b * s
  {}

  /** A zero weight comes back as exactly zero. */
  lemma ZeroIsExact(g: seq<real>)
    requires g != []
    ensures Code(g, 0.0) == Zero(g) && Decode(Scale(g), Zero(g), Code(g, 0.0)) == 0.0
  {
    assert 0.0 / Scale(g) == 0.0;
  }

  // ------------------------------------------------------------- the whole matrix

  datatype Error = BadGroup | OddWidth

  datatype Quantized = Quantized(packed: seq<seq<bv8>>, scale: seq<seq<real>>, zero: seq<seq<int>>,
                                 dequantized: seq<seq<real>>)

  /** Consecutive groups of a row. */
  function Group(row: seq<real>, size: nat, j: nat): (g: seq<real>)
    requires size > 0 && |row| % size == 0 && j < |row| / size
    ensures |g| == size
    ensures forall i | 0 <= i < size :: j * size + i < |row| && g[i] == row[j * size + i]
  {
    GroupFits(|row|, size, j);
    row[j * size..j * size + size]
  }

  lemma GroupFits(n: nat, size: nat, j: nat)
    requires size > 0 && j < n / size
    ensures 0 <= j * size && j * size + size <= n
  {
    assert (j + 1) * size <= n / size * size <= n;
  }

  function GroupOf(row: seq<real>, size: nat, i: nat): (g: seq<real>)
    requires size > 0 && |row| % size == 0 && i < |row|
    ensures |g| == size && g[i % size] == row[i]
  {
    LastBlock(i, |row|, size);
    var g := Group(row, size, i / size);
    PositionInGroup(row, size, i, g);
    g
  }

  lemma PositionInGroup(row: seq<real>, size: nat, i: nat, g: seq<real>)
    requires size > 0 && i < |row| && |g| == size
    requires forall k | 0 <= k < size :: i / size * size + k < |row| && g[k] == row[i / size * size + k]
    ensures g[i % size] == row[i]
  {
    var k := i % size;
    assert i / size * size + k == i;
  }

  function Codes(row: seq<real>, size: nat): (r: seq<int>)
    requires size > 0 && |row| % size == 0
    ensures |r| == |row| && forall i | 0 <= i < |r| :: 0 <= r[i] <= CODES
  {
    seq(|row|, i requires 0 <= i < |row| => Code(GroupOf(row, size, i), row[i]))
  }

  function AsNibbles(codes: seq<int>): (r: seq<bv8>)
    requires forall i | 0 <= i < |codes| :: 0 <= codes[i] <= CODES
    ensures |r| == |codes| && forall i | 0 <= i < |r| :: r[i] < 16 && r[i] as int == codes[i]
  {
    NibblesFit(codes);
    seq(|codes|, i requires 0 <= i < |codes| => codes[i] as bv8)
  }

  lemma NibblesFit(codes: seq<int>)
    requires forall i | 0 <= i < |codes| :: 0 <= codes[i] <= CODES
    ensures forall i | 0 <= i < |codes| :: (codes[i] as bv8) < 16 && (codes[i] as bv8) as int == codes[i]
  {
    forall i | 0 <= i < |codes|
      ensures (codes[i] as bv8) < 16 && (codes[i] as bv8) as int == codes[i]
    {
      CodeFitsNibble(codes[i]);
    }
  }

  function Scales(row: seq<real>, size: nat): (r: seq<real>)
    requires size > 0 && |row| % size == 0
    ensures |r| == |row| / size
  {
    seq(|row| / size, j requires 0 <= j < |row| / size => Scale(Group(row, size, j)))
  }

  function Zeros(row: seq<real>, size: nat): (r: seq<int>)
    requires size > 0 && |row| % size == 0
    ensures |r| == |row| / size
  {
    seq(|row| / size, j requires 0 <= j < |row| / size => Zero(Group(row, size, j)))
  }

  function Dequantize(codes: seq<int>, scales: seq<real>, zeros: seq<int>, size: nat): (r: seq<real>)
    requires size > 0 && |codes| % size == 0 && |scales| == |zeros| == |codes| / size
    ensures |r| == |codes|
    ensures forall i | 0 <= i < |codes| ::
      i / size < |scales| && r[i] == Decode(scales[i / size], zeros[i / size], codes[i])
  {
    forall i: nat | i < |codes|
      ensures i / size < |scales|
    {
      LastBlock(i, |codes|, size);
    }
    seq(|codes|, i requires 0 <= i < |codes| => Decode(scales[i / size], zeros[i / size], codes[i]))
  }

  ghost predicate IsMatrix(weight: seq<seq<real>>, K: nat) {
    forall n | 0 <= n < |weight| :: |weight[n]| == K
  }

  function QuantizeRow(row: seq<real>, size: nat): (r: (seq<bv8>, seq<real>, seq<int>, seq<real>))
    requires size > 0 && |row| % size == 0 && |row| % 2 == 0
  {
    var codes, scales, zeros := Codes(row, size), Scales(row, size), Zeros(row, size);
    (Pack(AsNibbles(codes)), scales, zeros, Dequantize(codes, scales, zeros, size))
  }

  /** Weight w comes back from its code, by its group's scale and zero point, to within half a scale, and
      exactly if it is zero. */
  ghost predicate Recovered(w: real, code: bv8, scale: real, zero: int, dequantized: real) {
    && 0 <= zero <= CODES && code < 16 && dequantized == Decode(scale, zero, code as int)
    && Distance(dequantized, w) <= scale / 2.0
    && (w == 0.0 ==> dequantized == 0.0)
  }

  ghost predicate RowRecovered(row: seq<real>, size: nat, packed: seq<bv8>, scale: seq<real>, zero: seq<int>,
                               dequantized: seq<real>)
    requires size > 0
  {
    && |row| % size == 0 && scale == Scales(row, size) && zero == Zeros(row, size)
    && |Unpack(packed)| == |dequantized| == |row|
    && forall i: nat | i < |row| ::
      && i / size < |scale| && i / size < |zero|
      && Recovered(row[i], Unpack(packed)[i], scale[i / size], zero[i / size], dequantized[i])
  }

  lemma GroupsAt(row: seq<real>, size: nat, j: nat)
    requires size > 0 && |row| % size == 0 && j < |row| / size
    ensures Scales(row, size)[j] == Scale(Group(row, size, j)) && Zeros(row, size)[j] == Zero(Group(row, size, j))
  {
    hide Scale, Zero, Group;
  }

  lemma CodesAt(row: seq<real>, size: nat, i: nat)
    requires size > 0 && |row| % size == 0 && i < |row|
    ensures Codes(row, size)[i] == Code(GroupOf(row, size, i), row[i])
  {
    hide Code, GroupOf;
  }

  lemma WeightParts(row: seq<real>, size: nat, i: nat)
    requires size > 0 && |row| % size == 0 && i < |row|
    ensures i / size < |row| / size && 0 <= i % size < size
    ensures Scales(row, size)[i / size] == Scale(GroupOf(row, size, i))
    ensures Zeros(row, size)[i / size] == Zero(GroupOf(row, size, i))
    ensures Codes(row, size)[i] == Code(GroupOf(row, size, i), row[i])
  {
    hide Scale, Zero, Code, Group, GroupOf, Scales, Zeros, Codes;
    Division(i, size);
    GroupScale(row, size, i);
    GroupsAt(row, size, i / size);
    CodesAt(row, size, i);
  }

  lemma WeightIsRecovered(row: seq<real>, size: nat, i: nat)
    requires size > 0 && |row| % size == 0 && i < |row|
    ensures i / size < |row| / size
    ensures Recovered(row[i], AsNibbles(Codes(row, size))[i], Scales(row, size)[i / size], Zeros(row, size)[i / size],
                      Dequantize(Codes(row, size), Scales(row, size), Zeros(row, size), size)[i])
  {
    hide Decode, Distance, Scale, Zero, Code, Group, GroupOf, Codes, Scales, Zeros, Dequantize, AsNibbles;
    WeightParts(row, size, i);
    ErrorBound(GroupOf(row, size, i), i % size);
    ZeroIsExact(GroupOf(row, size, i));
  }

  /** Unpacking a row's bytes and decoding with its group's scale and zero point gives the dequantized row,
      which is within half a scale of the original everywhere, and exact on zeros. */
  lemma RowIsRecovered(row: seq<real>, size: nat)
    requires size > 0 && |row| % size == 0 && |row| % 2 == 0
    ensures var q := QuantizeRow(row, size); RowRecovered(row, size, q.0, q.1, q.2, q.3)
  {
    hide Recovered, Codes, Scales, Zeros, Unpack, Pack, AsNibbles, Dequantize;
    UnpackPack(AsNibbles(Codes(row, size)));
    forall i: nat | i < |row|
      ensures i / size < |row| / size
      ensures Recovered(row[i], AsNibbles(Codes(row, size))[i], Scales(row, size)[i / size],
                        Zeros(row, size)[i / size],
                        Dequantize(Codes(row, size), Scales(row, size), Zeros(row, size), size)[i])
    {
      WeightIsRecovered(row, size, i);
    }
  }

  lemma GroupScale(row: seq<real>, size: nat, i: nat)
    requires size > 0 && |row| % size == 0 && i < |row|
    ensures i / size < |row| / size && GroupOf(row, size, i) == Group(row, size, i / size)
  {
    LastBlock(i, |row|, size);
  }

  function QuantizeRows(weight: seq<seq<real>>, K: nat, size: nat): Quantized
    requires size > 0 && IsMatrix(weight, K) && K % size == 0 && K % 2 == 0
  {
    var n := |weight|;
    Quantized(
      seq(n, i requires 0 <= i < n => QuantizeRow(weight[i], size).0),
      seq(n, i requires 0 <= i < n => QuantizeRow(weight[i], size).1),
      seq(n, i requires 0 <= i < n => QuantizeRow(weight[i], size).2),
      seq(n, i requires 0 <= i < n => QuantizeRow(weight[i], size).3))
  }

  /** Every row is recovered, and there is nothing but the rows. */
  ghost predicate AllRecovered(weight: seq<seq<real>>, size: nat, q: Quantized)
    requires size > 0
  {
    && |q.packed| == |q.scale| == |q.zero| == |q.dequantized| == |weight|
    && forall n | 0 <= n < |weight| ::
      RowRecovered(weight[n], size, q.packed[n], q.scale[n], q.zero[n], q.dequantized[n])
  }

  lemma MatrixIsRecovered(weight: seq<seq<real>>, K: nat, size: nat)
    requires size > 0 && IsMatrix(weight, K) && K % size == 0 && K % 2 == 0
    ensures AllRecovered(weight, size, QuantizeRows(weight, K, size))
  {
    hide RowRecovered, QuantizeRow;
    forall n | 0 <= n < |weight|
      ensures var q := QuantizeRow(weight[n], size); RowRecovered(weight[n], size, q.0, q.1, q.2, q.3)
    {
      RowIsRecovered(weight[n], size);
    }
  }

  /** Quantizes an [N, K] matrix row by row, in groups of `size`. */
  function QuantizeWeight(weight: seq<seq<real>>, K: nat, size: nat): (r: Result<Quantized, Error>)
    requires size > 0 && IsMatrix(weight, K)
    ensures r == Err(BadGroup) <==> K % size != 0
    ensures r == Err(OddWidth) <==> K % size == 0 && K % 2 != 0
    ensures r.Ok? ==> AllRecovered(weight, size, r.value)
  {
    if K % size != 0 then Err(BadGroup)
    else if K % 2 != 0 then Err(OddWidth)
    else
      MatrixIsRecovered(weight, K, size);
      Ok(QuantizeRows(weight, K, size))
  }
}
