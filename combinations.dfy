/**
 * `generateCombinations(n)` (script.js:183-196): all 2^n assignments of truth
 * values to n variables, row i being the n-bit binary form of i, most
 * significant bit first.
 */
module Combinations {

  /** 2 to the power `n`: `Math.pow(2, n)`. */
  function Pow2(n: nat): (p: nat)
    ensures p >= 1
  {
    if n == 0 then 1 else 2 * Pow2(n - 1)
  }

  /** `i >> j` for a non-negative `i`: `i` halved `j` times, rounding down. */
  function Shift(i: nat, j: nat): nat
  {
    if j == 0 then i else Shift(i / 2, j - 1)
  }

  /** `Boolean((i >> j) & 1)`: bit `j` of `i`. */
  function Bit(i: nat, j: nat): bool
  {
    Shift(i, j) % 2 == 1
  }

  /** Row `i` of the enumeration for `n` variables: entry `k` is bit `n - 1 - k` of `i`. */
  function Row(i: nat, n: nat): seq<bool>
  {
    seq(n, k requires 0 <= k < n => Bit(i, n - 1 - k))
  }

  /** Reference decoding: the number a row of truth values denotes in binary, most significant first. */
  function Value(row: seq<bool>): nat
  {
    if row == [] then 0 else 2 * Value(row[..|row| - 1]) + (if row[|row| - 1] then 1 else 0)
  }

  /** The whole enumeration for `n` variables, row `i` at index `i`. */
  function AllRows(n: nat): seq<seq<bool>>
  {
    seq(Pow2(n), i requires 0 <= i < Pow2(n) => Row(i, n))
  }

  /** `n` copies of `b`. */
  function Constant(b: bool, n: nat): seq<bool>
  {
    seq(n, _ => b)
  }

  /**
   * `generateCombinations(n)` (script.js:183-196): for each `i` below `2^n`,
   * pushes bit `j` of `i` for `j` from `n - 1` down to `0`.
   */
  method GenerateCombinations(n: nat) returns (rows: seq<seq<bool>>)
    requires n <= 26
    ensures |rows| == Pow2(n)
    ensures forall i :: 0 <= i < |rows| ==> rows[i] == Row(i, n)
    ensures rows == AllRows(n)
  {
    rows := [];
    var count := Pow2(n);
    for i := 0 to count
      invariant |rows| == i
      invariant forall k :: 0 <= k < i ==> rows[k] == Row(k, n)
    {
      var combination: seq<bool> := [];
      var j := n;
      while j > 0
        invariant 0 <= j <= n
        invariant combination == Row(i, n)[..n - j]
      {
        j := j - 1;
        assert Row(i, n)[..n - j] == Row(i, n)[..n - j - 1] + [Bit(i, j)];
        combination := combination + [Shift(i, j) % 2 == 1];
      }
      rows := rows + [combination];
    }
    assert rows == AllRows(n);
  }

  /** Every assignment of the enumeration gives one value per variable. */
  lemma AllRowsWidth(n: nat)
    ensures forall i :: 0 <= i < |AllRows(n)| ==> |AllRows(n)[i]| == n
  {
  }

  /** Dropping the last entry of row `i` gives row `i / 2` of the enumeration for one variable fewer. */
  lemma RowInit(i: nat, n: nat)
    requires n > 0
    ensures Row(i, n)[..n - 1] == Row(i / 2, n - 1)
    ensures Row(i, n)[n - 1] == (i % 2 == 1)
  {
    forall k | 0 <= k < n - 1 ensures Row(i, n)[k] == Row(i / 2, n - 1)[k] {
      assert Row(i, n)[k] == Bit(i, n - 1 - k);
      assert Row(i / 2, n - 1)[k] == Bit(i / 2, n - 2 - k);
      assert Shift(i, n - 1 - k) == Shift(i / 2, n - 2 - k);
    }
    assert Row(i, n)[n - 1] == Bit(i, 0);
    assert Shift(i, 0) == i;
  }

  /** Decoding row `i` gives `i` back, for every `i` below `2^n`. */
  lemma {:induction false} ValueOfRow(i: nat, n: nat)
    requires i < Pow2(n)
    ensures Value(Row(i, n)) == i
  {
    if n > 0 {
      RowInit(i, n);
      ValueOfRow(i / 2, n - 1);
    }
  }

  /** Every row of `n` truth values is row `Value(row)` of the enumeration for `n`, and that index is below `2^n`. */
  lemma {:induction false} RowOfValue(row: seq<bool>)
    ensures Value(row) < Pow2(|row|)
    ensures Row(Value(row), |row|) == row
  {
    var n := |row|;
    if n > 0 {
      RowOfValue(row[..n - 1]);
      RowInit(Value(row), n);
      assert row == row[..n - 1] + [row[n - 1]];
    }
  }

  /** The rows are pairwise distinct. */
  lemma RowsDistinct(i: nat, j: nat, n: nat)
    requires i < Pow2(n) && j < Pow2(n) && i != j
    ensures Row(i, n) != Row(j, n)
  {
    ValueOfRow(i, n);
    ValueOfRow(j, n);
  }

  /** The first row is all false and the last row is all true. */
  lemma FirstAndLastRows(n: nat)
    ensures Row(0, n) == Constant(false, n)
    ensures Row(Pow2(n) - 1, n) == Constant(true, n)
  {
    ValueOfConstant(false, n);
    ValueOfConstant(true, n);
    RowOfValue(Constant(false, n));
    RowOfValue(Constant(true, n));
  }

  /** All false is 0; all true is `2^n - 1`. */
  lemma {:induction false} ValueOfConstant(b: bool, n: nat)
    ensures Value(Constant(b, n)) == if b then Pow2(n) - 1 else 0
  {
    if n > 0 {
      ValueOfConstant(b, n - 1);
      assert Constant(b, n)[..n - 1] == Constant(b, n - 1);
    }
  }
}
