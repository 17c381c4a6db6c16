/**
 `showScore`: the decimal digits of the score and where each digit sprite is
 drawn so that the row of digits is centred on the screen.
 */
module Score {
  import opened Consts

  /** The number a digit string denotes, most significant digit first. */
  function Value(ds: seq<nat>): nat {
    if |ds| == 0 then 0 else Value(ds[..|ds| - 1]) * 10 + ds[|ds| - 1]
  }

  /** What `str(n)` can look like: non-empty, decimal, no leading zero. */
  predicate IsDecimal(ds: seq<nat>) {
    && |ds| >= 1
    && (forall k | 0 <= k < |ds| :: ds[k] < 10)
    && (ds[0] == 0 ==> |ds| == 1)
  }

  /** `[int(x) for x in str(n)]`. */
  function Digits(n: nat): (ds: seq<nat>)
    ensures IsDecimal(ds)
    ensures Value(ds) == n
    decreases n
  {
    if n < 10 then [n] else Digits(n / 10) + [n % 10]
  }

  lemma {:induction false} ValuePositive(ds: seq<nat>)
    requires IsDecimal(ds) && ds[0] != 0
    ensures Value(ds) >= 1
    decreases |ds|
  {
    if |ds| > 1 {
      var p := ds[..|ds| - 1];
      assert p[0] == ds[0];
      ValuePositive(p);
    }
  }

  /** Reading the digits back and splitting again gives the same digits. */
  lemma {:induction false} DigitsOfValue(ds: seq<nat>)
    requires IsDecimal(ds)
    ensures Digits(Value(ds)) == ds
    decreases |ds|
  {
    if |ds| > 1 {
      var p := ds[..|ds| - 1];
      assert p[0] == ds[0];
      assert IsDecimal(p);
      ValuePositive(p);
      DigitsOfValue(p);
      assert ds == p + [ds[|ds| - 1]];
    }
  }

  /** A digit sprite and the x at which it is drawn. */
  datatype DigitSprite = DigitSprite(digit: nat, x: real)

  predicate AllBelow(ds: seq<nat>, n: nat) {
    forall k | 0 <= k < |ds| :: ds[k] < n
  }

  /** The summed widths of the digits `ds`. */
  function TotalWidth(ds: seq<nat>, widths: seq<nat>): nat
    requires AllBelow(ds, |widths|)
  {
    if |ds| == 0 then 0 else widths[ds[0]] + TotalWidth(ds[1..], widths)
  }

  /** Lays the digits out left to right from `x`, each one its own width after the last. */
  function Place(ds: seq<nat>, widths: seq<nat>, x: real): (cmds: seq<DigitSprite>)
    requires AllBelow(ds, |widths|)
    ensures |cmds| == |ds|
    ensures forall k | 0 <= k < |ds| :: cmds[k].digit == ds[k]
    ensures |ds| > 0 ==> cmds[0].x == x
    ensures forall k | 0 <= k < |ds| - 1 :: cmds[k + 1].x == cmds[k].x + widths[ds[k]] as real
    ensures |ds| > 0 ==> cmds[|ds| - 1].x + widths[ds[|ds| - 1]] as real == x + TotalWidth(ds, widths) as real
    decreases |ds|
  {
    if |ds| == 0 then []
    else [DigitSprite(ds[0], x)] + Place(ds[1..], widths, x + widths[ds[0]] as real)
  }

  /**
   The draw commands of `showScore(score)`: one per decimal digit, abutting,
   with equal margins left and right.
   */
  function ShowScore(score: nat, widths: seq<nat>): (cmds: seq<DigitSprite>)
    requires |widths| == 10
    ensures |cmds| == |Digits(score)| >= 1
    ensures forall k | 0 <= k < |cmds| :: cmds[k].digit < 10
    ensures Value(seq(|cmds|, k requires 0 <= k < |cmds| => cmds[k].digit)) == score
    ensures forall k | 0 <= k < |cmds| - 1 :: cmds[k + 1].x == cmds[k].x + widths[cmds[k].digit] as real
    ensures cmds[|cmds| - 1].x + widths[cmds[|cmds| - 1].digit] as real == ScreenWidth as real - cmds[0].x
  {
    var ds := Digits(score);
    var total := TotalWidth(ds, widths);
    var cmds := Place(ds, widths, (ScreenWidth - total) as real / 2.0);
    assert seq(|cmds|, k requires 0 <= k < |cmds| => cmds[k].digit) == ds;
    cmds
  }
}
