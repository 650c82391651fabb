/** C++ integer arithmetic where it differs from Dafny's. */
module CInt {

  // Division and remainder that truncate toward zero.
  function Div(a: int, b: int): int
    requires b > 0
  {
    if a >= 0 then a / b else -((-a) / b)
  }

  function Rem(a: int, b: int): int
    requires b > 0
  {
    a - b * Div(a, b)
  }

  lemma DivFloor(a: int, b: int)
    requires b > 0 && a >= 0
    ensures Div(a, b) == a / b
  {
  }

  predicate FitsInt32(x: int) {
    -0x8000_0000 <= x < 0x8000_0000
  }

  // static_cast<int> of a wider integer.
  function ToInt32(x: int): int {
    (x + 0x8000_0000) % 0x1_0000_0000 - 0x8000_0000
  }

  lemma ToInt32Fits(x: int)
    ensures FitsInt32(ToInt32(x)) && (FitsInt32(x) ==> ToInt32(x) == x)
  {
  }

  // How truncation relates to the floor: the adjustment every caller with negative operands needs.
  lemma TruncatedIsFloor(a: int, b: int)
    requires b > 0
    ensures a >= 0 ==> Div(a, b) == a / b && Rem(a, b) == a % b
    ensures Rem(a, b) < 0 ==> a / b == Div(a, b) - 1 && a % b == Rem(a, b) + b
    ensures Rem(a, b) >= 0 ==> a / b == Div(a, b) && a % b == Rem(a, b)
  {
    if a < 0 {
      var q, r := (-a) / b, (-a) % b;
      assert -a == q * b + r;
      if r == 0 {
        assert a == (-q) * b;
        Floor(a, b, -q, 0);
      } else {
        assert (-q - 1) * b == -(q * b) - b;
        Floor(a, b, -q - 1, b - r);
      }
    }
  }

  lemma Floor(a: int, b: int, q: int, r: int)
    requires b > 0 && 0 <= r < b && a == q * b + r
    ensures a / b == q && a % b == r
  {
    var d := a / b - q;
    assert a == b * (a / b) + a % b;
    assert b * d == r - a % b;
    assert d >= 1 ==> b * d >= b;
    assert d <= -1 ==> b * d <= -b;
  }
}
