/** What several components share. */
module Common {

  datatype Option<T> = None | Some(value: T)

  type byte = bv8

  const MAX_INT := 0x7fff_ffff

  // ------------------------------------------------------------------------
  // Division

  lemma DivModUnique(x: int, r: int, q: int, m: int)
    requires 0 <= m < r && x == q * r + m
    ensures x / r == q && x % r == m
  {
    assert x == (x / r) * r + x % r;
    SmallMultiple(q - x / r, r, x % r - m);
  }

  lemma SmallMultiple(d: int, r: int, m: int)
    requires -r < m < r && d * r == m
    ensures d == 0
  {
    MultipleGrows(d, r);
  }

  lemma MultipleGrows(d: int, r: int)
    requires r > 0
    ensures d >= 1 ==> d * r >= r
    ensures d <= -1 ==> d * r <= -r
  {
    if d >= 1 {
      assert d * r == (d - 1) * r + r;
    } else if d <= -1 {
      assert d * r == (d + 1) * r - r;
    }
  }
}
