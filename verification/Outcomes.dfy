// What a call into the Python sources can come to: a value or a raised exception.
module Outcomes {
  datatype Error = ValueError | MemoryError | KeyError | IndexError | OverflowError | EOFError | StructError

  datatype Result<+T> = Ok(value: T) | Err(error: Error)

  datatype Option<+T> = None | Some(value: T)

  // math.ceil(a / b)
  function CeilDiv(a: int, b: int): int
    requires b > 0
  {
    (a + b - 1) / b
  }

  // The position that index i of a Python sequence of length n refers to, if any.
  function PyIndex(i: int, n: nat): Option<nat> {
    if 0 <= i < n then Some(i)
    else if i < 0 <= i + n then Some(i + n)
    else None
  }

  lemma CeilDivIs(a: int, b: int, c: int)
    requires b > 0
    ensures CeilDiv(a, b) <= c <==> a <= c * b
  {
    var q, r := (a + b - 1) / b, (a + b - 1) % b;
    assert a + b - 1 == q * b + r;
    if q <= c {
      TimesMonotone(q, c, b);
    } else {
      TimesMonotone(c + 1, q, b);
      assert (c + 1) * b == c * b + b;
    }
  }

  lemma TimesMonotone(x: int, y: int, b: int)
    requires x <= y && b >= 0
    ensures x * b <= y * b
  {
    assert (y - x) * b >= 0;
  }

  // Quotient and remainder are determined by what they add up to.
  lemma DivMod(p: int, b: int, i: int, o: int)
    requires b > 0 && p == i * b + o && 0 <= o < b
    ensures p / b == i && p % b == o
  {
    var q, r := p / b, p % b;
    var d := q - i;
    assert d * b == o - r;
    if d >= 1 {
      AtLeastOnce(d, b);
    } else if d <= -1 {
      AtLeastOnce(-d, b);
    }
  }

  lemma AtLeastOnce(k: int, b: int)
    requires k >= 1 && b >= 0
    ensures k * b >= b && -k * b <= -b
  {
    assert (k - 1) * b >= 0;
  }
}
