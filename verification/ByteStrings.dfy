// Byte strings, and unsigned integers written big-endian.
module ByteStrings {
  import opened Outcomes

  type Byte = b: int | 0 <= b < 256

  type Bytes = seq<Byte>

  function Power256(width: nat): (p: nat)
    ensures p >= 1
  {
    if width == 0 then 1 else 256 * Power256(width - 1)
  }

  // n.to_bytes(width, "big"); struct.pack of an unsigned field
  function BigEndian(n: nat, width: nat): (b: Bytes)
    ensures |b| == width
  {
    if width == 0 then [] else BigEndian(n / 256, width - 1) + [n % 256]
  }

  function FromBigEndian(b: Bytes): nat {
    if |b| == 0 then 0 else 256 * FromBigEndian(b[..|b| - 1]) + b[|b| - 1]
  }

  lemma {:induction false} ReadBack(n: nat, width: nat)
    requires n < Power256(width)
    ensures FromBigEndian(BigEndian(n, width)) == n
  {
    if width == 0 {
    } else {
      var b := BigEndian(n, width);
      assert b[..width - 1] == BigEndian(n / 256, width - 1) && b[width - 1] == n % 256;
      ReadBack(n / 256, width - 1);
    }
  }

  // The most significant byte comes first.
  lemma {:induction false} ByteAt(n: nat, width: nat, i: nat)
    requires i < width
    ensures BigEndian(n, width)[i] == n / Power256(width - 1 - i) % 256
  {
    if i == width - 1 {
    } else {
      assert BigEndian(n, width)[i] == BigEndian(n / 256, width - 1)[i];
      ByteAt(n / 256, width - 1, i);
      DivideTwice(n, Power256(width - 2 - i));
    }
  }

  lemma DivideTwice(n: nat, d: nat)
    requires d >= 1
    ensures n / 256 / d == n / (256 * d)
  {
    var q, r := n / 256 / d, n / 256 % d;
    assert n / 256 == d * q + r;
    assert n == (256 * d) * q + (256 * r + n % 256) by {
      assert 256 * (d * q) == (256 * d) * q;
    }
    DivMod(n, 256 * d, q, 256 * r + n % 256);
  }

  lemma BigEndianInjective(m: nat, n: nat, width: nat)
    requires m < Power256(width) && n < Power256(width) && BigEndian(m, width) == BigEndian(n, width)
    ensures m == n
  {
    ReadBack(m, width);
    ReadBack(n, width);
  }

  // The widths in use: u32 and u64.
  lemma Widths()
    ensures Power256(4) == 0x1_0000_0000 && Power256(8) == 0x1_0000_0000_0000_0000
  {
    assert Power256(4) == 256 * (256 * (256 * (256 * Power256(0))));
    assert Power256(8) == 256 * (256 * (256 * (256 * Power256(4))));
  }
}
