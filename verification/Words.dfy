/** Unsigned numbers as bytes, least significant first. */
module Words {
  import opened Bytes

  function Range(k: nat): (r: nat)
    ensures r > 0
  {
    if k == 0 then 1 else 0x100 * Range(k - 1)
  }

  function Little(u: nat, k: nat): (w: Bytes)
    ensures |w| == k
  {
    if k == 0 then [] else [u % 0x100] + Little(u / 0x100, k - 1)
  }

  function Unsigned(w: Bytes): nat {
    if w == [] then 0 else w[0] + 0x100 * Unsigned(w[1..])
  }

  lemma {:induction false} UnsignedLittle(u: nat, k: nat)
    requires u < Range(k)
    ensures Unsigned(Little(u, k)) == u
  {
    if k > 0 {
      UnsignedLittle(u / 0x100, k - 1);
      assert Little(u, k)[1..] == Little(u / 0x100, k - 1);
    }
  }

  lemma {:induction false} LittleUnsigned(w: Bytes)
    ensures Unsigned(w) < Range(|w|) && Little(Unsigned(w), |w|) == w
    decreases |w|
  {
    if w != [] {
      LittleUnsigned(w[1..]);
      LowByte(w[0], Unsigned(w[1..]));
      assert w == [w[0]] + w[1..];
    }
  }

  lemma LowByte(b: byte, u: nat)
    ensures (b + 0x100 * u) % 0x100 == b && (b + 0x100 * u) / 0x100 == u
  {}

  /** Four bytes, the lowest first. */
  lemma FourBytes(u: nat)
    ensures Little(u, 4) == [u % 0x100, u / 0x100 % 0x100, u / 0x100 / 0x100 % 0x100, u / 0x100 / 0x100 / 0x100 % 0x100]
  {
    LowFirst(u, 4);
    LowFirst(u / 0x100, 3);
    LowFirst(u / 0x100 / 0x100, 2);
    LowFirst(u / 0x100 / 0x100 / 0x100, 1);
    assert Little(u / 0x100 / 0x100 / 0x100 / 0x100, 0) == [];
  }

  lemma LowFirst(u: nat, k: nat)
    requires k > 0
    ensures Little(u, k) == [u % 0x100] + Little(u / 0x100, k - 1)
  {}

  lemma Range32()
    ensures Range(4) == 0x1_0000_0000
  {
    assert Range(1) == 0x100 && Range(2) == 0x1_0000 && Range(3) == 0x100_0000;
  }
}
