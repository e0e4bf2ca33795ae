/** Machine words (Rust `u64`), bytes (`u8`) and the big-endian conversion of `u64::from_be_bytes`. */
module Words {

  const WORD_LIMIT: int := 0x1_0000_0000_0000_0000
  const WORD_MAX: int := 0xFFFF_FFFF_FFFF_FFFF
  /** Number of bytes in a word, and so in an instruction operand. */
  const WORD_BYTES: nat := 8

  type Word = x: int | 0 <= x < 0x1_0000_0000_0000_0000
  type Byte = x: int | 0 <= x < 256

  function Pow256(n: nat): (r: nat)
    ensures 0 < r
  {
    if n == 0 then 1 else 256 * Pow256(n - 1)
  }

  /** Eight bytes hold exactly the values of a word. */
  lemma Pow256Word()
    ensures Pow256(WORD_BYTES) == WORD_LIMIT
  {
  }

  /** The value of a big-endian byte string: the first byte is the most significant. */
  function BeValue(bytes: seq<Byte>): (r: nat)
    ensures r < Pow256(|bytes|)
  {
    if bytes == [] then 0
    else
      var n := |bytes|;
      var high := BeValue(bytes[..n - 1]);
      assert high * 256 <= (Pow256(n - 1) - 1) * 256;
      high * 256 + bytes[n - 1]
  }

  /** The `n`-byte big-endian encoding of `w` (the inverse of `BeValue`). */
  function ToBigEndian(w: nat, n: nat): (r: seq<Byte>)
    requires w < Pow256(n)
    ensures |r| == n
  {
    if n == 0 then []
    else
      assert w / 256 < Pow256(n - 1);
      ToBigEndian(w / 256, n - 1) + [w % 256]
  }

  lemma {:induction false} BeValueOfToBigEndian(w: nat, n: nat)
    requires w < Pow256(n)
    ensures BeValue(ToBigEndian(w, n)) == w
  {
    if n > 0 {
      var s := ToBigEndian(w, n);
      assert s[..n - 1] == ToBigEndian(w / 256, n - 1);
      BeValueOfToBigEndian(w / 256, n - 1);
    }
  }

  lemma {:induction false} ToBigEndianOfBeValue(s: seq<Byte>)
    ensures ToBigEndian(BeValue(s), |s|) == s
  {
    if s != [] {
      var n := |s|;
      var pre := s[..n - 1];
      var v := BeValue(s);
      assert v == BeValue(pre) * 256 + s[n - 1];
      assert v / 256 == BeValue(pre) && v % 256 == s[n - 1];
      ToBigEndianOfBeValue(pre);
      assert s == pre + [s[n - 1]];
    }
  }

  // Facts of unsigned multiplication and division that the solver needs spelled out.

  lemma MulCancelLe(x: int, y: int, b: int)
    requires b > 0 && x * b <= y * b
    ensures x <= y
  {
  }

  lemma MulCancelLt(x: int, y: int, b: int)
    requires b > 0 && x * b < y * b
    ensures x < y
  {
  }

  lemma {:induction false} MulAtLeast(q: nat, b: nat)
    requires 0 < b
    ensures q <= q * b
  {
    if b > 1 {
      MulAtLeast(q, b - 1);
      assert q * b == q * (b - 1) + q;
    }
  }

  lemma DivAtMost(a: nat, b: nat)
    requires b > 0
    ensures a / b <= a
  {
    var q := a / b;
    assert q * b <= a;
    MulAtLeast(q, b);
  }

  lemma MulDivCancel(a: nat, b: nat)
    requires b != 0
    ensures (a * b) / b == a
  {
    var q := (a * b) / b;
    assert q * b <= a * b < (q + 1) * b;
    MulCancelLe(q, a, b);
    MulCancelLt(a, q + 1, b);
  }
}
