/** Big-endian integers, as both codecs write them. */
module BigEndian {
  import opened Prelude

  function Be16(n: nat): (b: Bytes)
    ensures |b| == 2
  {
    [n / 0x100 % 0x100, n % 0x100]
  }

  function Be32(n: nat): (b: Bytes)
    ensures |b| == 4
  {
    [n / 0x100_0000 % 0x100, n / 0x1_0000 % 0x100, n / 0x100 % 0x100, n % 0x100]
  }

  function Of16(b: Bytes): (n: nat)
    requires |b| == 2
    ensures n < 0x1_0000
  {
    b[0] as int * 0x100 + b[1] as int
  }

  function Of32(b: Bytes): (n: nat)
    requires |b| == 4
    ensures n < U32_LIMIT
  {
    b[0] as int * 0x100_0000 + b[1] as int * 0x1_0000 + b[2] as int * 0x100 + b[3] as int
  }

  lemma {:induction false} Be16Of16(n: nat, b: Bytes)
    requires |b| == 2
    ensures n < 0x1_0000 ==> Of16(Be16(n)) == n
    ensures Be16(Of16(b)) == b
  {
    assert Of16(b) / 0x100 == b[0];
  }

  lemma {:induction false} Of32Be32(n: nat)
    requires n < U32_LIMIT
    ensures Of32(Be32(n)) == n
  {
    assert n / 0x100_0000 < 0x100;
    assert n == n / 0x100 * 0x100 + n % 0x100;
    assert n / 0x100 == n / 0x1_0000 * 0x100 + n / 0x100 % 0x100;
    assert n / 0x1_0000 == n / 0x100_0000 * 0x100 + n / 0x1_0000 % 0x100;
  }

  lemma {:induction false} Be32Of32(b: Bytes)
    requires |b| == 4
    ensures Be32(Of32(b)) == b
  {
    var n := Of32(b);
    assert n / 0x100 == b[0] as int * 0x1_0000 + b[1] as int * 0x100 + b[2] as int;
    assert n / 0x1_0000 == b[0] as int * 0x100 + b[1] as int;
    assert n / 0x100_0000 == b[0];
  }
}
