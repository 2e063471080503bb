/**
 Octets and the big-endian integers every TLS structure is built from.
 */
module Wire {

  datatype Option<+T> = None | Some(value: T) {
    predicate IsFailure() {
      None?
    }

    function PropagateFailure<U>(): Option<U>
      requires None?
    {
      None
    }

    function Extract(): T
      requires Some?
    {
      value
    }
  }

  /** The first option if it holds a value, the second one otherwise. */
  function Or<T>(first: Option<T>, second: Option<T>): Option<T> {
    if first.Some? then first else second
  }

  type byte = b: int | 0 <= b < 0x100
  type u16 = n: int | 0 <= n < 0x1_0000
  type u32 = n: int | 0 <= n < 0x1_0000_0000
  type bytes = seq<byte>

  function U16(hi: byte, lo: byte): u16 {
    hi * 0x100 + lo
  }

  function PutU16(n: u16): (s: bytes)
    ensures |s| == 2 && U16(s[0], s[1]) == n
  {
    NumberOfTwo(Octets(n, 2));
    Limits();
    NumberOfOctets(n, 2);
    Octets(n, 2)
  }

  lemma NumberOfTwo(s: bytes)
    requires |s| == 2
    ensures Number(s) == U16(s[0], s[1])
  {
    assert s[..1][..0] == [];
    assert Number(s[..1]) == s[0];
  }

  /** The integer that octets stand for, most significant first. */
  function Number(s: bytes): nat {
    if s == [] then 0 else 0x100 * Number(s[..|s| - 1]) + s[|s| - 1]
  }

  /** The lowest `k` octets of an integer, most significant first. */
  function Octets(n: nat, k: nat): (s: bytes)
    ensures |s| == k
  {
    if k == 0 then [] else Octets(n / 0x100, k - 1) + [n % 0x100]
  }

  /** How many integers `k` octets can hold. */
  function Limit(k: nat): (r: nat)
    ensures r > 0
  {
    if k == 0 then 1 else 0x100 * Limit(k - 1)
  }

  /** Two octets are the encoding of the integer they decode to. */
  lemma PutU16Inverse(hi: byte, lo: byte)
    ensures PutU16(U16(hi, lo)) == [hi, lo]
  {
  }

  lemma {:induction false} NumberOfOctets(n: nat, k: nat)
    requires n < Limit(k)
    ensures Number(Octets(n, k)) == n
  {
    if k == 0 {
    } else {
      NumberOfOctets(n / 0x100, k - 1);
      assert Octets(n, k)[..k - 1] == Octets(n / 0x100, k - 1);
    }
  }

  lemma {:induction false} OctetsOfNumber(s: bytes)
    ensures Number(s) < Limit(|s|) && Octets(Number(s), |s|) == s
  {
    if s == [] {
    } else {
      var front := s[..|s| - 1];
      OctetsOfNumber(front);
      assert s == front + [s[|s| - 1]];
    }
  }

  lemma Limits()
    ensures Limit(2) == 0x1_0000 && Limit(3) == 0x100_0000 && Limit(4) == 0x1_0000_0000
  {
  }

  function U32(s: bytes): u32
    requires |s| == 4
  {
    OctetsOfNumber(s);
    Limits();
    Number(s)
  }
}
