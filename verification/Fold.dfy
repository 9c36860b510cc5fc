/** Folding a seed of any length into a few bytes. */
module Fold {
  import opened Arithmetic
  import opened Bytes

  function Xor8(a: byte, b: byte): byte { a ^ b }

  /** What byte x at index i contributes to the bytes at indices congruent to j modulo n. */
  function Share(i: nat, x: byte, n: nat, j: nat): byte
    requires j < n
  {
    if i % n == j then x else 0
  }

  /** The exclusive or of all bytes at indices congruent to j modulo n. */
  function Residue(input: seq<byte>, n: nat, j: nat): byte
    requires j < n
  {
    if input == [] then 0
    else
      var last := |input| - 1;
      Xor8(Residue(input[..last], n, j), Share(last, input[last], n, j))
  }

  /** The input folded into n bytes. */
  function Folded(input: seq<byte>, n: nat): (r: seq<byte>)
    ensures |r| == n
  {
    seq(n, j requires 0 <= j < n => Residue(input, n, j))
  }

  lemma ResidueLast(input: seq<byte>, n: nat, j: nat)
    requires j < n && input != []
    ensures Residue(input, n, j) ==
            Xor8(Residue(input[..|input| - 1], n, j), Share(|input| - 1, input[|input| - 1], n, j))
  {
  }

  lemma XorWithZero(b: byte)
    ensures Xor8(b, 0) == b && Xor8(0, b) == b
  {
  }

  lemma ResidueMore(input: seq<byte>, i: nat, n: nat, j: nat)
    requires j < n && i < |input|
    ensures Residue(input[..i + 1], n, j) ==
            if i % n == j then Xor8(Residue(input[..i], n, j), input[i]) else Residue(input[..i], n, j)
  {
    hide Residue, Xor8;
    assert input[..i + 1][..i] == input[..i];
    ResidueLast(input[..i + 1], n, j);
    XorWithZero(Residue(input[..i], n, j));
  }

  method FoldBytes(input: seq<byte>, outputSize: nat) returns (output: array<byte>)
    ensures fresh(output) && output[..] == Folded(input, outputSize)
  {
    output := new byte[outputSize](i => 0);
    if outputSize > 0 {
      for i := 0 to |input|
        invariant forall j :: 0 <= j < outputSize ==> output[j] == Residue(input[..i], outputSize, j)
      {
        forall j | 0 <= j < outputSize
          ensures Residue(input[..i + 1], outputSize, j) == var r := Residue(input[..i], outputSize, j);
                  if i % outputSize == j then Xor8(r, input[i]) else r
        {
          ResidueMore(input, i, outputSize, j);
        }
        hide Residue, Xor8;
        output[i % outputSize] := Xor8(output[i % outputSize], input[i]);
      }
      assert input[..|input|] == input;
    }
  }

  /** An input that is not longer than the output is kept, and filled up with zeros. */
  lemma ShortInput(input: seq<byte>, n: nat)
    requires |input| <= n
    ensures Folded(input, n) == input + seq(n - |input|, i => 0)
  {
    forall j | 0 <= j < n ensures Residue(input, n, j) == if j < |input| then input[j] else 0 {
      ShortResidue(input, n, j);
    }
  }

  lemma {:induction false} ShortResidue(input: seq<byte>, n: nat, j: nat)
    requires |input| <= n && j < n
    ensures Residue(input, n, j) == if j < |input| then input[j] else 0
  {
    if input != [] {
      var last := |input| - 1;
      ShortResidue(input[..last], n, j);
      SmallMod(last, n);
      XorWithZero(Residue(input[..last], n, j));
      XorWithZero(input[last]);
    }
  }

  /** Changing one byte of a seed changes exactly one byte of its fold, by the same bits. */
  lemma {:induction false} OneByte(input: seq<byte>, n: nat, j: nat, i: nat, x: byte)
    requires i < |input| && j < n
    ensures Residue(input[i := x], n, j) == Xor8(Residue(input, n, j), Share(i, Xor8(input[i], x), n, j))
    decreases |input|
  {
    hide Share, Residue, Xor8;
    var last := |input| - 1;
    var r := Residue(input[..last], n, j);
    ResidueLast(input, n, j);
    ResidueLast(input[i := x], n, j);
    if i < last {
      assert input[i := x][..last] == input[..last][i := x];
      OneByte(input[..last], n, j, i, x);
      XorTwice(r, Share(i, Xor8(input[i], x), n, j), Share(last, input[last], n, j));
    } else {
      assert input[i := x][..last] == input[..last];
      ShareChange(r, i, input[i], x, n, j);
    }
  }

  lemma XorTwice(a: byte, b: byte, c: byte)
    ensures Xor8(Xor8(a, b), c) == Xor8(Xor8(a, c), b)
  {
  }

  lemma ShareChange(r: byte, i: nat, a: byte, x: byte, n: nat, j: nat)
    requires j < n
    ensures Xor8(r, Share(i, x, n, j)) == Xor8(Xor8(r, Share(i, a, n, j)), Share(i, Xor8(a, x), n, j))
  {
    hide Xor8;
    if i % n == j { XorOnce(r, a, x); } else { XorWithZero(r); }
  }

  lemma XorOnce(r: byte, a: byte, x: byte)
    ensures Xor8(r, x) == Xor8(Xor8(r, a), Xor8(a, x))
  {
  }
}
