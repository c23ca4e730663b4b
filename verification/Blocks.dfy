/** Folding a function over the 64-byte blocks of a byte string. */
module Blocks {
  import opened Bytes

  type Block = b: seq<Byte> | |b| == 64 witness seq(64, _ => 0)

  /** Folds f over the full blocks of m; a shorter rest is ignored. */
  function Fold<R>(f: (R, Block) -> R, r: R, m: seq<Byte>): R
    decreases |m|
  {
    if |m| < 64 then r else Fold(f, f(r, m[..64]), m[64..])
  }

  /** The bytes of m after its last full block. */
  function Tail(m: seq<Byte>): (t: seq<Byte>)
    ensures |t| < 64
    decreases |m|
  {
    if |m| < 64 then m else Tail(m[64..])
  }

  lemma {:induction false} TailLength(m: seq<Byte>)
    ensures |Tail(m)| == |m| % 64
    decreases |m|
  {
    if |m| >= 64 {
      TailLength(m[64..]);
    }
  }

  /** What is folded so far, and the rest that is not, are all that is needed to go on. */
  lemma {:induction false} FoldMore<R>(f: (R, Block) -> R, r: R, x: seq<Byte>, y: seq<Byte>)
    ensures Fold(f, r, x + y) == Fold(f, Fold(f, r, x), Tail(x) + y)
    ensures Tail(x + y) == Tail(Tail(x) + y)
    decreases |x|
  {
    if |x| >= 64 {
      assert (x + y)[..64] == x[..64] && (x + y)[64..] == x[64..] + y;
      FoldMore(f, f(r, x[..64]), x[64..], y);
    }
  }

  lemma FoldBlock<R>(f: (R, Block) -> R, r: R, b: Block)
    ensures Fold(f, r, b) == f(r, b)
    ensures Tail(b) == []
  {
    assert b[..64] == b && b[64..] == [];
  }

  /** y completes the block that x left unfinished. */
  lemma FoldFull<R>(f: (R, Block) -> R, r: R, x: seq<Byte>, y: seq<Byte>)
    requires |Tail(x)| + |y| == 64
    ensures Fold(f, r, x + y) == f(Fold(f, r, x), Tail(x) + y)
    ensures Tail(x + y) == []
  {
    FoldMore(f, r, x, y);
    FoldBlock(f, Fold(f, r, x), Tail(x) + y);
  }

  /** y does not complete it. */
  lemma FoldPart<R>(f: (R, Block) -> R, r: R, x: seq<Byte>, y: seq<Byte>)
    requires |Tail(x)| + |y| < 64
    ensures Fold(f, r, x + y) == Fold(f, r, x)
    ensures Tail(x + y) == Tail(x) + y
  {
    FoldMore(f, r, x, y);
  }
}
