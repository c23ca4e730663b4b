/** The 64 steps of the MD5 compression function, over an abstract word type.

    `Run` is the looped form of section 3.4 of RFC 1321: step i reads one message word and the
    registers rotate.  `Round1` .. `Round4` are the unrolled form of the code, in which the roles of
    the four variables rotate instead and every index and shift is a literal.  What one step
    computes is a parameter, so nothing here depends on word arithmetic. */
module Md5Rounds {

  datatype Round = F | G | H | I

  datatype Regs<W> = Regs(a: W, b: W, c: W, d: W)

  type Shift = s: nat | 1 <= s <= 31 witness 1

  type StepIndex = i: nat | i < 64

  /** (round, a, b, c, d, message word, shift, step index) to the new value of `a`. */
  type Mix<!W> = (Round, W, W, W, W, W, Shift, StepIndex) -> W

  const ROUND: nat := 16

  function RoundOf(i: StepIndex): Round {
    if i < 16 then F else if i < 32 then G else if i < 48 then H else I
  }

  function WordOf(i: StepIndex): nat {
    match RoundOf(i)
    case F => i
    case G => (5 * i + 1) % 16
    case H => (3 * i + 5) % 16
    case I => 7 * i % 16
  }

  function ShiftOf(i: StepIndex): Shift {
    match RoundOf(i)
    case F => [7, 12, 17, 22][i % 4]
    case G => [5, 9, 14, 20][i % 4]
    case H => [4, 11, 16, 23][i % 4]
    case I => [6, 10, 15, 21][i % 4]
  }

  function Step<W>(mix: Mix<W>, i: StepIndex, r: Regs<W>, X: seq<W>): Regs<W>
    requires |X| == 16
  {
    Regs(r.d, mix(RoundOf(i), r.a, r.b, r.c, r.d, X[WordOf(i)], ShiftOf(i), i), r.b, r.c)
  }

  /** The first n steps. */
  function Run<W>(mix: Mix<W>, n: nat, r: Regs<W>, X: seq<W>): Regs<W>
    requires n <= 64 && |X| == 16
    decreases n, X
  {
    if n == 0 then r else Step(mix, n - 1, Run(mix, n - 1, r, X), X)
  }

  /** Word addition, rotation to the left, and the four auxiliary functions. */
  datatype WordOps<!W> = WordOps(plus: (W, W) -> W, rotate: (W, Shift) -> W, aux: (Round, W, W, W) -> W)

  /** The SET macro: the sum `t` is rotated, and only then is `b` added. */
  function Set<W>(w: WordOps<W>, o: Round, a: W, b: W, c: W, d: W, x: W, s: Shift, ti: W): W {
    var t := w.plus(w.plus(w.plus(a, w.aux(o, b, c, d)), x), ti);
    w.plus(w.rotate(t, s), b)
  }

  /** Section 3.4 of RFC 1321: a = b + ((a + F(b,c,d) + X[k] + T[i]) <<< s). */
  function RfcSet<W>(w: WordOps<W>, o: Round, a: W, b: W, c: W, d: W, x: W, s: Shift, ti: W): W {
    w.plus(b, w.rotate(w.plus(w.plus(w.plus(a, w.aux(o, b, c, d)), x), ti), s))
  }

  lemma SetIsRfcSet<W(!new)>(v: WordOps<W>, w: WordOps<W>, o: Round, a: W, b: W, c: W, d: W, x: W, s: Shift, ti: W)
    requires v.plus == w.plus && v.aux == w.aux
    requires forall t: W :: v.rotate(t, s) == w.rotate(t, s)
    requires forall y: W, z: W :: w.plus(y, z) == w.plus(z, y)
    ensures Set(v, o, a, b, c, d, x, s, ti) == RfcSet(w, o, a, b, c, d, x, s, ti)
  {
  }

  /** After four steps every register is back in its own variable. */
  lemma FourSteps<W>(mix: Mix<W>, n: nat, r: Regs<W>, X: seq<W>)
    requires n <= 60 && n % 4 == 0 && |X| == 16
    ensures
      var q := Run(mix, n, r, X);
      var a := mix(RoundOf(n), q.a, q.b, q.c, q.d, X[WordOf(n)], ShiftOf(n), n);
      var d := mix(RoundOf(n), q.d, a, q.b, q.c, X[WordOf(n + 1)], ShiftOf(n + 1), n + 1);
      var c := mix(RoundOf(n), q.c, d, a, q.b, X[WordOf(n + 2)], ShiftOf(n + 2), n + 2);
      var b := mix(RoundOf(n), q.b, c, d, a, X[WordOf(n + 3)], ShiftOf(n + 3), n + 3);
      Run(mix, n + 4, r, X) == Regs(a, b, c, d)
  {
    assert Run(mix, n + 2, r, X) == Step(mix, n + 1, Step(mix, n, Run(mix, n, r, X), X), X);
  }

  /** Two step functions that agree on every input drive the same run. */
  lemma {:induction false} RunExtensional<W>(f: Mix<W>, g: Mix<W>, n: nat, r: Regs<W>, X: seq<W>)
    requires n <= 64 && |X| == 16
    requires forall o, a, b, c, d, x, s, i :: f(o, a, b, c, d, x, s, i) == g(o, a, b, c, d, x, s, i)
    ensures Run(f, n, r, X) == Run(g, n, r, X)
  {
    if n > 0 {
      RunExtensional(f, g, n - 1, r, X);
    }
  }

  method Round1<W>(mix: Mix<W>, ghost r: Regs<W>, q: Regs<W>, X: seq<W>) returns (q': Regs<W>)
    requires |X| == 16 && q == Run(mix, 0 * ROUND, r, X)
    ensures q' == Run(mix, 1 * ROUND, r, X)
  {
    var a, b, c, d := q.a, q.b, q.c, q.d;
    ghost var n := 0 * ROUND;
    a := mix(F, a, b, c, d, X[0], 7, 0);
    d := mix(F, d, a, b, c, X[1], 12, 1);
    c := mix(F, c, d, a, b, X[2], 17, 2);
    b := mix(F, b, c, d, a, X[3], 22, 3);
    FourSteps(mix, n, r, X);
    n := n + 4;
    assert Regs(a, b, c, d) == Run(mix, n, r, X);
    a := mix(F, a, b, c, d, X[4], 7, 4);
    d := mix(F, d, a, b, c, X[5], 12, 5);
    c := mix(F, c, d, a, b, X[6], 17, 6);
    b := mix(F, b, c, d, a, X[7], 22, 7);
    FourSteps(mix, n, r, X);
    n := n + 4;
    assert Regs(a, b, c, d) == Run(mix, n, r, X);
    a := mix(F, a, b, c, d, X[8], 7, 8);
    d := mix(F, d, a, b, c, X[9], 12, 9);
    c := mix(F, c, d, a, b, X[10], 17, 10);
    b := mix(F, b, c, d, a, X[11], 22, 11);
    FourSteps(mix, n, r, X);
    n := n + 4;
    assert Regs(a, b, c, d) == Run(mix, n, r, X);
    a := mix(F, a, b, c, d, X[12], 7, 12);
    d := mix(F, d, a, b, c, X[13], 12, 13);
    c := mix(F, c, d, a, b, X[14], 17, 14);
    b := mix(F, b, c, d, a, X[15], 22, 15);
    FourSteps(mix, n, r, X);
    n := n + 4;
    assert Regs(a, b, c, d) == Run(mix, n, r, X);
    q' := Regs(a, b, c, d);
  }

  method Round2<W>(mix: Mix<W>, ghost r: Regs<W>, q: Regs<W>, X: seq<W>) returns (q': Regs<W>)
    requires |X| == 16 && q == Run(mix, 1 * ROUND, r, X)
    ensures q' == Run(mix, 2 * ROUND, r, X)
  {
    var a, b, c, d := q.a, q.b, q.c, q.d;
    ghost var n := 1 * ROUND;
    a := mix(G, a, b, c, d, X[1], 5, 16);
    d := mix(G, d, a, b, c, X[6], 9, 17);
    c := mix(G, c, d, a, b, X[11], 14, 18);
    b := mix(G, b, c, d, a, X[0], 20, 19);
    FourSteps(mix, n, r, X);
    n := n + 4;
    assert Regs(a, b, c, d) == Run(mix, n, r, X);
    a := mix(G, a, b, c, d, X[5], 5, 20);
    d := mix(G, d, a, b, c, X[10], 9, 21);
    c := mix(G, c, d, a, b, X[15], 14, 22);
    b := mix(G, b, c, d, a, X[4], 20, 23);
    FourSteps(mix, n, r, X);
    n := n + 4;
    assert Regs(a, b, c, d) == Run(mix, n, r, X);
    a := mix(G, a, b, c, d, X[9], 5, 24);
    d := mix(G, d, a, b, c, X[14], 9, 25);
    c := mix(G, c, d, a, b, X[3], 14, 26);
    b := mix(G, b, c, d, a, X[8], 20, 27);
    FourSteps(mix, n, r, X);
    n := n + 4;
    assert Regs(a, b, c, d) == Run(mix, n, r, X);
    a := mix(G, a, b, c, d, X[13], 5, 28);
    d := mix(G, d, a, b, c, X[2], 9, 29);
    c := mix(G, c, d, a, b, X[7], 14, 30);
    b := mix(G, b, c, d, a, X[12], 20, 31);
    FourSteps(mix, n, r, X);
    n := n + 4;
    assert Regs(a, b, c, d) == Run(mix, n, r, X);
    q' := Regs(a, b, c, d);
  }

  method Round3<W>(mix: Mix<W>, ghost r: Regs<W>, q: Regs<W>, X: seq<W>) returns (q': Regs<W>)
    requires |X| == 16 && q == Run(mix, 2 * ROUND, r, X)
    ensures q' == Run(mix, 3 * ROUND, r, X)
  {
    var a, b, c, d := q.a, q.b, q.c, q.d;
    ghost var n := 2 * ROUND;
    a := mix(H, a, b, c, d, X[5], 4, 32);
    d := mix(H, d, a, b, c, X[8], 11, 33);
    c := mix(H, c, d, a, b, X[11], 16, 34);
    b := mix(H, b, c, d, a, X[14], 23, 35);
    FourSteps(mix, n, r, X);
    n := n + 4;
    assert Regs(a, b, c, d) == Run(mix, n, r, X);
    a := mix(H, a, b, c, d, X[1], 4, 36);
    d := mix(H, d, a, b, c, X[4], 11, 37);
    c := mix(H, c, d, a, b, X[7], 16, 38);
    b := mix(H, b, c, d, a, X[10], 23, 39);
    FourSteps(mix, n, r, X);
    n := n + 4;
    assert Regs(a, b, c, d) == Run(mix, n, r, X);
    a := mix(H, a, b, c, d, X[13], 4, 40);
    d := mix(H, d, a, b, c, X[0], 11, 41);
    c := mix(H, c, d, a, b, X[3], 16, 42);
    b := mix(H, b, c, d, a, X[6], 23, 43);
    FourSteps(mix, n, r, X);
    n := n + 4;
    assert Regs(a, b, c, d) == Run(mix, n, r, X);
    a := mix(H, a, b, c, d, X[9], 4, 44);
    d := mix(H, d, a, b, c, X[12], 11, 45);
    c := mix(H, c, d, a, b, X[15], 16, 46);
    b := mix(H, b, c, d, a, X[2], 23, 47);
    FourSteps(mix, n, r, X);
    n := n + 4;
    assert Regs(a, b, c, d) == Run(mix, n, r, X);
    q' := Regs(a, b, c, d);
  }

  method Round4<W>(mix: Mix<W>, ghost r: Regs<W>, q: Regs<W>, X: seq<W>) returns (q': Regs<W>)
    requires |X| == 16 && q == Run(mix, 3 * ROUND, r, X)
    ensures q' == Run(mix, 4 * ROUND, r, X)
  {
    var a, b, c, d := q.a, q.b, q.c, q.d;
    ghost var n := 3 * ROUND;
    a := mix(I, a, b, c, d, X[0], 6, 48);
    d := mix(I, d, a, b, c, X[7], 10, 49);
    c := mix(I, c, d, a, b, X[14], 15, 50);
    b := mix(I, b, c, d, a, X[5], 21, 51);
    FourSteps(mix, n, r, X);
    n := n + 4;
    assert Regs(a, b, c, d) == Run(mix, n, r, X);
    a := mix(I, a, b, c, d, X[12], 6, 52);
    d := mix(I, d, a, b, c, X[3], 10, 53);
    c := mix(I, c, d, a, b, X[10], 15, 54);
    b := mix(I, b, c, d, a, X[1], 21, 55);
    FourSteps(mix, n, r, X);
    n := n + 4;
    assert Regs(a, b, c, d) == Run(mix, n, r, X);
    a := mix(I, a, b, c, d, X[8], 6, 56);
    d := mix(I, d, a, b, c, X[15], 10, 57);
    c := mix(I, c, d, a, b, X[6], 15, 58);
    b := mix(I, b, c, d, a, X[13], 21, 59);
    FourSteps(mix, n, r, X);
    n := n + 4;
    assert Regs(a, b, c, d) == Run(mix, n, r, X);
    a := mix(I, a, b, c, d, X[4], 6, 60);
    d := mix(I, d, a, b, c, X[11], 10, 61);
    c := mix(I, c, d, a, b, X[2], 15, 62);
    b := mix(I, b, c, d, a, X[9], 21, 63);
    FourSteps(mix, n, r, X);
    n := n + 4;
    assert Regs(a, b, c, d) == Run(mix, n, r, X);
    q' := Regs(a, b, c, d);
  }
}
