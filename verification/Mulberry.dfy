/** The seeded generator behind the frontend's mock fixtures (frontend/src/lib/utils.ts): a 32-bit word that
    goes up by a constant at each call, and an output mixed from it by shifts, exclusive ors and 32-bit
    products. The words are integers here, since their period is a matter of arithmetic modulo 2^32, and
    the mixing is done on bit-vectors; JavaScript's signed 32-bit view of a word is the same bits, and its
    last unsigned shift makes the draw a fraction of 2^32. */
module Mulberry {

  const WORDS := 0x1_0000_0000
  const STEP := 0x6d2b79f5
  /** STEP * INVERSE is one more than a multiple of WORDS. */
  const INVERSE := 3696798301

  /** A 32-bit pattern, as JavaScript's bitwise operators leave a number. */
  type Word = x: int | 0 <= x < 0x1_0000_0000

  function Truncate(n: int): Word { n % WORDS }

  /** Math.imul(seed ^ (seed >>> 15), 1 | seed). */
  function Mix(s: bv32): bv32 { (s ^ (s >> 15)) * (1 | s) }

  /** The second multiply, folded back in. */
  function Fold(t: bv32): bv32 { (t + (t ^ (t >> 7)) * (61 | t)) ^ t }

  function Temper(t: bv32): bv32 { t ^ (t >> 14) }

  /** A word read as a fraction of 2^32. */
  function Fraction(y: bv32): real { y as int as real / 4294967296.0 }

  /** What a call returns, from the state it moves to. */
  function Output(w: Word): real { Fraction(Temper(Fold(Mix(w as bv32)))) }

  /** The two multiplies and the last shift, written out. */
  lemma MixIs(s: bv32)
    ensures Mix(s) == (s ^ (s >> 15)) * (1 | s)
  {
  }

  lemma FoldIs(t: bv32)
    ensures Fold(t) == (t + (t ^ (t >> 7)) * (61 | t)) ^ t
  {
  }

  lemma TemperIs(u: bv32)
    ensures Fraction(Temper(u)) == (u ^ (u >> 14)) as int as real / 4294967296.0
  {
  }

  lemma OutputIs(w: Word)
    ensures Output(w) == Fraction(Temper(Fold(Mix(w as bv32))))
  {
  }

  /** The closure mulberry32 returns, with the variable it captures. */
  class Generator {
    var seed: int

    constructor (seed: int)
      ensures this.seed == seed
    {
      this.seed := seed;
    }

    method Next() returns (r: real)
      modifies this
      ensures seed == State(old(seed), 1)
      ensures r == Output(seed)
      ensures seed == (old(seed) + 0x6d2b79f5) % 0x1_0000_0000
    {
      Move(seed);
      seed := Truncate(seed);
      seed := Truncate(seed + STEP);
      r := Output(seed);
    }
  }

  lemma Move(seed: int)
    ensures Truncate(Truncate(seed) + STEP) == State(seed, 1)
  {
    AddAfter(Truncate(seed), seed, STEP);
  }

  /** The captured variable after n calls: call number n returns Output of it. */
  function State(seed: int, n: nat): int {
    if n == 0 then seed else Truncate(State(seed, n - 1) + STEP)
  }

  lemma {:induction false} StateIs(seed: int, n: nat)
    ensures n > 0 ==> State(seed, n) == Truncate(seed + n * STEP)
    ensures Truncate(State(seed, n)) == Truncate(seed + n * STEP)
  {
    if n > 0 {
      StateIs(seed, n - 1);
      AddAfter(State(seed, n - 1), seed + (n - 1) * STEP, STEP);
    }
  }

  lemma AddAfter(a: int, b: int, c: int)
    requires Truncate(a) == Truncate(b)
    ensures Truncate(a + c) == Truncate(b + c)
  {
    assert a == b + WORDS * (a / WORDS - b / WORDS);
    ShiftWords(b + c, a / WORDS - b / WORDS);
  }

  lemma ShiftWords(a: int, q: int)
    ensures Truncate(a + WORDS * q) == Truncate(a)
  {
  }

  lemma Congruent(a: int, b: int)
    ensures Truncate(a) == Truncate(b) <==> Truncate(a - b) == 0
  {
  }

  /** Multiplying by the odd step loses nothing. */
  lemma StepCancels(k: int)
    ensures Truncate(k * STEP) == 0 <==> Truncate(k) == 0
  {
    if Truncate(k * STEP) == 0 {
      var q := k * STEP / WORDS;
      assert k * STEP == WORDS * q;
      assert STEP * INVERSE == 1 + WORDS * 1576479847;
      assert k == WORDS * (q * INVERSE - k * 1576479847);
    }
    MultipleStays(k);
  }

  lemma MultipleStays(k: int)
    ensures Truncate(k) == 0 ==> Truncate(k * STEP) == 0
  {
    if Truncate(k) == 0 {
      var q := k / WORDS;
      assert k * STEP == WORDS * (q * STEP);
      ShiftWords(0, q * STEP);
    }
  }

  /** Full period: two states of one generator are equal exactly when their positions agree modulo
      2^32. */
  lemma FullPeriod(seed: int, i: nat, j: nat)
    requires i > 0 && j > 0
    ensures State(seed, i) == State(seed, j) <==> Truncate(i) == Truncate(j)
  {
    StateIs(seed, i);
    StateIs(seed, j);
    SameTerms(seed, i, j);
  }

  lemma SameTerms(seed: int, i: nat, j: nat)
    ensures Truncate(seed + i * STEP) == Truncate(seed + j * STEP) <==> Truncate(i) == Truncate(j)
  {
    Apart(seed + i * STEP, seed + j * STEP, i - j);
    Congruent(i, j);
  }

  lemma Apart(a: int, b: int, k: int)
    requires a - b == k * STEP
    ensures Truncate(a) == Truncate(b) <==> Truncate(k) == 0
  {
    Congruent(a, b);
    StepCancels(k);
  }

  /** Every word is a state, and is reached within the first 2^32 calls. */
  lemma Reaches(seed: int, w: Word) returns (n: nat)
    ensures 1 <= n <= WORDS && State(seed, n) == w
  {
    var m := Truncate((w - seed) * INVERSE);
    n := if m == 0 then WORDS else m;
    StateIs(seed, n);
    var k := (w - seed) * INVERSE;
    assert n == k + WORDS * ((n - k) / WORDS) by { Congruent(n, k); }
    Solve(w - seed, n, (n - k) / WORDS);
    ShiftWords(w, 1576479847 * (w - seed) + (n - k) / WORDS * STEP);
  }

  lemma Solve(d: int, n: int, q: int)
    requires n == d * INVERSE + WORDS * q
    ensures n * STEP == d + WORDS * (1576479847 * d + q * STEP)
  {
    assert INVERSE * STEP == 1 + WORDS * 1576479847;
  }

  /** All seeds share one cycle: from some call on, any generator goes through the states of any
      other, and so returns what it returned. */
  lemma OneCycle(a: int, b: int) returns (k: nat)
    ensures forall n: nat | n > 0 :: State(b, n) == State(a, n + k)
  {
    k := Reaches(a, Truncate(b));
    forall n: nat | n > 0
      ensures State(b, n) == State(a, n + k)
    {
      Follows(a, b, k, n);
    }
  }

  lemma Follows(a: int, b: int, k: nat, n: nat)
    requires Truncate(State(a, k)) == Truncate(b) && n > 0
    ensures State(b, n) == State(a, n + k)
  {
    StateIs(b, n);
    StateIs(a, n + k);
    StateIs(a, k);
    AddAfter(a + k * STEP, b, n * STEP);
    assert a + k * STEP + n * STEP == a + (n + k) * STEP;
  }

  function Untemper(y: bv32): bv32 { y ^ (y >> 14) ^ (y >> 28) }

  lemma UntemperUndoes(t: bv32)
    ensures Untemper(t ^ (t >> 14)) == t
  {
  }

  /** The final shift, Temper, loses nothing. */
  lemma ShiftInjective(t: bv32, u: bv32)
    requires t ^ (t >> 14) == u ^ (u >> 14)
    ensures t == u
  {
    UntemperUndoes(t);
    UntemperUndoes(u);
  }

  /** Every draw is in [0, 1). */
  lemma DrawRange(w: Word)
    ensures 0.0 <= Output(w) < 1.0
  {
    InRange(Temper(Fold(Mix(w as bv32))));
  }

  lemma InRange(y: bv32)
    ensures 0.0 <= Fraction(y) < 1.0
  {
    var m := y as int;
    assert 0 <= m < 0x1_0000_0000;
  }
}
