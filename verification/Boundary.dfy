/** Where nodes split. The threshold an entry's digest is held against is exact integer arithmetic on sizes: it
    never overflows 64 bits, never traps, and grows with the node. */
module Boundary {
  import opened Keys
  import opened Drawing

  const MIN_MIN := 64
  const MIN_TARGET := 1024
  const MAX_MAX := 32768
  const GAMMA_NUM := 906_402_477
  const GAMMA_DEN := 1_000_000_000
  const ALWAYS := 0x1_0000_0000
  const WORD := 0x1_0000_0000_0000_0000

  datatype Geometry = Geometry(min: int, target: int, max: int)
  {
    predicate Valid() {
      !(min < MIN_MIN || target < MIN_TARGET || max > MAX_MAX) && !(min >= target || target >= max)
    }
  }

  function Fourth(x: int): int {
    x * x * x * x
  }

  /** A geometry with its scale, and the window a level reads of a key's digest. */
  datatype Rule = Rule(g: Geometry, lambda: int, lambda4: int, window: (Key, nat) -> nat)
  {
    ghost predicate Valid() {
      && g.Valid()
      && lambda == (g.target * GAMMA_DEN + GAMMA_NUM / 2) / GAMMA_NUM
      && lambda4 == Fourth(lambda)
    }
  }

  /******** 64-bit arithmetic ********/

  function Wrap(x: int): (r: int)
    ensures 0 <= r < WORD
  {
    x % WORD
  }

  // The 128-bit product, as its high and low words.
  function Mul64(x: int, y: int): (r: (int, int))
    requires 0 <= x < WORD && 0 <= y < WORD
    ensures r.0 * WORD + r.1 == x * y && 0 <= r.1 < WORD
  {
    (x * y / WORD, x * y % WORD)
  }

  // The quotient of a 128-bit dividend, which traps unless it fits one word.
  function Div64(hi: int, lo: int, y: int): (q: int)
    requires 0 <= lo < WORD && 0 <= hi < y
    ensures q == (hi * WORD + lo) / y
  {
    (hi * WORD + lo) / y
  }

  lemma MulMono(a: int, b: int, c: int, d: int)
    requires 0 <= a <= b && 0 <= c <= d
    ensures 0 <= a * c <= b * d
  {
    assert a * c <= b * c;
    assert b * c <= b * d;
  }

  lemma FourthMono(a: int, b: int)
    requires 0 <= a <= b
    ensures 0 <= a * a <= b * b && 0 <= a * a * a <= b * b * b && 0 <= Fourth(a) <= Fourth(b)
  {
    MulMono(a, b, a, b);
    MulMono(a * a, b * b, a, b);
    MulMono(a * a * a, b * b * b, a, b);
  }

  // Every word the scale needs fits: 1129 <= lambda <= 36152.
  lemma LambdaFits(g: Geometry)
    requires g.Valid()
    ensures var lambda := (g.target * GAMMA_DEN + GAMMA_NUM / 2) / GAMMA_NUM;
            1129 <= lambda <= 36152 && 0x1000_0000 <= Fourth(lambda) < WORD
            && 0 <= g.target * GAMMA_DEN + GAMMA_NUM / 2 < WORD
            && lambda * lambda < WORD && lambda * lambda * lambda < WORD
  {
    var lambda := (g.target * GAMMA_DEN + GAMMA_NUM / 2) / GAMMA_NUM;
    FourthMono(1129, lambda);
    FourthMono(lambda, 36152);
  }

  // The fourth power as the code computes it, a word at a time.
  function WordFourth(x: int): int {
    Wrap(Wrap(Wrap(x * x) * x) * x)
  }

  lemma WrapIs(x: int)
    requires 0 <= x < WORD
    ensures Wrap(x) == x
  {
  }

  lemma WordFourthIs(x: int)
    requires 0 <= x * x < WORD && 0 <= x * x * x < WORD && 0 <= Fourth(x) < WORD
    ensures WordFourth(x) == Fourth(x)
  {
    WrapIs(x * x);
    WrapIs(x * x * x);
    WrapIs(Fourth(x));
  }

  // Validates a geometry and computes its scale in 64-bit words.
  method New(g: Geometry, window: (Key, nat) -> nat) returns (ok: bool, r: Rule)
    ensures ok <==> g.Valid()
    ensures ok ==> r.Valid() && r.g == g && r.window == window
  {
    r := Rule(g, 0, 0, window);
    ok := g.Valid();
    if ok {
      hide WordFourth, Fourth, Wrap;
      LambdaFits(g);
      WrapIs(g.target * GAMMA_DEN);
      WrapIs(g.target * GAMMA_DEN + GAMMA_NUM / 2);
      var lambda := Wrap(Wrap(g.target * GAMMA_DEN) + GAMMA_NUM / 2) / GAMMA_NUM;
      WordFourthIs(lambda);
      r := Rule(g, lambda, WordFourth(lambda), window);
    }
  }

  // The exact threshold: the share of the scale's fourth power that an entry adds, in 2^32 parts.
  function Exact(r: Rule, before: int, after: int): int
    requires r.lambda4 > 0
  {
    var low := if before < 0 then 0 else before;
    if after >= r.g.max then ALWAYS
    else if after <= low then 0
    else (Fourth(after) - Fourth(low)) * ALWAYS / r.lambda4
  }

  lemma PowersFit(x: int)
    requires 0 <= x < MAX_MAX
    ensures 0 <= x * x < WORD && 0 <= x * x * x < WORD && 0 <= Fourth(x) < 0x1000_0000_0000_0000
  {
    FourthMono(x, MAX_MAX - 1);
  }

  // A product of a 60-bit word with 2^32 leaves a high word under any scale, so its quotient fits.
  lemma QuotientFits(x: int, y: int)
    requires 0 <= x < 0x1000_0000_0000_0000 && 0x1000_0000 <= y
    ensures var p := Mul64(x, ALWAYS); 0 <= p.0 < y && 0 <= Div64(p.0, p.1, y) < WORD
    ensures var p := Mul64(x, ALWAYS); Div64(p.0, p.1, y) == x * ALWAYS / y
  {
    var p := Mul64(x, ALWAYS);
    assert x * ALWAYS < 0x1000_0000 * WORD;
    assert 0 <= p.0 < 0x1000_0000;
    QuotientBelow(x * ALWAYS, y);
  }

  lemma QuotientBelow(d: int, y: int)
    requires 0 <= d < 0x1000_0000 * WORD && 0x1000_0000 <= y
    ensures 0 <= d / y < WORD
  {
    var q := d / y;
    assert 0 <= q && q * y <= d;
    if q >= WORD {
      MulMono(WORD, q, 0x1000_0000, y);
    }
  }

  // Word arithmetic computes the exact threshold: nothing wraps and the division never traps.
  method Threshold(r: Rule, before: int, after: int) returns (t: int)
    requires r.Valid()
    ensures r.lambda4 > 0 && t == Exact(r, before, after) && 0 <= t < WORD
  {
    LambdaFits(r.g);
    if after >= r.g.max {
      return ALWAYS;
    }
    var low := if before < 0 then 0 else before;
    if after <= low {
      return 0;
    }
    hide WordFourth, Fourth, Wrap, Mul64, Div64;
    PowersFit(after);
    PowersFit(low);
    FourthMono(low, after);
    WordFourthIs(after);
    WordFourthIs(low);
    WrapIs(Fourth(after) - Fourth(low));
    QuotientFits(Fourth(after) - Fourth(low), r.lambda4);
    var p := Mul64(Wrap(WordFourth(after) - WordFourth(low)), ALWAYS);
    t := Div64(p.0, p.1, r.lambda4);
  }

  /******** The splitter ********/

  predicate Ends(r: Rule, level: nat, n: nat, before: nat, after: nat, key: Key) {
    && !(level >= 1 && n < 2)
    && after >= r.g.min
    && r.lambda4 > 0
    && var t := Exact(r, before, after); (t >= ALWAYS || r.window(key, level) < t)
  }

  function AsSplitRule(r: Rule): SplitRule {
    SplitRule((level: nat, n: nat, before: nat, after: nat, key: Key) => Ends(r, level, n, before, after, key))
  }

  // No node above the leaves ends at one entry.
  lemma RuleShrinks(r: Rule)
    ensures Shrinking(AsSplitRule(r))
  {
  }

  class Splitter {
    const r: Rule
    const level: nat
    var size: nat
    var n: nat

    constructor (r: Rule, level: nat)
      ensures this.r == r && this.level == level && size == 0 && n == 0
    {
      this.r, this.level, size, n := r, level, 0, 0;
    }

    // Counts one more entry; the answer is the rule's on the entries since the last boundary.
    method Append(key: Key, bytes: nat) returns (ends: bool)
      requires r.Valid()
      modifies this
      ensures ends == AsSplitRule(r).ends(level, old(n) + 1, old(size), old(size) + bytes, key)
      ensures if ends then size == 0 && n == 0 else size == old(size) + bytes && n == old(n) + 1
    {
      var before := size;
      size, n := size + bytes, n + 1;
      if level >= 1 && n < 2 {
        return false;
      }
      if size < r.g.min {
        return false;
      }
      var t := Threshold(r, before, size);
      ends := t >= ALWAYS || r.window(key, level) < t;
      if ends {
        size, n := 0, 0;
      }
    }
  }
}
