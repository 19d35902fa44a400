/** A shift register that is linear over an addition in which every element is its own inverse.

    The algebra is a parameter, so that inductions over registers never look at the bits. */
module LinearRegister {

  datatype Algebra<!T(==, !new)> = Algebra(plus: (T, T) -> T, zero: T, step: T -> T) {
    /** Every element is its own inverse. */
    ghost predicate SelfInverse() {
      && (forall a, b :: plus(a, b) == zero <==> a == b)
      && (forall a, b :: plus(plus(a, b), b) == a)
      && (forall a :: plus(a, zero) == a)
    }

    ghost predicate Abelian() {
      && (forall a, b, c :: plus(plus(a, b), c) == plus(a, plus(b, c)))
      && (forall a, b :: plus(a, b) == plus(b, a))
    }

    ghost predicate IsLinear(f: T -> T) { forall a, b :: f(plus(a, b)) == plus(f(a), f(b)) }

    ghost predicate StepIsLinear() {
      && IsLinear(step)
      && (forall a :: step(a) == zero <==> a == zero)
    }

    ghost predicate Lawful() { SelfInverse() && Abelian() && StepIsLinear() }

    function Steps(a: T, n: nat): T { if n == 0 then a else step(Steps(a, n - 1)) }

    /** The register after absorbing each symbol and stepping eight times. */
    function Register(initial: T, symbols: seq<T>): T {
      if symbols == [] then initial
      else Steps(plus(Register(initial, symbols[..|symbols| - 1]), symbols[|symbols| - 1]), 8)
    }

    lemma {:induction false} StepsAreLinear(a: T, b: T, n: nat)
      requires StepIsLinear()
      ensures Steps(plus(a, b), n) == plus(Steps(a, n), Steps(b, n))
    {
      if n > 0 {
        StepsAreLinear(a, b, n - 1);
      }
    }

    lemma {:induction false} StepsKernel(a: T, n: nat)
      requires StepIsLinear()
      ensures Steps(a, n) == zero <==> a == zero
    {
      if n > 0 {
        StepsKernel(a, n - 1);
      }
    }

    /** Stepping is injective. */
    lemma StepsAreInjective(a: T, b: T, n: nat)
      requires SelfInverse() && StepIsLinear() && Steps(a, n) == Steps(b, n)
      ensures a == b
    {
      StepsAreLinear(a, b, n);
      StepsKernel(plus(a, b), n);
    }

    /** Absorb one symbol. */
    function Feed(a: T, symbol: T): T { Steps(plus(a, symbol), 8) }

    lemma FeedZero(e: T)
      requires SelfInverse() && StepIsLinear()
      ensures Feed(e, zero) == zero <==> e == zero
    {
      StepsKernel(e, 8);
    }

    /** The register computed from a table that holds eight steps of every low part. */
    function TableRegister(low: T -> T, shift: T -> T, initial: T, symbols: seq<T>): T {
      if symbols == [] then initial
      else
        var before := TableRegister(low, shift, initial, symbols[..|symbols| - 1]);
        plus(Steps(low(plus(before, symbols[|symbols| - 1])), 8), shift(before))
    }

    /** Adding a symbol changes the low part only, and eight steps shift what is left above it. */
    ghost predicate Splits(symbol: T -> bool, low: T -> T, high: T -> T, shift: T -> T) {
      && (forall a, s :: symbol(s) ==> plus(a, s) == plus(low(plus(a, s)), high(a)))
      && (forall a :: Steps(high(a), 8) == shift(a))
    }

    lemma {:induction false} TableAgrees(symbol: T -> bool, low: T -> T, high: T -> T, shift: T -> T,
                                         initial: T, symbols: seq<T>)
      requires StepIsLinear() && Splits(symbol, low, high, shift)
      requires forall k :: 0 <= k < |symbols| ==> symbol(symbols[k])
      ensures TableRegister(low, shift, initial, symbols) == Register(initial, symbols)
    {
      if symbols != [] {
        var before, s := Register(initial, symbols[..|symbols| - 1]), symbols[|symbols| - 1];
        TableAgrees(symbol, low, high, shift, initial, symbols[..|symbols| - 1]);
        assert plus(before, s) == plus(low(plus(before, s)), high(before));
        StepsAreLinear(low(plus(before, s)), high(before), 8);
      }
    }

    /** A sequence of differences: `d[k]` is how far apart two registers are after k symbols that
        differ by `deltas`. */
    ghost predicate Evolves(d: seq<T>, deltas: seq<T>) {
      |d| == |deltas| + 1 && forall k :: 0 <= k < |deltas| ==> d[k + 1] == Feed(d[k], deltas[k])
    }

    /** Registers fed the same symbols stay apart, or stay together. */
    lemma {:induction false} CommonSymbols(d: seq<T>, deltas: seq<T>, m: nat, n: nat)
      requires SelfInverse() && StepIsLinear() && Evolves(d, deltas) && m <= n <= |deltas|
      requires forall j :: m <= j < n ==> deltas[j] == zero
      ensures d[n] == zero <==> d[m] == zero
      decreases n - m
    {
      if m < n {
        CommonSymbols(d, deltas, m + 1, n);
        FeedZero(d[m]);
      }
    }

    /** `back` undoes eight steps on every value that `narrow` calls narrow enough for the number
        of symbols fed, and undoing one symbol leaves a value narrow enough for one symbol less. */
    ghost predicate ShiftsBack(symbol: T -> bool, narrow: (T, nat) -> bool, back: T -> T) {
      && (forall fed :: 0 < fed ==> narrow(zero, fed))
      && (forall d, delta, fed {:trigger narrow(d, fed), plus(back(d), delta)} ::
            1 <= fed <= 4 && narrow(d, fed) && symbol(delta) ==>
            && Steps(back(d), 8) == d
            && narrow(plus(back(d), delta), fed - 1)
            && (plus(back(d), delta) == zero ==> d == zero && delta == zero))
    }

    lemma UndoSymbol(symbol: T -> bool, narrow: (T, nat) -> bool, back: T -> T, e: T, delta: T, fed: nat)
      requires SelfInverse() && StepIsLinear() && ShiftsBack(symbol, narrow, back)
      requires 1 <= fed <= 4 && symbol(delta) && narrow(Feed(e, delta), fed)
      ensures narrow(e, fed - 1)
      ensures e == zero ==> Feed(e, delta) == zero && delta == zero
    {
      var d := Feed(e, delta);
      assert narrow(plus(back(d), delta), fed - 1) && Steps(back(d), 8) == d;
      StepsAreInjective(plus(e, delta), back(d), 8);
      assert plus(plus(e, delta), delta) == e;
    }

    /** Feeding at most four differences that are not all zero to equal registers cannot bring
        them to a narrow difference, in particular not back together. */
    lemma {:induction false} WindowSeparates(symbol: T -> bool, narrow: (T, nat) -> bool, back: T -> T,
                                             d: seq<T>, deltas: seq<T>, i: nat, n: nat)
      requires SelfInverse() && StepIsLinear() && ShiftsBack(symbol, narrow, back)
      requires Evolves(d, deltas) && i <= n <= |deltas| && n - i <= 4
      requires forall j :: 0 <= j < |deltas| ==> symbol(deltas[j])
      requires d[i] == zero && (i < n ==> narrow(d[n], n - i))
      ensures d[n] == zero && forall j :: i <= j < n ==> deltas[j] == zero
      decreases n
    {
      if i < n {
        var k := n - 1;
        assert d[k + 1] == Feed(d[k], deltas[k]);
        UndoSymbol(symbol, narrow, back, d[k], deltas[k], n - i);
        WindowSeparates(symbol, narrow, back, d, deltas, i, k);
      }
    }

    ghost function Deltas(x: seq<T>, y: seq<T>): seq<T>
      requires |x| == |y|
    {
      seq(|x|, k requires 0 <= k < |x| => plus(x[k], y[k]))
    }

    ghost function Differences(initial: T, x: seq<T>, y: seq<T>): seq<T>
      requires |x| == |y|
    {
      seq(|x| + 1, k requires 0 <= k <= |x| => plus(Register(initial, x[..k]), Register(initial, y[..k])))
    }

    lemma RegisterStep(initial: T, x: seq<T>, k: nat)
      requires k < |x|
      ensures Register(initial, x[..k + 1]) == Feed(Register(initial, x[..k]), x[k])
    {
      assert x[..k + 1][..k] == x[..k];
    }

    /** A register is followed symbol by symbol. */
    lemma {:induction false} RegisterFollows(x: seq<T>, after: nat -> T, k: nat)
      requires k <= |x| && forall n :: 0 <= n < |x| ==> Steps(plus(after(n), x[n]), 8) == after(n + 1)
      ensures Register(after(0), x[..k]) == after(k)
    {
      if k > 0 {
        RegisterFollows(x, after, k - 1);
        RegisterStep(after(0), x, k - 1);
      }
    }

    lemma Interchange(a: T, b: T, c: T, d: T)
      requires Abelian()
      ensures plus(plus(a, b), plus(c, d)) == plus(plus(a, c), plus(b, d))
    {
      calc {
        plus(plus(a, b), plus(c, d));
      ==
        plus(a, plus(b, plus(c, d)));
      ==
        plus(a, plus(plus(b, c), d));
      ==
        plus(a, plus(plus(c, b), d));
      ==
        plus(a, plus(c, plus(b, d)));
      ==
        plus(plus(a, c), plus(b, d));
      }
    }

    /** A step that adds two linear parts is linear. */
    lemma SumIsLinear(f: T -> T, g: T -> T)
      requires Abelian() && IsLinear(f) && IsLinear(g) && forall a :: step(a) == plus(f(a), g(a))
      ensures IsLinear(step)
    {
      forall a, b
        ensures step(plus(a, b)) == plus(step(a), step(b))
      {
        Interchange(f(a), f(b), g(a), g(b));
      }
    }

    lemma FeedsDiffer(a: T, b: T, s: T, t: T)
      requires Abelian() && StepIsLinear()
      ensures plus(Feed(a, s), Feed(b, t)) == Feed(plus(a, b), plus(s, t))
    {
      StepsAreLinear(plus(a, s), plus(b, t), 8);
      Interchange(a, s, b, t);
    }

    lemma DifferencesEvolve(initial: T, x: seq<T>, y: seq<T>)
      requires Abelian() && StepIsLinear() && |x| == |y|
      ensures Evolves(Differences(initial, x, y), Deltas(x, y))
    {
      var d, deltas := Differences(initial, x, y), Deltas(x, y);
      forall k | 0 <= k < |deltas|
        ensures d[k + 1] == Feed(d[k], deltas[k])
      {
        RegisterStep(initial, x, k);
        RegisterStep(initial, y, k);
        FeedsDiffer(Register(initial, x[..k]), Register(initial, y[..k]), x[k], y[k]);
      }
    }

    lemma BurstSurvives(symbol: T -> bool, narrow: (T, nat) -> bool, back: T -> T,
                        d: seq<T>, deltas: seq<T>, i: nat, k: nat)
      requires SelfInverse() && StepIsLinear() && ShiftsBack(symbol, narrow, back)
      requires Evolves(d, deltas) && d[0] == zero && forall j :: 0 <= j < |deltas| ==> symbol(deltas[j])
      requires forall j :: 0 <= j < |deltas| && !(i <= j < i + 4) ==> deltas[j] == zero
      requires k < |deltas| && deltas[k] != zero
      ensures d[|deltas|] != zero
    {
      var end := if i + 4 <= |deltas| then i + 4 else |deltas|;
      CommonSymbols(d, deltas, 0, i);
      CommonSymbols(d, deltas, end, |deltas|);
      if d[end] == zero {
        WindowSeparates(symbol, narrow, back, d, deltas, i, end);
        assert false;
      }
    }

    /** Sequences that differ, and differ only within four consecutive symbols, leave different
        registers. */
    lemma BurstsAreDetected(symbol: T -> bool, narrow: (T, nat) -> bool, back: T -> T,
                            initial: T, x: seq<T>, y: seq<T>, i: nat)
      requires Lawful() && ShiftsBack(symbol, narrow, back)
      requires |x| == |y| && x != y && forall j :: 0 <= j < |x| ==> symbol(Deltas(x, y)[j])
      requires forall j :: 0 <= j < |x| && !(i <= j < i + 4) ==> x[j] == y[j]
      ensures Register(initial, x) != Register(initial, y)
    {
      var k :| 0 <= k < |x| && x[k] != y[k];
      DifferencesEvolve(initial, x, y);
      ZeroMeansEqual(initial, x, y);
      BurstSurvives(symbol, narrow, back, Differences(initial, x, y), Deltas(x, y), i, k);
    }

    lemma ZeroMeansEqual(initial: T, x: seq<T>, y: seq<T>)
      requires SelfInverse() && |x| == |y|
      ensures forall j :: 0 <= j < |x| ==> (Deltas(x, y)[j] == zero <==> x[j] == y[j])
      ensures Differences(initial, x, y)[0] == zero
      ensures Differences(initial, x, y)[|x|] == zero <==> Register(initial, x) == Register(initial, y)
    {
      assert x[..|x|] == x && y[..|y|] == y && x[..0] == [] && y[..0] == [];
      assert plus(initial, initial) == zero;
      assert Differences(initial, x, y)[0] == plus(Register(initial, x[..0]), Register(initial, y[..0]));
    }
  }
}
