/**
 * Shared vocabulary of the model: optional values, the exceptions the Python code raises,
 * and the list primitives it uses (`sum`, `list * n`, comprehensions that scale a list).
 */
module Common {

  datatype Option<+T> = None | Some(value: T) {
    function GetOr(default: T): T
    {
      if Some? then value else default
    }
  }

  /** A value, or the exception that was raised instead of returning one. */
  datatype Result<+T> = Success(value: T) | Failure(error: Error) {
    predicate IsFailure()
    {
      Failure?
    }

    function PropagateFailure<U>(): Result<U>
      requires Failure?
    {
      Failure(error)
    }

    function Extract(): T
      requires Success?
    {
      value
    }
  }

  /** One constructor per kind of exception raised by the modelled code. */
  datatype Error =
    | LayerCountMismatch              // factor / CSV list length differs from NumberOfControlPoints / 2
    | LayerCountMismatchAfterRewrite  // the late check after the weights were already rewritten
    | LayerFactorIndex                // IndexError: past the end of a factor or CSV weight list
    | LayerFactorUnbound              // UnboundLocalError: layer factor read before any assignment
    | DivisionByZero                  // ZeroDivisionError
    | ModeConflict                    // minimize combined with a factor or layer weights
    | GantryAngleCount                // number of gantry angles differs from number of fields
    | GantryAngleIndex                // IndexError: fewer gantry angles than fields
    | TablePositionArity              // table position is not a triple
    | ExitRequested                   // the copy routine calls exit()
    | NoFields                        // a log line reads the last (or loop) field of an empty plan
    | UnknownRangeShifter             // range shifter id other than RS_2CM / RS_5CM
    | ColumnCount                     // export format with other than 5, 6 or 7 columns
    | UnknownSuffix                   // load: unknown file suffix
    | EnergyOutOfRange                // stopping power asked for outside [1, 500] MeV
    | MissingParticleColumn           // IndexError: spot table has no fourth column
    | EmptySpotTable                  // min() / max() of a layer without spots
    | MissingToken                    // IndexError: a line has too few comma-separated tokens
    | NotANumber                      // float() / int() cannot parse a token
    | ReshapeMismatch                 // numpy reshape with a size that does not fit
    | MissingIonBeam                  // IndexError: fewer ion beams than referenced beams
    | MissingReferencedBeam           // IndexError: fewer referenced beams than ion beams
    | NoLayers                        // IndexError: export of a field without layers
    | NameUnbound                     // UnboundLocalError: a local read before any control point set it
    | ColumnMismatch                  // ValueError: np.c_ of arrays with different numbers of rows
    | NoControlPoint                  // IndexError: a field whose IonControlPointSequence is empty

  /** Python's `sum` over a list of floats, taken exactly over the reals, accumulated left to right. */
  function Sum(s: seq<real>): real
  {
    if |s| == 0 then 0.0 else Sum(s[..|s| - 1]) + s[|s| - 1]
  }

  lemma SumPrefixStep(s: seq<real>, k: nat)
    requires k < |s|
    ensures Sum(s[..k + 1]) == Sum(s[..k]) + s[k]
  {
    assert s[..k + 1][..k] == s[..k];
  }

  lemma {:induction false} SumAppend(a: seq<real>, b: seq<real>)
    ensures Sum(a + b) == Sum(a) + Sum(b)
  {
    if |b| == 0 {
      assert a + b == a;
    } else {
      assert (a + b)[..|a + b| - 1] == a + b[..|b| - 1];
      SumAppend(a, b[..|b| - 1]);
    }
  }

  /** A list whose entries are all zero sums to zero. */
  lemma {:induction false} SumZeros(s: seq<real>)
    requires forall k :: 0 <= k < |s| ==> s[k] == 0.0
    ensures Sum(s) == 0.0
  {
    if |s| > 0 {
      SumZeros(s[..|s| - 1]);
    }
  }

  lemma {:induction false} SumNonNegative(s: seq<real>)
    requires forall k :: 0 <= k < |s| ==> s[k] >= 0.0
    ensures Sum(s) >= 0.0
  {
    if |s| > 0 {
      SumNonNegative(s[..|s| - 1]);
    }
  }

  function Zeros(n: nat): (r: seq<real>)
    ensures |r| == n && forall k :: 0 <= k < n ==> r[k] == 0.0
  {
    seq(n, _ => 0.0)
  }

  /** Python's `s * n` on a list: n copies of s, one after the other. */
  function Repeat<T>(s: seq<T>, n: nat): seq<T>
  {
    if n == 0 then [] else Repeat(s, n - 1) + s
  }

  lemma {:induction false} RepeatLength<T>(s: seq<T>, n: nat)
    ensures |Repeat(s, n)| == |s| * n
  {
    if n > 0 {
      RepeatLength(s, n - 1);
    }
  }

  lemma DivModUnique(i: int, d: int, q: int, r: int)
    requires d > 0 && 0 <= r < d && i == q * d + r
    ensures i / d == q && i % d == r
  {
    var q', r' := i / d, i % d;
    assert i == q' * d + r';
    if q' < q {
      assert (q - q') * d >= d by { MulAtLeast(q - q', d); }
      assert false;
    } else if q' > q {
      assert (q' - q) * d >= d by { MulAtLeast(q' - q, d); }
      assert false;
    }
  }

  lemma MulAtLeast(a: int, d: int)
    requires a >= 1 && d > 0
    ensures a * d >= d
  {
  }

  /** Entry i of n copies of s is entry i mod |s| of s. */
  lemma {:induction false} RepeatAt<T>(s: seq<T>, n: nat, i: nat)
    requires i < |s| * n
    ensures |s| > 0 && |Repeat(s, n)| == |s| * n && Repeat(s, n)[i] == s[i % |s|]
  {
    RepeatLength(s, n);
    if n == 0 {
      assert false;
    }
    if |s| == 0 {
      assert false;
    }
    RepeatLength(s, n - 1);
    if i < |s| * (n - 1) {
      RepeatAt(s, n - 1, i);
    } else {
      DivModUnique(i, |s|, n - 1, i - |s| * (n - 1));
    }
  }

  /** `[x for x in s for _ in range(n)]`: n consecutive copies of each element of s, in order. */
  function Expand<T>(s: seq<T>, n: nat): seq<T>
  {
    if |s| == 0 then [] else Expand(s[..|s| - 1], n) + seq(n, _ => s[|s| - 1])
  }

  lemma {:induction false} ExpandLength<T>(s: seq<T>, n: nat)
    ensures |Expand(s, n)| == |s| * n
  {
    if |s| > 0 {
      ExpandLength(s[..|s| - 1], n);
    }
  }

  /** Entry i of the expansion is element i / n of s. */
  lemma {:induction false} ExpandAt<T>(s: seq<T>, n: nat, i: nat)
    requires i < |s| * n
    ensures n > 0 && |Expand(s, n)| == |s| * n && i / n < |s| && Expand(s, n)[i] == s[i / n]
  {
    ExpandLength(s, n);
    if n == 0 {
      assert false;
    }
    var m := |s| - 1;
    var p := s[..m];
    ExpandLength(p, n);
    var e := Expand(s, n);
    assert e == Expand(p, n) + seq(n, _ => s[m]);
    if i < m * n {
      ExpandAt(p, n, i);
      DivBelow(i, n, m);
      assert e[i] == Expand(p, n)[i];
    } else {
      DivModUnique(i, n, m, i - m * n);
      assert e[i] == s[m];
    }
  }

  lemma DivBelow(i: nat, n: nat, m: nat)
    requires n > 0 && i < m * n
    ensures i / n < m
  {
    var q := i / n;
    assert i == q * n + i % n;
    if q >= m {
      MulMonotone(m, q, n);
    }
  }

  lemma MulMonotone(a: int, b: int, n: nat)
    requires a <= b
    ensures a * n <= b * n
  {
  }

  /** Repeating a list n times multiplies its sum by n. */
  lemma {:induction false} SumRepeat(s: seq<real>, n: nat)
    ensures Sum(Repeat(s, n)) == (n as real) * Sum(s)
  {
    if n > 0 {
      SumRepeat(s, n - 1);
      SumAppend(Repeat(s, n - 1), s);
    }
  }

  /** `[x * c for x in s]` */
  function Scale(s: seq<real>, c: real): (r: seq<real>)
    ensures |r| == |s|
  {
    seq(|s|, k requires 0 <= k < |s| => s[k] * c)
  }

  lemma {:induction false} SumScale(s: seq<real>, c: real)
    ensures Sum(Scale(s, c)) == Sum(s) * c
  {
    if |s| > 0 {
      var p := s[..|s| - 1];
      forall k | 0 <= k < |p|
        ensures Scale(s, c)[..|s| - 1][k] == Scale(p, c)[k]
      {
      }
      assert Scale(s, c)[..|s| - 1] == Scale(p, c);
      SumScale(p, c);
    }
  }

  /** Decimal rendering of a natural number, as Python's f"{n}". */
  function NatToString(n: nat): (r: string)
    ensures |r| > 0
    ensures forall k :: 0 <= k < |r| ==> '0' <= r[k] <= '9'
  {
    var d := [('0' as int + n % 10) as char];
    if n < 10 then d else NatToString(n / 10) + d
  }

  /** Python's `enumerate(xs)`: each element paired with its position. */
  function Enumerate<X>(xs: seq<X>): (r: seq<(nat, X)>)
    ensures |r| == |xs| && forall k :: 0 <= k < |xs| ==> r[k] == (k, xs[k])
  {
    seq(|xs|, k requires 0 <= k < |xs| => (k as nat, xs[k]))
  }

  /**
   * A Python `for` loop over xs whose body may raise: the state after the whole loop, or the
   * exception of the first element whose step raises.
   */
  function Fold<S, X>(xs: seq<X>, init: S, step: (S, X) -> Result<S>): Result<S>
    decreases |xs|
  {
    if |xs| == 0 then Success(init)
    else
      var acc :- Fold(xs[..|xs| - 1], init, step);
      step(acc, xs[|xs| - 1])
  }

  /** One more element of the loop: the step applied to the state reached so far. */
  lemma FoldStep<S, X>(xs: seq<X>, k: nat, init: S, step: (S, X) -> Result<S>)
    requires k < |xs|
    ensures Fold(xs[..k + 1], init, step) ==
      if Fold(xs[..k], init, step).Failure? then Failure(Fold(xs[..k], init, step).error)
      else step(Fold(xs[..k], init, step).value, xs[k])
  {
    assert xs[..k + 1][..k] == xs[..k];
  }

  /** Once a step has raised, the rest of the loop does not run. */
  lemma {:induction false} FoldStick<S, X>(xs: seq<X>, k: nat, init: S, step: (S, X) -> Result<S>)
    requires k <= |xs| && Fold(xs[..k], init, step).Failure?
    ensures Fold(xs, init, step) == Fold(xs[..k], init, step)
    decreases |xs| - k
  {
    if k < |xs| {
      FoldStep(xs, k, init, step);
      FoldStick(xs, k + 1, init, step);
    } else {
      assert xs[..k] == xs;
    }
  }

  /** A property of the state that every step keeps holds after a loop that does not raise. */
  lemma {:induction false} FoldInvariant<S, X>(xs: seq<X>, init: S, step: (S, X) -> Result<S>, inv: S -> bool)
    requires inv(init)
    requires forall s, x :: inv(s) && step(s, x).Success? ==> inv(step(s, x).value)
    ensures Fold(xs, init, step).Success? ==> inv(Fold(xs, init, step).value)
    decreases |xs|
  {
    if |xs| > 0 {
      FoldInvariant(xs[..|xs| - 1], init, step, inv);
    }
  }

  /** `[x for x in xs if p(x)]` */
  function Filter<X>(xs: seq<X>, p: X -> bool): (r: seq<X>)
    ensures |r| <= |xs|
    decreases |xs|
  {
    if |xs| == 0 then [] else (if p(xs[0]) then [xs[0]] else []) + Filter(xs[1..], p)
  }

  lemma {:induction false} FilterSnoc<X>(xs: seq<X>, x: X, p: X -> bool)
    ensures Filter(xs + [x], p) == Filter(xs, p) + if p(x) then [x] else []
    decreases |xs|
  {
    if |xs| == 0 {
      assert [] + [x] == [x];
    } else {
      var h, t := if p(xs[0]) then [xs[0]] else [], if p(x) then [x] else [];
      assert (xs + [x])[0] == xs[0] && (xs + [x])[1..] == xs[1..] + [x];
      assert Filter(xs + [x], p) == h + Filter(xs[1..] + [x], p);
      FilterSnoc(xs[1..], x, p);
      assert h + (Filter(xs[1..], p) + t) == (h + Filter(xs[1..], p)) + t;
    }
  }

  /** Everything the filter keeps satisfies p and comes from xs. */
  lemma {:induction false} FilterKeeps<X>(xs: seq<X>, p: X -> bool)
    ensures forall k :: 0 <= k < |Filter(xs, p)| ==> p(Filter(xs, p)[k]) && Filter(xs, p)[k] in xs
    decreases |xs|
  {
    if |xs| > 0 {
      FilterKeeps(xs[1..], p);
    }
  }

  /**
   * The body of a loop that appends `read(x)` for every x that `select` accepts, where `read`
   * may raise.
   */
  function CollectStep<X, Y>(select: X -> bool, read: X -> Result<Y>): (seq<Y>, X) -> Result<seq<Y>>
  {
    (done: seq<Y>, x: X) =>
      if select(x) then
        var y :- read(x);
        Success(done + [y])
      else Success(done)
  }

  /**
   * Such a loop raises exactly when reading one of the selected elements does; otherwise it
   * yields what each selected element reads as, in order.
   */
  lemma {:induction false} CollectMeaning<X, Y>(xs: seq<X>, select: X -> bool, read: X -> Result<Y>)
    ensures Fold(xs, [], CollectStep(select, read)).Success? <==>
      forall k :: 0 <= k < |Filter(xs, select)| ==> read(Filter(xs, select)[k]).Success?
    ensures Fold(xs, [], CollectStep(select, read)).Success? ==>
      var ys := Fold(xs, [], CollectStep(select, read)).value;
      |ys| == |Filter(xs, select)|
      && forall k :: 0 <= k < |ys| ==> ys[k] == read(Filter(xs, select)[k]).value
    decreases |xs|
  {
    if |xs| > 0 {
      var n := |xs| - 1;
      var init := xs[..n];
      CollectMeaning(init, select, read);
      assert xs == init + [xs[n]];
      FilterSnoc(init, xs[n], select);
      FoldStep(xs, n, [], CollectStep(select, read));
      assert xs[..n] == init && xs[..n + 1] == xs;
      var f, g := Filter(init, select), Filter(xs, select);
      if select(xs[n]) {
        assert g == f + [xs[n]];
        assert forall k :: 0 <= k < |f| ==> g[k] == f[k];
        assert g[|f|] == xs[n];
      } else {
        assert g == f;
      }
    }
  }
}
