/** Option and Result types, and the kinds of Python exception the modelled code can raise. */
module Wrappers {

  datatype Option<T> = None | Some(value: T)

  /** The exception classes that escape from the modelled operations. */
  datatype Error =
    | RuntimeError
    | ValueError
    | AssertionError
    | TypeError
    | KeyError
    | IndexError
    | AttributeError
    | UnboundLocalError
    | NameError
    | ZeroDivisionError
    | RecursionError
    | OverflowError

  datatype Result<T> = Ok(value: T) | Err(error: Error)

  /**
   * A loop that appends `f(i)` for `i` from 0 to `k - 1` and stops at the first exception:
   * the list, or that exception.
   */
  function Tabulate<T>(f: nat -> Result<T>, k: nat): (r: Result<seq<T>>)
    ensures r.Ok? ==> |r.value| == k
  {
    if k == 0 then Ok([])
    else
      match Tabulate(f, k - 1)
      case Err(e) => Err(e)
      case Ok(s) =>
        match f(k - 1)
        case Err(e) => Err(e)
        case Ok(x) => Ok(s + [x])
  }

  lemma {:induction false} TabulateErrorSticks<T>(f: nat -> Result<T>, k: nat, m: nat)
    requires k <= m && Tabulate(f, k).Err?
    ensures Tabulate(f, m) == Tabulate(f, k)
    decreases m - k
  {
    if k < m {
      TabulateErrorSticks(f, k, m - 1);
    }
  }

  /** When no step fails, the loop succeeds and its i-th element is `f(i)`. */
  lemma {:induction false} TabulateOk<T>(f: nat -> Result<T>, k: nat)
    requires forall i: nat :: i < k ==> f(i).Ok?
    ensures Tabulate(f, k).Ok?
    ensures forall i: nat :: i < k ==> Tabulate(f, k).value[i] == f(i).value
  {
    if k > 0 {
      TabulateOk(f, k - 1);
      var s := Tabulate(f, k - 1).value;
      assert Tabulate(f, k).value == s + [f(k - 1).value];
    }
  }

  /** A loop that appends `f(i)` for `i` from 0 to `k - 1`. */
  function Collect<T>(f: nat -> T, k: nat): (r: seq<T>)
    ensures |r| == k
  {
    if k == 0 then [] else Collect(f, k - 1) + [f(k - 1)]
  }

  lemma {:induction false} CollectAt<T>(f: nat -> T, k: nat, i: nat)
    requires i < k
    ensures Collect(f, k)[i] == f(i)
  {
    if i < k - 1 {
      CollectAt(f, k - 1, i);
    }
  }

  /** A loop that appends `f(i)` for each `i` from 0 to `k - 1` that yields something. */
  function Gather<T>(f: nat -> Option<T>, k: nat): (r: seq<T>)
    ensures |r| <= k
  {
    if k == 0 then []
    else
      var head := Gather(f, k - 1);
      if f(k - 1).None? then head else head + [f(k - 1).value]
  }

  /** What is gathered is exactly what some step yields. */
  lemma {:induction false} GatherMembers<T>(f: nat -> Option<T>, k: nat)
    ensures forall x :: x in Gather(f, k) <==> exists i: nat :: i < k && f(i) == Some(x)
  {
    if k > 0 {
      GatherMembers(f, k - 1);
      assert forall x :: x in Gather(f, k) <==> x in Gather(f, k - 1) || f(k - 1) == Some(x);
    }
  }

  /** When every step yields, the i-th element gathered is that of step i. */
  lemma {:induction false} GatherAllSome<T>(f: nat -> Option<T>, k: nat)
    requires forall i: nat :: i < k ==> f(i).Some?
    ensures |Gather(f, k)| == k
    ensures forall i: nat :: i < k ==> Gather(f, k)[i] == f(i).value
  {
    if k > 0 {
      GatherAllSome(f, k - 1);
    }
  }

  /** A loop that adds the set `f(i)` for each `i` from 0 to `k - 1`. */
  function UnionUpTo<T>(f: nat -> set<T>, k: nat): set<T> {
    if k == 0 then {} else UnionUpTo(f, k - 1) + f(k - 1)
  }

  lemma {:induction false} UnionUpToMembers<T>(f: nat -> set<T>, k: nat)
    ensures forall x :: x in UnionUpTo(f, k) <==> exists i: nat :: i < k && x in f(i)
  {
    if k > 0 {
      UnionUpToMembers(f, k - 1);
    }
  }

  /** A left fold of a failing step over the first `k` lines, stopping at the first error. */
  function Fold<S>(step: (S, string) -> Result<S>, s0: S, lines: seq<string>, k: nat): Result<S>
    requires k <= |lines|
  {
    if k == 0 then Ok(s0)
    else
      match Fold(step, s0, lines, k - 1)
      case Err(e) => Err(e)
      case Ok(s) => step(s, lines[k - 1])
  }

  ghost predicate Preserves<S(!new)>(step: (S, string) -> Result<S>, inv: S -> bool) {
    forall s, l :: inv(s) && step(s, l).Ok? ==> inv(step(s, l).value)
  }

  lemma {:induction false} FoldInvariant<S(!new)>(step: (S, string) -> Result<S>, inv: S -> bool, s0: S, lines: seq<string>, k: nat)
    requires k <= |lines| && inv(s0) && Preserves(step, inv) && Fold(step, s0, lines, k).Ok?
    ensures inv(Fold(step, s0, lines, k).value)
  {
    if k > 0 {
      FoldInvariant(step, inv, s0, lines, k - 1);
    }
  }

  lemma {:induction false} FoldErrorSticks<S>(step: (S, string) -> Result<S>, s0: S, lines: seq<string>, k: nat, m: nat)
    requires k <= m <= |lines| && Fold(step, s0, lines, k).Err?
    ensures Fold(step, s0, lines, m) == Fold(step, s0, lines, k)
    decreases m - k
  {
    if k < m {
      FoldErrorSticks(step, s0, lines, k, m - 1);
    }
  }
}
