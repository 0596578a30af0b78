/** Small shared vocabulary: optional values, results, Python slicing and
    the numeric helpers the scoring formulas use. */
module Common {

  datatype Option<+T> = None | Some(value: T) {
    /** Python `d.get(key, default)` on a key that may be absent. */
    function GetOr(default: T): T {
      match this
      case Some(v) => v
      case None => default
    }

    /** The value as a list of at most one element. */
    function ToSeq(): (s: seq<T>)
      ensures |s| <= 1 && (|s| == 1 <==> Some?) && (Some? ==> s == [value])
    {
      match this
      case Some(v) => [v]
      case None => []
    }
  }

  datatype Result<+T, +E> = Ok(value: T) | Err(error: E) {
    predicate IsFailure() {
      Err?
    }

    function PropagateFailure<U>(): Result<U, E>
      requires Err?
    {
      Err(error)
    }

    function Extract(): T
      requires Ok?
    {
      value
    }
  }

  /** Python's `round(x, n)`: it works on binary floats (half-to-even on the
      stored value), so the model keeps it abstract and passes it in. */
  type Rounding = (real, nat) -> real

  function Min(a: real, b: real): (r: real)
    ensures r <= a && r <= b && (r == a || r == b)
  {
    if a <= b then a else b
  }

  function Max(a: real, b: real): (r: real)
    ensures r >= a && r >= b && (r == a || r == b)
  {
    if a >= b then a else b
  }

  function Abs(x: real): (r: real)
    ensures r >= 0.0 && (r == x || r == -x)
  {
    if x >= 0.0 then x else -x
  }

  /** Python `int(x)` on a float: truncation toward zero. */
  function Trunc(x: real): (r: int)
    ensures x >= 0.0 ==> r == x.Floor
    ensures x < 0.0 ==> r == -((-x).Floor)
    ensures Abs(r as real) <= Abs(x)
  {
    if x >= 0.0 then x.Floor else -((-x).Floor)
  }

  /** Python `x // y` for a positive float divisor (floor division). */
  function FloorDiv(x: real, y: real): (q: int)
    requires y > 0.0
    ensures q as real * y <= x < (q + 1) as real * y
  {
    var q := (x / y).Floor;
    FloorBounds(x, y, q);
    q
  }

  /** Scaling back by `y` the bounds `q <= x / y < q + 1` of the floor. */
  lemma FloorBounds(x: real, y: real, q: int)
    requires y > 0.0 && q == (x / y).Floor
    ensures q as real * y <= x < (q + 1) as real * y
  {
    var r := x / y;
    assert q as real <= r < (q + 1) as real;
    assert r * y == x;
    MulMonotone(q as real, r, y);
    MulMonotoneStrict(r, (q + 1) as real, y);
    assert x < (q + 1) as real * y;
  }

  lemma MulMonotone(a: real, b: real, c: real)
    requires a <= b && c > 0.0
    ensures a * c <= b * c
  {
  }

  lemma MulMonotoneStrict(a: real, b: real, c: real)
    requires a < b && c > 0.0
    ensures a * c < b * c
  {
  }

  /** Python `x % y` for a positive float divisor: never negative. */
  function Mod(x: real, y: real): (m: real)
    requires y > 0.0
    ensures 0.0 <= m < y
    ensures x == FloorDiv(x, y) as real * y + m
  {
    x - FloorDiv(x, y) as real * y
  }

  /** Python `s[:k]`: a negative `k` counts from the end. */
  function PyPrefix<T>(s: seq<T>, k: int): (r: seq<T>)
    ensures k >= 0 ==> r == s[..if k <= |s| then k else |s|]
    ensures k < 0 ==> r == s[..if |s| + k >= 0 then |s| + k else 0]
  {
    if k >= 0 then s[..if k <= |s| then k else |s|]
    else s[..if |s| + k >= 0 then |s| + k else 0]
  }

  /** The present values of a list of optional values, in order. */
  function CollectSome<T>(opts: seq<Option<T>>): (r: seq<T>)
    ensures |r| <= |opts|
  {
    if |opts| == 0 then [] else CollectSome(opts[..|opts| - 1]) + opts[|opts| - 1].ToSeq()
  }

  /** Collecting one more element of a list adds its value, if any. */
  lemma CollectSomePrefix<T>(opts: seq<Option<T>>, k: nat)
    requires k < |opts|
    ensures CollectSome(opts[..k + 1]) == CollectSome(opts[..k]) + opts[k].ToSeq()
  {
    assert opts[..k + 1][..k] == opts[..k];
  }

  /** Nothing is collected from a list without values. */
  lemma {:induction false} CollectSomeNone<T>(opts: seq<Option<T>>)
    requires forall k :: 0 <= k < |opts| ==> opts[k].None?
    ensures CollectSome(opts) == []
  {
    if |opts| > 0 {
      CollectSomeNone(opts[..|opts| - 1]);
    }
  }

  /** Every collected value is present in the list. */
  lemma {:induction false} CollectSomeSound<T>(opts: seq<Option<T>>)
    ensures forall e :: e in CollectSome(opts) ==> Some(e) in opts
  {
    if |opts| > 0 {
      var init := opts[..|opts| - 1];
      CollectSomeSound(init);
      forall e | e in CollectSome(opts) ensures Some(e) in opts {
        if e in CollectSome(init) {
          assert Some(e) in init;
        } else {
          assert opts[|opts| - 1] == Some(e);
        }
      }
    }
  }

  /** Every present value is collected. */
  lemma {:induction false} CollectSomeComplete<T>(opts: seq<Option<T>>, i: nat)
    requires i < |opts| && opts[i].Some?
    ensures opts[i].value in CollectSome(opts)
  {
    var init := opts[..|opts| - 1];
    if i < |opts| - 1 {
      assert init[i] == opts[i];
      CollectSomeComplete(init, i);
    }
  }

  /** The elements of `s` that satisfy `p`, in their original order (a list
      comprehension with an `if`). */
  function Filter<T(==)>(s: seq<T>, p: T -> bool): (r: seq<T>)
    ensures |r| <= |s|
    ensures forall i :: 0 <= i < |r| ==> r[i] in s && p(r[i])
    ensures forall i :: 0 <= i < |s| && p(s[i]) ==> s[i] in r
  {
    if |s| == 0 then []
    else Filter(s[..|s| - 1], p) + (if p(s[|s| - 1]) then [s[|s| - 1]] else [])
  }

  /** Nothing passes the filter when no element satisfies the predicate. */
  lemma {:induction false} FilterNone<T>(s: seq<T>, p: T -> bool)
    requires forall i :: 0 <= i < |s| ==> !p(s[i])
    ensures Filter(s, p) == []
  {
    if |s| > 0 {
      FilterNone(s[..|s| - 1], p);
    }
  }

  /** Filtering commutes with concatenation: the filter keeps order. */
  lemma {:induction false} FilterConcat<T>(a: seq<T>, b: seq<T>, p: T -> bool)
    ensures Filter(a + b, p) == Filter(a, p) + Filter(b, p)
    decreases |b|
  {
    if |b| == 0 {
      assert a + b == a;
    } else {
      var b' := b[..|b| - 1];
      assert (a + b)[..|a + b| - 1] == a + b';
      assert (a + b)[|a + b| - 1] == b[|b| - 1];
      FilterConcat(a, b', p);
    }
  }

  /** Filtering a prefix that is one element longer. */
  lemma FilterSnoc<T>(s: seq<T>, i: nat, p: T -> bool)
    requires i < |s|
    ensures Filter(s[..i + 1], p) == Filter(s[..i], p) + (if p(s[i]) then [s[i]] else [])
  {
    assert s[..i + 1][..i] == s[..i];
  }

  /** A sequence without repeated elements. */
  predicate NoDuplicates<T(==)>(s: seq<T>) {
    forall i, j :: 0 <= i < j < |s| ==> s[i] != s[j]
  }

  /** Sum of a sequence of reals. */
  function SumReals(s: seq<real>): real {
    if |s| == 0 then 0.0 else SumReals(s[..|s| - 1]) + s[|s| - 1]
  }

  /** Python `sum(values) / len(values)` for a non-empty list. */
  function Average(s: seq<real>): real
    requires |s| > 0
  {
    SumReals(s) / |s| as real
  }

  /** If every value lies in [lo, hi], so does their sum scaled by the count. */
  lemma {:induction false} SumBounds(s: seq<real>, lo: real, hi: real)
    requires forall i :: 0 <= i < |s| ==> lo <= s[i] <= hi
    ensures |s| as real * lo <= SumReals(s) <= |s| as real * hi
  {
    if |s| > 0 {
      SumBounds(s[..|s| - 1], lo, hi);
    }
  }

  /** The average of values in [lo, hi] is in [lo, hi]. */
  lemma AverageBounds(s: seq<real>, lo: real, hi: real)
    requires |s| > 0
    requires forall i :: 0 <= i < |s| ==> lo <= s[i] <= hi
    ensures lo <= Average(s) <= hi
  {
    SumBounds(s, lo, hi);
    var n := |s| as real;
    assert n * lo <= SumReals(s) <= n * hi;
    assert SumReals(s) / n >= lo by {
      assert SumReals(s) >= lo * n;
    }
    assert SumReals(s) / n <= hi by {
      assert SumReals(s) <= hi * n;
    }
  }

  /** A sum of values at least `lo` is at least `lo` times the count. */
  lemma {:induction false} SumAtLeast(s: seq<real>, lo: real)
    requires forall i :: 0 <= i < |s| ==> lo <= s[i]
    ensures |s| as real * lo <= SumReals(s)
  {
    if |s| > 0 {
      SumAtLeast(s[..|s| - 1], lo);
    }
  }

  /** The average of values at least `lo` is at least `lo`. */
  lemma AverageAtLeast(s: seq<real>, lo: real)
    requires |s| > 0
    requires forall i :: 0 <= i < |s| ==> lo <= s[i]
    ensures lo <= Average(s)
  {
    SumAtLeast(s, lo);
    var n := |s| as real;
    assert SumReals(s) / n >= lo by {
      assert SumReals(s) >= lo * n;
    }
  }

  /** The lists one after the other (`extend` in a loop, `"".join`). */
  function Concat<T>(lists: seq<seq<T>>): seq<T> {
    if |lists| == 0 then [] else Concat(lists[..|lists| - 1]) + lists[|lists| - 1]
  }

  /** The summed lengths of the lists. */
  function TotalCount<T>(lists: seq<seq<T>>): nat {
    if |lists| == 0 then 0 else TotalCount(lists[..|lists| - 1]) + |lists[|lists| - 1]|
  }

  /** The flattened list is as long as all the lists together. */
  lemma {:induction false} ConcatLength<T>(lists: seq<seq<T>>)
    ensures |Concat(lists)| == TotalCount(lists)
  {
    if |lists| > 0 {
      ConcatLength(lists[..|lists| - 1]);
    }
  }

  /** Flattening keeps the order of the lists. */
  lemma {:induction false} ConcatAppend<T>(a: seq<seq<T>>, b: seq<seq<T>>)
    ensures Concat(a + b) == Concat(a) + Concat(b)
    decreases |b|
  {
    if |b| == 0 {
      assert a + b == a;
    } else {
      var b' := b[..|b| - 1];
      assert (a + b)[..|a + b| - 1] == a + b';
      ConcatAppend(a, b');
    }
  }
}
