// The level of the random sign-flip test over everything that is random in it: the signs observed
// and all the rows of signs drawn.
module RandomLevel {
  import opened Reals
  import opened SignFlip
  import opened SignFlipLevel

  // ----- All choices of signs and of rows

  ghost function AllSigns(n: nat): set<Signs> {
    if n == 0 then {[]} else set b, g | b in {true, false} && g in AllSigns(n - 1) :: [b] + g
  }

  lemma {:induction false} SignsAreAll(n: nat, g: Signs)
    ensures g in AllSigns(n) <==> |g| == n
  {
    if n > 0 {
      if g in AllSigns(n) {
        var b, rest :| b in {true, false} && rest in AllSigns(n - 1) && g == [b] + rest;
        SignsAreAll(n - 1, rest);
      }
      if |g| == n {
        var b, rest := g[0], g[1..];
        SignsAreAll(n - 1, rest);
        assert b in {true, false} && g == [b] + rest;
      }
    }
  }

  ghost function AllRows(n: nat, m: nat): set<seq<Signs>> {
    if m == 0 then {[]} else set g, rows | g in AllSigns(n) && rows in AllRows(n, m - 1) :: [g] + rows
  }

  lemma {:induction false} RowsAreAll(n: nat, m: nat, rows: seq<Signs>)
    ensures rows in AllRows(n, m) <==> |rows| == m && AllOfLength(rows, n)
  {
    if m > 0 {
      if rows in AllRows(n, m) {
        var g, rest :| g in AllSigns(n) && rest in AllRows(n, m - 1) && rows == [g] + rest;
        SignsAreAll(n, g);
        RowsAreAll(n, m - 1, rest);
      }
      if |rows| == m && AllOfLength(rows, n) {
        SignsAreAll(n, rows[0]);
        RowsAreAll(n, m - 1, rows[1..]);
        assert rows == [rows[0]] + rows[1..];
      }
    }
  }

  lemma {:induction false} ImageFits<X(!new), Y(!new)>(s: set<X>, f: X -> Y, t: set<Y>)
    requires forall x :: x in s ==> f(x) in t
    requires forall x, y :: x in s && y in s && f(x) == f(y) ==> x == y
    ensures |s| <= |t|
  {
    if s != {} {
      var x :| x in s;
      ImageFits(s - {x}, f, t - {f(x)});
    }
  }

  // ----- Counting marks two ways

  /** Which of k marks an element carries. */
  type Marks<!X> = (X, nat) -> bool

  ghost function Marked<X>(s: set<X>, marks: Marks<X>, i: nat): set<X> {
    set x | x in s && marks(x, i)
  }

  /** How many marks the elements of a set carry, mark by mark. */
  ghost function MarksOver<X>(s: set<X>, marks: Marks<X>, k: nat): nat {
    if k == 0 then 0 else MarksOver(s, marks, k - 1) + |Marked(s, marks, k - 1)|
  }

  /** How many of the marks one element carries. */
  ghost function MarksOf<X>(x: X, marks: Marks<X>, k: nat): nat {
    if k == 0 then 0 else MarksOf(x, marks, k - 1) + if marks(x, k - 1) then 1 else 0
  }

  lemma MarkedSplits<X>(s: set<X>, x: X, marks: Marks<X>, i: nat)
    requires x in s
    ensures |Marked(s, marks, i)| == |Marked(s - {x}, marks, i)| + if marks(x, i) then 1 else 0
  {
    var all, rest := Marked(s, marks, i), Marked(s - {x}, marks, i);
    if marks(x, i) {
      assert all == rest + {x};
    } else {
      assert all == rest;
    }
  }

  lemma {:induction false} MarksSplit<X>(s: set<X>, x: X, marks: Marks<X>, k: nat)
    requires x in s
    ensures MarksOver(s, marks, k) == MarksOver(s - {x}, marks, k) + MarksOf(x, marks, k)
  {
    if k > 0 {
      MarksSplit(s, x, marks, k - 1);
      MarkedSplits(s, x, marks, k - 1);
    }
  }

  lemma {:induction false} NoMarks<X>(marks: Marks<X>, k: nat)
    ensures MarksOver({}, marks, k) == 0
  {
    if k > 0 {
      NoMarks(marks, k - 1);
      assert Marked({}, marks, k - 1) == {};
    }
  }

  /** Elements of at most so many marks each carry at most as many times that. */
  lemma {:induction false} MarksBound<X>(s: set<X>, marks: Marks<X>, k: nat, most: real)
    requires forall x :: x in s ==> MarksOf(x, marks, k) as real <= most
    ensures MarksOver(s, marks, k) as real <= Times(|s|, most)
  {
    if s == {} {
      NoMarks(marks, k);
    } else {
      var x :| x in s;
      MarksSplit(s, x, marks, k);
      MarksBound(s - {x}, marks, k, most);
      assert |s| == |s - {x}| + 1;
    }
  }

  lemma {:induction false} LeastTimesMarks<X>(s: set<X>, marks: Marks<X>, k: nat, least: nat)
    requires forall i: nat :: i < k ==> least <= |Marked(s, marks, i)|
    ensures Times(k, least as real) <= MarksOver(s, marks, k) as real
  {
    if k > 0 {
      LeastTimesMarks(s, marks, k - 1, least);
      assert least <= |Marked(s, marks, k - 1)|;
    }
  }

  // ----- Rejections as marks

  /** With row i as the observed one, the test's p-value is alpha or less. */
  ghost predicate Rejects(d: seq<real>, rows: seq<Signs>, i: nat, alpha: real) {
    && AllOfLength(rows, |NonZero(d)|) && i < |rows|
    && Share(ExchangedOutcome(d, rows, i).part, ExchangedOutcome(d, rows, i).whole) <= alpha
  }

  ghost function Rejections(d: seq<real>, alpha: real): Marks<seq<Signs>> {
    (rows: seq<Signs>, i: nat) => Rejects(d, rows, i, alpha)
  }

  ghost function Rejecting(d: seq<real>, s: set<seq<Signs>>, i: nat, alpha: real): set<seq<Signs>> {
    Marked(s, Rejections(d, alpha), i)
  }

  lemma {:induction false} CountAppended(s: seq<real>, x: real, c: real)
    ensures CountAtMost(s + [x], c) == CountAtMost(s, c) + if x <= c then 1 else 0
  {
    if s != [] {
      assert (s + [x])[1..] == s[1..] + [x];
      CountAppended(s[1..], x, c);
    }
  }

  lemma {:induction false} RejectionsCount(d: seq<real>, rows: seq<Signs>, k: nat, alpha: real)
    requires AllOfLength(rows, |NonZero(d)|) && k <= |rows|
    ensures MarksOf(rows, Rejections(d, alpha), k) == CountAtMost(ExchangedPValues(d, rows, k), alpha)
  {
    if k > 0 {
      RejectionsCount(d, rows, k - 1, alpha);
      var f := ExchangedOutcome(d, rows, k - 1);
      CountAppended(ExchangedPValues(d, rows, k - 1), Share(f.part, f.whole), alpha);
    }
  }

  // ----- Which row is the observed one does not matter

  /** The first row moved to place i. */
  ghost function MovedTo(rows: seq<Signs>, i: nat): seq<Signs> {
    if i < |rows| then rows[1..i + 1] + [rows[0]] + rows[i + 1..] else rows
  }

  lemma {:induction false} WithoutIsRest(rows: seq<Signs>, i: nat)
    requires i < |rows|
    ensures Without(rows, i) == rows[..i] + rows[i + 1..]
  {
    if i > 0 {
      WithoutIsRest(rows[1..], i - 1);
      assert rows[1..][..i - 1] == rows[1..i] && rows[1..][i..] == rows[i + 1..];
      assert [rows[0]] + rows[1..i] == rows[..i];
    }
  }

  lemma MovedHasSame(rows: seq<Signs>, i: nat)
    requires i < |rows|
    ensures |MovedTo(rows, i)| == |rows| && MovedTo(rows, i)[i] == rows[0]
             && Without(MovedTo(rows, i), i) == Without(rows, 0)
  {
    var moved := MovedTo(rows, i);
    WithoutIsRest(moved, i);
    assert moved[..i] == rows[1..i + 1] && moved[i + 1..] == rows[i + 1..];
    assert rows[1..i + 1] + rows[i + 1..] == rows[1..];
  }

  lemma MovedKeepsLength(rows: seq<Signs>, i: nat, n: nat)
    requires i < |rows| && AllOfLength(rows, n)
    ensures AllOfLength(MovedTo(rows, i), n)
  {
  }

  lemma MovedRejects(d: seq<real>, rows: seq<Signs>, i: nat, alpha: real)
    requires Rejects(d, rows, 0, alpha) && i < |rows|
    ensures Rejects(d, MovedTo(rows, i), i, alpha)
  {
    MovedHasSame(rows, i);
    MovedKeepsLength(rows, i, |NonZero(d)|);
  }

  lemma MovedIsInjective(a: seq<Signs>, b: seq<Signs>, i: nat)
    requires |a| == |b| && i < |a| && MovedTo(a, i) == MovedTo(b, i)
    ensures a == b
  {
    MovedHasSame(a, i);
    MovedHasSame(b, i);
    assert a == [a[0]] + a[1..] && b == [b[0]] + b[1..];
  }

  lemma MovedIsIn(d: seq<real>, n: nat, m: nat, i: nat, alpha: real, rows: seq<Signs>)
    requires n == |NonZero(d)| && i < m && rows in Rejecting(d, AllRows(n, m), 0, alpha)
    ensures MovedTo(rows, i) in Rejecting(d, AllRows(n, m), i, alpha)
  {
    RowsAreAll(n, m, rows);
    MovedHasSame(rows, i);
    MovedKeepsLength(rows, i, n);
    RowsAreAll(n, m, MovedTo(rows, i));
    MovedRejects(d, rows, i, alpha);
  }

  /** No fewer choices of rows reject with row i as the observed one than with the first. */
  lemma FirstIsNoMore(d: seq<real>, n: nat, m: nat, i: nat, alpha: real)
    requires n == |NonZero(d)| && i < m
    ensures |Rejecting(d, AllRows(n, m), 0, alpha)| <= |Rejecting(d, AllRows(n, m), i, alpha)|
  {
    var first, other := Rejecting(d, AllRows(n, m), 0, alpha), Rejecting(d, AllRows(n, m), i, alpha);
    var f := (rows: seq<Signs>) => MovedTo(rows, i);
    forall rows | rows in first
      ensures f(rows) in other
    {
      MovedIsIn(d, n, m, i, alpha, rows);
    }
    forall a, b | a in first && b in first && f(a) == f(b)
      ensures a == b
    {
      RowsAreAll(n, m, a);
      RowsAreAll(n, m, b);
      MovedIsInjective(a, b, i);
    }
    ImageFits(first, f, other);
  }

  // ----- The draws as the test sees them

  /** The test's p-value when the first row holds the observed signs and the others are drawn. */
  ghost predicate TestRejects(d: seq<real>, rows: seq<Signs>, alpha: real) {
    && rows != [] && AllOfLength(rows, |NonZero(d)|)
    && (WithSignsNonZero(rows[0], d); PValue(WithSigns(rows[0], d), |rows| - 1, rows[1..]) <= alpha)
  }

  ghost function TestRejecting(d: seq<real>, s: set<seq<Signs>>, alpha: real): set<seq<Signs>> {
    set rows | rows in s && TestRejects(d, rows, alpha)
  }

  /** The same rows with the drawn ones multiplied by the observed signs. */
  ghost function Seen(rows: seq<Signs>): seq<Signs> {
    if rows != [] && AllOfLength(rows, |rows[0]|) then [rows[0]] + SeenFrom(rows[1..], rows[0]) else rows
  }

  lemma {:induction false} MultiplyTwice(g: Signs, h: Signs)
    requires |g| == |h|
    ensures Multiply(Multiply(g, h), h) == g
  {
    if g != [] {
      MultiplyTwice(g[1..], h[1..]);
      assert Multiply(g, h)[1..] == Multiply(g[1..], h[1..]);
    }
  }

  lemma {:induction false} SeenTwice(rows: seq<Signs>, h: Signs)
    requires AllOfLength(rows, |h|)
    ensures SeenFrom(SeenFrom(rows, h), h) == rows
  {
    if rows != [] {
      SeenTwice(rows[1..], h);
      MultiplyTwice(rows[0], h);
      assert SeenFrom(rows, h)[1..] == SeenFrom(rows[1..], h);
    }
  }

  lemma SeenRejects(d: seq<real>, rows: seq<Signs>, alpha: real)
    requires TestRejects(d, rows, alpha)
    ensures |Seen(rows)| == |rows| && AllOfLength(Seen(rows), |NonZero(d)|) && Rejects(d, Seen(rows), 0, alpha)
  {
    var h, draws := rows[0], rows[1..];
    SeenTwice(draws, h);
    assert Seen(rows)[1..] == SeenFrom(draws, h);
  }

  lemma SeenIsInjective(a: seq<Signs>, b: seq<Signs>, n: nat)
    requires a != [] && b != [] && AllOfLength(a, n) && AllOfLength(b, n) && Seen(a) == Seen(b)
    ensures a == b
  {
    assert Seen(a)[0] == a[0] && Seen(b)[0] == b[0];
    assert Seen(a)[1..] == SeenFrom(a[1..], a[0]) && Seen(b)[1..] == SeenFrom(b[1..], b[0]);
    SeenTwice(a[1..], a[0]);
    SeenTwice(b[1..], b[0]);
    assert a == [a[0]] + a[1..] && b == [b[0]] + b[1..];
  }

  lemma TestIsFirst(d: seq<real>, n: nat, m: nat, alpha: real)
    requires n == |NonZero(d)| && m > 0
    ensures |TestRejecting(d, AllRows(n, m), alpha)| <= |Rejecting(d, AllRows(n, m), 0, alpha)|
  {
    var test, first := TestRejecting(d, AllRows(n, m), alpha), Rejecting(d, AllRows(n, m), 0, alpha);
    var f := (rows: seq<Signs>) => Seen(rows);
    forall rows | rows in test
      ensures f(rows) in first
    {
      RowsAreAll(n, m, rows);
      SeenRejects(d, rows, alpha);
      RowsAreAll(n, m, Seen(rows));
    }
    forall a, b | a in test && b in test && f(a) == f(b)
      ensures a == b
    {
      RowsAreAll(n, m, a);
      RowsAreAll(n, m, b);
      SeenIsInjective(a, b, n);
    }
    ImageFits(test, f, first);
  }

  lemma ShareWithin(part: nat, whole: nat, alpha: real)
    requires whole > 0
    ensures Share(part, whole) <= alpha <==> part as real <= alpha * whole as real
  {
    var x := part as real / whole as real;
    assert x * whole as real == part as real;
    if x <= alpha {
      assert (alpha - x) * whole as real >= 0.0;
    } else {
      assert (x - alpha) * whole as real > 0.0;
    }
  }

  lemma ShareOfLess(k: nat, less: nat, part: nat, all: nat, alpha: real)
    requires k > 0 && all > 0 && less <= part && Times(k, part as real) <= Times(all, alpha * k as real)
    ensures Share(less, all) <= alpha
  {
    Divided(k, part, all, alpha);
    ShareWithin(less, all, alpha);
  }

  lemma Divided(k: nat, part: nat, all: nat, alpha: real)
    requires k > 0 && Times(k, part as real) <= Times(all, alpha * k as real)
    ensures part as real <= alpha * all as real
  {
    TimesIsProduct(k, part as real);
    TimesIsProduct(all, alpha * k as real);
    assert all as real * (alpha * k as real) == k as real * (alpha * all as real);
    DivideMonotone(k as real * part as real, k as real * (alpha * all as real), k as real);
    assert k as real * part as real / k as real == part as real;
    assert k as real * (alpha * all as real) / k as real == alpha * all as real;
  }

  lemma RowBound(d: seq<real>, n: nat, m: nat, alpha: real, most: real, rows: seq<Signs>)
    requires n == |NonZero(d)| && m > 0 && Pow2(n) > m - 1 && alpha >= 0.0 && most == alpha * m as real
    requires rows in AllRows(n, m)
    ensures MarksOf(rows, Rejections(d, alpha), m) as real <= most
  {
    RowsAreAll(n, m, rows);
    RejectionsCount(d, rows, m, alpha);
    RandomTestHoldsItsLevel(d, rows, alpha);
    ShareWithin(MarksOf(rows, Rejections(d, alpha), m), m, alpha);
  }

  /** Over all choices of rows, the first row's rejections are within the level. */
  lemma FirstWithin(d: seq<real>, n: nat, m: nat, alpha: real, most: real)
    requires n == |NonZero(d)| && m > 0 && Pow2(n) > m - 1 && alpha >= 0.0 && most == alpha * m as real
    ensures Times(m, |Rejecting(d, AllRows(n, m), 0, alpha)| as real) <= Times(|AllRows(n, m)|, most)
  {
    var all, rejections := AllRows(n, m), Rejections(d, alpha);
    forall rows | rows in all
      ensures MarksOf(rows, rejections, m) as real <= most
    {
      RowBound(d, n, m, alpha, most, rows);
    }
    MarksBound(all, rejections, m, most);
    forall i: nat | i < m
      ensures |Marked(all, rejections, 0)| <= |Marked(all, rejections, i)|
    {
      FirstIsNoMore(d, n, m, i, alpha);
    }
    LeastTimesMarks(all, rejections, m, |Marked(all, rejections, 0)|);
  }

  /**
   * The random test holds its level over all that is random in it: of the equally likely choices of
   * the observed signs and of every row drawn, at most a share alpha give a p-value of alpha or less.
   */
  lemma RandomTestLevel(d: seq<real>, resamples: nat, alpha: real)
    requires !IsExact(d, resamples) && alpha >= 0.0
    ensures var all := AllRows(|NonZero(d)|, resamples + 1);
      |all| > 0 && Share(|TestRejecting(d, all, alpha)|, |all|) <= alpha
  {
    var n, m := |NonZero(d)|, resamples + 1;
    var all := AllRows(n, m);
    FirstWithin(d, n, m, alpha, alpha * m as real);
    TestIsFirst(d, n, m, alpha);
    SomeRows(n, m);
    ShareOfLess(m, |TestRejecting(d, all, alpha)|, |Rejecting(d, all, 0, alpha)|, |all|, alpha);
  }

  lemma SomeRows(n: nat, m: nat)
    ensures |AllRows(n, m)| > 0
  {
    var g: Signs := seq(n, _ => true);
    var rows := seq(m, _ => g);
    RowsAreAll(n, m, rows);
    assert rows in AllRows(n, m);
  }
}
