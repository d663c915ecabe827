/** The half-open measurement window and the row filter that both log
    readers apply: a row is kept when `start <= t < end`. Timestamps are
    seconds since the epoch. */
module Windowing {

  /** The interval [start, end). */
  datatype Window = Window(start: real, end: real)

  predicate InWindow(w: Window, t: real)
  {
    w.start <= t < w.end
  }

  /** The rows of `rows` whose timestamp lies in `w`, in their original
      order (pandas boolean indexing `df[(ts >= start) & (ts < end)]`). */
  function Filter<T>(rows: seq<T>, stamp: T -> real, w: Window): seq<T>
  {
    if rows == [] then []
    else (if InWindow(w, stamp(rows[0])) then [rows[0]] else []) + Filter(rows[1..], stamp, w)
  }

  /** `sub` is obtained from `s` by deleting elements, keeping the order. */
  ghost predicate IsSubsequence<T>(sub: seq<T>, s: seq<T>)
    decreases |s|
  {
    sub == [] ||
    (s != [] && ((sub[0] == s[0] && IsSubsequence(sub[1..], s[1..])) || IsSubsequence(sub, s[1..])))
  }

  /** Every kept row lies in the window, and the kept rows are an
      order-preserving subsequence of the input. */
  lemma {:induction false} FilterIsSubsequence<T>(rows: seq<T>, stamp: T -> real, w: Window)
    ensures IsSubsequence(Filter(rows, stamp, w), rows)
    ensures forall i :: 0 <= i < |Filter(rows, stamp, w)| ==> InWindow(w, stamp(Filter(rows, stamp, w)[i]))
  {
    if rows != [] {
      FilterIsSubsequence(rows[1..], stamp, w);
      var kept := Filter(rows, stamp, w);
      if InWindow(w, stamp(rows[0])) {
        assert kept[0] == rows[0] && kept[1..] == Filter(rows[1..], stamp, w);
      } else {
        assert kept == Filter(rows[1..], stamp, w);
      }
    }
  }

  /** The filter keeps exactly the rows in the window: each row value occurs
      as often in the output as in the input when its timestamp is in the
      window, and not at all otherwise. */
  lemma {:induction false} FilterCount<T>(rows: seq<T>, stamp: T -> real, w: Window, x: T)
    ensures multiset(Filter(rows, stamp, w))[x] == if InWindow(w, stamp(x)) then multiset(rows)[x] else 0
  {
    if rows != [] {
      FilterCount(rows[1..], stamp, w, x);
      assert rows == [rows[0]] + rows[1..];
      assert multiset(rows) == multiset([rows[0]]) + multiset(rows[1..]);
    }
  }

  lemma FilterMembership<T>(rows: seq<T>, stamp: T -> real, w: Window, x: T)
    ensures x in Filter(rows, stamp, w) <==> x in rows && InWindow(w, stamp(x))
  {
    FilterCount(rows, stamp, w, x);
    assert x in Filter(rows, stamp, w) <==> multiset(Filter(rows, stamp, w))[x] > 0;
    assert x in rows <==> multiset(rows)[x] > 0;
  }

  /** The filter yields nothing exactly when no row is stamped inside the
      window. */
  lemma {:induction false} FilterEmpty<T>(rows: seq<T>, stamp: T -> real, w: Window)
    ensures Filter(rows, stamp, w) == [] <==> forall i :: 0 <= i < |rows| ==> !InWindow(w, stamp(rows[i]))
  {
    if rows != [] {
      FilterEmpty(rows[1..], stamp, w);
      assert forall i :: 1 <= i < |rows| ==> rows[i] == rows[1..][i - 1];
    }
  }

  /** A row stamped exactly at the window start is kept; a row stamped
      exactly at the window end is dropped. */
  lemma Boundaries<T>(rows: seq<T>, stamp: T -> real, w: Window, x: T)
    requires x in rows
    ensures stamp(x) == w.start && w.start < w.end ==> x in Filter(rows, stamp, w)
    ensures stamp(x) == w.end ==> x !in Filter(rows, stamp, w)
  {
    FilterMembership(rows, stamp, w, x);
  }

  lemma {:induction false} FilterAppend<T>(xs: seq<T>, ys: seq<T>, stamp: T -> real, w: Window)
    ensures Filter(xs + ys, stamp, w) == Filter(xs, stamp, w) + Filter(ys, stamp, w)
  {
    if xs == [] {
      assert xs + ys == ys;
    } else {
      assert (xs + ys)[1..] == xs[1..] + ys;
      FilterAppend(xs[1..], ys, stamp, w);
    }
  }

  /** Filtering an already filtered log changes nothing. */
  lemma {:induction false} FilterIdempotent<T>(rows: seq<T>, stamp: T -> real, w: Window)
    ensures Filter(Filter(rows, stamp, w), stamp, w) == Filter(rows, stamp, w)
  {
    if rows != [] {
      var head := if InWindow(w, stamp(rows[0])) then [rows[0]] else [];
      FilterAppend(head, Filter(rows[1..], stamp, w), stamp, w);
      FilterIdempotent(rows[1..], stamp, w);
      if InWindow(w, stamp(rows[0])) {
        assert Filter(head, stamp, w) == [rows[0]] + Filter([], stamp, w);
      }
    }
  }
}
