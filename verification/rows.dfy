/** Boolean-mask selection over a sequence of rows, the one operation the
    dashboard applies whenever it indexes a table by a row mask: keep the rows the mask
    accepts, in their original order.
 */
module Rows {

  /** `a` is an order-preserving subsequence of `b`. */
  ghost predicate IsSubsequence<T>(a: seq<T>, b: seq<T>)
    decreases |b|
  {
    a == [] ||
    (b != [] && ((a[0] == b[0] && IsSubsequence(a[1..], b[1..])) || IsSubsequence(a, b[1..])))
  }

  /** The rows of `rows` that `keep` accepts, in order. */
  function Where<T(==,!new)>(rows: seq<T>, keep: T -> bool): (out: seq<T>)
    ensures forall x :: x in out <==> x in rows && keep(x)
    ensures |out| <= |rows|
  {
    if rows == [] then []
    else
      var rest := Where(rows[1..], keep);
      assert rows == [rows[0]] + rows[1..];
      if keep(rows[0]) then [rows[0]] + rest else rest
  }

  /** Every accepted row is selected as many times as it occurs; rejected rows never. */
  lemma {:induction false} WhereMultiset<T(!new)>(rows: seq<T>, keep: T -> bool)
    ensures forall x :: multiset(Where(rows, keep))[x] == if keep(x) then multiset(rows)[x] else 0
    decreases |rows|
  {
    if rows != [] {
      WhereMultiset(rows[1..], keep);
      assert rows == [rows[0]] + rows[1..];
    }
  }

  /** The selected rows keep their relative order. */
  lemma {:induction false} WhereIsSubsequence<T(!new)>(rows: seq<T>, keep: T -> bool)
    ensures IsSubsequence(Where(rows, keep), rows)
    decreases |rows|
  {
    if rows != [] {
      WhereIsSubsequence(rows[1..], keep);
      var rest := Where(rows[1..], keep);
      if !keep(rows[0]) && rest != [] {
        assert rest[0] in rest;
      }
    }
  }

  /** Applying the same mask twice selects nothing new. */
  lemma {:induction false} WhereIdempotent<T(!new)>(rows: seq<T>, keep: T -> bool)
    ensures Where(Where(rows, keep), keep) == Where(rows, keep)
    decreases |rows|
  {
    if rows != [] {
      WhereIdempotent(rows[1..], keep);
    }
  }

  /** Selection distributes over concatenation. */
  lemma {:induction false} WhereAppend<T(!new)>(a: seq<T>, b: seq<T>, keep: T -> bool)
    ensures Where(a + b, keep) == Where(a, keep) + Where(b, keep)
    decreases |a|
  {
    if a == [] {
      assert a + b == b;
    } else {
      assert (a + b)[1..] == a[1..] + b;
      WhereAppend(a[1..], b, keep);
    }
  }

  /** A mask that is the conjunction of two masks selects what the two
      masks applied one after the other select. */
  lemma {:induction false} WhereConjunction<T(!new)>(rows: seq<T>, first: T -> bool,
                                            second: T -> bool, both: T -> bool)
    requires forall x :: both(x) == (first(x) && second(x))
    ensures Where(rows, both) == Where(Where(rows, first), second)
    decreases |rows|
  {
    if rows != [] {
      WhereConjunction(rows[1..], first, second, both);
    }
  }

  /** Two masks that agree on every row of `rows` select the same rows. */
  lemma {:induction false} WhereAgree<T(!new)>(rows: seq<T>, p: T -> bool, q: T -> bool)
    requires forall x :: x in rows ==> p(x) == q(x)
    ensures Where(rows, p) == Where(rows, q)
    decreases |rows|
  {
    if rows != [] {
      assert rows[0] in rows;
      WhereAgree(rows[1..], p, q);
    }
  }

  /** A weaker mask never selects fewer rows. */
  lemma {:induction false} WhereMonotone<T(!new)>(rows: seq<T>, p: T -> bool, q: T -> bool)
    requires forall x :: p(x) ==> q(x)
    ensures |Where(rows, p)| <= |Where(rows, q)|
    decreases |rows|
  {
    if rows != [] {
      WhereMonotone(rows[1..], p, q);
    }
  }

  /** A mask that accepts every row selects all of them; one that accepts none selects nothing. */
  lemma {:induction false} WhereAllOrNone<T(!new)>(rows: seq<T>, keep: T -> bool)
    ensures (forall x :: x in rows ==> keep(x)) ==> Where(rows, keep) == rows
    ensures (forall x :: x in rows ==> !keep(x)) ==> Where(rows, keep) == []
    decreases |rows|
  {
    if rows != [] {
      assert rows[0] in rows;
      WhereAllOrNone(rows[1..], keep);
      assert rows == [rows[0]] + rows[1..];
    }
  }

  /** Subsequence is transitive. */
  lemma {:induction false} SubsequenceTransitive<T>(a: seq<T>, b: seq<T>, c: seq<T>)
    requires IsSubsequence(a, b) && IsSubsequence(b, c)
    ensures IsSubsequence(a, c)
    decreases |c|
  {
    if a != [] {
      if a[0] == b[0] && IsSubsequence(a[1..], b[1..]) {
        if b[0] == c[0] && IsSubsequence(b[1..], c[1..]) {
          SubsequenceTransitive(a[1..], b[1..], c[1..]);
        } else {
          SubsequenceTransitive(a, b, c[1..]);
        }
      } else {
        if b[0] == c[0] && IsSubsequence(b[1..], c[1..]) {
          SubsequenceTransitive(a, b[1..], c[1..]);
        } else {
          SubsequenceTransitive(a, b, c[1..]);
        }
      }
    }
  }
}
