/**
 * Boolean-mask selection, `frame[frame[col] <op> value]`: the rows for which a
 * condition holds, kept in their original order. The conditions the dashboard
 * uses are listed in `Mask`.
 */
module Masks {
  import opened Table

  datatype Mask =
    | ScoreAtMost(bound: real)          // frame["Credit Score"] <= bound
    | ScoreAtLeast(bound: real)         // frame["Credit Score"] >= bound
    | HasId(id: int)                    // frame["SK_ID_CURR"] == id
    | MatchesCriterion(crit: Criterion) // the assumed cohort filter

  predicate Holds(m: Mask, c: Client)
  {
    match m
    case ScoreAtMost(b) => c.creditScore <= b
    case ScoreAtLeast(b) => c.creditScore >= b
    case HasId(id) => c.id == id
    case MatchesCriterion(crit) => Matches(c, crit)
  }

  /** `a` is `b` with some elements removed, the rest in the same order. */
  predicate IsSubsequence<T(==)>(a: seq<T>, b: seq<T>)
    decreases |b|
  {
    a == [] || (|b| > 0 && ((a[0] == b[0] && IsSubsequence(a[1..], b[1..])) || IsSubsequence(a, b[1..])))
  }

  /** `rows[mask]`. */
  function Where(rows: seq<Client>, m: Mask): (r: seq<Client>)
    ensures |r| <= |rows|
    ensures forall c :: c in r <==> c in rows && Holds(m, c)
  {
    if rows == [] then []
    else
      assert rows == [rows[0]] + rows[1..];
      (if Holds(m, rows[0]) then [rows[0]] else []) + Where(rows[1..], m)
  }

  /** The selection keeps every satisfying row as many times as the frame holds it. */
  lemma {:induction false} WhereMultiplicity(rows: seq<Client>, m: Mask)
    ensures forall c :: multiset(Where(rows, m))[c] == (if Holds(m, c) then multiset(rows)[c] else 0)
  {
    if rows != [] {
      assert rows == [rows[0]] + rows[1..];
      WhereMultiplicity(rows[1..], m);
    }
  }

  /** The selection drops rows and never reorders them. */
  lemma {:induction false} WhereIsSubsequence(rows: seq<Client>, m: Mask)
    ensures IsSubsequence(Where(rows, m), rows)
  {
    if rows != [] {
      WhereIsSubsequence(rows[1..], m);
      if Holds(m, rows[0]) {
        assert Where(rows, m) == [rows[0]] + Where(rows[1..], m);
        assert Where(rows, m)[1..] == Where(rows[1..], m);
      } else {
        assert Where(rows, m) == Where(rows[1..], m);
      }
    }
  }

  /** Selection distributes over concatenation: it acts on each row independently. */
  lemma {:induction false} WhereConcat(s: seq<Client>, t: seq<Client>, m: Mask)
    ensures Where(s + t, m) == Where(s, m) + Where(t, m)
  {
    if s == [] {
      assert s + t == t;
    } else {
      assert (s + t)[0] == s[0];
      assert (s + t)[1..] == s[1..] + t;
      WhereConcat(s[1..], t, m);
    }
  }

  /** A mask every row satisfies selects the whole frame. */
  lemma {:induction false} WhereAll(rows: seq<Client>, m: Mask)
    requires forall i :: 0 <= i < |rows| ==> Holds(m, rows[i])
    ensures Where(rows, m) == rows
  {
    if rows != [] {
      WhereAll(rows[1..], m);
      assert rows == [rows[0]] + rows[1..];
    }
  }

  /** Selecting twice with the same mask selects nothing more. */
  lemma WhereIdempotent(rows: seq<Client>, m: Mask)
    ensures Where(Where(rows, m), m) == Where(rows, m)
  {
    var r := Where(rows, m);
    forall i | 0 <= i < |r| ensures Holds(m, r[i]) {
      assert r[i] in r;
    }
    WhereAll(r, m);
  }

  /** A weaker mask selects a superset, still in the frame's order. */
  lemma {:induction false} WhereMonotone(rows: seq<Client>, p: Mask, q: Mask)
    requires forall c :: Holds(p, c) ==> Holds(q, c)
    ensures IsSubsequence(Where(rows, p), Where(rows, q))
  {
    if rows != [] {
      var x, rest := rows[0], rows[1..];
      WhereMonotone(rest, p, q);
      if Holds(p, x) {
        assert Where(rows, p) == [x] + Where(rest, p);
        assert Where(rows, q) == [x] + Where(rest, q);
        assert Where(rows, p)[1..] == Where(rest, p);
        assert Where(rows, q)[1..] == Where(rest, q);
      } else if Holds(q, x) {
        assert Where(rows, p) == Where(rest, p);
        assert Where(rows, q) == [x] + Where(rest, q);
        assert Where(rows, q)[1..] == Where(rest, q);
      } else {
        assert Where(rows, p) == Where(rest, p);
        assert Where(rows, q) == Where(rest, q);
      }
    }
  }

  /** The first selected row is the first row of the frame that satisfies the mask (`.iloc[0]`). */
  lemma {:induction false} WhereHead(rows: seq<Client>, m: Mask)
    requires Where(rows, m) != []
    ensures exists i :: 0 <= i < |rows| && rows[i] == Where(rows, m)[0] && Holds(m, rows[i]) &&
                        (forall j :: 0 <= j < i ==> !Holds(m, rows[j]))
  {
    if Holds(m, rows[0]) {
      assert Where(rows, m) == [rows[0]] + Where(rows[1..], m);
      assert rows[0] == Where(rows, m)[0];
    } else {
      assert Where(rows, m) == Where(rows[1..], m);
      WhereHead(rows[1..], m);
      var k :| 0 <= k < |rows[1..]| && rows[1..][k] == Where(rows[1..], m)[0] && Holds(m, rows[1..][k]) &&
               (forall j :: 0 <= j < k ==> !Holds(m, rows[1..][j]));
      assert rows[k + 1] == Where(rows, m)[0];
      assert forall j :: 0 <= j < k + 1 ==> !Holds(m, rows[j]) by {
        forall j | 0 <= j < k + 1 ensures !Holds(m, rows[j]) {
          if j > 0 { assert rows[j] == rows[1..][j - 1]; }
        }
      }
    }
  }
}
