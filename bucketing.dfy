/**
 * The "best" and "worst" comparison groups (dashboard lines 246 to 258 for the
 * similar clients, 404 to 416 for all clients). The "Credit Score" column is a
 * default probability in percent, so "best" is the low end of the column.
 */
module Bucketing {
  import opened Wrappers
  import opened Table
  import opened Masks

  /** Offset from the extreme value that decides who is in a group. */
  const Margin: int := 25

  /** Python's `int()` on a float: truncation toward zero. */
  function Trunc(x: real): (n: int)
    ensures 0.0 <= x ==> n as real <= x < n as real + 1.0
    ensures x < 0.0 ==> n as real - 1.0 < x <= n as real
  {
    if 0.0 <= x then x.Floor else -((-x).Floor)
  }

  /** `frame["Credit Score"].min()` of a non-empty frame. */
  function MinScore(rows: seq<Client>): (m: real)
    requires |rows| > 0
    ensures forall i :: 0 <= i < |rows| ==> m <= rows[i].creditScore
    ensures exists i :: 0 <= i < |rows| && rows[i].creditScore == m
  {
    if |rows| == 1 then rows[0].creditScore
    else
      var rest := MinScore(rows[1..]);
      if rows[0].creditScore <= rest then rows[0].creditScore else rest
  }

  /** `frame["Credit Score"].max()` of a non-empty frame. */
  function MaxScore(rows: seq<Client>): (m: real)
    requires |rows| > 0
    ensures forall i :: 0 <= i < |rows| ==> rows[i].creditScore <= m
    ensures exists i :: 0 <= i < |rows| && rows[i].creditScore == m
  {
    if |rows| == 1 then rows[0].creditScore
    else
      var rest := MaxScore(rows[1..]);
      if rest <= rows[0].creditScore then rows[0].creditScore else rest
  }

  /** The two places the groups are built: the similar-clients view and the all-clients view. */
  datatype View = Similar | Global

  /**
   * The bound of the "best" group: `int(min) + 25`, plus one more in the
   * similar-clients view (`<= best_threshold + 1`) and not in the global view.
   */
  function BestBound(rows: seq<Client>, view: View): int
    requires |rows| > 0
  {
    Trunc(MinScore(rows)) + Margin + (if view == Similar then 1 else 0)
  }

  /** The bound of the "worst" group: `int(max) - 25`, the same in both views. */
  function WorstBound(rows: seq<Client>): int
    requires |rows| > 0
  {
    Trunc(MaxScore(rows)) - Margin
  }

  datatype Groups = Groups(best: seq<Client>, worst: seq<Client>)

  /** `int()` of the minimum of an empty column fails: there is no group to build. */
  datatype GroupError = EmptyCohort

  /** `best_data` and `worst_data` (or their `_global_` counterparts) of a cohort. */
  function Bucket(cohort: seq<Client>, view: View): (r: Result<Groups, GroupError>)
    ensures r.Failure? <==> cohort == []
    ensures r.Success? && view == Similar ==> forall c :: c in r.value.best <==>
      c in cohort && c.creditScore <= (Trunc(MinScore(cohort)) + 26) as real
    ensures r.Success? && view == Global ==> forall c :: c in r.value.best <==>
      c in cohort && c.creditScore <= (Trunc(MinScore(cohort)) + 25) as real
    ensures r.Success? ==> forall c :: c in r.value.worst <==>
      c in cohort && c.creditScore >= (Trunc(MaxScore(cohort)) - 25) as real
    ensures r.Success? && view == Similar ==> forall c ::
      multiset(r.value.best)[c] == (if c.creditScore <= (Trunc(MinScore(cohort)) + 26) as real then multiset(cohort)[c] else 0)
    ensures r.Success? && view == Global ==> forall c ::
      multiset(r.value.best)[c] == (if c.creditScore <= (Trunc(MinScore(cohort)) + 25) as real then multiset(cohort)[c] else 0)
    ensures r.Success? ==> forall c ::
      multiset(r.value.worst)[c] == (if c.creditScore >= (Trunc(MaxScore(cohort)) - 25) as real then multiset(cohort)[c] else 0)
    ensures r.Success? ==> IsSubsequence(r.value.best, cohort) && IsSubsequence(r.value.worst, cohort)
  {
    if cohort == [] then Failure(EmptyCohort)
    else
      var best := ScoreAtMost(BestBound(cohort, view) as real);
      var worst := ScoreAtLeast(WorstBound(cohort) as real);
      WhereIsSubsequence(cohort, best);
      WhereIsSubsequence(cohort, worst);
      WhereMultiplicity(cohort, best);
      WhereMultiplicity(cohort, worst);
      Success(Groups(Where(cohort, best), Where(cohort, worst)))
  }

  /** A row holding the minimum score is in "best", in both views. */
  lemma MinimumIsBest(cohort: seq<Client>, view: View, c: Client)
    requires c in cohort && c.creditScore == MinScore(cohort)
    ensures c in Bucket(cohort, view).value.best
  {
  }

  /** A row holding the maximum score is in "worst", in both views. */
  lemma MaximumIsWorst(cohort: seq<Client>, view: View, c: Client)
    requires c in cohort && c.creditScore == MaxScore(cohort)
    ensures c in Bucket(cohort, view).value.worst
  {
  }

  /** A one-row cohort is its own best and its own worst group. */
  lemma SingletonGroups(c: Client, view: View)
    ensures Bucket([c], view) == Success(Groups([c], [c]))
  {
    assert Where([c], ScoreAtMost(BestBound([c], view) as real)) == [c];
    assert Where([c], ScoreAtLeast(WorstBound([c]) as real)) == [c];
  }

  /** "best" is closed downward: a cohort row scoring no higher than a best row is also best. */
  lemma BestIsDownwardClosed(cohort: seq<Client>, view: View)
    requires cohort != []
    ensures var best := Bucket(cohort, view).value.best;
      forall b, c :: b in best && c in cohort && c.creditScore <= b.creditScore ==> c in best
  {
  }

  /** "worst" is closed upward. */
  lemma WorstIsUpwardClosed(cohort: seq<Client>, view: View)
    requires cohort != []
    ensures var worst := Bucket(cohort, view).value.worst;
      forall w, c :: w in worst && c in cohort && w.creditScore <= c.creditScore ==> c in worst
  {
  }

  /**
   * For non-negative scores (percentages), every best row is within 26 points of
   * the minimum in the similar view and 25 in the global one, and every worst row
   * is less than 26 points below the maximum.
   */
  lemma GroupsNearExtremes(cohort: seq<Client>, view: View, c: Client)
    requires cohort != [] && MinScore(cohort) >= 0.0
    ensures c in Bucket(cohort, view).value.best ==>
      c.creditScore <= MinScore(cohort) + (if view == Similar then 26.0 else 25.0)
    ensures c in Bucket(cohort, view).value.worst ==> c.creditScore > MaxScore(cohort) - 26.0
  {
  }

  /** The global rule's "best" group is the similar rule's, minus rows at the extra point. */
  lemma {:induction false} GlobalBestWithinSimilarBest(cohort: seq<Client>)
    requires cohort != []
    ensures IsSubsequence(Bucket(cohort, Global).value.best, Bucket(cohort, Similar).value.best)
    ensures Bucket(cohort, Global).value.worst == Bucket(cohort, Similar).value.worst
  {
    WhereMonotone(cohort, ScoreAtMost(BestBound(cohort, Global) as real), ScoreAtMost(BestBound(cohort, Similar) as real));
  }

  /** The two rules differ: a row 26 points above a minimum of 0.5 is best only in the similar view. */
  lemma PlusOneAsymmetry(a: Client, b: Client)
    requires a.creditScore == 0.5 && b.creditScore == 26.0
    ensures b in Bucket([a, b], Similar).value.best
    ensures b !in Bucket([a, b], Global).value.best
  {
    assert MinScore([a, b]) == 0.5 by {
      assert [a, b][1..] == [b];
    }
  }

  /**
   * A frame the dashboard builds: its rows and the columns it adds afterwards
   * ("AGE" and "YEARS AT CURRENT JOB").
   */
  class Frame {
    var rows: seq<Client>
    var derived: map<string, seq<Value>>

    constructor (rows: seq<Client>)
      ensures this.rows == rows && derived == map[]
    {
      this.rows := rows;
      derived := map[];
    }

    /** `frame["AGE"] = frame["DAYS_BIRTH"]/365*(-1)` and the same for DAYS_EMPLOYED. */
    method AddYearsColumns()
      modifies this
      ensures rows == old(rows)
      ensures derived == old(derived)["AGE" := AgeColumn(rows)]["YEARS AT CURRENT JOB" := TenureColumn(rows)]
    {
      derived := derived["AGE" := AgeColumn(rows)];
      derived := derived["YEARS AT CURRENT JOB" := TenureColumn(rows)];
    }
  }

  /** A day count (negative, counted back from the application) as years. */
  function DaysToYears(v: Value): (y: Value)
    ensures y.Num? <==> v.Num?
    ensures !v.Num? ==> y == Null
    ensures y.Num? ==> y.x * -365.0 == v.x
    ensures v.Num? && v.x <= 0.0 ==> y.x >= 0.0
  {
    match v
    case Num(d) => Num(d / 365.0 * -1.0)
    case _ => Null
  }

  /** One age per row: missing where DAYS_BIRTH is, else the day count over -365. */
  function AgeColumn(rows: seq<Client>): (col: seq<Value>)
    ensures |col| == |rows|
    ensures forall i :: 0 <= i < |rows| ==> (col[i].Num? <==> rows[i].daysBirth.Num?)
    ensures forall i :: 0 <= i < |rows| && !rows[i].daysBirth.Num? ==> col[i] == Null
    ensures forall i :: 0 <= i < |rows| && col[i].Num? ==> col[i].x * -365.0 == rows[i].daysBirth.x
    ensures forall i :: 0 <= i < |rows| && rows[i].daysBirth.Num? && rows[i].daysBirth.x <= 0.0 ==> col[i].x >= 0.0
  {
    seq(|rows|, i requires 0 <= i < |rows| => DaysToYears(rows[i].daysBirth))
  }

  /** One tenure per row: missing where DAYS_EMPLOYED is, else the day count over -365. */
  function TenureColumn(rows: seq<Client>): (col: seq<Value>)
    ensures |col| == |rows|
    ensures forall i :: 0 <= i < |rows| ==> (col[i].Num? <==> rows[i].daysEmployed.Num?)
    ensures forall i :: 0 <= i < |rows| && !rows[i].daysEmployed.Num? ==> col[i] == Null
    ensures forall i :: 0 <= i < |rows| && col[i].Num? ==> col[i].x * -365.0 == rows[i].daysEmployed.x
    ensures forall i :: 0 <= i < |rows| && rows[i].daysEmployed.Num? && rows[i].daysEmployed.x <= 0.0 ==> col[i].x >= 0.0
  {
    seq(|rows|, i requires 0 <= i < |rows| => DaysToYears(rows[i].daysEmployed))
  }

  datatype GroupFrames = GroupFrames(best: Frame, worst: Frame)

  /**
   * Builds the two group frames of `cohort` as the dashboard does: select,
   * `.copy()`, then add the year columns to the copies. The cohort's own frame
   * is left as it was.
   */
  method GroupFramesOf(cohort: Frame, view: View) returns (r: Result<GroupFrames, GroupError>)
    ensures r.Failure? <==> cohort.rows == []
    ensures r.Success? ==>
      && fresh(r.value.best) && fresh(r.value.worst) && r.value.best != r.value.worst
      && r.value.best.rows == Bucket(cohort.rows, view).value.best
      && r.value.worst.rows == Bucket(cohort.rows, view).value.worst
      && r.value.best.derived == map["AGE" := AgeColumn(r.value.best.rows), "YEARS AT CURRENT JOB" := TenureColumn(r.value.best.rows)]
      && r.value.worst.derived == map["AGE" := AgeColumn(r.value.worst.rows), "YEARS AT CURRENT JOB" := TenureColumn(r.value.worst.rows)]
    ensures cohort.rows == old(cohort.rows) && cohort.derived == old(cohort.derived)
  {
    var groups := Bucket(cohort.rows, view);
    if groups.Failure? {
      return Failure(groups.error);
    }
    var best := new Frame(groups.value.best);
    best.AddYearsColumns();
    var worst := new Frame(groups.value.worst);
    worst.AddYearsColumns();
    r := Success(GroupFrames(best, worst));
  }
}
