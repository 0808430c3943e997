/**
 * `convert_types` from the backend's data loading: a per-column decision table
 * that narrows the dtype of every column of a frame, in place. Only the choice
 * of the target dtype and the `fillna(0)` on id columns are modelled; the
 * numeric effect of the casts is not.
 */
module ConvertTypes {
  import opened Table

  datatype DType = Object | Float64 | Float32 | Int64 | Int32 | Bool | Category | OtherType(name: string)

  datatype Column = Column(name: string, dtype: DType, values: seq<Value>)

  /** Python's `sub in s` on strings. */
  predicate Contains(s: string, sub: string)
    decreases |s|
  {
    |sub| <= |s| && (s[..|sub|] == sub || Contains(s[1..], sub))
  }

  /** An occurrence at any position makes `sub in s` true. */
  lemma {:induction false} ContainsAt(s: string, sub: string, i: nat)
    requires i + |sub| <= |s| && s[i..i + |sub|] == sub
    ensures Contains(s, sub)
  {
    if i > 0 {
      assert s[1..][i - 1..i - 1 + |sub|] == s[i..i + |sub|];
      ContainsAt(s[1..], sub, i - 1);
    }
  }

  /** `sub in s` is true only at an actual occurrence. */
  lemma {:induction false} ContainsWitness(s: string, sub: string) returns (i: nat)
    requires Contains(s, sub)
    ensures i + |sub| <= |s| && s[i..i + |sub|] == sub
  {
    if s[..|sub|] == sub {
      i := 0;
    } else {
      var k := ContainsWitness(s[1..], sub);
      assert s[1..][k..k + |sub|] == s[k + 1..k + 1 + |sub|];
      i := k + 1;
    }
  }

  /**
   * `series.unique()`: the distinct values, missing included. pandas lists them
   * in order of first appearance; the contract pins down only the first one.
   */
  function Unique(vs: seq<Value>): (u: seq<Value>)
    ensures |u| <= |vs|
    ensures forall v :: v in u <==> v in vs
    ensures forall i, j :: 0 <= i < j < |u| ==> u[i] != u[j]
    ensures |vs| > 0 ==> |u| > 0 && u[0] == vs[0]
  {
    if vs == [] then []
    else
      var init, last := vs[..|vs| - 1], vs[|vs| - 1];
      assert vs == init + [last];
      var u := Unique(init);
      if last in u then u else u + [last]
  }

  /** A sequence without repeats has as many elements as the set of its elements. */
  lemma {:induction false} DistinctCardinality(u: seq<Value>)
    requires forall i, j :: 0 <= i < j < |u| ==> u[i] != u[j]
    ensures |set v | v in u| == |u|
  {
    if u != [] {
      var init, last := u[..|u| - 1], u[|u| - 1];
      assert u == init + [last];
      DistinctCardinality(init);
      forall k | 0 <= k < |init| ensures init[k] != last {
        assert init[k] == u[k];
      }
      assert (set v | v in u) == (set v | v in init) + {last};
    }
  }

  /** `series.nunique()`: the number of distinct values, missing ones not counted. */
  function NUnique(vs: seq<Value>): (n: nat)
    ensures n <= |vs|
    ensures Null in vs ==> n == |Unique(vs)| - 1
    ensures Null !in vs ==> n == |Unique(vs)|
  {
    var u := Unique(vs);
    if Null in vs then
      assert Null in u;
      |u| - 1
    else
      |u|
  }

  /** `nunique()` is the size of the set of non-missing values of the column. */
  lemma NUniqueCounts(vs: seq<Value>)
    ensures NUnique(vs) == |(set v | v in vs) - {Null}|
  {
    var u := Unique(vs);
    DistinctCardinality(u);
    assert (set v | v in u) == (set v | v in vs);
    var all := set v | v in vs;
    if Null in vs {
      assert all == (all - {Null}) + {Null};
    } else {
      assert all - {Null} == all;
    }
  }

  /**
   * `nunique()` falls below the row count exactly when the column has a missing
   * value or repeats a value.
   */
  lemma NUniqueBelowLength(vs: seq<Value>)
    ensures NUnique(vs) < |vs| <==>
      Null in vs || exists i, j :: 0 <= i < j < |vs| && vs[i] == vs[j]
  {
    if Null !in vs && forall i, j :: 0 <= i < j < |vs| ==> vs[i] != vs[j] {
      NUniqueOfDistinct(vs);
    } else if Null !in vs {
      UniqueShorterOnRepeat(vs);
    }
  }

  /** A repeated value makes `unique()` shorter than the column. */
  lemma {:induction false} UniqueShorterOnRepeat(vs: seq<Value>)
    requires exists i, j :: 0 <= i < j < |vs| && vs[i] == vs[j]
    ensures |Unique(vs)| < |vs|
  {
    var i, j :| 0 <= i < j < |vs| && vs[i] == vs[j];
    var init, last := vs[..|vs| - 1], vs[|vs| - 1];
    assert vs == init + [last];
    var u := Unique(init);
    assert Unique(vs) == if last in u then u else u + [last];
    if j < |vs| - 1 {
      assert init[i] == init[j];
      UniqueShorterOnRepeat(init);
    } else {
      assert init[i] == last;
      assert last in u;
    }
  }

  /** A column of distinct values is its own `unique()`. */
  lemma {:induction false} UniqueOfDistinct(vs: seq<Value>)
    requires forall i, j :: 0 <= i < j < |vs| ==> vs[i] != vs[j]
    ensures Unique(vs) == vs
  {
    if vs != [] {
      var init, last := vs[..|vs| - 1], vs[|vs| - 1];
      assert vs == init + [last];
      UniqueOfDistinct(init);
      forall k | 0 <= k < |init| ensures init[k] != last {
        assert init[k] == vs[k];
      }
    }
  }

  /** A column of distinct, non-missing values has as many unique values as rows. */
  lemma NUniqueOfDistinct(vs: seq<Value>)
    requires forall i, j :: 0 <= i < j < |vs| ==> vs[i] != vs[j]
    requires Null !in vs
    ensures NUnique(vs) == |vs|
  {
    UniqueOfDistinct(vs);
  }

  /** `list(series.unique()) == [1, 0]` */
  predicate IsOneZero(vs: seq<Value>)
  {
    Unique(vs) == [Num(1.0), Num(0.0)]
  }

  /**
   * The unique values are exactly `[1, 0]` when the column starts with 1, has a 0
   * somewhere, and holds nothing but 1 and 0.
   */
  lemma OneZeroCharacterised(vs: seq<Value>)
    ensures IsOneZero(vs) <==>
      |vs| > 0 && vs[0] == Num(1.0) && Num(0.0) in vs &&
      forall i :: 0 <= i < |vs| ==> vs[i] == Num(1.0) || vs[i] == Num(0.0)
  {
    var u := Unique(vs);
    if IsOneZero(vs) {
      forall i | 0 <= i < |vs| ensures vs[i] == Num(1.0) || vs[i] == Num(0.0) {
        assert vs[i] in u;
      }
      assert Num(0.0) in u;
    }
    if |vs| > 0 && vs[0] == Num(1.0) &&
       forall i :: 0 <= i < |vs| ==> vs[i] == Num(1.0) || vs[i] == Num(0.0)
    {
      UniqueOfOnesAndZeros(vs);
    }
  }

  /** `unique()` of a non-empty column of 1s only. */
  lemma {:induction false} UniqueOfOnes(vs: seq<Value>)
    requires |vs| > 0 && forall i :: 0 <= i < |vs| ==> vs[i] == Num(1.0)
    ensures Unique(vs) == [Num(1.0)]
  {
    if |vs| > 1 {
      var init, last := vs[..|vs| - 1], vs[|vs| - 1];
      assert vs == init + [last];
      forall i | 0 <= i < |init| ensures init[i] == Num(1.0) {
        assert init[i] == vs[i];
      }
      UniqueOfOnes(init);
      assert last in Unique(init);
    }
  }

  /** `unique()` of a column that starts with 1 and holds only 1 and 0. */
  lemma {:induction false} UniqueOfOnesAndZeros(vs: seq<Value>)
    requires |vs| > 0 && vs[0] == Num(1.0)
    requires forall i :: 0 <= i < |vs| ==> vs[i] == Num(1.0) || vs[i] == Num(0.0)
    ensures Unique(vs) == if Num(0.0) in vs then [Num(1.0), Num(0.0)] else [Num(1.0)]
    decreases |vs|, 1
  {
    if Num(0.0) !in vs {
      UniqueOfOnes(vs);
    } else {
      var init, last := vs[..|vs| - 1], vs[|vs| - 1];
      assert vs == init + [last];
      UniqueOfOnesAndZerosSnoc(init, last);
    }
  }

  /** The step of `UniqueOfOnesAndZeros`: a 0 or a 1 appended to a 1-first 0/1 prefix. */
  lemma {:induction false} UniqueOfOnesAndZerosSnoc(init: seq<Value>, last: Value)
    requires |init| > 0 && init[0] == Num(1.0)
    requires forall i :: 0 <= i < |init| ==> init[i] == Num(1.0) || init[i] == Num(0.0)
    requires last == Num(1.0) || last == Num(0.0)
    requires Num(0.0) in init + [last]
    ensures Unique(init + [last]) == [Num(1.0), Num(0.0)]
    decreases |init| + 1, 0
  {
    UniqueOfOnesAndZeros(init);
    if Num(0.0) in init {
      UniqueSnocSeen(init, last, [Num(1.0), Num(0.0)]);
    } else {
      assert last == Num(0.0);
      UniqueSnocNew(init, last, [Num(1.0)]);
    }
  }

  /** Appending a value `unique()` already lists leaves `unique()` as it was. */
  lemma UniqueSnocSeen(init: seq<Value>, last: Value, u: seq<Value>)
    requires Unique(init) == u && last in u
    ensures Unique(init + [last]) == u
  {
    assert (init + [last])[..|init|] == init;
  }

  /** Appending a value `unique()` does not list adds it at the end. */
  lemma UniqueSnocNew(init: seq<Value>, last: Value, u: seq<Value>)
    requires Unique(init) == u && last !in u
    ensures Unique(init + [last]) == u + [last]
  {
    assert (init + [last])[..|init|] == init;
  }

  /** A 0/1 column whose first value is 0 is not mapped to bool. */
  lemma ZeroFirstIsNotOneZero(vs: seq<Value>)
    requires |vs| > 0 && vs[0] == Num(0.0)
    ensures !IsOneZero(vs)
  {
    OneZeroCharacterised(vs);
  }

  /** A constant column is not mapped to bool. */
  lemma ConstantIsNotOneZero(vs: seq<Value>)
    requires forall i :: 0 <= i < |vs| ==> vs[i] == vs[0]
    ensures !IsOneZero(vs)
  {
    OneZeroCharacterised(vs);
    if |vs| > 0 && vs[0] == Num(1.0) {
      assert forall k :: 0 <= k < |vs| ==> vs[k] != Num(0.0);
    }
  }

  /** `series.fillna(0)`. */
  function FillNullWithZero(vs: seq<Value>): (r: seq<Value>)
    ensures |r| == |vs| && Null !in r
    ensures forall i :: 0 <= i < |vs| ==> r[i] == (if vs[i] == Null then Num(0.0) else vs[i])
  {
    seq(|vs|, i requires 0 <= i < |vs| => if vs[i] == Null then Num(0.0) else vs[i])
  }

  /** The id rule: the column's name contains "SK_ID". */
  predicate IsIdColumn(c: Column)
  {
    Contains(c.name, "SK_ID")
  }

  /**
   * One step of the loop: the first of the five rules that applies decides the
   * new column. `nrows` is `df.shape[0]`.
   */
  function ConvertColumn(c: Column, nrows: nat): (r: Column)
    ensures r.name == c.name && |r.values| == |c.values|
    ensures r.values == c.values || (IsIdColumn(c) && r.values == FillNullWithZero(c.values))
  {
    if IsIdColumn(c) then Column(c.name, Int32, FillNullWithZero(c.values))
    else if c.dtype == Object && NUnique(c.values) < nrows then c.(dtype := Category)
    else if IsOneZero(c.values) then c.(dtype := Bool)
    else if c.dtype == Float64 then c.(dtype := Float32)
    else if c.dtype == Int64 then c.(dtype := Int32)
    else c
  }

  /** The id rule comes first, so it wins whatever the dtype and the values. */
  lemma IdColumnWins(c: Column, nrows: nat)
    requires IsIdColumn(c)
    ensures ConvertColumn(c, nrows).dtype == Int32
    ensures Null !in ConvertColumn(c, nrows).values
    ensures forall i :: 0 <= i < |c.values| && c.values[i] != Null ==> ConvertColumn(c, nrows).values[i] == c.values[i]
  {
  }

  /** Every column whose name has "SK_ID" anywhere in it is an id column. */
  lemma IdMarkerAnywhere(prefix: string, suffix: string)
    ensures IsIdColumn(Column(prefix + "SK_ID" + suffix, Object, []))
  {
    var s := prefix + "SK_ID" + suffix;
    assert s[|prefix|..|prefix| + 5] == "SK_ID";
    ContainsAt(s, "SK_ID", |prefix|);
  }

  /** An object column becomes category exactly when its count of distinct non-missing values is below the row count. */
  lemma ObjectToCategoryIff(c: Column, nrows: nat)
    requires !IsIdColumn(c) && c.dtype == Object
    ensures ConvertColumn(c, nrows).dtype == Category <==> NUnique(c.values) < nrows
  {
  }

  /** An object column of all-distinct values keeps its dtype unless those values are exactly `[1, 0]`. */
  lemma DistinctObjectStays(c: Column)
    requires !IsIdColumn(c) && c.dtype == Object && !IsOneZero(c.values)
    requires forall i, j :: 0 <= i < j < |c.values| ==> c.values[i] != c.values[j]
    requires Null !in c.values
    ensures ConvertColumn(c, |c.values|) == c
  {
    NUniqueOfDistinct(c.values);
  }

  /**
   * Outside the id and category rules, a column that is not already bool becomes
   * bool exactly when it starts with 1, contains a 0 and holds only 1 and 0.
   */
  lemma BoolIff(c: Column, nrows: nat)
    requires !IsIdColumn(c) && !(c.dtype == Object && NUnique(c.values) < nrows) && c.dtype != Bool
    ensures ConvertColumn(c, nrows).dtype == Bool <==>
      |c.values| > 0 && c.values[0] == Num(1.0) && Num(0.0) in c.values &&
      forall i :: 0 <= i < |c.values| ==> c.values[i] == Num(1.0) || c.values[i] == Num(0.0)
  {
    OneZeroCharacterised(c.values);
  }

  /** A float 0/1 column that starts with 0 is narrowed to float32, not bool. */
  lemma ZeroFirstFloatStaysNumeric(c: Column, nrows: nat)
    requires !IsIdColumn(c) && c.dtype == Float64 && |c.values| > 0 && c.values[0] == Num(0.0)
    ensures ConvertColumn(c, nrows).dtype == Float32
  {
    ZeroFirstIsNotOneZero(c.values);
  }

  /** A constant int column is narrowed to int32, not bool, whatever its value. */
  lemma ConstantIntStaysNumeric(c: Column, nrows: nat)
    requires !IsIdColumn(c) && c.dtype == Int64
    requires forall i :: 0 <= i < |c.values| ==> c.values[i] == c.values[0]
    ensures ConvertColumn(c, nrows).dtype == Int32
  {
    ConstantIsNotOneZero(c.values);
  }

  /** The remaining rules: float64 to float32, int64 to int32, other dtypes kept. */
  lemma NumericNarrowing(c: Column, nrows: nat)
    requires !IsIdColumn(c) && !IsOneZero(c.values) && c.dtype != Object
    ensures c.dtype == Float64 ==> ConvertColumn(c, nrows) == c.(dtype := Float32)
    ensures c.dtype == Int64 ==> ConvertColumn(c, nrows) == c.(dtype := Int32)
    ensures c.dtype != Float64 && c.dtype != Int64 ==> ConvertColumn(c, nrows) == c
  {
  }

  /** Every column ends up with one of the rules' dtypes, or the one it had. */
  lemma ResultDType(c: Column, nrows: nat)
    ensures ConvertColumn(c, nrows).dtype in {Int32, Category, Bool, Float32, c.dtype}
  {
  }

  /**
   * Converting twice is not the same as converting once: an object column of
   * repeated 1s and 0s becomes category, and a second pass turns it into bool.
   */
  lemma NotIdempotent()
    ensures var c := Column("FLAG", Object, [Num(1.0), Num(0.0), Num(1.0)]);
      ConvertColumn(c, 3).dtype == Category &&
      ConvertColumn(ConvertColumn(c, 3), 3).dtype == Bool
  {
    var vs := [Num(1.0), Num(0.0), Num(1.0)];
    var c := Column("FLAG", Object, vs);
    assert !IsIdColumn(c);
    assert NUnique(vs) == 2 by {
      UniqueOfOnesAndZeros(vs);
    }
    var once := ConvertColumn(c, 3);
    assert once == c.(dtype := Category);
    assert IsOneZero(vs) by {
      OneZeroCharacterised(vs);
    }
    assert ConvertColumn(once, 3) == once.(dtype := Bool);
  }

  /** The whole frame after the loop: every column converted, in its place. */
  function ConvertAll(columns: seq<Column>, nrows: nat): (r: seq<Column>)
    ensures |r| == |columns|
    ensures forall i :: 0 <= i < |r| ==> r[i].name == columns[i].name && |r[i].values| == |columns[i].values|
  {
    seq(|columns|, i requires 0 <= i < |columns| => ConvertColumn(columns[i], nrows))
  }

  /**
   * In a well-formed frame every column has `nrows` values, so a column of
   * distinct present objects that is not `[1, 0]` comes out of the conversion
   * of the whole frame unchanged.
   */
  lemma FrameKeepsDistinctObjects(df: DataFrame, i: nat)
    requires df.Valid() && i < |df.columns|
    requires !IsIdColumn(df.columns[i]) && df.columns[i].dtype == Object && !IsOneZero(df.columns[i].values)
    requires forall j, k :: 0 <= j < k < |df.columns[i].values| ==> df.columns[i].values[j] != df.columns[i].values[k]
    requires Null !in df.columns[i].values
    ensures ConvertAll(df.columns, df.nrows)[i] == df.columns[i]
  {
    DistinctObjectStays(df.columns[i]);
  }

  /** A frame: columns in order, all of `nrows` values. */
  class DataFrame {
    var columns: seq<Column>
    var nrows: nat

    ghost predicate Valid()
      reads this
    {
      forall i :: 0 <= i < |columns| ==> |columns[i].values| == nrows
    }

    constructor (columns: seq<Column>, nrows: nat)
      requires forall i :: 0 <= i < |columns| ==> |columns[i].values| == nrows
      ensures Valid() && this.columns == columns && this.nrows == nrows
    {
      this.columns := columns;
      this.nrows := nrows;
    }

    /**
     * `convert_types(df, print_info)`: converts every column in place and returns
     * the same frame. `printInfo` only chooses whether the memory report is
     * printed, so nothing here depends on it.
     */
    method ConvertTypes(printInfo: bool) returns (df: DataFrame)
      requires Valid()
      modifies this
      ensures df == this && Valid()
      ensures nrows == old(nrows)
      ensures columns == ConvertAll(old(columns), old(nrows))
    {
      var i := 0;
      while i < |columns|
        invariant 0 <= i <= |columns| == |old(columns)|
        invariant nrows == old(nrows)
        invariant forall k :: 0 <= k < i ==> columns[k] == ConvertColumn(old(columns)[k], nrows)
        invariant forall k :: i <= k < |columns| ==> columns[k] == old(columns)[k]
      {
        columns := columns[i := ConvertColumn(columns[i], nrows)];
        i := i + 1;
      }
      df := this;
    }
  }
}
