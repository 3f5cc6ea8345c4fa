/**
 * What the main panel of `tsumu.py` computes from the stored rows: the total
 * of coins earned, the coins earned per day and per month (pandas
 * `groupby(...).sum()`, keys ascending), and the record list sorted by
 * date, newest first.
 */
module Dashboard {
  import opened TextOrder
  import opened Dates
  import opened Records

  // ---------------------------------------------------------------------
  // Total
  // ---------------------------------------------------------------------

  /** The sum of the earned column. */
  function Total(rows: seq<Record>): (t: nat)
    ensures rows == [] ==> t == 0
    ensures forall i :: 0 <= i < |rows| ==> rows[i].earned <= t
  {
    if rows == [] then 0 else rows[0].earned + Total(rows[1..])
  }

  /** Appending a row adds its earned coins to the total and nothing else. */
  lemma {:induction false} TotalAppend(rows: seq<Record>, x: Record)
    ensures Total(rows + [x]) == Total(rows) + x.earned
  {
    if rows != [] {
      assert (rows + [x])[1..] == rows[1..] + [x];
      TotalAppend(rows[1..], x);
    }
  }

  // ---------------------------------------------------------------------
  // Grouping keys
  // ---------------------------------------------------------------------

  /** By calendar day (`dt.date`) or by year-month (`dt.to_period('M')`). */
  datatype Grouping = ByDay | ByMonth

  predicate AllShaped(rows: seq<Record>)
  {
    forall i :: 0 <= i < |rows| ==> DateShaped(rows[i].date)
  }

  /** Every date text names a calendar date, so `pd.to_datetime` accepts the column. */
  predicate AllDated(rows: seq<Record>)
  {
    forall i :: 0 <= i < |rows| ==> ParseDate(rows[i].date).Some?
  }

  /** The group a row falls in: its date text, or that text's first seven characters. */
  function KeyOf(g: Grouping, r: Record): (k: string)
    requires DateShaped(r.date)
    ensures k <= r.date
    ensures g.ByMonth? ==> |k| == 7
  {
    match g
    case ByDay => r.date
    case ByMonth => MonthKey(r.date)
  }

  /** The keys that occur among the rows. */
  function KeySet(rows: seq<Record>, g: Grouping): set<string>
    requires AllShaped(rows)
  {
    if rows == [] then {} else {KeyOf(g, rows[0])} + KeySet(rows[1..], g)
  }

  /** Coins earned by the rows whose key is `key`. */
  function SumWhere(rows: seq<Record>, g: Grouping, key: string): nat
    requires AllShaped(rows)
  {
    if rows == [] then 0
    else (if KeyOf(g, rows[0]) == key then rows[0].earned else 0) + SumWhere(rows[1..], g, key)
  }

  /** A key that no row has collects nothing. */
  lemma {:induction false} SumWhereOutsideKeys(rows: seq<Record>, g: Grouping, key: string)
    requires AllShaped(rows)
    requires key !in KeySet(rows, g)
    ensures SumWhere(rows, g, key) == 0
  {
    if rows != [] {
      SumWhereOutsideKeys(rows[1..], g, key);
    }
  }

  // ---------------------------------------------------------------------
  // Series: one bucket per key, keys strictly ascending
  // ---------------------------------------------------------------------

  datatype Bucket = Bucket(key: string, total: nat)

  predicate StrictlyAscending(s: seq<Bucket>)
  {
    forall i, j :: 0 <= i < j < |s| ==> LexLess(s[i].key, s[j].key)
  }

  function BucketKeys(s: seq<Bucket>): set<string>
  {
    set i | 0 <= i < |s| :: s[i].key
  }

  lemma BucketKeysCons(b: Bucket, s: seq<Bucket>)
    ensures BucketKeys([b] + s) == {b.key} + BucketKeys(s)
  {
    var r := [b] + s;
    forall x | x in BucketKeys(r) ensures x in {b.key} + BucketKeys(s) {
      var i :| 0 <= i < |r| && r[i].key == x;
      if i > 0 {
        assert r[i] == s[i - 1];
        assert s[i - 1].key in BucketKeys(s);
      }
    }
    forall x | x in BucketKeys(s) ensures x in BucketKeys(r) {
      var i :| 0 <= i < |s| && s[i].key == x;
      assert r[i + 1].key == x;
    }
    assert r[0].key == b.key;
    assert b.key in BucketKeys(r);
  }

  /** The value of the first bucket keyed `key`, or 0 when there is none. */
  function Lookup(s: seq<Bucket>, key: string): (v: nat)
    ensures key !in BucketKeys(s) ==> v == 0
  {
    if s == [] then 0
    else if s[0].key == key then s[0].total
    else
      assert key !in BucketKeys(s) ==> key !in BucketKeys(s[1..]) by {
        if key in BucketKeys(s[1..]) {
          var i :| 0 <= i < |s[1..]| && s[1..][i].key == key;
          assert s[i + 1].key == key;
        }
      }
      Lookup(s[1..], key)
  }

  function SeriesSum(s: seq<Bucket>): nat
  {
    if s == [] then 0 else s[0].total + SeriesSum(s[1..])
  }

  /** In a strictly ascending series every bucket is the one `Lookup` finds. */
  lemma {:induction false} LookupAt(s: seq<Bucket>, i: nat)
    requires StrictlyAscending(s) && i < |s|
    ensures Lookup(s, s[i].key) == s[i].total
  {
    if i > 0 {
      LexIrreflexive(s[0].key);
      assert s[0].key != s[i].key;
      assert s[1..][i - 1] == s[i];
      LookupAt(s[1..], i - 1);
    }
  }

  /** A key below the first key of a series is below all of them, so it is not among them. */
  lemma BelowAllKeys(k: string, s: seq<Bucket>)
    requires StrictlyAscending(s) && s != [] && LexLess(k, s[0].key)
    ensures forall j :: 0 <= j < |s| ==> LexLess(k, s[j].key)
    ensures k !in BucketKeys(s)
  {
    forall j | 0 <= j < |s|
      ensures LexLess(k, s[j].key)
    {
      if j > 0 {
        LexTransitive(k, s[0].key, s[j].key);
      }
    }
    LexIrreflexive(k);
  }

  /** Keys of a strictly ascending series are distinct: one bucket per key. */
  lemma {:induction false} DistinctKeys(s: seq<Bucket>)
    requires StrictlyAscending(s)
    ensures |BucketKeys(s)| == |s|
  {
    if s != [] {
      assert s == [s[0]] + s[1..];
      BucketKeysCons(s[0], s[1..]);
      DistinctKeys(s[1..]);
      if |s| > 1 {
        BelowAllKeys(s[0].key, s[1..]);
      }
    }
  }

  /** Adds `v` to the bucket keyed `k`, creating it in key order when it is missing. */
  function AddTo(s: seq<Bucket>, k: string, v: nat): (r: seq<Bucket>)
    requires StrictlyAscending(s)
    ensures StrictlyAscending(r)
    ensures BucketKeys(r) == BucketKeys(s) + {k}
    ensures forall key :: Lookup(r, key) == Lookup(s, key) + (if key == k then v else 0)
    ensures SeriesSum(r) == SeriesSum(s) + v
  {
    if s == [] then
      BucketKeysCons(Bucket(k, v), []);
      assert [Bucket(k, v)] + [] == [Bucket(k, v)];
      [Bucket(k, v)]
    else if s[0].key == k then
      var r := [Bucket(k, s[0].total + v)] + s[1..];
      assert forall j :: 0 <= j < |s| ==> r[j].key == s[j].key;
      assert s == [s[0]] + s[1..];
      BucketKeysCons(s[0], s[1..]);
      BucketKeysCons(Bucket(k, s[0].total + v), s[1..]);
      r
    else if LexLess(k, s[0].key) then
      BelowAllKeys(k, s);
      BucketKeysCons(Bucket(k, v), s);
      [Bucket(k, v)] + s
    else
      LexTotal(k, s[0].key);
      var rest := AddTo(s[1..], k, v);
      AddAfterFirst(s, k, v, rest);
      [s[0]] + rest
  }

  /** The step of `AddTo` that keeps the first bucket and adds into the rest. */
  lemma AddAfterFirst(s: seq<Bucket>, k: string, v: nat, rest: seq<Bucket>)
    requires StrictlyAscending(s) && s != [] && LexLess(s[0].key, k)
    requires StrictlyAscending(rest)
    requires BucketKeys(rest) == BucketKeys(s[1..]) + {k}
    requires forall key :: Lookup(rest, key) == Lookup(s[1..], key) + (if key == k then v else 0)
    requires SeriesSum(rest) == SeriesSum(s[1..]) + v
    ensures StrictlyAscending([s[0]] + rest)
    ensures BucketKeys([s[0]] + rest) == BucketKeys(s) + {k}
    ensures forall key :: Lookup([s[0]] + rest, key) == Lookup(s, key) + (if key == k then v else 0)
    ensures SeriesSum([s[0]] + rest) == SeriesSum(s) + v
  {
    assert s == [s[0]] + s[1..];
    BucketKeysCons(s[0], s[1..]);
    BucketKeysCons(s[0], rest);
    FirstBelowRest(s, k, rest);
    LookupAfterFirst(s, k, v, rest);
    assert ([s[0]] + rest)[1..] == rest;
  }

  /** Putting the first bucket back in front of the grown rest keeps the keys ascending. */
  lemma FirstBelowRest(s: seq<Bucket>, k: string, rest: seq<Bucket>)
    requires StrictlyAscending(s) && s != [] && LexLess(s[0].key, k)
    requires StrictlyAscending(rest)
    requires BucketKeys(rest) == BucketKeys(s[1..]) + {k}
    ensures StrictlyAscending([s[0]] + rest)
  {
    var r := [s[0]] + rest;
    forall j | 0 <= j < |rest|
      ensures LexLess(s[0].key, rest[j].key)
    {
      assert rest[j].key in BucketKeys(rest);
      if rest[j].key != k {
        var i :| 0 <= i < |s[1..]| && s[1..][i].key == rest[j].key;
        assert s[i + 1].key == rest[j].key;
      }
    }
    forall i, j | 0 <= i < j < |r|
      ensures LexLess(r[i].key, r[j].key)
    {
      if i > 0 {
        assert r[i] == rest[i - 1] && r[j] == rest[j - 1];
      } else {
        assert r[j] == rest[j - 1];
      }
    }
  }

  /** The step of `AddTo` that keeps the first bucket: lookups differ from the old series only at `k`. */
  lemma LookupAfterFirst(s: seq<Bucket>, k: string, v: nat, rest: seq<Bucket>)
    requires s != [] && s[0].key != k
    requires forall key :: Lookup(rest, key) == Lookup(s[1..], key) + (if key == k then v else 0)
    ensures forall key :: Lookup([s[0]] + rest, key) == Lookup(s, key) + (if key == k then v else 0)
  {
    var r := [s[0]] + rest;
    assert r[0] == s[0] && r[1..] == rest;
  }

  /**
   * `groupby(key)['earned'].sum()`: one bucket per distinct key, keys in
   * ascending order, each bucket holding the coins earned by the rows with
   * that key.
   */
  function GroupSum(rows: seq<Record>, g: Grouping): (r: seq<Bucket>)
    requires AllShaped(rows)
    ensures StrictlyAscending(r)
    ensures BucketKeys(r) == KeySet(rows, g)
    ensures forall key :: Lookup(r, key) == SumWhere(rows, g, key)
    ensures SeriesSum(r) == Total(rows)
    ensures |r| == |KeySet(rows, g)|
  {
    if rows == [] then []
    else
      var r := AddTo(GroupSum(rows[1..], g), KeyOf(g, rows[0]), rows[0].earned);
      DistinctKeys(r);
      r
  }

  /** Each bucket of a series holds the coins earned by exactly the rows of its key. */
  lemma BucketIsGroupTotal(rows: seq<Record>, g: Grouping)
    requires AllShaped(rows)
    ensures forall i :: 0 <= i < |GroupSum(rows, g)| ==>
      GroupSum(rows, g)[i].total == SumWhere(rows, g, GroupSum(rows, g)[i].key)
      && GroupSum(rows, g)[i].key in KeySet(rows, g)
  {
    var s := GroupSum(rows, g);
    forall i | 0 <= i < |s|
      ensures s[i].total == SumWhere(rows, g, s[i].key) && s[i].key in KeySet(rows, g)
    {
      LookupAt(s, i);
      assert s[i].key in BucketKeys(s);
    }
  }

  /** When every date text is a calendar date, the day keys are real dates and ascend chronologically. */
  lemma DailyChronological(rows: seq<Record>)
    requires AllShaped(rows)
    requires AllDated(rows)
    ensures forall i :: 0 <= i < |GroupSum(rows, ByDay)| ==> ParseDate(GroupSum(rows, ByDay)[i].key).Some?
    ensures forall i, j :: 0 <= i < j < |GroupSum(rows, ByDay)| ==>
      Before(ParseDate(GroupSum(rows, ByDay)[i].key).value, ParseDate(GroupSum(rows, ByDay)[j].key).value)
  {
    var s := GroupSum(rows, ByDay);
    forall i | 0 <= i < |s|
      ensures ParseDate(s[i].key).Some?
    {
      assert s[i].key in BucketKeys(s);
      DayKeysParse(rows, s[i].key);
    }
    forall i, j | 0 <= i < j < |s|
      ensures Before(ParseDate(s[i].key).value, ParseDate(s[j].key).value)
    {
      var a, b := ParseDate(s[i].key).value, ParseDate(s[j].key).value;
      FormatParse(s[i].key);
      FormatParse(s[j].key);
      FormatOrder(a, b);
    }
  }

  /** When every date text is a calendar date, so is every day key. */
  lemma {:induction false} DayKeysParse(rows: seq<Record>, key: string)
    requires AllDated(rows)
    requires AllShaped(rows)
    requires key in KeySet(rows, ByDay)
    ensures ParseDate(key).Some?
  {
    if rows[0].date != key {
      DayKeysParse(rows[1..], key);
    }
  }

  // ---------------------------------------------------------------------
  // The record list, newest first
  // ---------------------------------------------------------------------

  /** Non-increasing by date text; ties in any order. */
  predicate DescendingByDate(s: seq<Record>)
  {
    forall i, j :: 0 <= i < j < |s| ==> LexLeq(s[j].date, s[i].date)
  }

  function InsertByDate(x: Record, s: seq<Record>): (r: seq<Record>)
    requires DescendingByDate(s)
    ensures multiset(r) == multiset(s) + multiset{x}
    ensures DescendingByDate(r)
    ensures forall k :: 0 <= k < |r| ==> r[k] == x || r[k] in s
  {
    if s == [] then
      [x]
    else if LexLeq(s[0].date, x.date) then
      var r := [x] + s;
      assert forall j :: 0 < j < |r| ==> LexLeq(r[j].date, x.date) by {
        forall j | 0 < j < |r|
          ensures LexLeq(r[j].date, x.date)
        {
          if j > 1 {
            LeqTransitive(s[j - 1].date, s[0].date, x.date);
          }
        }
      }
      r
    else
      LexTotal(x.date, s[0].date);
      var rest := InsertByDate(x, s[1..]);
      var r := [s[0]] + rest;
      assert s == [s[0]] + s[1..];
      assert forall j :: 0 <= j < |rest| ==> LexLeq(rest[j].date, s[0].date) by {
        forall j | 0 <= j < |rest|
          ensures LexLeq(rest[j].date, s[0].date)
        {
          if rest[j] != x {
            var i :| 0 <= i < |s[1..]| && s[1..][i] == rest[j];
            assert s[i + 1] == rest[j];
          }
        }
      }
      r
  }

  /** `sort_values(by='date', ascending=False)`. */
  function SortByDateDesc(rows: seq<Record>): (r: seq<Record>)
    ensures multiset(r) == multiset(rows)
    ensures DescendingByDate(r)
  {
    if rows == [] then []
    else
      assert rows == [rows[0]] + rows[1..];
      InsertByDate(rows[0], SortByDateDesc(rows[1..]))
  }

  // ---------------------------------------------------------------------
  // The main panel
  // ---------------------------------------------------------------------

  /** Either the prompt to add a first record, or the dashboard. */
  datatype View =
    | NoRecordsPrompt
    | Summary(total: nat, daily: seq<Bucket>, monthly: seq<Bucket>, table: seq<Record>)

  function Render(rows: seq<Record>): (v: View)
    requires AllDated(rows)
    ensures v.NoRecordsPrompt? <==> rows == []
    ensures v.Summary? ==>
      && v.total == Total(rows)
      && StrictlyAscending(v.daily) && BucketKeys(v.daily) == KeySet(rows, ByDay)
      && StrictlyAscending(v.monthly) && BucketKeys(v.monthly) == KeySet(rows, ByMonth)
      && (forall key :: Lookup(v.daily, key) == SumWhere(rows, ByDay, key))
      && (forall key :: Lookup(v.monthly, key) == SumWhere(rows, ByMonth, key))
      && SeriesSum(v.daily) == v.total && SeriesSum(v.monthly) == v.total
      && multiset(v.table) == multiset(rows) && DescendingByDate(v.table)
    ensures v.Summary? ==>
      && (forall i :: 0 <= i < |v.daily| ==> ParseDate(v.daily[i].key).Some?)
      && (forall i, j :: 0 <= i < j < |v.daily| ==>
            Before(ParseDate(v.daily[i].key).value, ParseDate(v.daily[j].key).value))
  {
    if rows == [] then NoRecordsPrompt
    else
      DailyChronological(rows);
      Summary(Total(rows), GroupSum(rows, ByDay), GroupSum(rows, ByMonth), SortByDateDesc(rows))
  }
}
