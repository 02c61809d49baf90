/** The aggregation functions of the bike-rental dashboard: four views of a
    (date-filtered) record set, each a pandas group-by, an aggregation and a
    sort.

    - `CreateByMonth`: total casual and registered rentals per month, one row
      per user type and month, labelled "<month> <year>".
    - `CreateBySeason`, `CreateByWorkingday`, `CreateByHourly`: mean casual,
      registered and total rentals per season, per weekday (working days only)
      and per hour of the day. */
module Dashboard {
  import opened Order
  import opened GroupBy
  import opened Rental

  // ---------------------------------------------------------------------
  // Reading a group key back into columns (`reset_index`)
  // ---------------------------------------------------------------------

  function NumAt(k: Key, i: nat): int
  {
    if i < |k| && k[i].Num? then k[i].n else 0
  }

  function TextAt(k: Key, i: nat): string
  {
    if i < |k| && k[i].Text? then k[i].s else ""
  }

  // ---------------------------------------------------------------------
  // Monthly totals by user type
  // ---------------------------------------------------------------------

  const CASUAL := "Casual"
  const REGISTERED := "Registered"

  /** The `monthYear` label: `month.astype(str) + ' ' + year.astype(str)`. */
  function MonthYear(month: string, year: int): string
  {
    month + " " + IntToStr(year)
  }

  /** The label determines the month name and the year it was built from:
      `str` of an integer holds no blank, so the last blank separates the two. */
  lemma {:induction false} MonthYearInjective(a: string, y: int, b: string, z: int)
    requires MonthYear(a, y) == MonthYear(b, z)
    ensures a == b && y == z
  {
    var s, t, l := IntToStr(y), IntToStr(z), MonthYear(a, y);
    assert l == a + " " + s == b + " " + t;
    BlankSeparates(a, s);
    BlankSeparates(b, t);
    assert |a| == |b|;
    assert s == l[|l| - |s|..] == t;
    assert a == l[..|a|] == b;
    IntToStrRoundTrip(y);
    IntToStrRoundTrip(z);
  }

  /** In `month + " " + str(year)` the blank after the month is the last one. */
  lemma {:induction false} BlankSeparates(a: string, s: string)
    requires forall k :: 0 <= k < |s| ==> IsDigit(s[k]) || s[k] == '-'
    ensures (a + " " + s)[|a|] == ' '
    ensures forall k :: |a| < k < |a| + 1 + |s| ==> (a + " " + s)[k] != ' '
  {
    forall k | |a| < k < |a| + 1 + |s| ensures (a + " " + s)[k] != ' ' {
      assert (a + " " + s)[k] == s[k - |a| - 1];
    }
  }

  /** The key of the first group-by: `["year", "mnth", "month"]`. */
  function MonthKey(r: DayRecord): Key
  {
    [Num(r.year), Num(r.mnth), Text(r.month)]
  }

  /** A record's year, month number and month label. */
  function LabelKey(r: DayRecord): Key
  {
    [Num(r.year), Num(r.mnth), Text(MonthYear(r.month, r.year))]
  }

  /** True when the month name is a function of the year and the month number,
      as it is for records derived from calendar dates. */
  ghost predicate MonthNamesConsistent(df: seq<DayRecord>)
  {
    forall r, r' :: r in df && r' in df && r.year == r'.year && r.mnth == r'.mnth ==> r.month == r'.month
  }

  /** Selecting the records of a year and month by their label selects the same
      records as selecting them by their month name. */
  lemma {:induction false} LabelGroupIsMonthGroup(df: seq<DayRecord>, year: int, mnth: int, month: string)
    ensures Group(df, LabelKey, [Num(year), Num(mnth), Text(MonthYear(month, year))])
         == Group(df, MonthKey, [Num(year), Num(mnth), Text(month)])
  {
    var lk: Key := [Num(year), Num(mnth), Text(MonthYear(month, year))];
    var mk: Key := [Num(year), Num(mnth), Text(month)];
    forall r | r in df ensures LabelKey(r) == lk <==> MonthKey(r) == mk {
      if LabelKey(r) == lk {
        MonthYearInjective(r.month, r.year, month, year);
      }
    }
    GroupCongruent(df, LabelKey, lk, MonthKey, mk);
  }

  /** A row of `df.groupby(["year","mnth","month"]).agg({c: "sum"}).reset_index()`. */
  datatype MonthSum = MonthSum(year: int, mnth: int, month: string, total: int)

  function MonthSumKey(s: MonthSum): Key
  {
    [Num(s.year), Num(s.mnth), Text(s.month)]
  }

  /** The row of the group with key `k`. */
  function MonthSumOf(df: seq<DayRecord>, val: DayRecord -> int, k: Key): MonthSum
  {
    MonthSum(NumAt(k, 0), NumAt(k, 1), TextAt(k, 2), SumOf(Group(df, MonthKey, k), val))
  }

  /** The per-month sums of column `val` (dashboard.py:12-14 and 22-24). The
      subsequent `sort_values(by=["year","mnth"])` is stable and the groups
      already come in key order, so it changes nothing. */
  function MonthlySums(df: seq<DayRecord>, val: DayRecord -> int): seq<MonthSum>
  {
    var ks := GroupKeys(df, MonthKey);
    seq(|ks|, i requires 0 <= i < |ks| => MonthSumOf(df, val, ks[i]))
  }

  /** The row of a key that occurs in `df` reads the key back unchanged. */
  lemma {:induction false} MonthSumOfKey(df: seq<DayRecord>, val: DayRecord -> int, k: Key)
    requires k in KeySet(df, MonthKey)
    ensures MonthSumKey(MonthSumOf(df, val, k)) == k
  {
    var r :| r in df && MonthKey(r) == k;
  }

  /** The rows of `MonthlySums` are the groups' rows, in group-key order. */
  lemma {:induction false} MonthlySumsKeys(df: seq<DayRecord>, val: DayRecord -> int, sums: seq<MonthSum>, ks: seq<Key>)
    requires sums == MonthlySums(df, val) && ks == GroupKeys(df, MonthKey)
    ensures |sums| == |ks|
    ensures forall i :: 0 <= i < |ks| ==>
      MonthSumKey(sums[i]) == ks[i] && sums[i].total == SumOf(Group(df, MonthKey, ks[i]), val)
  {
    GroupKeysSpec(df, MonthKey);
    forall i | 0 <= i < |ks| ensures MonthSumKey(sums[i]) == ks[i] {
      MonthSumOfKey(df, val, ks[i]);
    }
  }

  /** One row per month of `df`, in key order, each holding that month's sum. */
  lemma {:induction false} MonthlySumsSpec(df: seq<DayRecord>, val: DayRecord -> int, sums: seq<MonthSum>)
    requires sums == MonthlySums(df, val)
    ensures |sums| == |KeySet(df, MonthKey)|
    ensures KeySet(sums, MonthSumKey) == KeySet(df, MonthKey)
    ensures forall i :: 0 <= i < |sums| ==> sums[i].total == SumOf(Group(df, MonthKey, MonthSumKey(sums[i])), val)
    ensures forall i, j :: 0 <= i < j < |sums| ==> KeyLess(MonthSumKey(sums[i]), MonthSumKey(sums[j]))
  {
    var ks := GroupKeys(df, MonthKey);
    MonthlySumsKeys(df, val, sums, ks);
    GroupKeysSpec(df, MonthKey);
    forall k | k in KeySet(sums, MonthSumKey) ensures k in KeySet(df, MonthKey) {
      var s :| s in sums && MonthSumKey(s) == k;
      var i :| 0 <= i < |sums| && sums[i] == s;
      assert k == ks[i];
    }
    forall k | k in KeySet(df, MonthKey) ensures k in KeySet(sums, MonthSumKey) {
      var i :| 0 <= i < |ks| && ks[i] == k;
      assert sums[i] in sums;
    }
  }

  /** A row of the concatenated table: a monthly sum tagged with its user type
      and month label, its sum column renamed `total_user`. */
  datatype UserRow = UserRow(year: int, mnth: int, month: string, totalUser: int, userType: string, monthYear: string)

  /** Tags a table of monthly sums (dashboard.py:15-20 and 25-30), building the
      renamed column directly instead of renaming in place. */
  function Tag(sums: seq<MonthSum>, userType: string): seq<UserRow>
  {
    seq(|sums|, i requires 0 <= i < |sums| =>
      UserRow(sums[i].year, sums[i].mnth, sums[i].month, sums[i].total, userType, MonthYear(sums[i].month, sums[i].year)))
  }

  function UserLabel(u: UserRow): Key
  {
    [Num(u.year), Num(u.mnth), Text(u.monthYear)]
  }

  /** The key of the second group-by: `["user_type","year","mnth","monthYear"]`. */
  function UserKey(u: UserRow): Key
  {
    [Text(u.userType)] + UserLabel(u)
  }

  function UserTotal(u: UserRow): int
  {
    u.totalUser
  }

  /** The label of the row a monthly sum becomes. */
  function SumLabel(sum: MonthSum): Key
  {
    [Num(sum.year), Num(sum.mnth), Text(MonthYear(sum.month, sum.year))]
  }

  /** A tagged row holds the sum over the records that carry its label. */
  lemma {:induction false} TagTotals(df: seq<DayRecord>, val: DayRecord -> int, userType: string, rows: seq<UserRow>)
    requires rows == Tag(MonthlySums(df, val), userType)
    ensures forall j :: 0 <= j < |rows| ==>
      rows[j].totalUser == SumOf(Group(df, LabelKey, UserLabel(rows[j])), val)
  {
    var sums := MonthlySums(df, val);
    MonthlySumsSpec(df, val, sums);
    forall j | 0 <= j < |rows|
      ensures rows[j].totalUser == SumOf(Group(df, LabelKey, UserLabel(rows[j])), val)
    {
      var s := sums[j];
      assert UserLabel(rows[j]) == SumLabel(s);
      LabelGroupIsMonthGroup(df, s.year, s.mnth, s.month);
    }
  }

  /** Every tagged label is the label of a record. */
  lemma {:induction false} TagLabelsFromRecords(df: seq<DayRecord>, val: DayRecord -> int, userType: string, rows: seq<UserRow>)
    requires rows == Tag(MonthlySums(df, val), userType)
    ensures KeySet(rows, UserLabel) <= KeySet(df, LabelKey)
  {
    var sums := MonthlySums(df, val);
    MonthlySumsSpec(df, val, sums);
    forall k | k in KeySet(rows, UserLabel) ensures k in KeySet(df, LabelKey) {
      var u :| u in rows && UserLabel(u) == k;
      var j :| 0 <= j < |rows| && rows[j] == u;
      assert MonthSumKey(sums[j]) in KeySet(sums, MonthSumKey);
      var r :| r in df && MonthKey(r) == MonthSumKey(sums[j]);
      assert LabelKey(r) == SumLabel(sums[j]) == k;
    }
  }

  /** Every record's label is tagged. */
  lemma {:induction false} TagLabelsCover(df: seq<DayRecord>, val: DayRecord -> int, userType: string, rows: seq<UserRow>)
    requires rows == Tag(MonthlySums(df, val), userType)
    ensures KeySet(df, LabelKey) <= KeySet(rows, UserLabel)
  {
    var sums := MonthlySums(df, val);
    MonthlySumsSpec(df, val, sums);
    forall k | k in KeySet(df, LabelKey) ensures k in KeySet(rows, UserLabel) {
      var r :| r in df && LabelKey(r) == k;
      assert MonthKey(r) in KeySet(df, MonthKey);
      var s :| s in sums && MonthSumKey(s) == MonthKey(r);
      var j :| 0 <= j < |sums| && sums[j] == s;
      assert rows[j] in rows && UserLabel(rows[j]) == SumLabel(s) == k;
    }
  }

  /** No two tagged rows share a label. */
  lemma {:induction false} TagLabelsDistinct(df: seq<DayRecord>, val: DayRecord -> int, userType: string, rows: seq<UserRow>)
    requires rows == Tag(MonthlySums(df, val), userType)
    ensures forall i, j :: 0 <= i < j < |rows| ==> UserLabel(rows[i]) != UserLabel(rows[j])
  {
    var sums := MonthlySums(df, val);
    MonthlySumsSpec(df, val, sums);
    forall i, j | 0 <= i < j < |rows| ensures UserLabel(rows[i]) != UserLabel(rows[j]) {
      KeyLessAsymmetric(MonthSumKey(sums[i]), MonthSumKey(sums[j]));
      assert UserLabel(rows[i]) == SumLabel(sums[i]) && UserLabel(rows[j]) == SumLabel(sums[j]);
      if SumLabel(sums[i]) == SumLabel(sums[j]) {
        MonthYearInjective(sums[i].month, sums[i].year, sums[j].month, sums[j].year);
      }
    }
  }

  /** What a tagged table of sums of `val` says about `df`: one row per month,
      each holding the sum over the records with that row's label. */
  lemma {:induction false} TagSpec(df: seq<DayRecord>, val: DayRecord -> int, userType: string, rows: seq<UserRow>)
    requires rows == Tag(MonthlySums(df, val), userType)
    ensures |rows| == |KeySet(df, MonthKey)|
    ensures forall j :: 0 <= j < |rows| ==> rows[j].userType == userType
    ensures forall j :: 0 <= j < |rows| ==>
      rows[j].totalUser == SumOf(Group(df, LabelKey, UserLabel(rows[j])), val)
    ensures KeySet(rows, UserLabel) == KeySet(df, LabelKey)
    ensures forall i, j :: 0 <= i < j < |rows| ==> UserLabel(rows[i]) != UserLabel(rows[j])
  {
    MonthlySumsSpec(df, val, MonthlySums(df, val));
    TagTotals(df, val, userType, rows);
    TagLabelsFromRecords(df, val, userType, rows);
    TagLabelsCover(df, val, userType, rows);
    TagLabelsDistinct(df, val, userType, rows);
  }

  /** A row of the monthly view (dashboard.py:33-35 after `reset_index`). */
  datatype MonthlyRow = MonthlyRow(userType: string, year: int, mnth: int, monthYear: string, totalUser: int)

  /** The year, month number and label of a monthly row. */
  function RowLabel(row: MonthlyRow): Key
  {
    [Num(row.year), Num(row.mnth), Text(row.monthYear)]
  }

  /** The key of `sort_values(by=["user_type","year","mnth"])`. */
  function MonthlySortKey(row: MonthlyRow): Key
  {
    [Text(row.userType), Num(row.year), Num(row.mnth)]
  }

  /** The group key of a row of the view. */
  function MonthlyKey(row: MonthlyRow): Key
  {
    MonthlySortKey(row) + [Text(row.monthYear)]
  }

  function Collapse(u: UserRow): MonthlyRow
  {
    MonthlyRow(u.userType, u.year, u.mnth, u.monthYear, u.totalUser)
  }

  /** The row of the group with key `k` of the concatenated table. */
  function RegroupRow(merged: seq<UserRow>, k: Key): MonthlyRow
  {
    MonthlyRow(TextAt(k, 0), NumAt(k, 1), NumAt(k, 2), TextAt(k, 3), SumOf(Group(merged, UserKey, k), UserTotal))
  }

  /** `merge_df.groupby(["user_type","year","mnth","monthYear"]).agg({"total_user": "sum"})`
      followed by `sort_values(by=["user_type","year","mnth"])`, a stable sort of
      rows that already come in group-key order. */
  function Regroup(merged: seq<UserRow>): seq<MonthlyRow>
  {
    var ks := GroupKeys(merged, UserKey);
    seq(|ks|, i requires 0 <= i < |ks| => RegroupRow(merged, ks[i]))
  }

  /** The group of a row whose key no other row shares is that row alone. */
  lemma {:induction false} RegroupRowOfUnique(merged: seq<UserRow>, j: int)
    requires 0 <= j < |merged|
    requires forall i :: 0 <= i < |merged| && i != j ==> UserKey(merged[i]) != UserKey(merged[j])
    ensures RegroupRow(merged, UserKey(merged[j])) == Collapse(merged[j])
  {
    GroupOfUniqueKey(merged, UserKey, j);
    SumOfSingleton(merged[j], UserTotal);
  }

  /** The `i`-th regrouped row is the row of the concatenated table with the
      `i`-th key, when no other row shares that key. */
  lemma {:induction false} RegroupRowAt(merged: seq<UserRow>, i: int)
    requires forall i, j :: 0 <= i < j < |merged| ==> UserKey(merged[i]) != UserKey(merged[j])
    requires 0 <= i < |GroupKeys(merged, UserKey)|
    ensures MonthlyKey(Regroup(merged)[i]) == GroupKeys(merged, UserKey)[i]
    ensures Regroup(merged)[i] in (set u | u in merged :: Collapse(u))
  {
    var ks := GroupKeys(merged, UserKey);
    GroupKeysSpec(merged, UserKey);
    assert ks[i] in KeySet(merged, UserKey);
    var u :| u in merged && UserKey(u) == ks[i];
    var j :| 0 <= j < |merged| && merged[j] == u;
    RegroupRowOfUnique(merged, j);
  }

  /** When no two rows share a key, each group is one row: the regrouped rows
      are the input rows, read back from their keys, in key order. */
  lemma {:induction false} RegroupRows(merged: seq<UserRow>)
    requires forall i, j :: 0 <= i < j < |merged| ==> UserKey(merged[i]) != UserKey(merged[j])
    ensures |Regroup(merged)| == |GroupKeys(merged, UserKey)| == |merged|
    ensures forall i :: 0 <= i < |Regroup(merged)| ==>
      MonthlyKey(Regroup(merged)[i]) == GroupKeys(merged, UserKey)[i] &&
      Regroup(merged)[i] in (set u | u in merged :: Collapse(u))
  {
    var ks, view := GroupKeys(merged, UserKey), Regroup(merged);
    GroupKeysSpec(merged, UserKey);
    KeySetOfDistinct(merged, UserKey);
    forall i | 0 <= i < |ks|
      ensures MonthlyKey(view[i]) == ks[i]
      ensures view[i] in (set u | u in merged :: Collapse(u))
    {
      RegroupRowAt(merged, i);
    }
  }

  /** Every row of the concatenated table survives the regrouping. */
  lemma {:induction false} RegroupKeeps(merged: seq<UserRow>, j: int)
    requires forall i, j :: 0 <= i < j < |merged| ==> UserKey(merged[i]) != UserKey(merged[j])
    requires 0 <= j < |merged|
    ensures Collapse(merged[j]) in Regroup(merged)
  {
    var ks, view := GroupKeys(merged, UserKey), Regroup(merged);
    GroupKeysSpec(merged, UserKey);
    assert UserKey(merged[j]) in KeySet(merged, UserKey);
    var i :| 0 <= i < |ks| && ks[i] == UserKey(merged[j]);
    RegroupRowOfUnique(merged, j);
    assert view[i] == RegroupRow(merged, ks[i]);
  }

  /** When no two rows share a key, regrouping only puts the rows in key order:
      the result holds each input row once, strictly ascending by key. */
  lemma {:induction false} RegroupSpec(merged: seq<UserRow>)
    requires forall i, j :: 0 <= i < j < |merged| ==> UserKey(merged[i]) != UserKey(merged[j])
    ensures |Regroup(merged)| == |merged|
    ensures (set row | row in Regroup(merged)) == (set u | u in merged :: Collapse(u))
    ensures forall i, j :: 0 <= i < j < |Regroup(merged)| ==>
      KeyLess(MonthlyKey(Regroup(merged)[i]), MonthlyKey(Regroup(merged)[j]))
  {
    var view := Regroup(merged);
    RegroupRows(merged);
    forall u | u in merged ensures Collapse(u) in view {
      var j :| 0 <= j < |merged| && merged[j] == u;
      RegroupKeeps(merged, j);
    }
  }

  /** The labels of the rows of one user type. */
  function LabelsOf(view: seq<MonthlyRow>, userType: string): set<Key>
  {
    set row | row in view && row.userType == userType :: RowLabel(row)
  }

  /** The facts about one user type's rows of the concatenated table carry over
      to the regrouped view, when the other rows are of another type. */
  lemma {:induction false} RegroupedType(df: seq<DayRecord>, val: DayRecord -> int, userType: string,
                                          view: seq<MonthlyRow>, rows: seq<UserRow>, others: seq<UserRow>)
    requires (set row | row in view) == (set u | u in rows :: Collapse(u)) + (set u | u in others :: Collapse(u))
    requires forall j :: 0 <= j < |rows| ==> rows[j].userType == userType
    requires forall j :: 0 <= j < |others| ==> others[j].userType != userType
    requires forall j :: 0 <= j < |rows| ==>
      rows[j].totalUser == SumOf(Group(df, LabelKey, UserLabel(rows[j])), val)
    ensures LabelsOf(view, userType) == KeySet(rows, UserLabel)
    ensures forall i :: 0 <= i < |view| && view[i].userType == userType ==>
      view[i].totalUser == SumOf(Group(df, LabelKey, RowLabel(view[i])), val)
  {
    var mine, theirs := (set u | u in rows :: Collapse(u)), (set u | u in others :: Collapse(u));
    forall row | row in view && row.userType == userType
      ensures exists j :: 0 <= j < |rows| && row == Collapse(rows[j])
    {
      assert row in (set row | row in view);
      forall u | u in others ensures row != Collapse(u) {
        var j :| 0 <= j < |others| && others[j] == u;
      }
      assert row !in theirs;
      assert row in mine;
      var u :| u in rows && row == Collapse(u);
      var j :| 0 <= j < |rows| && rows[j] == u;
    }
    forall k | k in LabelsOf(view, userType) ensures k in KeySet(rows, UserLabel) {
      var row :| row in view && row.userType == userType && RowLabel(row) == k;
      var j :| 0 <= j < |rows| && row == Collapse(rows[j]);
      assert rows[j] in rows;
    }
    forall k | k in KeySet(rows, UserLabel) ensures k in LabelsOf(view, userType) {
      var u :| u in rows && UserLabel(u) == k;
      var j :| 0 <= j < |rows| && rows[j] == u;
      assert Collapse(u) in mine;
      assert Collapse(u) in (set row | row in view);
      assert Collapse(u) in view && Collapse(u).userType == userType;
    }
    forall i | 0 <= i < |view| && view[i].userType == userType
      ensures view[i].totalUser == SumOf(Group(df, LabelKey, RowLabel(view[i])), val)
    {
      var j :| 0 <= j < |rows| && view[i] == Collapse(rows[j]);
    }
  }

  /** The sum of `total_user` over the rows of one user type. */
  function TypeTotal(view: seq<MonthlyRow>, userType: string): int
  {
    if view == [] then 0
    else (if view[0].userType == userType then view[0].totalUser else 0) + TypeTotal(view[1..], userType)
  }

  /** The labels of the rows of one user type, in order. */
  function TypeLabels(view: seq<MonthlyRow>, userType: string): (ks: seq<Key>)
    ensures forall k :: k in ks <==> k in LabelsOf(view, userType)
  {
    if view == [] then []
    else
      var tail := TypeLabels(view[1..], userType);
      assert forall row :: row in view <==> row == view[0] || row in view[1..];
      (if view[0].userType == userType then [RowLabel(view[0])] else []) + tail
  }

  lemma {:induction false} TypeLabelsDistinct(view: seq<MonthlyRow>, userType: string)
    requires forall i, j :: 0 <= i < j < |view| && view[i].userType == userType && view[j].userType == userType
               ==> RowLabel(view[i]) != RowLabel(view[j])
    ensures Distinct(TypeLabels(view, userType))
  {
    if view != [] {
      var tail := view[1..];
      TypeLabelsDistinct(tail, userType);
      if view[0].userType == userType {
        assert RowLabel(view[0]) !in TypeLabels(tail, userType);
        var ks := TypeLabels(view, userType);
        assert ks == [RowLabel(view[0])] + TypeLabels(tail, userType);
      }
    }
  }

  lemma {:induction false} TypeTotalOverLabels(df: seq<DayRecord>, view: seq<MonthlyRow>, userType: string, val: DayRecord -> int)
    requires forall i :: 0 <= i < |view| && view[i].userType == userType ==>
               view[i].totalUser == SumOf(Group(df, LabelKey, RowLabel(view[i])), val)
    ensures TypeTotal(view, userType) == SumOverKeys(df, LabelKey, val, TypeLabels(view, userType))
  {
    if view != [] {
      var tail := view[1..];
      TypeTotalOverLabels(df, tail, userType, val);
      var ks := TypeLabels(view, userType);
      if view[0].userType == userType {
        assert ks[0] == RowLabel(view[0]) && ks[1..] == TypeLabels(tail, userType);
      } else {
        assert ks == TypeLabels(tail, userType);
      }
    }
  }

  /** The totals of one user type add up to the whole column, when its rows
      cover every month of `df` once. */
  lemma {:induction false} TypeTotalConserved(df: seq<DayRecord>, view: seq<MonthlyRow>, userType: string, val: DayRecord -> int)
    requires forall i :: 0 <= i < |view| && view[i].userType == userType ==>
               view[i].totalUser == SumOf(Group(df, LabelKey, RowLabel(view[i])), val)
    requires forall i, j :: 0 <= i < j < |view| && view[i].userType == userType && view[j].userType == userType
               ==> RowLabel(view[i]) != RowLabel(view[j])
    requires KeySet(df, LabelKey) <= LabelsOf(view, userType)
    ensures TypeTotal(view, userType) == SumOf(df, val)
  {
    forall r | r in df ensures LabelKey(r) in LabelsOf(view, userType) {
      assert LabelKey(r) in KeySet(df, LabelKey);
    }
    TypeTotalOverLabels(df, view, userType, val);
    TypeLabelsDistinct(view, userType);
    PartitionSum(df, LabelKey, val, TypeLabels(view, userType));
  }

  lemma {:induction false} CasualBeforeRegistered()
    ensures StrLess(CASUAL, REGISTERED) && !StrLess(REGISTERED, CASUAL)
  {
  }

  /** What the order of the view implies: rows of one user type have distinct
      labels, Casual rows come first, and when month names are consistent the
      rows are strictly ascending by `(user_type, year, mnth)` alone. */
  lemma {:induction false} MonthlyOrderFacts(df: seq<DayRecord>, view: seq<MonthlyRow>)
    requires forall i, j :: 0 <= i < j < |view| ==> KeyLess(MonthlyKey(view[i]), MonthlyKey(view[j]))
    requires forall i :: 0 <= i < |view| ==> view[i].userType == CASUAL || view[i].userType == REGISTERED
    requires forall i :: 0 <= i < |view| ==> RowLabel(view[i]) in KeySet(df, LabelKey)
    ensures forall i, j :: 0 <= i < j < |view| && view[i].userType == view[j].userType ==>
      RowLabel(view[i]) != RowLabel(view[j])
    ensures forall i, j :: 0 <= i < j < |view| && view[i].userType == REGISTERED ==> view[j].userType == REGISTERED
    ensures MonthNamesConsistent(df) ==>
      forall i, j :: 0 <= i < j < |view| ==> KeyLess(MonthlySortKey(view[i]), MonthlySortKey(view[j]))
  {
    forall i, j | 0 <= i < j < |view| && view[i].userType == view[j].userType
      ensures RowLabel(view[i]) != RowLabel(view[j])
    {
      KeyLessAsymmetric(MonthlyKey(view[i]), MonthlyKey(view[j]));
    }
    forall i, j | 0 <= i < j < |view| && view[i].userType == REGISTERED
      ensures view[j].userType == REGISTERED
    {
      RegisteredNotBeforeCasual(view[i], view[j]);
    }
    if MonthNamesConsistent(df) {
      forall i, j | 0 <= i < j < |view|
        ensures KeyLess(MonthlySortKey(view[i]), MonthlySortKey(view[j]))
      {
        var a, b := view[i], view[j];
        var r :| r in df && LabelKey(r) == RowLabel(a);
        var r' :| r' in df && LabelKey(r') == RowLabel(b);
        KeyLessAsymmetric(MonthlyKey(a), MonthlyKey(b));
        assert MonthlySortKey(a) != MonthlySortKey(b);
        KeyLessPrefix(MonthlySortKey(a), [Text(a.monthYear)], MonthlySortKey(b), [Text(b.monthYear)]);
      }
    }
  }

  lemma {:induction false} RegisteredNotBeforeCasual(a: MonthlyRow, b: MonthlyRow)
    requires KeyLess(MonthlyKey(a), MonthlyKey(b))
    requires a.userType == REGISTERED && (b.userType == CASUAL || b.userType == REGISTERED)
    ensures b.userType == REGISTERED
  {
    CasualBeforeRegistered();
    assert MonthlyKey(a)[0] == Text(REGISTERED) && MonthlyKey(b)[0] == Text(b.userType);
  }

  /** The monthly view as one expression: the two tagged tables of sums,
      concatenated and regrouped. */
  function MonthlyView(df: seq<DayRecord>): seq<MonthlyRow>
  {
    Regroup(Tag(MonthlySums(df, DayCasual), CASUAL) + Tag(MonthlySums(df, DayRegistered), REGISTERED))
  }

  /** `create_byMonth_df` (dashboard.py:10-37). */
  method CreateByMonth(df: seq<DayRecord>) returns (view: seq<MonthlyRow>)
    ensures view == MonthlyView(df)
    // one Casual and one Registered row per month of the input, labelled
    // "<month> <year>" after it
    ensures |view| == 2 * |KeySet(df, MonthKey)|
    ensures df == [] ==> view == []
    ensures forall i :: 0 <= i < |view| ==> view[i].userType == CASUAL || view[i].userType == REGISTERED
    ensures LabelsOf(view, CASUAL) == KeySet(df, LabelKey)
    ensures LabelsOf(view, REGISTERED) == KeySet(df, LabelKey)
    // each row holds the sum over exactly the records of its month
    ensures forall i :: 0 <= i < |view| && view[i].userType == CASUAL ==>
      view[i].totalUser == SumOf(Group(df, LabelKey, RowLabel(view[i])), DayCasual)
    ensures forall i :: 0 <= i < |view| && view[i].userType == REGISTERED ==>
      view[i].totalUser == SumOf(Group(df, LabelKey, RowLabel(view[i])), DayRegistered)
    // order: by (user_type, year, mnth), ties by label; Casual rows first
    ensures forall i, j :: 0 <= i < j < |view| ==> KeyLess(MonthlyKey(view[i]), MonthlyKey(view[j]))
    ensures forall i, j :: 0 <= i < j < |view| && view[i].userType == REGISTERED ==> view[j].userType == REGISTERED
    ensures MonthNamesConsistent(df) ==>
      forall i, j :: 0 <= i < j < |view| ==> KeyLess(MonthlySortKey(view[i]), MonthlySortKey(view[j]))
    // nothing dropped or counted twice
    ensures TypeTotal(view, CASUAL) == SumOf(df, DayCasual)
    ensures TypeTotal(view, REGISTERED) == SumOf(df, DayRegistered)
  {
    var casualRows := Tag(MonthlySums(df, DayCasual), CASUAL);
    var registeredRows := Tag(MonthlySums(df, DayRegistered), REGISTERED);
    var merged := casualRows + registeredRows;
    view := Regroup(merged);
    MonthlyRowsSpec(df, casualRows, registeredRows, view);
    MonthlyOrderFacts(df, view);
    TypeTotalConserved(df, view, CASUAL, DayCasual);
    TypeTotalConserved(df, view, REGISTERED, DayRegistered);
  }

  /** No two rows of the concatenated table share a key: within one user type
      the labels differ, and across the two types the types do. */
  lemma {:induction false} MergedKeysDistinct(df: seq<DayRecord>, casualRows: seq<UserRow>, registeredRows: seq<UserRow>)
    requires casualRows == Tag(MonthlySums(df, DayCasual), CASUAL)
    requires registeredRows == Tag(MonthlySums(df, DayRegistered), REGISTERED)
    ensures forall i, j :: 0 <= i < j < |casualRows + registeredRows| ==>
      UserKey((casualRows + registeredRows)[i]) != UserKey((casualRows + registeredRows)[j])
  {
    var merged := casualRows + registeredRows;
    TagSpec(df, DayCasual, CASUAL, casualRows);
    TagSpec(df, DayRegistered, REGISTERED, registeredRows);
    var n := |casualRows|;
    assert forall j :: 0 <= j < n ==> merged[j] == casualRows[j];
    assert forall j :: n <= j < |merged| ==> merged[j] == registeredRows[j - n];
    forall i, j | 0 <= i < j < |merged| ensures UserKey(merged[i]) != UserKey(merged[j]) {
      assert UserKey(merged[i])[1..] == UserLabel(merged[i]) && UserKey(merged[j])[1..] == UserLabel(merged[j]);
      if j < n {
        assert UserLabel(casualRows[i]) != UserLabel(casualRows[j]);
      } else if n <= i {
        assert UserLabel(registeredRows[i - n]) != UserLabel(registeredRows[j - n]);
      } else {
        assert UserKey(merged[i])[0] != UserKey(merged[j])[0];
      }
    }
  }

  lemma {:induction false} CollapseOfConcat(a: seq<UserRow>, b: seq<UserRow>)
    ensures (set u | u in a + b :: Collapse(u)) == (set u | u in a :: Collapse(u)) + (set u | u in b :: Collapse(u))
  {
    assert forall u :: u in a + b <==> u in a || u in b;
  }

  /** The rows of a view made of two tagged tables carry one of their two types. */
  lemma {:induction false} ViewTypes(view: seq<MonthlyRow>, casualRows: seq<UserRow>, registeredRows: seq<UserRow>)
    requires (set row | row in view) == (set u | u in casualRows :: Collapse(u)) + (set u | u in registeredRows :: Collapse(u))
    requires forall j :: 0 <= j < |casualRows| ==> casualRows[j].userType == CASUAL
    requires forall j :: 0 <= j < |registeredRows| ==> registeredRows[j].userType == REGISTERED
    ensures forall i :: 0 <= i < |view| ==> view[i].userType == CASUAL || view[i].userType == REGISTERED
  {
    forall i | 0 <= i < |view| ensures view[i].userType == CASUAL || view[i].userType == REGISTERED {
      assert view[i] in (set row | row in view);
      var cs, rs := (set u | u in casualRows :: Collapse(u)), (set u | u in registeredRows :: Collapse(u));
      assert view[i] in cs + rs;
      if view[i] in cs {
        var u :| u in casualRows && view[i] == Collapse(u);
        var j :| 0 <= j < |casualRows| && casualRows[j] == u;
      } else {
        var u :| u in registeredRows && view[i] == Collapse(u);
        var j :| 0 <= j < |registeredRows| && registeredRows[j] == u;
      }
    }
  }

  /** What the concatenated, regrouped table says about each row (dashboard.py:32-35). */
  lemma {:induction false} MonthlyRowsSpec(df: seq<DayRecord>, casualRows: seq<UserRow>, registeredRows: seq<UserRow>, view: seq<MonthlyRow>)
    requires casualRows == Tag(MonthlySums(df, DayCasual), CASUAL)
    requires registeredRows == Tag(MonthlySums(df, DayRegistered), REGISTERED)
    requires view == Regroup(casualRows + registeredRows)
    ensures |view| == 2 * |KeySet(df, MonthKey)|
    ensures forall i, j :: 0 <= i < j < |view| ==> KeyLess(MonthlyKey(view[i]), MonthlyKey(view[j]))
    ensures forall i :: 0 <= i < |view| ==> view[i].userType == CASUAL || view[i].userType == REGISTERED
    ensures LabelsOf(view, CASUAL) == KeySet(df, LabelKey)
    ensures LabelsOf(view, REGISTERED) == KeySet(df, LabelKey)
    ensures forall i :: 0 <= i < |view| && view[i].userType == CASUAL ==>
      view[i].totalUser == SumOf(Group(df, LabelKey, RowLabel(view[i])), DayCasual)
    ensures forall i :: 0 <= i < |view| && view[i].userType == REGISTERED ==>
      view[i].totalUser == SumOf(Group(df, LabelKey, RowLabel(view[i])), DayRegistered)
  {
    TagSpec(df, DayCasual, CASUAL, casualRows);
    TagSpec(df, DayRegistered, REGISTERED, registeredRows);
    MergedKeysDistinct(df, casualRows, registeredRows);
    RegroupSpec(casualRows + registeredRows);
    CollapseOfConcat(casualRows, registeredRows);
    RegroupedType(df, DayCasual, CASUAL, view, casualRows, registeredRows);
    RegroupedType(df, DayRegistered, REGISTERED, view, registeredRows, casualRows);
    ViewTypes(view, casualRows, registeredRows);
  }

  // ---------------------------------------------------------------------
  // Mean rentals per season, per working weekday and per hour
  // ---------------------------------------------------------------------

  /** A row of a mean view: the group key (which `reset_index` turns back into
      the key columns) and the means of `casual`, `registered` and `cnt`. */
  datatype MeanRow = MeanRow(key: Key, casual: real, registered: real, cnt: real)

  /** The row of the group with key `k`. */
  function MeanRowOf<R(!new)>(rs: seq<R>, key: R -> Key, casual: R -> int, registered: R -> int, cnt: R -> int, k: Key): MeanRow
  {
    var g := Group(rs, key, k);
    MeanRow(k, Mean(g, casual), Mean(g, registered), Mean(g, cnt))
  }

  /** `rs.groupby(by=key).agg({"casual": "mean", "registered": "mean", "cnt": "mean"})`,
      one row per group in ascending key order. */
  function MeanView<R(!new)>(rs: seq<R>, key: R -> Key, casual: R -> int, registered: R -> int, cnt: R -> int): seq<MeanRow>
  {
    var ks := GroupKeys(rs, key);
    seq(|ks|, i requires 0 <= i < |ks| => MeanRowOf(rs, key, casual, registered, cnt, ks[i]))
  }

  /** The keys of the rows of a view. */
  function ViewKeys(view: seq<MeanRow>): set<Key>
  {
    set row | row in view :: row.key
  }

  /** `m` is the mean of `val` over the non-empty group `g`: times the group's
      size it is the group's sum, and it lies between the group's extremes. */
  ghost predicate IsMeanOf<R(!new)>(m: real, g: seq<R>, val: R -> int)
  {
    g != [] &&
    m * (|g| as real) == SumOf(g, val) as real &&
    MinOf(g, val) as real <= m <= MaxOf(g, val) as real
  }

  /** The three means of `row` are those of the group `g`. */
  ghost predicate MeansOfGroup<R(!new)>(row: MeanRow, g: seq<R>, casual: R -> int, registered: R -> int, cnt: R -> int)
  {
    IsMeanOf(row.casual, g, casual) && IsMeanOf(row.registered, g, registered) && IsMeanOf(row.cnt, g, cnt)
  }

  lemma {:induction false} MeanIsMeanOf<R(!new)>(g: seq<R>, val: R -> int)
    requires g != []
    ensures IsMeanOf(Mean(g, val), g, val)
  {
    MeanTimesCount(g, val);
    MeanWithinGroup(g, val);
  }

  /** A mean view has one row per key that occurs, strictly ascending by key. */
  lemma {:induction false} MeanViewKeys<R(!new)>(rs: seq<R>, key: R -> Key, casual: R -> int, registered: R -> int, cnt: R -> int)
    ensures |MeanView(rs, key, casual, registered, cnt)| == |KeySet(rs, key)|
    ensures ViewKeys(MeanView(rs, key, casual, registered, cnt)) == KeySet(rs, key)
    ensures forall i, j :: 0 <= i < j < |MeanView(rs, key, casual, registered, cnt)| ==>
      KeyLess(MeanView(rs, key, casual, registered, cnt)[i].key, MeanView(rs, key, casual, registered, cnt)[j].key)
    ensures rs == [] ==> MeanView(rs, key, casual, registered, cnt) == []
  {
    var ks, view := GroupKeys(rs, key), MeanView(rs, key, casual, registered, cnt);
    GroupKeysSpec(rs, key);
    assert forall i :: 0 <= i < |view| ==> view[i].key == ks[i];
    forall k | k in ViewKeys(view) ensures k in KeySet(rs, key) {
      var row :| row in view && row.key == k;
      var i :| 0 <= i < |view| && view[i] == row;
    }
    forall k | k in KeySet(rs, key) ensures k in ViewKeys(view) {
      var i :| 0 <= i < |ks| && ks[i] == k;
      assert view[i] in view;
    }
  }

  /** Each row of a mean view holds the means of its group, which is not empty. */
  lemma {:induction false} MeanViewMeans<R(!new)>(rs: seq<R>, key: R -> Key, casual: R -> int, registered: R -> int, cnt: R -> int, i: int)
    requires 0 <= i < |MeanView(rs, key, casual, registered, cnt)|
    ensures var row := MeanView(rs, key, casual, registered, cnt)[i];
      MeansOfGroup(row, Group(rs, key, row.key), casual, registered, cnt)
  {
    var ks := GroupKeys(rs, key);
    GroupKeysSpec(rs, key);
    var g := Group(rs, key, ks[i]);
    MeanIsMeanOf(g, casual);
    MeanIsMeanOf(g, registered);
    MeanIsMeanOf(g, cnt);
  }

  /** True when the name column is a function of the number column over `rs`,
      as the season and weekday names are for calendar data. */
  ghost predicate NamesConsistent<R(!new)>(rs: seq<R>, key: R -> Key)
  {
    forall r, r' :: r in rs && r' in rs && key(r) != [] && key(r') != [] && key(r)[0] == key(r')[0] ==> key(r) == key(r')
  }

  /** The leading number of the key of a row. */
  function Leading(row: MeanRow): int
  {
    NumAt(row.key, 0)
  }

  /** A view whose keys are `[number, name]` pairs of the records is ascending by
      the number, and strictly so when the names are consistent. */
  lemma {:induction false} ViewByLeadingNumber<R(!new)>(rs: seq<R>, key: R -> Key, view: seq<MeanRow>)
    requires forall r :: r in rs ==> |key(r)| == 2 && key(r)[0].Num?
    requires ViewKeys(view) == KeySet(rs, key)
    requires forall i, j :: 0 <= i < j < |view| ==> KeyLess(view[i].key, view[j].key)
    ensures forall i, j :: 0 <= i < j < |view| ==> Leading(view[i]) <= Leading(view[j])
    ensures NamesConsistent(rs, key) ==> forall i, j :: 0 <= i < j < |view| ==> Leading(view[i]) < Leading(view[j])
  {
    forall i, j | 0 <= i < j < |view|
      ensures Leading(view[i]) <= Leading(view[j])
      ensures NamesConsistent(rs, key) ==> Leading(view[i]) < Leading(view[j])
    {
      var a, b := view[i].key, view[j].key;
      assert view[i] in view && view[j] in view;
      assert a in ViewKeys(view) && b in ViewKeys(view);
      var r :| r in rs && key(r) == a;
      var r' :| r' in rs && key(r') == b;
      KeyLessLeadingNum(a, b);
      KeyLessAsymmetric(a, b);
    }
  }

  /** The key of `groupby(by=["season","seasonStr"])`. */
  function SeasonKey(r: DayRecord): Key
  {
    [Num(r.season), Text(r.seasonStr)]
  }

  /** `create_bySeason_df` (dashboard.py:39-47). `sort_values(by="season")`
      leaves rows that are already ascending by key as they are. */
  function CreateBySeason(df: seq<DayRecord>): seq<MeanRow>
  {
    MeanView(df, SeasonKey, DayCasual, DayRegistered, DayCnt)
  }

  /** One row per season (and name) present, ascending by season, strictly when
      each season has one name; none for an empty input. */
  lemma {:induction false} CreateBySeasonSpec(df: seq<DayRecord>)
    ensures |CreateBySeason(df)| == |KeySet(df, SeasonKey)|
    ensures ViewKeys(CreateBySeason(df)) == KeySet(df, SeasonKey)
    ensures forall i, j :: 0 <= i < j < |CreateBySeason(df)| ==> Leading(CreateBySeason(df)[i]) <= Leading(CreateBySeason(df)[j])
    ensures NamesConsistent(df, SeasonKey) ==>
      forall i, j :: 0 <= i < j < |CreateBySeason(df)| ==> Leading(CreateBySeason(df)[i]) < Leading(CreateBySeason(df)[j])
    ensures df == [] ==> CreateBySeason(df) == []
  {
    MeanViewKeys(df, SeasonKey, DayCasual, DayRegistered, DayCnt);
    ViewByLeadingNumber(df, SeasonKey, CreateBySeason(df));
  }

  /** Each season row holds the means over exactly that season's records. */
  lemma {:induction false} CreateBySeasonMeans(df: seq<DayRecord>, i: int)
    requires 0 <= i < |CreateBySeason(df)|
    ensures MeansOfGroup(CreateBySeason(df)[i], Group(df, SeasonKey, CreateBySeason(df)[i].key), DayCasual, DayRegistered, DayCnt)
  {
    MeanViewMeans(df, SeasonKey, DayCasual, DayRegistered, DayCnt, i);
  }

  /** `df.query("holiday==0")`: the records of working days, in order. */
  function WorkingDays(df: seq<DayRecord>): (w: seq<DayRecord>)
    ensures forall r {:trigger r in w} :: r in w <==> r in df && r.holiday == 0
  {
    if df == [] then []
    else
      assert forall r :: r in df <==> r == df[0] || r in df[1..];
      (if df[0].holiday == 0 then [df[0]] else []) + WorkingDays(df[1..])
  }

  /** The filter keeps every copy of a working day: a record occurs in the
      result exactly as often as in `df` when `holiday == 0`, and not at all
      otherwise. */
  lemma {:induction false} WorkingDaysMultiset(df: seq<DayRecord>)
    ensures forall r :: multiset(WorkingDays(df))[r] == (if r.holiday == 0 then multiset(df)[r] else 0)
  {
    if df != [] {
      WorkingDaysMultiset(df[1..]);
      assert df == [df[0]] + df[1..];
    }
  }

  lemma {:induction false} WorkingDaysConcat(a: seq<DayRecord>, b: seq<DayRecord>)
    ensures WorkingDays(a + b) == WorkingDays(a) + WorkingDays(b)
  {
    if a != [] {
      assert (a + b)[1..] == a[1..] + b;
      WorkingDaysConcat(a[1..], b);
    } else {
      assert a + b == b;
    }
  }

  /** The key of `groupby(by=["weekday","dayName"])`. */
  function WeekdayKey(r: DayRecord): Key
  {
    [Num(r.weekday), Text(r.dayName)]
  }

  /** `create_byWorkingday_df` (dashboard.py:49-57). */
  function CreateByWorkingday(df: seq<DayRecord>): seq<MeanRow>
  {
    MeanView(WorkingDays(df), WeekdayKey, DayCasual, DayRegistered, DayCnt)
  }

  /** One row per weekday (and name) that has a working day in `df`, and none
      for a weekday whose records are all holidays; ascending by weekday. */
  lemma {:induction false} CreateByWorkingdaySpec(df: seq<DayRecord>)
    ensures |CreateByWorkingday(df)| == |KeySet(WorkingDays(df), WeekdayKey)|
    ensures ViewKeys(CreateByWorkingday(df)) == (set r | r in df && r.holiday == 0 :: WeekdayKey(r))
    ensures forall i, j :: 0 <= i < j < |CreateByWorkingday(df)| ==>
      Leading(CreateByWorkingday(df)[i]) <= Leading(CreateByWorkingday(df)[j])
    ensures NamesConsistent(WorkingDays(df), WeekdayKey) ==>
      forall i, j :: 0 <= i < j < |CreateByWorkingday(df)| ==>
        Leading(CreateByWorkingday(df)[i]) < Leading(CreateByWorkingday(df)[j])
    ensures (forall r :: r in df ==> r.holiday != 0) ==> CreateByWorkingday(df) == []
  {
    var w := WorkingDays(df);
    MeanViewKeys(w, WeekdayKey, DayCasual, DayRegistered, DayCnt);
    assert KeySet(w, WeekdayKey) == (set r | r in df && r.holiday == 0 :: WeekdayKey(r));
    ViewByLeadingNumber(w, WeekdayKey, CreateByWorkingday(df));
    assert w != [] ==> w[0] in w;
  }

  /** Each weekday row holds the means over exactly that weekday's working days. */
  lemma {:induction false} CreateByWorkingdayMeans(df: seq<DayRecord>, i: int)
    requires 0 <= i < |CreateByWorkingday(df)|
    ensures var row := CreateByWorkingday(df)[i];
      var g := Group(WorkingDays(df), WeekdayKey, row.key);
      MeansOfGroup(row, g, DayCasual, DayRegistered, DayCnt) &&
      forall r :: r in g <==> r in df && r.holiday == 0 && WeekdayKey(r) == row.key
  {
    MeanViewMeans(WorkingDays(df), WeekdayKey, DayCasual, DayRegistered, DayCnt, i);
  }

  /** A holiday record changes nothing in the weekday view, wherever it is. */
  lemma {:induction false} HolidayIgnored(a: seq<DayRecord>, h: DayRecord, b: seq<DayRecord>)
    requires h.holiday != 0
    ensures CreateByWorkingday(a + [h] + b) == CreateByWorkingday(a + b)
  {
    WorkingDaysConcat(a + [h], b);
    WorkingDaysConcat(a, [h]);
    WorkingDaysConcat(a, b);
    assert [h][1..] == [];
    assert WorkingDays([h]) == [];
    assert WorkingDays(a) + [] == WorkingDays(a);
    assert WorkingDays(a + [h] + b) == WorkingDays(a + b);
  }

  /** The key of `groupby(by=["hr"])`. */
  function HourKey(r: HourRecord): Key
  {
    [Num(r.hr)]
  }

  /** `create_byHourly_df` (dashboard.py:59-67). */
  function CreateByHourly(hs: seq<HourRecord>): seq<MeanRow>
  {
    MeanView(hs, HourKey, HourCasual, HourRegistered, HourCnt)
  }

  /** One row per hour present, strictly ascending by hour; none for an empty input. */
  lemma {:induction false} CreateByHourlySpec(hs: seq<HourRecord>)
    ensures |CreateByHourly(hs)| == |KeySet(hs, HourKey)|
    ensures ViewKeys(CreateByHourly(hs)) == KeySet(hs, HourKey)
    ensures forall i, j :: 0 <= i < j < |CreateByHourly(hs)| ==> Leading(CreateByHourly(hs)[i]) < Leading(CreateByHourly(hs)[j])
    ensures hs == [] ==> CreateByHourly(hs) == []
  {
    var view := CreateByHourly(hs);
    MeanViewKeys(hs, HourKey, HourCasual, HourRegistered, HourCnt);
    forall i, j | 0 <= i < j < |view| ensures Leading(view[i]) < Leading(view[j]) {
      var a, b := view[i].key, view[j].key;
      assert view[i] in view && view[j] in view;
      assert a in ViewKeys(view) && b in ViewKeys(view);
      var r :| r in hs && HourKey(r) == a;
      var r' :| r' in hs && HourKey(r') == b;
      KeyLessLeadingNum(a, b);
      KeyLessAsymmetric(a, b);
    }
  }

  /** Each hour row holds the means over exactly that hour's records. */
  lemma {:induction false} CreateByHourlyMeans(hs: seq<HourRecord>, i: int)
    requires 0 <= i < |CreateByHourly(hs)|
    ensures MeansOfGroup(CreateByHourly(hs)[i], Group(hs, HourKey, CreateByHourly(hs)[i].key), HourCasual, HourRegistered, HourCnt)
  {
    MeanViewMeans(hs, HourKey, HourCasual, HourRegistered, HourCnt, i);
  }
  /** Two January 2024 days, (casual 10, registered 40) and (casual 20,
      registered 60), give one Casual row of 30 and one Registered row of 100. */
  lemma {:induction false} MonthlyExample()
    ensures var d1 := DayRecord(2024, 1, "January", 1, "Springer", 1, "Monday", 0, 10, 40, 50);
            var d2 := DayRecord(2024, 1, "January", 1, "Springer", 2, "Tuesday", 0, 20, 60, 80);
            var df := [d1, d2];
            MonthlyView(df) == [MonthlyRow(CASUAL, 2024, 1, "January 2024", 30), MonthlyRow(REGISTERED, 2024, 1, "January 2024", 100)]
  {
    var d1 := DayRecord(2024, 1, "January", 1, "Springer", 1, "Monday", 0, 10, 40, 50);
    var d2 := DayRecord(2024, 1, "January", 1, "Springer", 2, "Tuesday", 0, 20, 60, 80);
    var df := [d1, d2];
    var k := MonthKey(d1);
    assert [d1, d2][1..] == [d2];
    assert GroupKeys([d2], MonthKey) == [k];
    assert GroupKeys(df, MonthKey) == [k];
    assert Group(df, MonthKey, k) == [d1, d2];
    assert Digits(2024) == "2024" by {
      assert Digits(2) == "2";
      assert Digits(20) == "20";
      assert Digits(202) == "202";
    }
    assert MonthYear("January", 2024) == "January 2024";
    assert SumOf([d2], DayCasual) == 20 && SumOf([d2], DayRegistered) == 60;
    assert MonthSumOf(df, DayCasual, k) == MonthSum(2024, 1, "January", 30);
    assert MonthSumOf(df, DayRegistered, k) == MonthSum(2024, 1, "January", 100);
    assert MonthlySums(df, DayCasual) == [MonthSum(2024, 1, "January", 30)];
    assert MonthlySums(df, DayRegistered) == [MonthSum(2024, 1, "January", 100)];
    var c := Tag(MonthlySums(df, DayCasual), CASUAL);
    var r := Tag(MonthlySums(df, DayRegistered), REGISTERED);
    assert c == [UserRow(2024, 1, "January", 30, CASUAL, "January 2024")];
    assert r == [UserRow(2024, 1, "January", 100, REGISTERED, "January 2024")];
    var merged := c + r;
    var kc, kr := UserKey(merged[0]), UserKey(merged[1]);
    assert merged[1..] == r;
    assert GroupKeys(r, UserKey) == [kr];
    assert KeyLess(kc, kr);
    assert GroupKeys(merged, UserKey) == [kc, kr];
    assert Group(merged, UserKey, kc) == [merged[0]];
    assert Group(merged, UserKey, kr) == [merged[1]];
    SumOfSingleton(merged[0], UserTotal);
    SumOfSingleton(merged[1], UserTotal);
    assert RegroupRow(merged, kc) == MonthlyRow(CASUAL, 2024, 1, "January 2024", 30);
    assert RegroupRow(merged, kr) == MonthlyRow(REGISTERED, 2024, 1, "January 2024", 100);
  }

  /** Three Monday records that are all holidays give no Monday row; a
      working Tuesday gives the only row. */
  lemma {:induction false} WeekdayHolidayExample()
    ensures var m1 := DayRecord(2024, 1, "January", 1, "Springer", 1, "Monday", 1, 10, 40, 50);
            var m2 := DayRecord(2024, 1, "January", 1, "Springer", 1, "Monday", 1, 11, 41, 52);
            var m3 := DayRecord(2024, 1, "January", 1, "Springer", 1, "Monday", 1, 12, 42, 54);
            var t := DayRecord(2024, 1, "January", 1, "Springer", 2, "Tuesday", 0, 20, 60, 80);
            var view := CreateByWorkingday([m1, m2, m3, t]);
            |view| == 1 && view[0].key == [Num(2), Text("Tuesday")] &&
            forall row :: row in view ==> row.key != [Num(1), Text("Monday")]
  {
    var m1 := DayRecord(2024, 1, "January", 1, "Springer", 1, "Monday", 1, 10, 40, 50);
    var m2 := DayRecord(2024, 1, "January", 1, "Springer", 1, "Monday", 1, 11, 41, 52);
    var m3 := DayRecord(2024, 1, "January", 1, "Springer", 1, "Monday", 1, 12, 42, 54);
    var t := DayRecord(2024, 1, "January", 1, "Springer", 2, "Tuesday", 0, 20, 60, 80);
    var df := [m1, m2, m3, t];
    assert df[1..] == [m2, m3, t] && df[1..][1..] == [m3, t] && df[1..][1..][1..] == [t];
    assert [t][1..] == [];
    assert WorkingDays([t]) == [t];
    assert WorkingDays([m3, t]) == [] + WorkingDays([t]) == [t];
    assert WorkingDays([m2, m3, t]) == [] + WorkingDays([m3, t]) == [t];
    assert WorkingDays(df) == [] + WorkingDays([m2, m3, t]) == [t];
    assert GroupKeys([t], WeekdayKey) == [[Num(2), Text("Tuesday")]];
  }

  /** Identical hourly records all count: two copies of one 4 o'clock record
      with registered 1 and one with registered 4 give a registered mean of 2,
      not the 2.5 of the distinct records. */
  lemma {:induction false} HourlyDuplicateExample()
    ensures var h := HourRecord(4, 0, 1, 1);
            var h2 := HourRecord(4, 0, 4, 4);
            CreateByHourly([h, h, h2]) == [MeanRow([Num(4)], 0.0, 2.0, 2.0)]
  {
    var h := HourRecord(4, 0, 1, 1);
    var h2 := HourRecord(4, 0, 4, 4);
    var hs := [h, h, h2];
    assert hs[1..] == [h, h2] && hs[1..][1..] == [h2] && [h2][1..] == [];
    assert GroupKeys([h2], HourKey) == [[Num(4)]];
    assert GroupKeys([h, h2], HourKey) == [[Num(4)]];
    assert GroupKeys(hs, HourKey) == [[Num(4)]];
    assert Group([h2], HourKey, [Num(4)]) == [h2];
    assert Group([h, h2], HourKey, [Num(4)]) == [h, h2];
    assert Group(hs, HourKey, [Num(4)]) == hs;
    SumOfSingleton(h2, HourRegistered);
    SumOfSingleton(h2, HourCnt);
    SumOfSingleton(h2, HourCasual);
    assert SumOf([h, h2], HourRegistered) == 5 && SumOf([h, h2], HourCnt) == 5 && SumOf([h, h2], HourCasual) == 0;
    assert SumOf(hs, HourRegistered) == 6 && SumOf(hs, HourCnt) == 6 && SumOf(hs, HourCasual) == 0;
  }
}
