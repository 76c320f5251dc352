/** The month selector's options: every distinct "YYYY-MM" prefix of a non-blank
    received timestamp, in ascending string order. */
module Months {
  import opened Records
  import opened Strings

  /** `dateTimeReceivedQC.substring(0, 7)`: "YYYY-MM" of a well-formed timestamp. */
  function MonthKey(text: string): (key: string)
    ensures |key| == if |text| < 7 then |text| else 7
    ensures StartsWith(text, key)
  {
    Take(text, 7)
  }

  /** The months the records were received in: one key per record whose received
      field is not blank. */
  ghost function MonthKeys(items: seq<Item>): set<string>
  {
    set i | 0 <= i < |items| && items[i].fields.received.text != "" :: MonthKey(items[i].fields.received.text)
  }

  predicate StrictlyAscending(s: seq<string>)
  {
    forall i, j :: 0 <= i < j < |s| ==> LexLess(s[i], s[j])
  }

  /** Adds a month to an ascending option list unless it is already there. */
  function AddMonth(m: string, s: seq<string>): (r: seq<string>)
    requires StrictlyAscending(s)
    ensures StrictlyAscending(r)
    ensures forall y :: y in r <==> y in s || y == m
  {
    if s == [] then [m]
    else if m == s[0] then s
    else if LexLess(m, s[0]) then
      assert forall j :: 0 < j < |s| ==> LexLess(m, s[j]) by {
        forall j | 0 < j < |s| {
          LexLessTransitive(m, s[0], s[j]);
        }
      }
      [m] + s
    else
      LexLessTotal(m, s[0]);
      var rest := AddMonth(m, s[1..]);
      assert forall y :: y in s[1..] ==> LexLess(s[0], y);
      assert forall j :: 0 <= j < |rest| ==> LexLess(s[0], rest[j]);
      assert s == [s[0]] + s[1..];
      [s[0]] + rest
  }

  /** `populateMonthFilter`: collects the months record by record, then sorts them. */
  function MonthOptions(items: seq<Item>): (r: seq<string>)
    ensures StrictlyAscending(r)
    ensures forall m :: m in r <==> m in MonthKeys(items)
  {
    if items == [] then []
    else
      var n := |items| - 1;
      var prior := MonthOptions(items[..n]);
      assert forall i :: 0 <= i < n ==> items[..n][i] == items[i];
      assert forall m :: m in MonthKeys(items) <==> (m in MonthKeys(items[..n]) ||
        (items[n].fields.received.text != "" && m == MonthKey(items[n].fields.received.text)));
      var text := items[n].fields.received.text;
      if text != "" then AddMonth(MonthKey(text), prior) else prior
  }

  /** An ascending option list holds no month twice. */
  lemma AscendingHasNoDuplicates(s: seq<string>)
    requires StrictlyAscending(s)
    ensures forall i, j :: 0 <= i < j < |s| ==> s[i] != s[j]
  {
    forall i, j | 0 <= i < j < |s|
      ensures s[i] != s[j]
    {
      LexLessIrreflexive(s[i]);
    }
  }

  /** Two ascending lists of the same months are the same list: the options do not
      depend on the order in which the records were scanned. */
  lemma {:induction false} AscendingUnique(a: seq<string>, b: seq<string>)
    requires StrictlyAscending(a) && StrictlyAscending(b)
    requires forall m :: m in a <==> m in b
    ensures a == b
  {
    assert a != [] ==> a[0] in b;
    assert b != [] ==> b[0] in a;
    if a != [] && b != [] {
      if a[0] != b[0] {
        assert a[0] in b && b[0] in a;
        var i :| 0 <= i < |a| && a[i] == b[0];
        var j :| 0 <= j < |b| && b[j] == a[0];
        assert LexLess(a[0], b[0]);
        assert LexLess(b[0], a[0]);
        LexLessAsymmetric(a[0], b[0]);
        assert false;
      }
      AscendingHasNoDuplicates(a);
      AscendingHasNoDuplicates(b);
      assert forall m :: m in a[1..] <==> m in a && m != a[0] by {
        assert a == [a[0]] + a[1..];
        forall m | m in a[1..] ensures m != a[0] {
          LexLessIrreflexive(a[0]);
        }
      }
      assert forall m :: m in b[1..] <==> m in b && m != b[0] by {
        assert b == [b[0]] + b[1..];
        forall m | m in b[1..] ensures m != b[0] {
          LexLessIrreflexive(b[0]);
        }
      }
      AscendingUnique(a[1..], b[1..]);
      assert a == [a[0]] + a[1..] && b == [b[0]] + b[1..];
    }
  }

  /** The months depend only on which records are stored, not on their order. */
  lemma MonthKeysOfPermutation(a: seq<Item>, b: seq<Item>)
    requires multiset(a) == multiset(b)
    ensures MonthKeys(a) == MonthKeys(b)
  {
    forall m | m in MonthKeys(a) ensures m in MonthKeys(b) {
      var i :| 0 <= i < |a| && a[i].fields.received.text != "" && m == MonthKey(a[i].fields.received.text);
      assert a[i] in multiset(b);
      var j :| 0 <= j < |b| && b[j] == a[i];
    }
    forall m | m in MonthKeys(b) ensures m in MonthKeys(a) {
      var j :| 0 <= j < |b| && b[j].fields.received.text != "" && m == MonthKey(b[j].fields.received.text);
      assert b[j] in multiset(a);
      var i :| 0 <= i < |a| && a[i] == b[j];
    }
  }
}
