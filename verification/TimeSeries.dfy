/** Time-stamped values and the stable sort by time. */
module TimeSeries {
  datatype Stamped<+T> = Stamped(time: real, value: T)

  ghost predicate Ascending<T>(s: seq<Stamped<T>>) {
    forall i, j :: 0 <= i <= j < |s| ==> s[i].time <= s[j].time
  }

  /** x goes after every value that is not later. */
  function InsertByTime<T>(s: seq<Stamped<T>>, x: Stamped<T>): (r: seq<Stamped<T>>)
    ensures |r| == |s| + 1
  {
    if s == [] then [x]
    else if s[|s| - 1].time <= x.time then s + [x]
    else InsertByTime(s[..|s| - 1], x) + [s[|s| - 1]]
  }

  function SortByTime<T>(s: seq<Stamped<T>>): (r: seq<Stamped<T>>)
    ensures |r| == |s|
  {
    if s == [] then [] else InsertByTime(SortByTime(s[..|s| - 1]), s[|s| - 1])
  }

  /** The values stamped t, in their order. */
  ghost function AtTime<T>(s: seq<Stamped<T>>, t: real): seq<Stamped<T>> {
    if s == [] then [] else AtTime(s[..|s| - 1], t) + (if s[|s| - 1].time == t then [s[|s| - 1]] else [])
  }

  lemma {:induction false} InsertKeepsValues<T>(s: seq<Stamped<T>>, x: Stamped<T>)
    ensures multiset(InsertByTime(s, x)) == multiset(s) + multiset{x}
  {
    if s != [] && x.time < s[|s| - 1].time {
      var n := |s| - 1;
      InsertKeepsValues(s[..n], x);
      assert s == s[..n] + [s[n]];
    }
  }

  lemma {:induction false} InsertSorted<T>(s: seq<Stamped<T>>, x: Stamped<T>)
    requires Ascending(s)
    ensures Ascending(InsertByTime(s, x))
  {
    if s != [] && x.time < s[|s| - 1].time {
      var n := |s| - 1;
      InsertSorted(s[..n], x);
      var r := InsertByTime(s[..n], x);
      forall i | 0 <= i < |r| ensures r[i].time <= s[n].time {
        InsertKeepsValues(s[..n], x);
        assert r[i] in multiset(r);
        assert r[i] == x || r[i] in s[..n];
      }
    }
  }

  lemma {:induction false} NoneBefore<T>(s: seq<Stamped<T>>, t: real)
    requires Ascending(s) && (s == [] || s[|s| - 1].time < t)
    ensures AtTime(s, t) == []
  {
    if s != [] { NoneBefore(s[..|s| - 1], t); }
  }

  lemma {:induction false} InsertKeepsOrder<T>(s: seq<Stamped<T>>, x: Stamped<T>, t: real)
    requires Ascending(s)
    ensures AtTime(InsertByTime(s, x), t) == AtTime(s, t) + (if x.time == t then [x] else [])
  {
    if s != [] {
      var n := |s| - 1;
      if s[n].time <= x.time {
        assert (s + [x])[..n + 1] == s;
      } else {
        InsertKeepsOrder(s[..n], x, t);
        var r := InsertByTime(s[..n], x);
        assert (r + [s[n]])[..n + 1] == r;
      }
    }
  }

  /** Sorting keeps the values of every time in their order, which pins the result down. */
  lemma {:induction false} SortIsStable<T>(s: seq<Stamped<T>>)
    ensures Ascending(SortByTime(s))
    ensures forall t :: AtTime(SortByTime(s), t) == AtTime(s, t)
  {
    if s != [] {
      var n := |s| - 1;
      SortIsStable(s[..n]);
      InsertSorted(SortByTime(s[..n]), s[n]);
      forall t ensures AtTime(SortByTime(s), t) == AtTime(s, t) {
        InsertKeepsOrder(SortByTime(s[..n]), s[n], t);
      }
    }
  }

  lemma {:induction false} SortKeepsValues<T>(s: seq<Stamped<T>>)
    ensures multiset(SortByTime(s)) == multiset(s)
  {
    if s != [] {
      var n := |s| - 1;
      SortKeepsValues(s[..n]);
      InsertKeepsValues(SortByTime(s[..n]), s[n]);
      assert s == s[..n] + [s[n]];
    }
  }

  lemma {:induction false} SortOfSorted<T>(s: seq<Stamped<T>>)
    requires Ascending(s)
    ensures SortByTime(s) == s
  {
    if s != [] {
      var n := |s| - 1;
      SortOfSorted(s[..n]);
      assert n == 0 || s[..n][n - 1].time <= s[n].time;
      assert s == s[..n] + [s[n]];
    }
  }
}
