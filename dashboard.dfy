/**
  The figures `buildDashboard` derives from the day's records: the summary
  numbers, the per-category totals behind the pie chart, the copy sorted by
  duration behind the bar chart, and the textual timeline.
 */
module Dashboard {
  import opened Activities
  import opened Text

  // ---------------------------------------------------------------------
  // Categories
  // ---------------------------------------------------------------------

  /** `new Set(activities.map(a => a.category))`: the set built by adding
      each record's category in turn. */
  function Categories(s: seq<Activity>): set<string>
  {
    if s == [] then {} else Categories(s[..|s| - 1]) + {s[|s| - 1].category}
  }

  /** `[...new Set(...)].length`: the number of distinct categories. */
  function CategoryCount(s: seq<Activity>): nat
  {
    |Categories(s)|
  }

  /** The records of one category, in their original order. */
  function OfCategory(s: seq<Activity>, k: string): seq<Activity>
  {
    if s == [] then []
    else OfCategory(s[..|s| - 1], k) + (if s[|s| - 1].category == k then [s[|s| - 1]] else [])
  }

  /** The categories in order of first appearance: the order in which
      `catMap` acquires its keys, hence the order of `Object.keys(catMap)`. */
  function FirstAppearances(s: seq<Activity>): seq<string>
  {
    if s == [] then []
    else
      var seen := FirstAppearances(s[..|s| - 1]);
      if s[|s| - 1].category in seen then seen else seen + [s[|s| - 1].category]
  }

  predicate Distinct(xs: seq<string>)
  {
    forall i, j :: 0 <= i < j < |xs| ==> xs[i] != xs[j]
  }

  /** The set of a list's entries. */
  function ElementsOf(xs: seq<string>): set<string>
  {
    if xs == [] then {} else ElementsOf(xs[..|xs| - 1]) + {xs[|xs| - 1]}
  }

  lemma CategoriesAppend(s: seq<Activity>, a: Activity)
    ensures Categories(s + [a]) == Categories(s) + {a.category}
  {
    assert (s + [a])[..|s|] == s;
  }

  /** A category is in the set exactly when some record has it. */
  lemma {:induction false} CategoriesMembership(s: seq<Activity>, k: string)
    ensures k in Categories(s) <==> exists i :: 0 <= i < |s| && s[i].category == k
  {
    if s != [] {
      var init := s[..|s| - 1];
      CategoriesMembership(init, k);
      if k in Categories(init) {
        var i :| 0 <= i < |init| && init[i].category == k;
        assert s[i] == init[i];
      } else if k != s[|s| - 1].category {
        forall i | 0 <= i < |s| ensures s[i].category != k {
          if i < |init| { assert s[i] == init[i]; }
        }
      }
    }
  }

  lemma {:induction false} ElementsOfMembership(xs: seq<string>)
    ensures forall k :: k in ElementsOf(xs) <==> k in xs
  {
    if xs != [] {
      ElementsOfMembership(xs[..|xs| - 1]);
      assert xs == xs[..|xs| - 1] + [xs[|xs| - 1]];
    }
  }

  lemma {:induction false} DistinctCardinality(xs: seq<string>)
    requires Distinct(xs)
    ensures |ElementsOf(xs)| == |xs|
  {
    if xs != [] {
      var init := xs[..|xs| - 1];
      DistinctCardinality(init);
      ElementsOfMembership(init);
      assert xs[|xs| - 1] !in init;
    }
  }

  /** The keys appear once each and are exactly the categories of the day. */
  lemma {:induction false} FirstAppearancesSpec(s: seq<Activity>)
    ensures Distinct(FirstAppearances(s))
    ensures forall k :: k in FirstAppearances(s) <==> k in Categories(s)
  {
    if s != [] {
      var init := s[..|s| - 1];
      var a := s[|s| - 1];
      var seen := FirstAppearances(init);
      FirstAppearancesSpec(init);
      if a.category !in seen {
        var fa := seen + [a.category];
        forall i, j | 0 <= i < j < |fa| ensures fa[i] != fa[j] {
          if j < |seen| { assert fa[i] == seen[i] && fa[j] == seen[j]; }
          else { assert fa[i] == seen[i]; }
        }
      }
    }
  }

  /** As many keys as distinct categories. */
  lemma FirstAppearancesCount(s: seq<Activity>)
    ensures |FirstAppearances(s)| == CategoryCount(s)
  {
    var fa := FirstAppearances(s);
    FirstAppearancesSpec(s);
    DistinctCardinality(fa);
    ElementsOfMembership(fa);
    assert ElementsOf(fa) == Categories(s);
  }

  /** No record of a category outside the day. */
  lemma {:induction false} OfCategoryAbsent(s: seq<Activity>, k: string)
    requires k !in Categories(s)
    ensures OfCategory(s, k) == []
  {
    if s != [] {
      OfCategoryAbsent(s[..|s| - 1], k);
    }
  }

  lemma OfCategoryAppend(s: seq<Activity>, a: Activity, k: string)
    ensures Total(OfCategory(s + [a], k)) == Total(OfCategory(s, k)) + (if a.category == k then a.minutes else 0)
  {
    assert (s + [a])[..|s|] == s;
    if a.category == k {
      TotalAppend(OfCategory(s, k), [a]);
      assert Total([a]) == a.minutes;
    } else {
      assert OfCategory(s + [a], k) == OfCategory(s, k);
    }
  }

  // ---------------------------------------------------------------------
  // The pie chart: `catMap`
  // ---------------------------------------------------------------------

  /** The minutes of each listed category, in the order listed. */
  function CategoryMinutes(s: seq<Activity>, keys: seq<string>): (r: seq<int>)
    ensures |r| == |keys|
  {
    if keys == [] then []
    else CategoryMinutes(s, keys[..|keys| - 1]) + [Total(OfCategory(s, keys[|keys| - 1]))]
  }

  function SumOf(xs: seq<int>): int
  {
    if xs == [] then 0 else SumOf(xs[..|xs| - 1]) + xs[|xs| - 1]
  }

  /** `Object.values(catMap)`: the category totals in key order. */
  function PieValues(s: seq<Activity>): (r: seq<int>)
    ensures |r| == |FirstAppearances(s)|
  {
    CategoryMinutes(s, FirstAppearances(s))
  }

  /** Adding one record to the day adds its minutes to the one listed total
      of its category, if that category is listed. */
  lemma {:induction false} CategoryMinutesAppend(s: seq<Activity>, a: Activity, keys: seq<string>)
    requires Distinct(keys)
    ensures SumOf(CategoryMinutes(s + [a], keys))
         == SumOf(CategoryMinutes(s, keys)) + (if a.category in keys then a.minutes else 0)
  {
    if keys != [] {
      var init := keys[..|keys| - 1];
      var last := keys[|keys| - 1];
      CategoryMinutesAppend(s, a, init);
      OfCategoryAppend(s, a, last);
      var xs := CategoryMinutes(s + [a], keys);
      assert xs[..|xs| - 1] == CategoryMinutes(s + [a], init);
      var ys := CategoryMinutes(s, keys);
      assert ys[..|ys| - 1] == CategoryMinutes(s, init);
      assert keys == init + [last];
      assert a.category in keys <==> a.category in init || a.category == last;
      assert last !in init;
    }
  }

  /** A record of a new category adds a key whose total is that record's
      minutes. */
  lemma NewCategoryMinutes(init: seq<Activity>, a: Activity, keys: seq<string>)
    requires keys == FirstAppearances(init) && a.category !in keys
    requires forall k :: k in keys <==> k in Categories(init)
    ensures SumOf(CategoryMinutes(init + [a], keys + [a.category]))
         == SumOf(CategoryMinutes(init + [a], keys)) + a.minutes
  {
    var xs := CategoryMinutes(init + [a], keys + [a.category]);
    assert (keys + [a.category])[..|keys|] == keys;
    assert xs[..|xs| - 1] == CategoryMinutes(init + [a], keys);
    OfCategoryAbsent(init, a.category);
    OfCategoryAppend(init, a, a.category);
  }

  /** Conservation: the pie chart's values add up to the day's total. */
  lemma {:induction false} PieValuesSumToTotal(s: seq<Activity>)
    ensures SumOf(PieValues(s)) == Total(s)
  {
    if s != [] {
      var init := s[..|s| - 1];
      var a := s[|s| - 1];
      assert init + [a] == s;
      PieValuesSumToTotal(init);
      var keys := FirstAppearances(init);
      FirstAppearancesSpec(init);
      CategoryMinutesAppend(init, a, keys);
      if a.category !in keys {
        assert FirstAppearances(s) == keys + [a.category];
        NewCategoryMinutes(init, a, keys);
      } else {
        assert FirstAppearances(s) == keys;
      }
    }
  }

  /** The object the `catMap` loop builds, as a value: each record in turn
      adds its minutes to its category's entry, which starts at 0
      (`catMap[c] || 0`). */
  function CatMapOf(s: seq<Activity>): (r: map<string, int>)
    ensures r.Keys == Categories(s)
  {
    if s == [] then map[]
    else
      var m := CatMapOf(s[..|s| - 1]);
      var c := s[|s| - 1].category;
      m[c := (if c in m then m[c] else 0) + s[|s| - 1].minutes]
  }

  /** The object has one entry per category of the day, holding the minutes
      of that category's records. */
  lemma {:induction false} CatMapOfSpec(s: seq<Activity>)
    ensures forall k :: k in CatMapOf(s) ==> CatMapOf(s)[k] == Total(OfCategory(s, k))
  {
    if s != [] {
      var init := s[..|s| - 1];
      var a := s[|s| - 1];
      assert init + [a] == s;
      CatMapOfSpec(init);
      var m := CatMapOf(init);
      CatMapOfAppend(init, a);
      forall k | k in CatMapOf(s) ensures CatMapOf(s)[k] == Total(OfCategory(s, k)) {
        OfCategoryAppend(init, a, k);
        if k !in m { OfCategoryAbsent(init, k); }
      }
    }
  }

  /** A new entry goes to the end of the key order, an existing one keeps
      its place. */
  lemma CatMapOfAppend(s: seq<Activity>, a: Activity)
    ensures var m := CatMapOf(s);
      CatMapOf(s + [a]) == m[a.category := (if a.category in m then m[a.category] else 0) + a.minutes]
    ensures FirstAppearances(s + [a]) ==
      if a.category in FirstAppearances(s) then FirstAppearances(s) else FirstAppearances(s) + [a.category]
  {
    assert (s + [a])[..|s|] == s;
  }

  /** A category has an entry exactly when it is among the keys. */
  lemma KeyListed(s: seq<Activity>, c: string)
    ensures c in CatMapOf(s) <==> c in FirstAppearances(s)
  {
    FirstAppearancesSpec(s);
  }

  /** The `catMap` loop. A JavaScript object keeps its keys in insertion
      order, so the loop tracks that order as `keys`; the object ends with
      one entry per category of the day holding that category's minutes. */
  method CategoryTotals(activities: seq<Activity>) returns (keys: seq<string>, catMap: map<string, int>)
    ensures keys == FirstAppearances(activities) && catMap == CatMapOf(activities)
    ensures catMap.Keys == Categories(activities)
    ensures forall k :: k in catMap ==> catMap[k] == Total(OfCategory(activities, k))
  {
    keys, catMap := [], map[];
    var i := 0;
    while i < |activities|
      invariant 0 <= i <= |activities|
      invariant keys == FirstAppearances(activities[..i])
      invariant catMap == CatMapOf(activities[..i])
    {
      var a := activities[i];
      assert activities[..i + 1] == activities[..i] + [a];
      CatMapOfAppend(activities[..i], a);
      KeyListed(activities[..i], a.category);
      var previous := if a.category in catMap then catMap[a.category] else 0;
      if a.category !in catMap {
        keys := keys + [a.category];
      }
      catMap := catMap[a.category := previous + a.minutes];
      i := i + 1;
    }
    assert activities[..i] == activities;
    CatMapOfSpec(activities);
  }

  /** `Object.values(catMap)`: the entries looked up in key order. */
  function ValuesAt(keys: seq<string>, m: map<string, int>): (r: seq<int>)
    requires forall k :: k in keys ==> k in m
    ensures |r| == |keys| && forall i :: 0 <= i < |keys| ==> r[i] == m[keys[i]]
  {
    if keys == [] then [] else ValuesAt(keys[..|keys| - 1], m) + [m[keys[|keys| - 1]]]
  }

  /** Read in key order, the loop's object gives the pie chart's values. */
  lemma {:induction false} ValuesAtCatMap(s: seq<Activity>, keys: seq<string>)
    requires forall k :: k in keys ==> k in Categories(s)
    ensures ValuesAt(keys, CatMapOf(s)) == CategoryMinutes(s, keys)
  {
    CatMapOfSpec(s);
    if keys != [] {
      ValuesAtCatMap(s, keys[..|keys| - 1]);
    }
  }

  // ---------------------------------------------------------------------
  // The bar chart: `[...activities].sort((a, b) => b.minutes - a.minutes)`
  // ---------------------------------------------------------------------

  /** Places `x` before the first record that is not longer than it. */
  function Insert(x: Activity, t: seq<Activity>): seq<Activity>
  {
    if t == [] then [x]
    else if t[0].minutes <= x.minutes then [x] + t
    else [t[0]] + Insert(x, t[1..])
  }

  /** The sorted copy. `Array.prototype.sort` is stable and the comparator
      orders by minutes, longest first. */
  function SortByMinutesDesc(s: seq<Activity>): seq<Activity>
  {
    if s == [] then [] else Insert(s[0], SortByMinutesDesc(s[1..]))
  }

  predicate NonIncreasing(s: seq<Activity>)
  {
    forall i, j :: 0 <= i < j < |s| ==> s[i].minutes >= s[j].minutes
  }

  /** The records of one duration, in order: a stable sort leaves each of
      these subsequences as it found it. */
  function WithMinutes(s: seq<Activity>, m: int): seq<Activity>
  {
    if s == [] then []
    else (if s[0].minutes == m then [s[0]] else []) + WithMinutes(s[1..], m)
  }

  lemma {:induction false} InsertPermutes(x: Activity, t: seq<Activity>)
    ensures multiset(Insert(x, t)) == multiset(t) + multiset{x}
    ensures Total(Insert(x, t)) == Total(t) + x.minutes
  {
    var r := Insert(x, t);
    if t == [] {
      assert Total([x]) == x.minutes;
    } else if t[0].minutes <= x.minutes {
      assert r == [x] + t;
      TotalFront(r);
    } else {
      InsertPermutes(x, t[1..]);
      assert t == [t[0]] + t[1..];
      assert r[1..] == Insert(x, t[1..]);
      TotalFront(r);
      TotalFront(t);
    }
  }

  lemma {:induction false} InsertSorted(x: Activity, t: seq<Activity>)
    requires NonIncreasing(t)
    ensures NonIncreasing(Insert(x, t))
  {
    var r := Insert(x, t);
    if t != [] && t[0].minutes > x.minutes {
      var rest := Insert(x, t[1..]);
      InsertSorted(x, t[1..]);
      InsertPermutes(x, t[1..]);
      assert r == [t[0]] + rest;
      forall j | 0 <= j < |rest| ensures t[0].minutes >= rest[j].minutes {
        assert rest[j] in multiset(rest);
        if rest[j] != x {
          assert rest[j] in multiset(t[1..]);
          var k :| 0 <= k < |t[1..]| && t[1..][k] == rest[j];
          assert t[k + 1] == rest[j];
        }
      }
    }
  }

  lemma {:induction false} InsertStable(x: Activity, t: seq<Activity>, m: int)
    ensures WithMinutes(Insert(x, t), m) == (if x.minutes == m then [x] else []) + WithMinutes(t, m)
  {
    var r := Insert(x, t);
    var own := if x.minutes == m then [x] else [];
    if t == [] {
      assert r == [x] && r[1..] == [];
    } else if t[0].minutes <= x.minutes {
      assert r == [x] + t;
      assert r[0] == x && r[1..] == t;
    } else {
      var rest := Insert(x, t[1..]);
      InsertStable(x, t[1..], m);
      assert r == [t[0]] + rest;
      assert r[0] == t[0] && r[1..] == rest;
      if t[0].minutes == m {
        assert x.minutes != m && own == [];
      }
    }
  }

  lemma {:induction false} SortPermutes(s: seq<Activity>)
    ensures multiset(SortByMinutesDesc(s)) == multiset(s)
  {
    if s != [] {
      SortPermutes(s[1..]);
      InsertPermutes(s[0], SortByMinutesDesc(s[1..]));
      assert s == [s[0]] + s[1..];
    }
  }

  lemma {:induction false} SortSorted(s: seq<Activity>)
    ensures NonIncreasing(SortByMinutesDesc(s))
  {
    if s != [] {
      SortSorted(s[1..]);
      InsertSorted(s[0], SortByMinutesDesc(s[1..]));
    }
  }

  lemma {:induction false} SortStable(s: seq<Activity>, m: int)
    ensures WithMinutes(SortByMinutesDesc(s), m) == WithMinutes(s, m)
  {
    if s != [] {
      SortStable(s[1..], m);
      InsertStable(s[0], SortByMinutesDesc(s[1..]), m);
    }
  }

  /** The sorted copy holds the same records, longest first, and records of
      equal duration keep their original relative order. */
  lemma SortSpec(s: seq<Activity>)
    ensures multiset(SortByMinutesDesc(s)) == multiset(s)
    ensures NonIncreasing(SortByMinutesDesc(s))
    ensures forall m :: WithMinutes(SortByMinutesDesc(s), m) == WithMinutes(s, m)
  {
    SortPermutes(s);
    SortSorted(s);
    forall m ensures WithMinutes(SortByMinutesDesc(s), m) == WithMinutes(s, m) {
      SortStable(s, m);
    }
  }

  /** A sort is a copy: it keeps the number of records and the day's total. */
  lemma {:induction false} SortKeepsTotal(s: seq<Activity>)
    ensures |SortByMinutesDesc(s)| == |s|
    ensures Total(SortByMinutesDesc(s)) == Total(s)
  {
    if s != [] {
      SortKeepsTotal(s[1..]);
      InsertPermutes(s[0], SortByMinutesDesc(s[1..]));
      assert |multiset(SortByMinutesDesc(s))| == |SortByMinutesDesc(s[1..])| + 1;
      TotalFront(s);
    }
  }

  /** Two records of equal length stay in the order the day lists them. */
  lemma SortStableExample()
    ensures SortByMinutesDesc([Activity("a", "A", "c", 30), Activity("b", "B", "c", 30), Activity("c", "C", "c", 10)])
         == [Activity("a", "A", "c", 30), Activity("b", "B", "c", 30), Activity("c", "C", "c", 10)]
  {
  }

  // ---------------------------------------------------------------------
  // The timeline
  // ---------------------------------------------------------------------

  /** The separator between title and duration: space, em dash, space. */
  const Dash: string := " \U{2014} "

  /** `<div>${a.title} — ${a.minutes} min</div>`: the title goes in as it is,
      not escaped. */
  function TimelineEntry(a: Activity): (r: string)
    ensures |r| == 18 + |a.title| + |IntToString(a.minutes)|
  {
    "<div>" + a.title + Dash + IntToString(a.minutes) + " min</div>"
  }

  /** `sorted.map(TimelineEntry).join("")`. */
  function Timeline(sorted: seq<Activity>): string
  {
    if sorted == [] then "" else TimelineEntry(sorted[0]) + Timeline(sorted[1..])
  }

  /** The timeline is one entry per record in the given order: the timeline
      of a concatenation is the concatenation of the timelines. */
  lemma {:induction false} TimelineAppend(a: seq<Activity>, b: seq<Activity>)
    ensures Timeline(a + b) == Timeline(a) + Timeline(b)
  {
    if a == [] {
      assert a + b == b;
    } else {
      assert (a + b)[0] == a[0];
      assert (a + b)[1..] == a[1..] + b;
      TimelineAppend(a[1..], b);
    }
  }

  /** An entry carries the title verbatim right after the opening tag and the
      duration, read back from its decimal digits, right after the dash. */
  lemma TimelineEntryParts(a: Activity)
    ensures var e := TimelineEntry(a);
      var n := 5 + |a.title| + |Dash|;
      var digits := IntToString(a.minutes);
      && e[..5] == "<div>"
      && e[5..5 + |a.title|] == a.title
      && e[5 + |a.title|..n] == Dash
      && ParseInt(e[n..n + |digits|]) == a.minutes
      && e[n + |digits|..] == " min</div>"
  {
    var digits := IntToString(a.minutes);
    var head := "<div>" + a.title;
    var withDash := head + Dash;
    var withDigits := withDash + digits;
    var e := withDigits + " min</div>";
    assert e == TimelineEntry(a);
    var n := |withDash|;
    assert e[..5] == head[..5];
    assert e[5..5 + |a.title|] == head[5..];
    assert e[5 + |a.title|..n] == withDash[|head|..];
    assert e[n..n + |digits|] == withDigits[n..] == digits;
    assert e[n + |digits|..] == " min</div>";
    IntToStringRoundTrip(a.minutes);
  }

  // ---------------------------------------------------------------------
  // The whole dashboard
  // ---------------------------------------------------------------------

  datatype View =
    | EmptyDay
    | Summary(total: int, count: nat, categoryCount: nat,
              pieLabels: seq<string>, pieValues: seq<int>,
              barLabels: seq<string>, barValues: seq<int>,
              timeline: string)

  function Titles(s: seq<Activity>): (r: seq<string>)
    ensures |r| == |s| && forall i :: 0 <= i < |s| ==> r[i] == s[i].title
  {
    if s == [] then [] else [s[0].title] + Titles(s[1..])
  }

  function MinutesOf(s: seq<Activity>): (r: seq<int>)
    ensures |r| == |s| && forall i :: 0 <= i < |s| ==> r[i] == s[i].minutes
  {
    if s == [] then [] else [s[0].minutes] + MinutesOf(s[1..])
  }

  /** The bar values add up to the records' minutes. */
  lemma {:induction false} SumOfMinutes(s: seq<Activity>)
    ensures SumOf(MinutesOf(s)) == Total(s)
  {
    if s != [] {
      var init := s[..|s| - 1];
      SumOfMinutes(init);
      var xs := MinutesOf(s);
      assert xs[..|xs| - 1] == MinutesOf(init);
    }
  }

  /** What the dashboard shows for a day. */
  function ViewOf(activities: seq<Activity>): (r: View)
    ensures r.EmptyDay? <==> activities == []
    ensures r.Summary? ==> r.total == Total(activities) && r.count == |activities|
  {
    if activities == [] then EmptyDay
    else
      var sorted := SortByMinutesDesc(activities);
      Summary(Total(activities), |activities|, CategoryCount(activities),
              FirstAppearances(activities), PieValues(activities),
              Titles(sorted), MinutesOf(sorted), Timeline(sorted))
  }

  /** The figures agree with each other: as many pie slices as distinct
      categories and together worth the total, one bar per record with the
      bars longest first and worth the total too. */
  lemma ViewConsistent(activities: seq<Activity>)
    requires activities != []
    ensures var v := ViewOf(activities);
      && |v.pieLabels| == |v.pieValues| == v.categoryCount
      && SumOf(v.pieValues) == v.total
      && |v.barLabels| == |v.barValues| == v.count
      && (forall i, j :: 0 <= i < j < |v.barValues| ==> v.barValues[i] >= v.barValues[j])
      && SumOf(v.barValues) == v.total
  {
    FirstAppearancesCount(activities);
    PieValuesSumToTotal(activities);
    SortSpec(activities);
    SortKeepsTotal(activities);
    SumOfMinutes(SortByMinutesDesc(activities));
  }

  /** `buildDashboard`: the empty-day view for no records; otherwise the
      total, count and category count, the pie data from the `catMap` loop,
      and the bar data and timeline from the sorted copy. */
  method BuildDashboard(activities: seq<Activity>) returns (v: View)
    ensures v == ViewOf(activities)
  {
    if |activities| == 0 {
      return EmptyDay;
    }
    var total := Total(activities);
    var categoryCount := CategoryCount(activities);
    var keys, catMap := CategoryTotals(activities);
    FirstAppearancesSpec(activities);
    var values := ValuesAt(keys, catMap);
    ValuesAtCatMap(activities, keys);
    var sorted := SortByMinutesDesc(activities);
    v := Summary(total, |activities|, categoryCount, keys, values,
                 Titles(sorted), MinutesOf(sorted), Timeline(sorted));
  }
}
