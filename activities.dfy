/**
  The activity record of one (user, date) partition and the day's running
  total. A record is what the store returns for one document, with its id
  merged in: `{ id: d.id, ...d.data() }`.
 */
module Activities {

  /** One logged activity. `minutes` is whatever number the store holds; the
      add handler only ever writes positive ones. */
  datatype Activity = Activity(id: string, title: string, category: string, minutes: int)

  /** Minutes in a day: the ceiling on a day's total. */
  const DayBudget: int := 1440

  /** `activities.reduce((s, a) => s + a.minutes, 0)`: a left fold starting at
      0, so the last record is added last. */
  function Total(s: seq<Activity>): int
  {
    if s == [] then 0 else Total(s[..|s| - 1]) + s[|s| - 1].minutes
  }

  /** Every record carries a positive duration (what validation guarantees
      for each record it lets through). */
  predicate AllPositive(s: seq<Activity>)
  {
    forall i :: 0 <= i < |s| ==> s[i].minutes > 0
  }

  /** A day that honours the daily budget: positive durations summing to at
      most 1440 minutes. */
  predicate WithinBudget(s: seq<Activity>)
  {
    AllPositive(s) && Total(s) <= DayBudget
  }

  /** The total of a concatenation is the sum of the totals. */
  lemma {:induction false} TotalAppend(a: seq<Activity>, b: seq<Activity>)
    ensures Total(a + b) == Total(a) + Total(b)
  {
    if b == [] {
      assert a + b == a;
    } else {
      assert (a + b)[..|a + b| - 1] == a + b[..|b| - 1];
      TotalAppend(a, b[..|b| - 1]);
    }
  }

  /** The left fold agrees with the right fold: the total is the first
      record's minutes plus the total of the rest. */
  lemma TotalFront(s: seq<Activity>)
    requires s != []
    ensures Total(s) == s[0].minutes + Total(s[1..])
  {
    assert s == [s[0]] + s[1..];
    TotalAppend([s[0]], s[1..]);
  }

  /** With positive durations the total is at least the number of records,
      so it is 0 exactly for the empty day. */
  lemma {:induction false} TotalAtLeastCount(s: seq<Activity>)
    requires AllPositive(s)
    ensures Total(s) >= |s|
    ensures Total(s) == 0 <==> s == []
  {
    if s != [] {
      TotalAtLeastCount(s[..|s| - 1]);
    }
  }
}
