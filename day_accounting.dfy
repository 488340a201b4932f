/**
  Day accounting: the numbers `updateStats` shows for the selected day and
  the checks the add-activity handler makes before it writes a record.
 */
module DayAccounting {
  import opened Activities
  import opened Text

  datatype Option<T> = None | Some(value: T)

  /** What `updateStats` computes for the day: the total, the unclamped
      remaining budget, the record count and whether the analyse button is
      enabled. */
  datatype Stats = Stats(total: int, remaining: int, count: nat, analyseEnabled: bool)

  /** The analyse button is disabled when `total === 0 || total > 1440`. */
  predicate AnalyseEnabled(total: int): (r: bool)
    ensures 0 < total <= DayBudget ==> r
    ensures r ==> total != 0 && total <= DayBudget
  {
    !(total == 0 || total > DayBudget)
  }

  function DayStats(s: seq<Activity>): (r: Stats)
    ensures r.total == Total(s) && r.count == |s|
    ensures r.remaining + r.total == DayBudget
    ensures r.analyseEnabled <==> r.total != 0 && r.remaining >= 0
  {
    var total := Total(s);
    Stats(total, DayBudget - total, |s|, AnalyseEnabled(total))
  }

  /** The empty day: nothing logged, the whole budget left, no analysis. */
  lemma EmptyDayStats()
    ensures DayStats([]) == Stats(0, DayBudget, 0, false)
  {
  }

  /** The remaining budget is not clamped: it is negative exactly when the
      records overrun the day, and it always adds back up to 1440. */
  lemma RemainingUnclamped(s: seq<Activity>)
    ensures DayStats(s).remaining + Total(s) == DayBudget
    ensures DayStats(s).remaining < 0 <==> Total(s) > DayBudget
  {
  }

  /** On a day whose records all have positive durations the analyse gate
      opens exactly for a total in 1..1440, that is for a non-empty day
      within budget. */
  lemma AnalyseGate(s: seq<Activity>)
    requires AllPositive(s)
    ensures DayStats(s).analyseEnabled <==> 0 < Total(s) <= DayBudget
    ensures DayStats(s).analyseEnabled <==> s != [] && Total(s) <= DayBudget
  {
    TotalAtLeastCount(s);
  }

  /** The gate tests only `total === 0` at the bottom end, so records the
      store holds with a negative duration open it. */
  lemma AnalyseGateOpenOnNegativeTotal(s: seq<Activity>)
    requires Total(s) < 0
    ensures DayStats(s).analyseEnabled
    ensures !(0 < DayStats(s).total)
  {
  }

  /** The three errors the add handler reports, one at a time. */
  datatype ValidationError = EmptyTitle | NonPositiveMinutes | BudgetExceeded

  /** The text written to the validation message for each error. */
  function Message(e: ValidationError): (r: string)
    ensures r != []
  {
    match e
    case EmptyTitle => "Enter a title"
    case NonPositiveMinutes => "Minutes must be positive"
    case BudgetExceeded => "You cannot exceed 1440 minutes per day"
  }

  /** Each error has its own message. */
  lemma MessagesDistinct(e1: ValidationError, e2: ValidationError)
    ensures Message(e1) == Message(e2) ==> e1 == e2
  {
    if e1 != e2 {
      assert Message(e1)[0] != Message(e2)[0];
    }
  }

  /** The outcome of the checks: the trimmed title and the minutes to store,
      or the first error found. */
  datatype Verdict = Accept(title: string, minutes: int) | Reject(error: ValidationError)

  /** The checks of the add handler, in its order. `mins` is what `parseInt`
      made of the minutes field, `None` for NaN; `!mins || mins <= 0` rejects
      NaN, 0 and negatives alike. The budget is checked against the day's
      records as currently held in memory (`snapshot`). */
  function Validate(snapshot: seq<Activity>, rawTitle: string, mins: Option<int>): Verdict
  {
    var title := Trim(rawTitle);
    if title == [] then Reject(EmptyTitle)
    else if mins.None? || mins.value <= 0 then Reject(NonPositiveMinutes)
    else if Total(snapshot) + mins.value > DayBudget then Reject(BudgetExceeded)
    else Accept(title, mins.value)
  }

  /** The record an accepted proposal becomes, with the id the store gives
      it and the category from the form. */
  function NewRecord(v: Verdict, id: string, category: string): Activity
    requires v.Accept?
  {
    Activity(id, v.title, category, v.minutes)
  }

  /** Exactly one outcome, decided by the first failing check: a blank title
      whatever the minutes, then missing or non-positive minutes, then a
      total over 1440; otherwise the trimmed title and the minutes are
      accepted, and appending the new record to the snapshot keeps the day
      within 1440 minutes. */
  lemma ValidateSpec(snapshot: seq<Activity>, rawTitle: string, mins: Option<int>, id: string, category: string)
    ensures var v := Validate(snapshot, rawTitle, mins);
      && (v == Reject(EmptyTitle) <==> AllWhitespace(rawTitle))
      && (v == Reject(NonPositiveMinutes) <==>
            !AllWhitespace(rawTitle) && (mins.None? || mins.value <= 0))
      && (v == Reject(BudgetExceeded) <==>
            !AllWhitespace(rawTitle) && mins.Some? && mins.value > 0
            && Total(snapshot) + mins.value > DayBudget)
      && (v.Accept? <==>
            !AllWhitespace(rawTitle) && mins.Some? && mins.value > 0
            && Total(snapshot) + mins.value <= DayBudget)
      && (v.Accept? ==>
            && v.title == Trim(rawTitle) && v.title != []
            && v.minutes == mins.value && v.minutes > 0
            && Total(snapshot + [NewRecord(v, id, category)]) <= DayBudget)
  {
    TrimEmptyIff(rawTitle);
    var v := Validate(snapshot, rawTitle, mins);
    if v.Accept? {
      TotalAppend(snapshot, [NewRecord(v, id, category)]);
      assert Total([NewRecord(v, id, category)]) == v.minutes;
    }
  }

  /** The record an accepted proposal becomes has a positive duration that
      fits beside the snapshot, so accepting keeps a day of positive
      durations within budget. */
  lemma ValidateKeepsBudget(snapshot: seq<Activity>, rawTitle: string, mins: Option<int>, record: Activity)
    requires Validate(snapshot, rawTitle, mins) == Accept(record.title, record.minutes)
    ensures record.minutes > 0 && Total(snapshot) + record.minutes <= DayBudget
    ensures AllPositive(snapshot) ==> WithinBudget(snapshot + [record])
  {
    var day := snapshot + [record];
    TotalAppend(snapshot, [record]);
    assert Total([record]) == record.minutes;
    if AllPositive(snapshot) {
      forall i | 0 <= i < |day| ensures day[i].minutes > 0 {
        if i < |snapshot| { assert day[i] == snapshot[i]; }
      }
    }
  }

  /** The budget bound is inclusive: a proposal that fills the day to exactly
      1440 minutes is accepted. */
  lemma ValidateAcceptsExactFill(snapshot: seq<Activity>, rawTitle: string, m: int)
    requires !AllWhitespace(rawTitle)
    requires m > 0 && Total(snapshot) + m == DayBudget
    ensures Validate(snapshot, rawTitle, Some(m)) == Accept(Trim(rawTitle), m)
  {
    ValidateSpec(snapshot, rawTitle, Some(m), "", "");
  }

  /** A day already at 1420 minutes turns down a 30-minute "Run". */
  lemma ValidateRejectsRunAt1420(snapshot: seq<Activity>)
    requires Total(snapshot) == 1420
    ensures Validate(snapshot, "Run", Some(30)) == Reject(BudgetExceeded)
  {
    assert Trim("Run") == "Run" by {
      assert !IsJsWhitespace('R') && !IsJsWhitespace('n');
    }
  }
}
