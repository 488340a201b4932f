/**
  The page's mutable state and the handlers that change it: whether a user
  is signed in, the selected date, the in-memory list of that date's
  activities, the validation message, and (abstractly) the signed-in
  user's days as the external store holds them.
 */
module Tracker {
  import opened Activities
  import opened DayAccounting
  import Dashboard

  /** What the add button does: asks to log in, reports the first failed
      check, or stores the new record. */
  datatype AddOutcome = LoginRequired | Rejected(error: ValidationError) | Added(record: Activity)

  /** Keeps the records other than the one with the given id. */
  function WithoutId(s: seq<Activity>, id: string): (r: seq<Activity>)
    ensures forall a :: a in r <==> a in s && a.id != id
  {
    if s == [] then []
    else (if s[0].id == id then [] else [s[0]]) + WithoutId(s[1..], id)
  }

  /** Removing records from a day of positive durations keeps it positive
      and never raises its total, so a day within budget stays within. */
  lemma {:induction false} WithoutIdKeepsBudget(s: seq<Activity>, id: string)
    requires AllPositive(s)
    ensures AllPositive(WithoutId(s, id))
    ensures Total(WithoutId(s, id)) <= Total(s)
    ensures WithinBudget(s) ==> WithinBudget(WithoutId(s, id))
  {
    if s != [] {
      assert AllPositive(s[1..]) by {
        forall i | 0 <= i < |s[1..]| ensures s[1..][i].minutes > 0 {
          assert s[1..][i] == s[i + 1];
        }
      }
      WithoutIdKeepsBudget(s[1..], id);
      var rest := WithoutId(s[1..], id);
      TotalFront(s);
      if s[0].id != id {
        var r := [s[0]] + rest;
        assert WithoutId(s, id) == r;
        TotalFront(r);
        forall i | 0 <= i < |r| ensures r[i].minutes > 0 {
          if i > 0 { assert r[i] == rest[i - 1]; }
        }
      } else {
        assert WithoutId(s, id) == rest;
      }
    }
  }

  /** Deleting from a concatenation deletes from each part: the records kept
      stay in their order. */
  lemma {:induction false} WithoutIdAppend(a: seq<Activity>, b: seq<Activity>, id: string)
    ensures WithoutId(a + b, id) == WithoutId(a, id) + WithoutId(b, id)
  {
    if a == [] {
      assert a + b == b;
    } else {
      assert (a + b)[0] == a[0];
      assert (a + b)[1..] == a[1..] + b;
      WithoutIdAppend(a[1..], b, id);
    }
  }

  /** A single record goes exactly when it has the id. With `WithoutIdAppend`
      this fixes `WithoutId` as the order-keeping filter. */
  lemma WithoutIdSingle(x: Activity, id: string)
    ensures WithoutId([x], id) == if x.id == id then [] else [x]
  {
  }

  class DayView {
    /** `currentUser !== null`. */
    var signedIn: bool
    var selectedDate: string
    /** The in-memory snapshot; `loadDate` replaces it wholesale. */
    var activities: seq<Activity>
    /** The signed-in user's days in the store, each listed in creation order. */
    var store: map<string, seq<Activity>>
    var validationMsg: string
    /** Whether the analyse button carries the `disabled` class. Only
        `updateStats`, at the end of each load, writes it; before the first
        load it is whatever the page markup says. */
    var analyseDisabled: bool

    /** The records the store lists for a date. */
    function Listed(date: string): seq<Activity>
      reads this
    {
      if date in store then store[date] else []
    }

    /** The snapshot shows what the store holds for the selected date. */
    predicate InSync()
      reads this
    {
      activities == Listed(selectedDate)
    }

    /** The button's class agrees with the records on show. */
    predicate GateShown()
      reads this
    {
      analyseDisabled == !DayStats(activities).analyseEnabled
    }

    /** The page as it starts: nobody signed in, today selected, nothing
        loaded, and the analyse button as the markup has it. */
    constructor (today: string, days: map<string, seq<Activity>>, disabledInMarkup: bool)
      ensures !signedIn && selectedDate == today && activities == []
      ensures store == days && validationMsg == ""
      ensures analyseDisabled == disabledInMarkup
    {
      signedIn := false;
      selectedDate := today;
      activities := [];
      store := days;
      validationMsg := "";
      analyseDisabled := disabledInMarkup;
    }

    /** `loadDate`: with a user signed in, the snapshot becomes the store's
        list for the date and `updateStats` sets the button's class from it;
        otherwise nothing happens. */
    method LoadDate(date: string)
      modifies this`activities, this`analyseDisabled
      ensures activities == if signedIn then Listed(date) else old(activities)
      ensures analyseDisabled == if signedIn then !DayStats(activities).analyseEnabled else old(analyseDisabled)
    {
      if !signedIn {
        return;
      }
      activities := Listed(date);
      analyseDisabled := !DayStats(activities).analyseEnabled;
    }

    /** `onAuthStateChanged`: record the new user and, if there is one, load
        the selected date. Signing out keeps the snapshot. */
    method SetUser(user: bool)
      modifies this`signedIn, this`activities, this`analyseDisabled
      ensures signedIn == user
      ensures activities == if user then Listed(selectedDate) else old(activities)
      ensures user ==> InSync() && GateShown()
      ensures !user ==> analyseDisabled == old(analyseDisabled)
    {
      signedIn := user;
      if user {
        LoadDate(selectedDate);
      }
    }

    /** The date picker's change handler. */
    method ChangeDate(date: string)
      modifies this`selectedDate, this`activities, this`analyseDisabled
      ensures selectedDate == date
      ensures activities == if signedIn then Listed(date) else old(activities)
      ensures signedIn ==> InSync() && GateShown()
      ensures !signedIn ==> analyseDisabled == old(analyseDisabled)
    {
      selectedDate := date;
      LoadDate(date);
    }

    /** The add button: without a user nothing changes. Otherwise the checks
        run against the in-memory snapshot; a failure writes its message and
        changes nothing else, a success appends the record to the store's
        list for the selected date and reloads, leaving the message as it
        was. The record the store gets has a positive duration and, with the
        snapshot, fits the day. */
    method AddActivity(rawTitle: string, category: string, mins: Option<int>, newId: string)
      returns (outcome: AddOutcome)
      modifies this`store, this`activities, this`validationMsg, this`analyseDisabled
      ensures !signedIn ==> outcome == LoginRequired && unchanged(this)
      ensures signedIn ==> match Validate(old(activities), rawTitle, mins)
        case Reject(e) =>
          && outcome == Rejected(e) && validationMsg == Message(e)
          && store == old(store) && activities == old(activities)
          && analyseDisabled == old(analyseDisabled)
        case Accept(title, m) =>
          && outcome == Added(Activity(newId, title, category, m))
          && store == old(store)[selectedDate := old(Listed(selectedDate)) + [outcome.record]]
          && activities == Listed(selectedDate) && GateShown()
          && validationMsg == old(validationMsg)
      ensures outcome.Added? ==>
        && outcome.record.minutes > 0
        && Total(old(activities)) + outcome.record.minutes <= DayBudget
      ensures outcome.Added? && old(InSync()) && old(AllPositive(activities)) ==> WithinBudget(activities)
    {
      if !signedIn {
        return LoginRequired;
      }
      var verdict := Validate(activities, rawTitle, mins);
      if verdict.Reject? {
        validationMsg := Message(verdict.error);
        return Rejected(verdict.error);
      }
      var record := NewRecord(verdict, newId, category);
      ValidateKeepsBudget(activities, rawTitle, mins, record);
      store := store[selectedDate := Listed(selectedDate) + [record]];
      LoadDate(selectedDate);
      outcome := Added(record);
    }

    /** `deleteActivity`: the record with that id leaves the store's list for
        the selected date and the date is reloaded. Without a user the store
        call throws before reaching the store and nothing changes. */
    method DeleteActivity(id: string)
      modifies this`store, this`activities, this`analyseDisabled
      ensures !signedIn ==> unchanged(this)
      ensures signedIn ==> store == old(store)[selectedDate := WithoutId(old(Listed(selectedDate)), id)]
      ensures signedIn ==> InSync() && GateShown()
      ensures signedIn && old(InSync()) && old(WithinBudget(activities)) ==> WithinBudget(activities)
    {
      if !signedIn {
        return;
      }
      ghost var before := Listed(selectedDate);
      if WithinBudget(before) {
        WithoutIdKeepsBudget(before, id);
      }
      store := store[selectedDate := WithoutId(Listed(selectedDate), id)];
      LoadDate(selectedDate);
    }

    /** `updateStats` for the snapshot. */
    function Stats(): (r: DayAccounting.Stats)
      reads this
      ensures r.total == Total(activities) && r.count == |activities|
    {
      DayStats(activities)
    }

    /** The analyse button: while it carries the `disabled` class a click
        does nothing; otherwise it opens the dashboard built from the
        snapshot. Once a load has set the class, an open dashboard is never
        the empty-day view; before that, an enabled button on an empty page
        shows it. */
    method Analyse() returns (view: Option<Dashboard.View>)
      ensures view.None? <==> analyseDisabled
      ensures view.Some? ==> view.value == Dashboard.ViewOf(activities)
      ensures view.Some? && GateShown() ==> !view.value.EmptyDay?
      ensures view.Some? && activities == [] ==> view.value.EmptyDay?
    {
      if analyseDisabled {
        return None;
      }
      var v := Dashboard.BuildDashboard(activities);
      return Some(v);
    }
  }
}
