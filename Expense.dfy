/** The expense section of the Add Task page: the session's expense
    dictionary, updated key by key on every run of the page, and the task row
    built from it on submit. Amounts are in paise. */
module Expense {
  import opened Storage
  import opened Tasks

  /** The keys of the expense dictionary, in insertion order. */
  datatype Key =
    | Travelling | TravellingAmt
    | Mobile | MobileAmt
    | Food | FoodAmt
    | Other | OtherAmt | OtherPurpose
    | NoExpense

  const Keys: seq<Key> :=
    [Travelling, TravellingAmt, Mobile, MobileAmt, Food, FoodAmt, Other, OtherAmt, OtherPurpose, NoExpense]

  /** The four category checkboxes. */
  datatype Categories = Categories(travelling: bool, mobile: bool, food: bool, other: bool)

  const NoCategory: Categories := Categories(false, false, false, false)

  /** A snapshot of the expense dictionary. */
  datatype ExpenseState = ExpenseState(
    travelling: bool, travellingAmt: int,
    mobile: bool, mobileAmt: int,
    food: bool, foodAmt: int,
    other: bool, otherAmt: int, otherPurpose: string,
    none: bool)
  {
    function Ticked(): Categories
    {
      Categories(travelling, mobile, food, other)
    }

    /** The "Total Expense Amount": all four stored sub-amounts, whether or
        not their box is still ticked. */
    function StoredTotal(): int
    {
      travellingAmt + mobileAmt + foodAmt + otherAmt
    }

    /** The value at key `k` is the reset value: False for a flag, 0 for an
        amount (False counts as 0), empty for the other-purpose text. */
    predicate Cleared(k: Key)
    {
      match k
      case Travelling => !travelling
      case TravellingAmt => travellingAmt == 0
      case Mobile => !mobile
      case MobileAmt => mobileAmt == 0
      case Food => !food
      case FoodAmt => foodAmt == 0
      case Other => !other
      case OtherAmt => otherAmt == 0
      case OtherPurpose => otherPurpose == ""
      case NoExpense => !none
    }

    /** This dictionary and `that` hold the same value at key `k`. */
    predicate SameAt(that: ExpenseState, k: Key)
    {
      match k
      case Travelling => travelling == that.travelling
      case TravellingAmt => travellingAmt == that.travellingAmt
      case Mobile => mobile == that.mobile
      case MobileAmt => mobileAmt == that.mobileAmt
      case Food => food == that.food
      case FoodAmt => foodAmt == that.foodAmt
      case Other => other == that.other
      case OtherAmt => otherAmt == that.otherAmt
      case OtherPurpose => otherPurpose == that.otherPurpose
      case NoExpense => none == that.none
    }

    /** `e[k] = False`: clears key `k` and leaves every other key as it was. */
    function Reset(k: Key): (r: ExpenseState)
      ensures r.Cleared(k)
      ensures forall k' :: k' != k ==> r.SameAt(this, k')
    {
      match k
      case Travelling => this.(travelling := false)
      case TravellingAmt => this.(travellingAmt := 0)
      case Mobile => this.(mobile := false)
      case MobileAmt => this.(mobileAmt := 0)
      case Food => this.(food := false)
      case FoodAmt => this.(foodAmt := 0)
      case Other => this.(other := false)
      case OtherAmt => this.(otherAmt := 0)
      case OtherPurpose => this.(otherPurpose := "")
      case NoExpense => this.(none := false)
    }
  }

  /** The dictionary as the session starts it. */
  const Blank: ExpenseState := ExpenseState(false, 0, false, 0, false, 0, false, 0, "", false)

  /** The blank dictionary holds the reset value at every key: nothing
      ticked and a stored total of 0. */
  lemma BlankClearsEveryKey()
    ensures forall k :: Blank.Cleared(k)
    ensures Blank.Ticked() == NoCategory && Blank.StoredTotal() == 0
  {
  }

  /** The dictionary while "None (No Expense)" is ticked. */
  const Overridden: ExpenseState := Blank.(none := true)

  /** A dictionary with every key cleared is the blank one. */
  lemma AllClearedIsBlank(s: ExpenseState)
    requires forall i :: 0 <= i < |Keys| ==> s.Cleared(Keys[i])
    ensures s == Blank
  {
    assert s.Cleared(Keys[0]) && s.Cleared(Keys[1]) && s.Cleared(Keys[2]) && s.Cleared(Keys[3]);
    assert s.Cleared(Keys[4]) && s.Cleared(Keys[5]) && s.Cleared(Keys[6]) && s.Cleared(Keys[7]);
    assert s.Cleared(Keys[8]) && s.Cleared(Keys[9]);
  }

  // ---------------------------------------------------------------------
  // The purpose string

  const Separator: string := ", "

  /** The names of the ticked categories, in the fixed order travelling,
      mobile_recharge, food, other. */
  function Selected(c: Categories): seq<string>
  {
    (if c.travelling then ["travelling"] else []) + (if c.mobile then ["mobile_recharge"] else [])
    + (if c.food then ["food"] else []) + (if c.other then ["other"] else [])
  }

  /** `", ".join(parts)`. */
  function Join(parts: seq<string>): string
  {
    if |parts| == 0 then ""
    else if |parts| == 1 then parts[0]
    else parts[0] + Separator + Join(parts[1..])
  }

  /** Splits a string at every ", ", so that `Split("")` is `[""]`. */
  function Split(s: string): (r: seq<string>)
    ensures |r| >= 1
  {
    if s == [] then [""]
    else if |s| >= 2 && s[..2] == Separator then [""] + Split(s[2..])
    else
      var rest := Split(s[1..]);
      [[s[0]] + rest[0]] + rest[1..]
  }

  /** The categories a stored purpose string names. */
  function DecodeCategories(purpose: string): Categories
  {
    var names := Split(purpose);
    Categories("travelling" in names, "mobile_recharge" in names, "food" in names, "other" in names)
  }

  lemma {:induction false} SplitWithoutSeparator(p: string)
    requires ',' !in p
    ensures Split(p) == [p]
  {
    if p != [] {
      assert p[0] != ',' by { assert p[0] in p; }
      assert ',' !in p[1..] by {
        forall i | 0 <= i < |p[1..]| ensures p[1..][i] != ',' {
          assert p[1..][i] == p[i + 1];
        }
      }
      SplitWithoutSeparator(p[1..]);
      assert [p[0]] + p[1..] == p;
    }
  }

  lemma {:induction false} SplitAfterPart(p: string, t: string)
    requires ',' !in p
    ensures Split(p + Separator + t) == [p] + Split(t)
  {
    var s := p + Separator + t;
    if p == [] {
      assert s == Separator + t;
      assert s[..2] == Separator;
      assert s[2..] == t;
    } else {
      assert p[0] != ',' by { assert p[0] in p; }
      assert ',' !in p[1..] by {
        forall i | 0 <= i < |p[1..]| ensures p[1..][i] != ',' {
          assert p[1..][i] == p[i + 1];
        }
      }
      assert s[0] == p[0];
      assert s[1..] == p[1..] + Separator + t;
      SplitAfterPart(p[1..], t);
      assert [p[0]] + p[1..] == p;
    }
  }

  /** Splitting a join gives the parts back, when no part contains a comma. */
  lemma {:induction false} SplitJoin(parts: seq<string>)
    requires |parts| >= 1
    requires forall i :: 0 <= i < |parts| ==> ',' !in parts[i]
    ensures Split(Join(parts)) == parts
  {
    if |parts| == 1 {
      SplitWithoutSeparator(parts[0]);
    } else {
      SplitJoin(parts[1..]);
      SplitAfterPart(parts[0], Join(parts[1..]));
      assert [parts[0]] + parts[1..] == parts;
    }
  }

  lemma SelectedMembership(c: Categories)
    ensures forall i :: 0 <= i < |Selected(c)| ==> ',' !in Selected(c)[i]
    ensures "travelling" in Selected(c) <==> c.travelling
    ensures "mobile_recharge" in Selected(c) <==> c.mobile
    ensures "food" in Selected(c) <==> c.food
    ensures "other" in Selected(c) <==> c.other
    ensures Selected(c) == [] <==> c == NoCategory
  {
    assert |"travelling"| == 10 && |"mobile_recharge"| == 15 && |"food"| == 4 && |"other"| == 5;
  }

  /** The stored purpose string records exactly which categories were ticked. */
  lemma PurposeRoundTrip(c: Categories)
    ensures DecodeCategories(Join(Selected(c))) == c
  {
    SelectedMembership(c);
    if Selected(c) != [] {
      SplitJoin(Selected(c));
    }
  }

  /** With no category ticked the purpose is the empty string, and only then. */
  lemma PurposeEmptyIff(c: Categories)
    ensures Join(Selected(c)) == "" <==> c == NoCategory
  {
    SelectedMembership(c);
    PurposeRoundTrip(c);
  }

  /** No choice of categories yields the "none" marker of the override. */
  lemma PurposeNeverNone(c: Categories)
    ensures Join(Selected(c)) != "none"
  {
    PurposeRoundTrip(c);
    SplitWithoutSeparator("none");
    PurposeEmptyIff(c);
  }

  /** A sub-amount entered under a category that was later unticked is still
      part of the saved amount, while the saved purpose does not name that
      category: the total is the stale amount plus the total with that
      amount cleared. */
  lemma StaleSubAmountIsSaved(s: ExpenseState)
    requires !s.none
    ensures !s.travelling ==> s.StoredTotal() == s.travellingAmt + s.Reset(TravellingAmt).StoredTotal()
                              && !DecodeCategories(Join(Selected(s.Ticked()))).travelling
    ensures !s.mobile ==> s.StoredTotal() == s.mobileAmt + s.Reset(MobileAmt).StoredTotal()
                          && !DecodeCategories(Join(Selected(s.Ticked()))).mobile
    ensures !s.food ==> s.StoredTotal() == s.foodAmt + s.Reset(FoodAmt).StoredTotal()
                        && !DecodeCategories(Join(Selected(s.Ticked()))).food
    ensures !s.other ==> s.StoredTotal() == s.otherAmt + s.Reset(OtherAmt).StoredTotal()
                         && !DecodeCategories(Join(Selected(s.Ticked()))).other
  {
    PurposeRoundTrip(s.Ticked());
  }

  // ---------------------------------------------------------------------
  // One run of the expense section, on values

  /** The dictionary after one run of the expense section: the checkbox
      values are stored; "None" resets the dictionary to the override;
      otherwise each ticked category stores its entered amount (and "Other"
      its text) while an unticked one keeps what it had. */
  function RenderedState(s: ExpenseState, tick: Categories, tickNone: bool,
                         travellingIn: int, mobileIn: int, foodIn: int, otherIn: int, otherText: string)
    : (r: ExpenseState)
    ensures tickNone ==> r == Overridden
    ensures !tickNone ==> r.Ticked() == tick && !r.none
    ensures !tickNone && !tick.other ==> r.otherPurpose == s.otherPurpose
  {
    if tickNone then Overridden
    else
      ExpenseState(tick.travelling, if tick.travelling then travellingIn else s.travellingAmt,
                   tick.mobile, if tick.mobile then mobileIn else s.mobileAmt,
                   tick.food, if tick.food then foodIn else s.foodAmt,
                   tick.other, if tick.other then otherIn else s.otherAmt,
                   if tick.other then otherText else s.otherPurpose,
                   false)
  }

  /** Without the override, the total moves only by the re-entered amounts. */
  lemma RenderedTotal(s: ExpenseState, tick: Categories,
                      travellingIn: int, mobileIn: int, foodIn: int, otherIn: int, otherText: string)
    ensures RenderedState(s, tick, false, travellingIn, mobileIn, foodIn, otherIn, otherText).StoredTotal()
         == s.StoredTotal()
            + (if tick.travelling then travellingIn - s.travellingAmt else 0)
            + (if tick.mobile then mobileIn - s.mobileAmt else 0)
            + (if tick.food then foodIn - s.foodAmt else 0)
            + (if tick.other then otherIn - s.otherAmt else 0)
  {
  }

  /** The Python number type of the four stored amounts. The initial
      dictionary and every `number_input` result hold floats; the override
      writes the int literal 0 into all four. */
  datatype NumKind = IntAmounts | FloatAmounts

  /** A run of the expense section as written: the dictionary and the kind
      of its amounts after the run, with the total shown; or the error
      Streamlit raises when `number_input` is given an int `value` beside
      the float `min_value=0.0` and `step=0.1`. */
  datatype RunOutcome = Shown(state: ExpenseState, kind: NumKind, total: int) | MixedNumericTypes

  /** The expense section as written. After the override has stored int
      zeros, the first ticked category's `number_input` refuses them, and no
      run stores a float again, so every later run with a category ticked
      fails. */
  function RenderAsWritten(s: ExpenseState, kind: NumKind, tick: Categories, tickNone: bool,
                           travellingIn: int, mobileIn: int, foodIn: int, otherIn: int, otherText: string)
    : (r: RunOutcome)
    ensures r.MixedNumericTypes? <==> !tickNone && kind == IntAmounts && tick != NoCategory
    ensures r.Shown? ==> r.state == RenderedState(s, tick, tickNone, travellingIn, mobileIn, foodIn, otherIn, otherText)
    ensures r.Shown? ==> r.total == r.state.StoredTotal()
    ensures tickNone ==> r.Shown? && r.kind == IntAmounts && r.total == 0
    ensures r.Shown? && kind == IntAmounts ==> r.kind == IntAmounts
  {
    var next := RenderedState(s, tick, tickNone, travellingIn, mobileIn, foodIn, otherIn, otherText);
    if tickNone then Shown(next, IntAmounts, next.StoredTotal())
    else if tick == NoCategory then Shown(next, kind, next.StoredTotal())
    else if kind == IntAmounts then MixedNumericTypes
    else Shown(next, FloatAmounts, next.StoredTotal())
  }

  /** The discrepancy: tick "None" on one run, then on the next untick it
      and tick "Travelling". As written the second run fails, while the
      intended step stores the entered amount. */
  lemma AmountEntryFailsAfterOverride(s: ExpenseState, kind: NumKind, tick: Categories,
                                      travellingIn: int, mobileIn: int, foodIn: int, otherIn: int, otherText: string)
    ensures var first := RenderAsWritten(s, kind, tick, true, travellingIn, mobileIn, foodIn, otherIn, otherText);
            first.Shown?
            && RenderAsWritten(first.state, first.kind, Categories(true, false, false, false), false,
                               travellingIn, mobileIn, foodIn, otherIn, otherText).MixedNumericTypes?
    ensures var first := RenderedState(s, tick, true, travellingIn, mobileIn, foodIn, otherIn, otherText);
            RenderedState(first, Categories(true, false, false, false), false,
                          travellingIn, mobileIn, foodIn, otherIn, otherText).travellingAmt == travellingIn
  {
  }

  /** The intended step, with the override storing float zeros: after an
      override, every category ticked on the next run stores its entered
      amount, and every other amount stays 0. */
  lemma AmountsEnteredAfterOverride(tick: Categories,
                                    travellingIn: int, mobileIn: int, foodIn: int, otherIn: int, otherText: string)
    ensures var r := RenderedState(Overridden, tick, false, travellingIn, mobileIn, foodIn, otherIn, otherText);
            r.Ticked() == tick
            && r.travellingAmt == (if tick.travelling then travellingIn else 0)
            && r.mobileAmt == (if tick.mobile then mobileIn else 0)
            && r.foodAmt == (if tick.food then foodIn else 0)
            && r.otherAmt == (if tick.other then otherIn else 0)
  {
  }

  // ---------------------------------------------------------------------
  // The session's expense dictionary

  class ExpenseForm {
    var travelling: bool
    var travellingAmt: int
    var mobile: bool
    var mobileAmt: int
    var food: bool
    var foodAmt: int
    var other: bool
    var otherAmt: int
    var otherPurpose: string
    var none: bool

    ghost function State(): ExpenseState
      reads this
    {
      ExpenseState(travelling, travellingAmt, mobile, mobileAmt, food, foodAmt, other, otherAmt, otherPurpose, none)
    }

    /** Sub-amounts are never negative, and while the override is set the
        dictionary holds nothing else. */
    ghost predicate Valid()
      reads this
    {
      travellingAmt >= 0 && mobileAmt >= 0 && foodAmt >= 0 && otherAmt >= 0
      && (none ==> State() == Overridden)
    }

    /** The initial session value of the dictionary. */
    constructor ()
      ensures State() == Blank && Valid()
    {
      travelling, travellingAmt := false, 0;
      mobile, mobileAmt := false, 0;
      food, foodAmt := false, 0;
      other, otherAmt, otherPurpose := false, 0, "";
      none := false;
    }

    /** `e[k] = False` for one key. */
    method ResetKey(k: Key)
      modifies this
      ensures State() == old(State()).Reset(k)
    {
      match k
      case Travelling => travelling := false;
      case TravellingAmt => travellingAmt := 0;
      case Mobile => mobile := false;
      case MobileAmt => mobileAmt := 0;
      case Food => food := false;
      case FoodAmt => foodAmt := 0;
      case Other => other := false;
      case OtherAmt => otherAmt := 0;
      case OtherPurpose => otherPurpose := "";
      case NoExpense => none := false;
    }

    /** `for k in e: e[k] = False`. */
    method ResetAll()
      modifies this
      ensures State() == Blank
    {
      for i := 0 to |Keys|
        invariant forall j :: 0 <= j < i ==> State().Cleared(Keys[j])
      {
        ResetKey(Keys[i]);
      }
      AllClearedIsBlank(State());
    }

    /** One run of the expense section: store the checkbox values, apply the
        "None" override, store the amount (and other-purpose text) of each
        category still ticked, and show the total of the stored amounts. */
    method Render(tick: Categories, tickNone: bool,
                  travellingIn: int, mobileIn: int, foodIn: int, otherIn: int, otherText: string)
      returns (total: int)
      requires Valid()
      requires travellingIn >= 0 && mobileIn >= 0 && foodIn >= 0 && otherIn >= 0
      modifies this
      ensures Valid()
      ensures State() == RenderedState(old(State()), tick, tickNone, travellingIn, mobileIn, foodIn, otherIn, otherText)
      ensures tickNone ==> State() == Overridden
      ensures !tickNone ==> State().Ticked() == tick && !none
      ensures !tickNone ==> travellingAmt == (if tick.travelling then travellingIn else old(travellingAmt))
      ensures !tickNone ==> mobileAmt == (if tick.mobile then mobileIn else old(mobileAmt))
      ensures !tickNone ==> foodAmt == (if tick.food then foodIn else old(foodAmt))
      ensures !tickNone ==> otherAmt == (if tick.other then otherIn else old(otherAmt))
      ensures !tickNone ==> otherPurpose == (if tick.other then otherText else old(otherPurpose))
      ensures total == State().StoredTotal() && total >= 0
      ensures tickNone ==> total == 0
    {
      travelling := tick.travelling;
      mobile := tick.mobile;
      food := tick.food;
      other := tick.other;
      none := tickNone;
      if none {
        ResetAll();
        none := true;
        travellingAmt, mobileAmt, foodAmt, otherAmt := 0, 0, 0, 0;
      }
      if travelling {
        travellingAmt := travellingIn;
      }
      if mobile {
        mobileAmt := mobileIn;
      }
      if food {
        foodAmt := foodIn;
      }
      if other {
        otherAmt := otherIn;
        otherPurpose := otherText;
      }
      total := travellingAmt + mobileAmt + foodAmt + otherAmt;
    }

    /** The purpose list `p` built by successive appends, joined. */
    method PurposeList() returns (purpose: string)
      ensures purpose == Join(Selected(State().Ticked()))
    {
      var p: seq<string> := [];
      if travelling {
        p := p + ["travelling"];
      }
      if mobile {
        p := p + ["mobile_recharge"];
      }
      if food {
        p := p + ["food"];
      }
      if other {
        p := p + ["other"];
      }
      assert p == Selected(State().Ticked());
      purpose := Join(p);
    }

    /** The expense fields of the submitted row: the override gives purpose
        "none", amount 0 and no other-purpose text; otherwise the purpose
        names exactly the ticked categories, in the fixed order, and the
        amount is the stored total. */
    method ExpenseFields() returns (purpose: string, amount: int, otherText: string)
      requires Valid()
      ensures none ==> purpose == "none" && amount == 0 && otherText == ""
      ensures !none ==> purpose == Join(Selected(State().Ticked()))
      ensures !none ==> DecodeCategories(purpose) == State().Ticked()
      ensures !none ==> amount == State().StoredTotal() && otherText == otherPurpose
      ensures purpose == "none" <==> none
      ensures purpose == "" <==> !none && State().Ticked() == NoCategory
      ensures amount >= 0
    {
      if none {
        purpose, amount, otherText := "none", 0, "";
      } else {
        purpose := PurposeList();
        amount := travellingAmt + mobileAmt + foodAmt + otherAmt;
        otherText := otherPurpose;
        PurposeRoundTrip(State().Ticked());
        PurposeNeverNone(State().Ticked());
        PurposeEmptyIff(State().Ticked());
      }
    }

    /** The row appended on submit. The assignee is kept only when the work
        is assigned to someone else. */
    method BuildRow(username: string, date: int, assignedBy: string, work: WorkAssignment,
                    assignedToInput: string, description: string, workDone: string,
                    status: TaskStatus, nextDay: string)
      returns (row: TaskRecord)
      requires Valid()
      ensures row.username == username && row.date == Some(date)
      ensures row.taskAssignedBy == assignedBy && row.workAssignment == work
      ensures row.assignedToPerson == if work == AssignedToOther then assignedToInput else ""
      ensures row.taskDescription == description && row.workDoneToday == workDone
      ensures row.taskStatus == status && row.workPlanNextDay == nextDay
      ensures none ==> row.expensePurpose == "none" && row.amount == 0 && row.otherPurpose == ""
      ensures !none ==> row.expensePurpose == Join(Selected(State().Ticked()))
      ensures !none ==> DecodeCategories(row.expensePurpose) == State().Ticked()
      ensures !none ==> row.amount == State().StoredTotal() && row.otherPurpose == otherPurpose
      ensures row.expensePurpose == "none" <==> none
      ensures row.amount >= 0
    {
      var purpose, amount, otherText := ExpenseFields();
      var assignedTo := if work == AssignedToOther then assignedToInput else "";
      row := TaskRecord(username, Some(date), assignedBy, work, assignedTo, description, workDone,
                        status, nextDay, purpose, otherText, amount);
    }
  }
}
