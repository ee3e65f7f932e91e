/**
 * What the action-item validator promises, proved about the functions of
 * `ActionItems` that the methods there are shown to compute.
 */
module ActionItemProperties {
  import opened Text
  import opened Json
  import opened ActionItems

  // ------------------------------------------------- issues, field by field

  /** The problems reported about field `f`, in the order they appear. */
  function ProblemsOf(issues: seq<Issue>, f: Field): seq<Problem> {
    if issues == [] then []
    else (if issues[0].field == f then [issues[0].problem] else []) + ProblemsOf(issues[1..], f)
  }

  lemma {:induction false} ProblemsOfConcat(a: seq<Issue>, b: seq<Issue>, f: Field)
    ensures ProblemsOf(a + b, f) == ProblemsOf(a, f) + ProblemsOf(b, f)
  {
    if a == [] {
      assert a + b == b;
    } else {
      var c := a + b;
      assert c[0] == a[0];
      assert c[1..] == a[1..] + b;
      ProblemsOfConcat(a[1..], b, f);
      assert ProblemsOf(c, f) == (if a[0].field == f then [a[0].problem] else []) + ProblemsOf(a[1..] + b, f);
    }
  }

  lemma {:induction false} ProblemsOfMember(issues: seq<Issue>, f: Field, p: Problem)
    ensures Issue(f, p) in issues <==> p in ProblemsOf(issues, f)
  {
    if issues != [] {
      ProblemsOfMember(issues[1..], f, p);
      assert issues == [issues[0]] + issues[1..];
    }
  }

  /** Each issue is about exactly one of the four fields. */
  lemma {:induction false} ProblemsPartition(issues: seq<Issue>)
    ensures |issues| == |ProblemsOf(issues, ItemField)| + |ProblemsOf(issues, ActionField)|
                        + |ProblemsOf(issues, OwnerField)| + |ProblemsOf(issues, DeadlineField)|
  {
    if issues != [] {
      ProblemsPartition(issues[1..]);
    }
  }

  /** The verdict on one field, stated field by field rather than check by
      check: the first rule that applies to the field, or nothing. */
  function FieldVerdict(item: JsonValue, f: Field): seq<Problem> {
    if !item.JObject? then (if f == ItemField then [NotAnObject] else [])
    else if f == ItemField then []
    else
      var v := Get(item.members, FieldName(f));
      if v.JNull? then [MissingField]
      else if !v.JString? then [NotAString]
      else
        var t := Trim(v.s);
        if t == "" then [EmptyField]
        else
          match f
          case OwnerField => if Upper(t) == "UNASSIGNED" then [Unassigned] else []
          case DeadlineField =>
            if Upper(t) == "TBD" then [DeadlineTbd]
            else if !IsDateShaped(t) then [NotDateFormat]
            else if !ParsesAsDate(t) then [NotARealDate]
            else []
          case ActionField => if |t| < 5 then [TooVague] else []
  }

  lemma RequiredFieldsUnfold(m: map<string, JsonValue>)
    ensures RequiredFieldIssues(m, RequiredFields)
         == RequiredFieldIssue(m, ActionField) + RequiredFieldIssue(m, OwnerField)
            + RequiredFieldIssue(m, DeadlineField)
  {
    assert RequiredFields[..2] == [ActionField, OwnerField];
    assert [ActionField, OwnerField][..1] == [ActionField];
    assert [ActionField][..0] == [];
    assert RequiredFieldIssues(m, [ActionField]) == RequiredFieldIssue(m, ActionField);
    assert RequiredFieldIssues(m, [ActionField, OwnerField])
        == RequiredFieldIssue(m, ActionField) + RequiredFieldIssue(m, OwnerField);
  }

  /** Every issue of `xs` is about field `g`. */
  predicate About(xs: seq<Issue>, g: Field) {
    forall i :: i in xs ==> i.field == g
  }

  /** A list of issues all about field `g` says nothing about another
      field. */
  lemma {:induction false} ProblemsOfOtherField(xs: seq<Issue>, g: Field, f: Field)
    requires About(xs, g)
    requires g != f
    ensures ProblemsOf(xs, f) == []
  {
    if xs != [] {
      assert xs[0] in xs;
      assert forall i :: i in xs[1..] ==> i in xs;
      ProblemsOfOtherField(xs[1..], g, f);
    }
  }

  /** Each check reports only on its own field. */
  lemma RequiredFieldAbout(m: map<string, JsonValue>, g: Field)
    ensures About(RequiredFieldIssue(m, g), g)
  {
  }

  lemma OwnerAbout(m: map<string, JsonValue>)
    ensures About(OwnerIssues(m), OwnerField)
  {
  }

  lemma DeadlineAbout(m: map<string, JsonValue>)
    ensures About(DeadlineIssues(m), DeadlineField)
  {
  }

  lemma ActionAbout(m: map<string, JsonValue>)
    ensures About(ActionIssues(m), ActionField)
  {
  }

  /** A check on one field says nothing about the others. */
  lemma RequiredFieldOnly(m: map<string, JsonValue>, g: Field, f: Field)
    requires g != f
    ensures ProblemsOf(RequiredFieldIssue(m, g), f) == []
  {
    RequiredFieldAbout(m, g);
    ProblemsOfOtherField(RequiredFieldIssue(m, g), g, f);
  }

  lemma OwnerOnly(m: map<string, JsonValue>, f: Field)
    requires f != OwnerField
    ensures ProblemsOf(OwnerIssues(m), f) == []
  {
    OwnerAbout(m);
    ProblemsOfOtherField(OwnerIssues(m), OwnerField, f);
  }

  lemma DeadlineOnly(m: map<string, JsonValue>, f: Field)
    requires f != DeadlineField
    ensures ProblemsOf(DeadlineIssues(m), f) == []
  {
    DeadlineAbout(m);
    ProblemsOfOtherField(DeadlineIssues(m), DeadlineField, f);
  }

  lemma ActionOnly(m: map<string, JsonValue>, f: Field)
    requires f != ActionField
    ensures ProblemsOf(ActionIssues(m), f) == []
  {
    ActionAbout(m);
    ProblemsOfOtherField(ActionIssues(m), ActionField, f);
  }

  /** A list with nothing about `f` adds nothing about `f`, on either side. */
  lemma ConcatNothingRight(x: seq<Issue>, y: seq<Issue>, f: Field)
    requires ProblemsOf(y, f) == []
    ensures ProblemsOf(x + y, f) == ProblemsOf(x, f)
  {
    ProblemsOfConcat(x, y, f);
  }

  lemma ConcatNothingLeft(x: seq<Issue>, y: seq<Issue>, f: Field)
    requires ProblemsOf(x, f) == []
    ensures ProblemsOf(x + y, f) == ProblemsOf(y, f)
  {
    ProblemsOfConcat(x, y, f);
  }

  /** Six lists in check order, the first and last about the action, the
      second and fourth about the owner, the third and fifth about the
      deadline, sorted out by field. */
  lemma SplitSix(a: seq<Issue>, o: seq<Issue>, d: seq<Issue>,
                 own: seq<Issue>, dl: seq<Issue>, act: seq<Issue>, f: Field)
    requires f != ActionField ==> ProblemsOf(a, f) == [] && ProblemsOf(act, f) == []
    requires f != OwnerField ==> ProblemsOf(o, f) == [] && ProblemsOf(own, f) == []
    requires f != DeadlineField ==> ProblemsOf(d, f) == [] && ProblemsOf(dl, f) == []
    ensures ProblemsOf(a + o + d + own + dl + act, f)
         == if f == ActionField then ProblemsOf(a, f) + ProblemsOf(act, f)
            else if f == OwnerField then ProblemsOf(o, f) + ProblemsOf(own, f)
            else if f == DeadlineField then ProblemsOf(d, f) + ProblemsOf(dl, f)
            else []
  {
    var s2, s3, s4 := a + o + d, a + o + d + own, a + o + d + own + dl;
    if f == ActionField {
      ConcatNothingRight(a, o, f);
      ConcatNothingRight(a + o, d, f);
      ConcatNothingRight(s2, own, f);
      ConcatNothingRight(s3, dl, f);
      ProblemsOfConcat(s4, act, f);
    } else if f == OwnerField {
      ConcatNothingLeft(a, o, f);
      ConcatNothingRight(a + o, d, f);
      ProblemsOfConcat(s2, own, f);
      ConcatNothingRight(s3, dl, f);
      ConcatNothingRight(s4, act, f);
    } else if f == DeadlineField {
      ConcatNothingLeft(a, o, f);
      ConcatNothingLeft(a + o, d, f);
      ConcatNothingRight(s2, own, f);
      ProblemsOfConcat(s3, dl, f);
      ConcatNothingRight(s4, act, f);
    } else {
      ConcatNothingLeft(a, o, f);
      ConcatNothingLeft(a + o, d, f);
      ConcatNothingLeft(s2, own, f);
      ConcatNothingLeft(s3, dl, f);
      ConcatNothingLeft(s4, act, f);
    }
  }

  /** Only the checks on field `f` say anything about `f`. */
  lemma SplitByField(m: map<string, JsonValue>, f: Field)
    ensures ProblemsOf(ItemIssues(JObject(m)), f)
         == if f == ActionField then ProblemsOf(RequiredFieldIssue(m, f), f) + ProblemsOf(ActionIssues(m), f)
            else if f == OwnerField then ProblemsOf(RequiredFieldIssue(m, f), f) + ProblemsOf(OwnerIssues(m), f)
            else if f == DeadlineField then ProblemsOf(RequiredFieldIssue(m, f), f) + ProblemsOf(DeadlineIssues(m), f)
            else []
  {
    RequiredFieldsUnfold(m);
    if f != ActionField {
      RequiredFieldOnly(m, ActionField, f);
      ActionOnly(m, f);
    }
    if f != OwnerField {
      RequiredFieldOnly(m, OwnerField, f);
      OwnerOnly(m, f);
    }
    if f != DeadlineField {
      RequiredFieldOnly(m, DeadlineField, f);
      DeadlineOnly(m, f);
    }
    SplitSix(RequiredFieldIssue(m, ActionField), RequiredFieldIssue(m, OwnerField), RequiredFieldIssue(m, DeadlineField),
             OwnerIssues(m), DeadlineIssues(m), ActionIssues(m), f);
  }

  lemma OwnerVerdict(m: map<string, JsonValue>)
    ensures ProblemsOf(ItemIssues(JObject(m)), OwnerField) == FieldVerdict(JObject(m), OwnerField)
  {
    SplitByField(m, OwnerField);
    assert Upper(Trim("")) == "";
  }

  lemma DeadlineVerdict(m: map<string, JsonValue>)
    ensures ProblemsOf(ItemIssues(JObject(m)), DeadlineField) == FieldVerdict(JObject(m), DeadlineField)
  {
    SplitByField(m, DeadlineField);
    var v := Get(m, "deadline");
    if v.JString? && Trim(v.s) != "" {
      var t := Trim(v.s);
      assert ProblemsOf(RequiredFieldIssue(m, DeadlineField), DeadlineField) == [];
      if Upper(t) == "TBD" {
        assert DeadlineIssues(m) == [Issue(DeadlineField, DeadlineTbd)];
      } else {
        assert DeadlineIssues(m) == DateIssues(t);
      }
    } else {
      assert Upper(Trim("")) == "";
      assert DeadlineIssues(m) == [];
    }
  }

  lemma ActionVerdict(m: map<string, JsonValue>)
    ensures ProblemsOf(ItemIssues(JObject(m)), ActionField) == FieldVerdict(JObject(m), ActionField)
  {
    SplitByField(m, ActionField);
    assert Trim("") == "";
  }

  /** The issues of an item, grouped by field, are exactly the verdicts
      field by field: each field is reported at most once, by the first rule
      that applies to it. */
  lemma PerFieldVerdict(item: JsonValue, f: Field)
    ensures ProblemsOf(ItemIssues(item), f) == FieldVerdict(item, f)
  {
    if item.JObject? {
      match f
      case ItemField => SplitByField(item.members, f);
      case OwnerField => OwnerVerdict(item.members);
      case DeadlineField => DeadlineVerdict(item.members);
      case ActionField => ActionVerdict(item.members);
    }
  }

  /** Every field gets at most one issue, so an item has at most three. */
  lemma AtMostOneIssuePerField(item: JsonValue)
    ensures forall f :: |ProblemsOf(ItemIssues(item), f)| <= 1
    ensures item.JObject? ==> |ItemIssues(item)| <= 3
  {
    forall f ensures |ProblemsOf(ItemIssues(item), f)| <= 1 {
      PerFieldVerdict(item, f);
    }
    ProblemsPartition(ItemIssues(item));
    PerFieldVerdict(item, ItemField);
  }

  // -------------------------------------------------- the individual rules

  /** A value that is not an object gets the single `item` issue and nothing
      else; an object never gets it. */
  lemma NotAnObjectShortCircuits(item: JsonValue)
    ensures !item.JObject? <==> ItemIssues(item) == [Issue(ItemField, NotAnObject)]
    ensures forall p :: Issue(ItemField, p) in ItemIssues(item) ==> !item.JObject? && p == NotAnObject
  {
    PerFieldVerdict(item, ItemField);
    forall p ensures Issue(ItemField, p) in ItemIssues(item) ==> !item.JObject? && p == NotAnObject {
      ProblemsOfMember(ItemIssues(item), ItemField, p);
    }
    if item.JObject? {
      assert Issue(ItemField, NotAnObject) !in ItemIssues(item);
    }
  }

  /** The required-field checks come first, in the order action, owner,
      deadline, each adding at most one issue about its own field; the
      UNASSIGNED, deadline and vagueness checks follow in that order. */
  lemma CheckOrder(m: map<string, JsonValue>)
    ensures ItemIssues(JObject(m))
         == RequiredFieldIssue(m, ActionField) + RequiredFieldIssue(m, OwnerField)
            + RequiredFieldIssue(m, DeadlineField)
            + OwnerIssues(m) + DeadlineIssues(m) + ActionIssues(m)
    ensures forall f :: f != ItemField ==>
              |RequiredFieldIssue(m, f)| <= 1 && forall i :: i in RequiredFieldIssue(m, f) ==> i.field == f
  {
    RequiredFieldsUnfold(m);
  }

  /** An owner that reads UNASSIGNED gets exactly one owner issue, for that
      reason; the UNASSIGNED issue appears for no other owner. */
  lemma UnassignedOwner(item: JsonValue)
    ensures Issue(OwnerField, Unassigned) in ItemIssues(item) <==>
            && item.JObject? && "owner" in item.members && item.members["owner"].JString?
            && Upper(Trim(item.members["owner"].s)) == "UNASSIGNED"
    ensures item.JObject? && "owner" in item.members && item.members["owner"].JString?
            && Upper(Trim(item.members["owner"].s)) == "UNASSIGNED"
            ==> ProblemsOf(ItemIssues(item), OwnerField) == [Unassigned]
  {
    PerFieldVerdict(item, OwnerField);
    ProblemsOfMember(ItemIssues(item), OwnerField, Unassigned);
    assert Upper("") == "";
  }

  /** The UNASSIGNED rule ignores case: it fires exactly for an owner whose
      stripped text spells UNASSIGNED with each letter in either case. */
  lemma UnassignedInAnyCase(item: JsonValue)
    ensures Issue(OwnerField, Unassigned) in ItemIssues(item) <==>
            && item.JObject? && "owner" in item.members && item.members["owner"].JString?
            && SpellsIgnoringCase(Trim(item.members["owner"].s), "UNASSIGNED")
  {
    UnassignedOwner(item);
    if item.JObject? && "owner" in item.members && item.members["owner"].JString? {
      UpperMatchesWord(Trim(item.members["owner"].s), "UNASSIGNED");
    }
  }

  /** A TBD deadline gets the TBD issue and no format or date issue. */
  lemma TbdDeadline(m: map<string, JsonValue>)
    requires "deadline" in m && m["deadline"].JString? && Upper(Trim(m["deadline"].s)) == "TBD"
    ensures ProblemsOf(ItemIssues(JObject(m)), DeadlineField) == [DeadlineTbd]
    ensures Issue(DeadlineField, NotDateFormat) !in ItemIssues(JObject(m))
    ensures Issue(DeadlineField, NotARealDate) !in ItemIssues(JObject(m))
  {
    PerFieldVerdict(JObject(m), DeadlineField);
    assert Upper("") == "";
    ProblemsOfMember(ItemIssues(JObject(m)), DeadlineField, NotDateFormat);
    ProblemsOfMember(ItemIssues(JObject(m)), DeadlineField, NotARealDate);
  }

  /** A non-blank deadline other than TBD gets a format issue exactly when it
      is not shaped YYYY-MM-DD, a date issue exactly when it is shaped so but
      is not on the calendar, and no issue otherwise. */
  lemma DeadlineFormatOrDate(m: map<string, JsonValue>)
    requires "deadline" in m && m["deadline"].JString?
    requires Trim(m["deadline"].s) != "" && Upper(Trim(m["deadline"].s)) != "TBD"
    ensures var t := Trim(m["deadline"].s);
            && (Issue(DeadlineField, NotDateFormat) in ItemIssues(JObject(m)) <==> !IsDateShaped(t))
            && (Issue(DeadlineField, NotARealDate) in ItemIssues(JObject(m)) <==> IsDateShaped(t) && !ParsesAsDate(t))
            && (ProblemsOf(ItemIssues(JObject(m)), DeadlineField) == [] <==> IsDateShaped(t) && ParsesAsDate(t))
  {
    PerFieldVerdict(JObject(m), DeadlineField);
    ProblemsOfMember(ItemIssues(JObject(m)), DeadlineField, NotDateFormat);
    ProblemsOfMember(ItemIssues(JObject(m)), DeadlineField, NotARealDate);
  }

  /** The vagueness issue appears exactly for a string action of one to four
      characters after stripping; a blank action gets only the empty-field
      issue. */
  lemma VagueAction(item: JsonValue)
    ensures Issue(ActionField, TooVague) in ItemIssues(item) <==>
            && item.JObject? && "action" in item.members && item.members["action"].JString?
            && 0 < |Trim(item.members["action"].s)| < 5
    ensures item.JObject? && "action" in item.members && item.members["action"].JString?
            && Trim(item.members["action"].s) == ""
            ==> ProblemsOf(ItemIssues(item), ActionField) == [EmptyField]
  {
    PerFieldVerdict(item, ActionField);
    ProblemsOfMember(ItemIssues(item), ActionField, TooVague);
  }

  // ------------------------------------------------------- clean items

  /** `key` holds a string that is not blank. */
  predicate NonBlankString(m: map<string, JsonValue>, key: string) {
    key in m && m[key].JString? && Trim(m[key].s) != ""
  }

  /** An action item someone can act on, with every rule stated in the
      item's own terms. */
  predicate IsActionable(item: JsonValue) {
    && item.JObject?
    && var m := item.members;
       && NonBlankString(m, "action") && NonBlankString(m, "owner") && NonBlankString(m, "deadline")
       && Upper(Trim(m["owner"].s)) != "UNASSIGNED"
       && (var t := Trim(m["deadline"].s); Upper(t) != "TBD" && IsDateShaped(t) && ParsesAsDate(t))
       && |Trim(m["action"].s)| >= 5
  }

  /** An item gets no issue exactly when it is actionable. */
  lemma NoIssuesIffActionable(item: JsonValue)
    ensures ItemIssues(item) == [] <==> IsActionable(item)
  {
    ProblemsPartition(ItemIssues(item));
    PerFieldVerdict(item, ItemField);
    PerFieldVerdict(item, ActionField);
    PerFieldVerdict(item, OwnerField);
    PerFieldVerdict(item, DeadlineField);
  }

  /** A real date in YYYY-MM-DD form passes the date rules. */
  lemma RealDateExample()
    ensures DateIssues("2025-02-21") == []
  {
    ParsesAsDateDigits("2025-02-21");
  }

  /** February 30th has the right shape but is not on the calendar. */
  lemma ImpossibleDateExample()
    ensures DateIssues("2025-02-30") == [Issue(DeadlineField, NotARealDate)]
  {
    ParsesAsDateDigits("2025-02-30");
  }

  /** Leap years follow the Gregorian rule, and year 0 is not a year. */
  lemma CalendarExamples()
    ensures IsCalendarDate(2024, 2, 29) && !IsCalendarDate(2023, 2, 29)
    ensures IsCalendarDate(2000, 2, 29) && !IsCalendarDate(1900, 2, 29)
    ensures !IsCalendarDate(0, 1, 1) && IsCalendarDate(9999, 12, 31)
    ensures !IsCalendarDate(2025, 4, 31) && !IsCalendarDate(2025, 13, 1) && !IsCalendarDate(2025, 1, 0)
  {
  }

  // ------------------------------------------------------------ the report

  function ValidIndices(rs: seq<ItemResult>): set<int> {
    set i | 0 <= i < |rs| && rs[i].valid
  }

  function IndicesWithIssues(rs: seq<ItemResult>): set<int> {
    set i | 0 <= i < |rs| && rs[i].issues != []
  }

  lemma ValidIndicesStep(rs: seq<ItemResult>)
    requires rs != []
    ensures var n := |rs| - 1;
            ValidIndices(rs) == ValidIndices(rs[..n]) + (if rs[n].valid then {n} else {})
    ensures |rs| - 1 !in ValidIndices(rs[..|rs| - 1])
  {
    var n := |rs| - 1;
    assert forall i :: 0 <= i < n ==> rs[..n][i] == rs[i];
  }

  lemma IndicesWithIssuesStep(rs: seq<ItemResult>)
    requires rs != []
    ensures var n := |rs| - 1;
            IndicesWithIssues(rs) == IndicesWithIssues(rs[..n]) + (if rs[n].issues != [] then {n} else {})
    ensures |rs| - 1 !in IndicesWithIssues(rs[..|rs| - 1])
  {
    var n := |rs| - 1;
    assert forall i :: 0 <= i < n ==> rs[..n][i] == rs[i];
  }

  lemma {:induction false} CountValidIsCardinality(rs: seq<ItemResult>)
    ensures CountValid(rs) == |ValidIndices(rs)|
  {
    if rs != [] {
      CountValidIsCardinality(rs[..|rs| - 1]);
      ValidIndicesStep(rs);
    }
  }

  lemma {:induction false} NoIssuesIffAllEmpty(rs: seq<ItemResult>)
    ensures TotalIssues(rs) == 0 <==> forall i :: 0 <= i < |rs| ==> rs[i].issues == []
  {
    if rs != [] {
      var n := |rs| - 1;
      NoIssuesIffAllEmpty(rs[..n]);
      assert forall i :: 0 <= i < n ==> rs[..n][i] == rs[i];
    }
  }

  /** Every result describes its item, in input order, and `valid` is
      exactly "no issues". */
  lemma ResultsDescribeItems(items: seq<JsonValue>)
    requires |items| > 0
    ensures OutcomeFor(items).Validated?
    ensures var rs := OutcomeFor(items).report.results;
            && |rs| == |items|
            && forall i :: 0 <= i < |items| ==>
                 && rs[i].index == i
                 && rs[i].issues == ItemIssues(items[i])
                 && (rs[i].valid <==> rs[i].issues == [])
                 && rs[i].action == ActionLabel(items[i], i)
  {
  }

  /** Only for results whose `valid` flag says "no issues". */
  lemma {:induction false} ValidOrWithIssues(rs: seq<ItemResult>)
    requires forall i :: 0 <= i < |rs| ==> (rs[i].valid <==> rs[i].issues == [])
    ensures |ValidIndices(rs)| + |IndicesWithIssues(rs)| == |rs|
  {
    if rs != [] {
      var n := |rs| - 1;
      assert forall i :: 0 <= i < n ==> rs[..n][i] == rs[i];
      ValidOrWithIssues(rs[..n]);
      ValidIndicesStep(rs);
      IndicesWithIssuesStep(rs);
    }
  }

  lemma {:induction false} AllValidIffCountFull(rs: seq<ItemResult>)
    ensures CountValid(rs) == |rs| <==> forall i :: 0 <= i < |rs| ==> rs[i].valid
  {
    if rs != [] {
      var n := |rs| - 1;
      AllValidIffCountFull(rs[..n]);
      assert forall i :: 0 <= i < n ==> rs[..n][i] == rs[i];
    }
  }

  /** The counts of the report: valid items plus items with issues is the
      number of items, and each count is the number of results of its kind. */
  lemma ReportCounts(items: seq<JsonValue>)
    requires |items| > 0
    ensures OutcomeFor(items).Validated?
    ensures var r := OutcomeFor(items).report;
            && r.totalItems == |items| == |r.results|
            && r.validItems + r.itemsWithIssues == r.totalItems
            && r.validItems == |ValidIndices(r.results)|
            && r.itemsWithIssues == |IndicesWithIssues(r.results)|
            && r.totalIssues == TotalIssues(r.results)
  {
    var rs := OutcomeFor(items).report.results;
    CountValidIsCardinality(rs);
    ValidOrWithIssues(rs);
  }

  /** Status "pass" and exit code 0 go together with a zero issue total, which
      is the same as every item being valid. */
  lemma StatusAndExitCode(items: seq<JsonValue>)
    requires |items| > 0
    ensures OutcomeFor(items).Validated?
    ensures var o := OutcomeFor(items);
            && (StatusOf(o) == Pass <==> o.report.totalIssues == 0)
            && (StatusOf(o) != Warning)
            && (ExitCode(o) == 0 <==> o.report.totalIssues == 0)
            && (o.report.totalIssues == 0 <==> o.report.validItems == o.report.totalItems)
  {
    var rs := OutcomeFor(items).report.results;
    NoIssuesIffAllEmpty(rs);
    AllValidIffCountFull(rs);
  }

  /** An empty array is reported with status "warning", zero counts and exit
      code 0. */
  lemma EmptyArray()
    ensures OutcomeFor([]) == NothingToValidate
    ensures StatusOf(OutcomeFor([])) == Warning && ExitCode(OutcomeFor([])) == 0
  {
  }

  /** For any array, the validator exits with 0 exactly when no item has an
      issue. */
  lemma ExitZeroIffAllItemsClean(items: seq<JsonValue>)
    ensures ExitCode(OutcomeFor(items)) == 0 <==> forall i :: 0 <= i < |items| ==> ItemIssues(items[i]) == []
  {
    if |items| > 0 {
      var rs := ResultsFor(items);
      assert OutcomeFor(items).report.totalIssues == TotalIssues(rs);
      NoIssuesIffAllEmpty(rs);
      if forall i :: 0 <= i < |items| ==> ItemIssues(items[i]) == [] {
        forall i | 0 <= i < |rs|
          ensures rs[i].issues == []
        {
          assert rs[i] == ResultFor(items[i], i);
        }
      } else {
        var i :| 0 <= i < |items| && ItemIssues(items[i]) != [];
        assert rs[i] == ResultFor(items[i], i);
      }
    }
  }

  /** Items without an `action` member are labelled `item-<index>`, and no
      two such labels coincide. */
  lemma PlaceholderLabelsDistinct(i: nat, j: nat)
    requires i != j
    ensures JString("item-" + Decimal(i)) != JString("item-" + Decimal(j))
  {
    if "item-" + Decimal(i) == "item-" + Decimal(j) {
      assert Decimal(i) == ("item-" + Decimal(i))[5..];
      DecimalInjective(i, j);
    }
  }
}
