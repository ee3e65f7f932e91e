/**
 * The action-item validator: the per-item rules of `validate_item` and the
 * report that `main` builds over a JSON array of items.
 *
 * Issues are tagged values (the field and the kind of problem); the wording
 * of the messages is not modelled.
 */
module ActionItems {
  import opened Text
  import opened Json

  datatype Field = ItemField | ActionField | OwnerField | DeadlineField

  /** The name an issue reports for a field, which is also the key read. */
  function FieldName(f: Field): string {
    match f
    case ItemField => "item"
    case ActionField => "action"
    case OwnerField => "owner"
    case DeadlineField => "deadline"
  }

  /** `REQUIRED_FIELDS`, in the order they are checked. */
  const RequiredFields: seq<Field> := [ActionField, OwnerField, DeadlineField]

  datatype Problem =
    | NotAnObject     // the item is not a JSON object
    | MissingField    // absent, or `null`
    | NotAString
    | EmptyField      // whitespace only
    | Unassigned      // owner reads UNASSIGNED in any case
    | DeadlineTbd     // deadline reads TBD in any case
    | NotDateFormat   // not four digits, dash, two digits, dash, two digits
    | NotARealDate    // shaped like a date but not on the calendar
    | TooVague        // action of one to four characters

  datatype Issue = Issue(field: Field, problem: Problem)

  // ---------------------------------------------------------------- dates

  /** `DATE_PATTERN`, `^\d{4}-\d{2}-\d{2}$`, on text that has been stripped
      (so the `$` before a final newline cannot matter). */
  predicate IsDateShaped(t: string) {
    && |t| == 10 && t[4] == '-' && t[7] == '-'
    && forall i :: 0 <= i < 10 && i != 4 && i != 7 ==> IsDigit(t[i])
  }

  predicate IsLeapYear(y: int) {
    y % 4 == 0 && (y % 100 != 0 || y % 400 == 0)
  }

  function DaysInMonth(y: int, m: int): (days: int)
    requires 1 <= m <= 12
    ensures 28 <= days <= 31
    ensures days == 29 <==> m == 2 && IsLeapYear(y)
  {
    if m == 2 then (if IsLeapYear(y) then 29 else 28)
    else if m == 4 || m == 6 || m == 9 || m == 11 then 30
    else 31
  }

  /** Python's `datetime.MINYEAR` and `datetime.MAXYEAR`. */
  const MinYear := 1
  const MaxYear := 9999

  predicate IsCalendarDate(y: int, m: int, d: int) {
    MinYear <= y <= MaxYear && 1 <= m <= 12 && 1 <= d <= DaysInMonth(y, m)
  }

  /** `datetime.strptime(t, "%Y-%m-%d")` succeeds on date-shaped text. */
  predicate ParsesAsDate(t: string)
    requires IsDateShaped(t)
  {
    IsCalendarDate(DigitsValue(t[0..4]), DigitsValue(t[5..7]), DigitsValue(t[8..10]))
  }

  /** The calendar check on a date-shaped text, digit by digit. */
  lemma ParsesAsDateDigits(t: string)
    requires IsDateShaped(t)
    ensures ParsesAsDate(t) <==>
            IsCalendarDate(1000 * DigitValue(t[0]) + 100 * DigitValue(t[1]) + 10 * DigitValue(t[2]) + DigitValue(t[3]),
                           10 * DigitValue(t[5]) + DigitValue(t[6]),
                           10 * DigitValue(t[8]) + DigitValue(t[9]))
  {
    DigitsValue4(t[0..4]);
    DigitsValue2(t[5..7]);
    DigitsValue2(t[8..10]);
  }

  // ------------------------------------------------- the per-item rules

  /** The required-field check on one field: missing (absent or null), not a
      string, or blank after stripping, whichever comes first. */
  function RequiredFieldIssue(m: map<string, JsonValue>, f: Field): seq<Issue> {
    var v := Get(m, FieldName(f));
    if v.JNull? then [Issue(f, MissingField)]
    else if !v.JString? then [Issue(f, NotAString)]
    else if Trim(v.s) == "" then [Issue(f, EmptyField)]
    else []
  }

  /** The required-field checks on `fs`, in order. */
  function RequiredFieldIssues(m: map<string, JsonValue>, fs: seq<Field>): seq<Issue> {
    if fs == [] then []
    else RequiredFieldIssues(m, fs[..|fs| - 1]) + RequiredFieldIssue(m, fs[|fs| - 1])
  }

  function OwnerIssues(m: map<string, JsonValue>): seq<Issue> {
    var owner := GetOr(m, "owner", JString(""));
    if owner.JString? && Upper(Trim(owner.s)) == "UNASSIGNED" then [Issue(OwnerField, Unassigned)]
    else []
  }

  /** The format and calendar checks on a stripped, non-blank deadline. */
  function DateIssues(t: string): seq<Issue> {
    if !IsDateShaped(t) then [Issue(DeadlineField, NotDateFormat)]
    else if !ParsesAsDate(t) then [Issue(DeadlineField, NotARealDate)]
    else []
  }

  function DeadlineIssues(m: map<string, JsonValue>): seq<Issue> {
    var deadline := GetOr(m, "deadline", JString(""));
    if deadline.JString? && Upper(Trim(deadline.s)) == "TBD" then [Issue(DeadlineField, DeadlineTbd)]
    else if deadline.JString? && Trim(deadline.s) != "" then DateIssues(Trim(deadline.s))
    else []
  }

  function ActionIssues(m: map<string, JsonValue>): seq<Issue> {
    var action := GetOr(m, "action", JString(""));
    if action.JString? && 0 < |Trim(action.s)| < 5 then [Issue(ActionField, TooVague)]
    else []
  }

  /** The issues `validate_item` returns for one item, in the order it
      appends them. */
  function ItemIssues(item: JsonValue): seq<Issue> {
    match item
    case JObject(m) =>
      RequiredFieldIssues(m, RequiredFields) + OwnerIssues(m) + DeadlineIssues(m) + ActionIssues(m)
    case _ => [Issue(ItemField, NotAnObject)]
  }

  /** The `for field in REQUIRED_FIELDS` loop of `validate_item`. */
  method CheckRequiredFields(m: map<string, JsonValue>) returns (issues: seq<Issue>)
    ensures issues == RequiredFieldIssues(m, RequiredFields)
  {
    issues := [];
    for k := 0 to |RequiredFields|
      invariant issues == RequiredFieldIssues(m, RequiredFields[..k])
    {
      var field := RequiredFields[k];
      var value := Get(m, FieldName(field));
      if value.JNull? {
        issues := issues + [Issue(field, MissingField)];
      } else if !value.JString? {
        issues := issues + [Issue(field, NotAString)];
      } else if Trim(value.s) == "" {
        issues := issues + [Issue(field, EmptyField)];
      }
      assert RequiredFields[..k + 1][..k] == RequiredFields[..k];
    }
    assert RequiredFields[..|RequiredFields|] == RequiredFields;
  }

  /** The UNASSIGNED check of `validate_item`, appending to `issues`. */
  method CheckOwner(m: map<string, JsonValue>, issues: seq<Issue>) returns (result: seq<Issue>)
    ensures result == issues + OwnerIssues(m)
  {
    result := issues;
    var owner := GetOr(m, "owner", JString(""));
    if owner.JString? && Upper(Trim(owner.s)) == "UNASSIGNED" {
      result := result + [Issue(OwnerField, Unassigned)];
    }
  }

  /** The TBD, format and calendar checks of `validate_item`, appending to
      `issues`. */
  method CheckDeadline(m: map<string, JsonValue>, issues: seq<Issue>) returns (result: seq<Issue>)
    ensures result == issues + DeadlineIssues(m)
  {
    result := issues;
    var deadline := GetOr(m, "deadline", JString(""));
    if deadline.JString? && Upper(Trim(deadline.s)) == "TBD" {
      result := result + [Issue(DeadlineField, DeadlineTbd)];
    } else if deadline.JString? && Trim(deadline.s) != "" {
      var t := Trim(deadline.s);
      if !IsDateShaped(t) {
        result := result + [Issue(DeadlineField, NotDateFormat)];
      } else if !ParsesAsDate(t) {
        result := result + [Issue(DeadlineField, NotARealDate)];
      }
      assert result == issues + DateIssues(t);
    }
  }

  /** The "too vague" check of `validate_item`, appending to `issues`. */
  method CheckAction(m: map<string, JsonValue>, issues: seq<Issue>) returns (result: seq<Issue>)
    ensures result == issues + ActionIssues(m)
  {
    result := issues;
    var action := GetOr(m, "action", JString(""));
    if action.JString? && 0 < |Trim(action.s)| < 5 {
      result := result + [Issue(ActionField, TooVague)];
    }
  }

  /** `validate_item`: the issue list of one item, built check by check. */
  method ValidateItem(item: JsonValue) returns (issues: seq<Issue>)
    ensures issues == ItemIssues(item)
  {
    if !item.JObject? {
      return [Issue(ItemField, NotAnObject)];
    }
    var m := item.members;
    issues := CheckRequiredFields(m);
    issues := CheckOwner(m, issues);
    issues := CheckDeadline(m, issues);
    issues := CheckAction(m, issues);
  }

  // ------------------------------------------------------------ the report

  /** One entry of `results`: the item's position, its `action` member (or
      the placeholder `item-<index>`), whether it is valid, and its issues. */
  datatype ItemResult = ItemResult(index: nat, action: JsonValue, valid: bool, issues: seq<Issue>)

  datatype Status = Pass | Fail | Warning

  datatype Report = Report(
    status: Status,
    totalItems: nat,
    validItems: nat,
    itemsWithIssues: nat,
    totalIssues: nat,
    results: seq<ItemResult>)

  datatype InputError = NoInput | InvalidJson | NotAnArray

  /** What `main` prints: a single error object, the "warning" report for an
      empty array (status "warning", all counts 0, no results and no
      `total_issues`), or the full report. */
  datatype Outcome =
    | Rejected(error: InputError)
    | NothingToValidate
    | Validated(report: Report)

  /** The status field of a printed report. */
  function StatusOf(o: Outcome): Status
    requires !o.Rejected?
  {
    if o.NothingToValidate? then Warning else o.report.status
  }

  /** The process exit status `main` ends with. */
  function ExitCode(o: Outcome): int {
    match o
    case Rejected(_) => 1
    case NothingToValidate => 0
    case Validated(r) => if r.totalIssues == 0 then 0 else 1
  }

  /** `item.get("action", f"item-{i}")` for an object, else `f"item-{i}"`. */
  function ActionLabel(item: JsonValue, i: nat): JsonValue {
    if item.JObject? && "action" in item.members then item.members["action"]
    else JString("item-" + Decimal(i))
  }

  function ResultFor(item: JsonValue, i: nat): ItemResult {
    var issues := ItemIssues(item);
    ItemResult(i, ActionLabel(item, i), issues == [], issues)
  }

  /** `sum(1 for r in results if r["valid"])`. */
  function CountValid(rs: seq<ItemResult>): (n: nat)
    ensures n <= |rs|
  {
    if rs == [] then 0 else CountValid(rs[..|rs| - 1]) + (if rs[|rs| - 1].valid then 1 else 0)
  }

  /** The sum of the issue counts of `rs`. */
  function TotalIssues(rs: seq<ItemResult>): nat {
    if rs == [] then 0 else TotalIssues(rs[..|rs| - 1]) + |rs[|rs| - 1].issues|
  }

  /** The results `main` collects, one per item, in input order. */
  function ResultsFor(items: seq<JsonValue>): (rs: seq<ItemResult>)
    ensures |rs| == |items|
  {
    seq(|items|, i requires 0 <= i < |items| => ResultFor(items[i], i))
  }

  /** Collecting one more result extends the results collected so far. */
  lemma ResultsForSnoc(items: seq<JsonValue>, i: nat)
    requires i < |items|
    ensures ResultsFor(items[..i + 1]) == ResultsFor(items[..i]) + [ResultFor(items[i], i)]
  {
    var rs, rs1 := ResultsFor(items[..i]), ResultsFor(items[..i + 1]);
    forall j | 0 <= j <= i
      ensures rs1[j] == (rs + [ResultFor(items[i], i)])[j]
    {
      assert items[..i + 1][j] == items[j];
      if j < i {
        assert items[..i][j] == items[j];
      }
    }
  }

  /** The report `main` prints for a parsed JSON array. */
  function OutcomeFor(items: seq<JsonValue>): Outcome {
    if |items| == 0 then NothingToValidate
    else
      var rs := ResultsFor(items);
      var total := TotalIssues(rs);
      var valid := CountValid(rs);
      Validated(Report(if total == 0 then Pass else Fail, |items|, valid, |rs| - valid, total, rs))
  }

  /** The result record `main` builds for item `i`. */
  method CheckItem(item: JsonValue, i: nat) returns (result: ItemResult)
    ensures result == ResultFor(item, i)
  {
    var issues := ValidateItem(item);
    var actionDesc := ActionLabel(item, i);
    result := ItemResult(i, actionDesc, |issues| == 0, issues);
  }

  /** The per-item loop of `main` and the report built from it. */
  method ValidateActions(items: seq<JsonValue>) returns (outcome: Outcome)
    ensures outcome == OutcomeFor(items)
  {
    if |items| == 0 {
      return NothingToValidate;
    }
    var results: seq<ItemResult> := [];
    var totalIssues := 0;
    for i := 0 to |items|
      invariant results == ResultsFor(items[..i])
      invariant totalIssues == TotalIssues(results)
    {
      var result := CheckItem(items[i], i);
      ResultsForSnoc(items, i);
      ghost var before := results;
      results := results + [result];
      assert results[..|results| - 1] == before;
      totalIssues := totalIssues + |result.issues|;
    }
    assert items[..|items|] == items;
    var validCount := CountValid(results);
    var issueCount := |results| - validCount;
    var report := Report(if totalIssues == 0 then Pass else Fail, |items|, validCount, issueCount, totalIssues, results);
    outcome := Validated(report);
  }

  /** `main` from the text read on standard input: `parse` stands for
      `json.loads`, which is not part of this model. */
  method RunValidator(stdin: string, parse: string -> ParseResult) returns (outcome: Outcome)
    ensures Trim(stdin) == "" ==> outcome == Rejected(NoInput)
    ensures Trim(stdin) != "" && parse(Trim(stdin)).Malformed? ==> outcome == Rejected(InvalidJson)
    ensures Trim(stdin) != "" && parse(Trim(stdin)).Parsed? ==>
              outcome == if parse(Trim(stdin)).value.JArray? then OutcomeFor(parse(Trim(stdin)).value.elems)
                         else Rejected(NotAnArray)
  {
    var raw := Trim(stdin);
    if raw == "" {
      return Rejected(NoInput);
    }
    var parsed := parse(raw);
    if parsed.Malformed? {
      return Rejected(InvalidJson);
    }
    var items := parsed.value;
    if !items.JArray? {
      return Rejected(NotAnArray);
    }
    outcome := ValidateActions(items.elems);
  }
}
