# Action-item and project-structure validators, modelled in Dafny

This project models the two rule engines of the repository and proves what they promise.

**The action-item validator** (`validate_actions.py`) takes a parsed JSON array of action items. For each item, `validate_item` builds the ordered list of issues:
- a value that is not an object gets one `item` issue and nothing else;
- each required field (`action`, `owner`, `deadline`, in that order) can be missing (absent or `null`), not a string, or blank;
- an owner can be `UNASSIGNED`;
- a deadline can be `TBD`, can fail the `YYYY-MM-DD` shape, or can fail to be a calendar date;
- an action can be too vague (one to four characters after stripping).

`main` then labels every item, counts the valid ones, adds up the issues, and ends with status `pass`/`fail` and exit code 0/1. An empty array gives status `warning` and exit code 0.

**The project-structure validator** (`validate_structure.py`) checks a project directory against one of the two templates in `TEMPLATES`. The directory is given as its root kind plus a map from `/`-joined relative paths to entries. A missing root, or a root that is not a directory, stops the run with one error. Otherwise:
- each template entry is checked in order:
  - a directory entry can be MISSING or NOT_A_DIRECTORY;
  - a file entry can be MISSING, NOT_A_FILE or UNREADABLE, where UNREADABLE skips the rest of that entry;
  - a readable file entry can be EMPTY, and gets one CONTENT error per required string;
- every non-hidden file outside the template gives one EXTRA warning;
- `valid` means no error.

`main` maps help to exit code 0, a wrong argument count or an unknown template to exit code 2, and a finished check to 0 or 1.

Modules:
- `Text` (`text.dfy`): `str.strip()`, `str.upper()`, the `in` substring test and `str(n)`, on ASCII.
- `Json` (`json.dfy`): the parsed JSON value and `dict.get`.
- `ActionItems` (`actions.dfy`): the per-item rules as functions, and `validate_item` and `main` as methods proved equal to them.
- `ActionItemProperties` (`actions_properties.dfy`): what those rules and the report promise.
- `ProjectStructure` (`structure.dfy`): the template table, the error functions, and `validate_project` and `main` as methods proved against them.
- `ProjectStructureProperties` (`structure_properties.dfy`): what the structure checks promise.

Two behaviours of the code are kept as written:
- A missing project directory is not a usage error. `validate_project` reports it with one MISSING error, so the run exits with 1, not 2.
- A blank file whose entry requires content gets an EMPTY error *and* one CONTENT error per required string, because the content loop still runs after the EMPTY check.

## Model

| member | source | states |
|---|---|---|
| Text.TrimSpec | courses/course-03-full-anatomy/skill/meeting-to-actions/scripts/validate_actions.py:45 | `strip()` removes exactly a whitespace prefix and a whitespace suffix. What remains neither starts nor ends with whitespace. |
| Text.TrimEmptyIffAllSpace | courses/course-06-multi-step-workflows/skill/project-scaffolder/scripts/validate_structure.py:167 | The stripped text is empty exactly when every character is whitespace. |
| Text.UpperSpec | courses/course-03-full-anatomy/skill/meeting-to-actions/scripts/validate_actions.py:53 | `upper()` keeps the length and maps each character to its upper-case letter, or keeps it. |
| Text.UpperMatchesWord | courses/course-03-full-anatomy/skill/meeting-to-actions/scripts/validate_actions.py:53 | Comparing `upper()` with an upper-case word holds exactly when the text spells the word with each letter in either case. |
| Text.ContainsIff | courses/course-06-multi-step-workflows/skill/project-scaffolder/scripts/validate_structure.py:176 | `required in content` holds exactly when `required` occurs at some position of `content`. |
| Text.DecimalRoundTrip | courses/course-03-full-anatomy/skill/meeting-to-actions/scripts/validate_actions.py:132 | The digits in an `item-{i}` label read back as `i`. |
| Text.DecimalInjective | courses/course-03-full-anatomy/skill/meeting-to-actions/scripts/validate_actions.py:132 | Distinct indexes have distinct decimal renderings. |
| Json.Get | courses/course-03-full-anatomy/skill/meeting-to-actions/scripts/validate_actions.py:34 | `item.get(field)` returns the value stored under a present key and `None` for an absent one. So it is `None` exactly when the key is absent or holds `null`. |
| ActionItems.ParsesAsDateDigits | courses/course-03-full-anatomy/skill/meeting-to-actions/scripts/validate_actions.py:73-79 | For `YYYY-MM-DD` text, `strptime` succeeds exactly when the digits name a calendar date: year 1..9999, month 1..12, and a day in that month, with Gregorian leap years. |
| ActionItems.CheckRequiredFields | courses/course-03-full-anatomy/skill/meeting-to-actions/scripts/validate_actions.py:33-49 | The loop over `REQUIRED_FIELDS` appends exactly the required-field issues, in field order. |
| ActionItems.CheckOwner | courses/course-03-full-anatomy/skill/meeting-to-actions/scripts/validate_actions.py:51-57 | Appends the UNASSIGNED issue exactly when the owner rule fires. Nothing else changes. |
| ActionItems.CheckDeadline | courses/course-03-full-anatomy/skill/meeting-to-actions/scripts/validate_actions.py:59-79 | Appends the TBD, format or date issue of the deadline branches. Nothing else changes. |
| ActionItems.CheckAction | courses/course-03-full-anatomy/skill/meeting-to-actions/scripts/validate_actions.py:81-88 | Appends the vagueness issue exactly when the action rule fires. |
| ActionItems.ValidateItem | courses/course-03-full-anatomy/skill/meeting-to-actions/scripts/validate_actions.py:25-89 | `validate_item` returns exactly the issue list of the rules, in check order, stopping after the non-object issue. |
| ActionItems.CheckItem | courses/course-03-full-anatomy/skill/meeting-to-actions/scripts/validate_actions.py:131-138 | The per-item result holds the index, the label, the issues, and `valid` equal to "no issues". |
| ActionItems.ResultsForSnoc | courses/course-03-full-anatomy/skill/meeting-to-actions/scripts/validate_actions.py:130-139 | Appending the result for item `i` to the results of the items before it gives the results of the first `i + 1` items. |
| ActionItems.ValidateActions | courses/course-03-full-anatomy/skill/meeting-to-actions/scripts/validate_actions.py:115-152 | The loop and the aggregation that follows it produce the report of the array. An empty array gives the warning outcome. |
| ActionItems.RunValidator | courses/course-03-full-anatomy/skill/meeting-to-actions/scripts/validate_actions.py:94-124 | Blank input, unparsable input and a top-level value that is not an array are each rejected with their own error. An array is validated. |
| ActionItemProperties.PerFieldVerdict | courses/course-03-full-anatomy/skill/meeting-to-actions/scripts/validate_actions.py:29-88 | The issues about each field are exactly the verdict of the first rule that applies to that field, or none. |
| ActionItemProperties.AtMostOneIssuePerField | courses/course-03-full-anatomy/skill/meeting-to-actions/scripts/validate_actions.py:33-88 | Each field gets at most one issue, so an object gets at most three. |
| ActionItemProperties.NotAnObjectShortCircuits | courses/course-03-full-anatomy/skill/meeting-to-actions/scripts/validate_actions.py:29-30 | A non-object gets exactly one `item` issue. An object never gets an `item` issue. |
| ActionItemProperties.CheckOrder | courses/course-03-full-anatomy/skill/meeting-to-actions/scripts/validate_actions.py:33-88 | The issues come in check order: action, owner and deadline presence, then owner, deadline and action content. Each required-field check adds at most one issue, about its own field. |
| ActionItemProperties.UnassignedOwner | courses/course-03-full-anatomy/skill/meeting-to-actions/scripts/validate_actions.py:52-57 | The UNASSIGNED issue appears exactly for a string owner reading `UNASSIGNED` after strip and upper. It is then the only owner issue. |
| ActionItemProperties.UnassignedInAnyCase | courses/course-03-full-anatomy/skill/meeting-to-actions/scripts/validate_actions.py:51-57 | The UNASSIGNED issue appears exactly when the owner is a string whose stripped text spells UNASSIGNED in any mix of cases. |
| ActionItemProperties.TbdDeadline | courses/course-03-full-anatomy/skill/meeting-to-actions/scripts/validate_actions.py:60-65 | A `TBD` deadline gets the TBD issue only, never a format or date issue. |
| ActionItemProperties.DeadlineFormatOrDate | courses/course-03-full-anatomy/skill/meeting-to-actions/scripts/validate_actions.py:66-79 | For a non-blank deadline other than TBD: a format issue exactly when the stripped text is not `YYYY-MM-DD`; a date issue exactly when it is shaped so but is not a calendar date; no deadline issue otherwise. |
| ActionItemProperties.VagueAction | courses/course-03-full-anatomy/skill/meeting-to-actions/scripts/validate_actions.py:82-88 | The vagueness issue appears exactly for a string action of stripped length 1 to 4. A blank action gets only the empty-field issue. |
| ActionItemProperties.NoIssuesIffActionable | courses/course-03-full-anatomy/skill/meeting-to-actions/scripts/validate_actions.py:25-89 | An item has no issue exactly when it is an object with three non-blank string fields, an owner that is not UNASSIGNED, a deadline that is a real `YYYY-MM-DD` date and not TBD, and an action of at least five characters. |
| ActionItemProperties.RealDateExample | courses/course-03-full-anatomy/skill/meeting-to-actions/scripts/validate_actions.py:66-79 | `2025-02-21` passes the format and date checks. |
| ActionItemProperties.ImpossibleDateExample | courses/course-03-full-anatomy/skill/meeting-to-actions/scripts/validate_actions.py:66-79 | `2025-02-30` passes the format check and fails the date check. |
| ActionItemProperties.CalendarExamples | courses/course-03-full-anatomy/skill/meeting-to-actions/scripts/validate_actions.py:74 | Leap days follow the Gregorian rule (2024 and 2000 yes, 2023 and 1900 no). Year 0, month 13, day 0 and April 31 are rejected. 9999-12-31 is accepted. |
| ActionItemProperties.CountValidIsCardinality | courses/course-03-full-anatomy/skill/meeting-to-actions/scripts/validate_actions.py:142 | `valid_count` is the number of results marked valid. |
| ActionItemProperties.NoIssuesIffAllEmpty | courses/course-03-full-anatomy/skill/meeting-to-actions/scripts/validate_actions.py:140 | The issue total is 0 exactly when every result has an empty issue list. |
| ActionItemProperties.ResultsDescribeItems | courses/course-03-full-anatomy/skill/meeting-to-actions/scripts/validate_actions.py:130-139 | There is one result per item, in input order. Each carries its index, its label and its item's issues. `valid` is true exactly when the issue list is empty. |
| ActionItemProperties.ValidOrWithIssues | courses/course-03-full-anatomy/skill/meeting-to-actions/scripts/validate_actions.py:142-143 | When `valid` means "no issues", the valid results and the results with issues together number all results. |
| ActionItemProperties.AllValidIffCountFull | courses/course-03-full-anatomy/skill/meeting-to-actions/scripts/validate_actions.py:142 | `valid_count` equals the number of results exactly when every result is valid. |
| ActionItemProperties.ReportCounts | courses/course-03-full-anatomy/skill/meeting-to-actions/scripts/validate_actions.py:142-152 | `valid_items + items_with_issues == total_items == len(results)`. Each count is the number of results of its kind, and `total_issues` is the sum of the issue counts. |
| ActionItemProperties.StatusAndExitCode | courses/course-03-full-anatomy/skill/meeting-to-actions/scripts/validate_actions.py:145-155 | For a non-empty array: status `pass` exactly when `total_issues == 0`, exit code 0 exactly then, never `warning`, and a zero total exactly when every item is valid. |
| ActionItemProperties.EmptyArray | courses/course-03-full-anatomy/skill/meeting-to-actions/scripts/validate_actions.py:115-124 | An empty array gives the warning outcome with exit code 0. |
| ActionItemProperties.ExitZeroIffAllItemsClean | courses/course-03-full-anatomy/skill/meeting-to-actions/scripts/validate_actions.py:155 | For any array, the exit code is 0 exactly when no item has an issue. |
| ActionItemProperties.PlaceholderLabelsDistinct | courses/course-03-full-anatomy/skill/meeting-to-actions/scripts/validate_actions.py:132 | Two different indexes never get the same `item-{i}` label. |
| ProjectStructure.CheckRequiredContent | courses/course-06-multi-step-workflows/skill/project-scaffolder/scripts/validate_structure.py:175-179 | The loop appends one CONTENT error per required string missing from the text, in declared order, and goes on after a miss. |
| ProjectStructure.CheckReadableFile | courses/course-06-multi-step-workflows/skill/project-scaffolder/scripts/validate_structure.py:167-179 | Appends EMPTY for a blank file that expects content, then the CONTENT errors. |
| ProjectStructure.CheckEntries | courses/course-06-multi-step-workflows/skill/project-scaffolder/scripts/validate_structure.py:144-179 | The entry loop, including the `continue` after UNREADABLE, appends exactly each entry's errors in template order. |
| ProjectStructure.FindExtraFiles | courses/course-06-multi-step-workflows/skill/project-scaffolder/scripts/validate_structure.py:182-193 | The walk warns once about each extra file and about nothing else. Extra files are non-directories, not hidden, and not template paths. |
| ProjectStructure.ValidateProject | courses/course-06-multi-step-workflows/skill/project-scaffolder/scripts/validate_structure.py:106-203 | `validate_project` returns the report of the project: the early returns for the root, the template errors, the extra-file warnings, `valid` and the summary counts. |
| ProjectStructure.RunCli | courses/course-06-multi-step-workflows/skill/project-scaffolder/scripts/validate_structure.py:206-230 | `main` gives help, a wrong argument count, an unknown template, or the report of the named directory and template. |
| ProjectStructureProperties.RootErrorOnly | courses/course-06-multi-step-workflows/skill/project-scaffolder/scripts/validate_structure.py:119-139 | A missing root gives exactly one MISSING error. A root that is not a directory gives exactly NOT_A_DIRECTORY. Either way there are no warnings, `valid` is false, and nothing below the root matters. |
| ProjectStructureProperties.DirEntryVerdict | courses/course-06-multi-step-workflows/skill/project-scaffolder/scripts/validate_structure.py:147-153 | A `dir` entry gives MISSING exactly when absent, NOT_A_DIRECTORY exactly when present but not a directory, and otherwise no error. |
| ProjectStructureProperties.MissingBelowNonDirectory | courses/course-06-multi-step-workflows/skill/project-scaffolder/scripts/validate_structure.py:153-154 | In a real directory tree, an entry below a path that is missing or is not a directory is reported MISSING. |
| ProjectStructureProperties.FileFailureVerdict | courses/course-06-multi-step-workflows/skill/project-scaffolder/scripts/validate_structure.py:154-165 | An absent, non-regular or unreadable file gives exactly one error (MISSING, NOT_A_FILE or UNREADABLE), and no EMPTY or CONTENT error. |
| ProjectStructureProperties.EmptyVerdict | courses/course-06-multi-step-workflows/skill/project-scaffolder/scripts/validate_structure.py:167-172 | A readable file gets EMPTY exactly when it is all whitespace and content is expected. A blank file expecting nothing gets no error. |
| ProjectStructureProperties.ContentErrorsAreContent | courses/course-06-multi-step-workflows/skill/project-scaffolder/scripts/validate_structure.py:175-179 | Every CONTENT error names a required string and the entry's path. There are at most as many as required strings. |
| ProjectStructureProperties.ContentErrorsIff | courses/course-06-multi-step-workflows/skill/project-scaffolder/scripts/validate_structure.py:175-179 | A CONTENT error for `s` appears exactly when `s` is required and occurs nowhere in the text. |
| ProjectStructureProperties.ContentErrorsConcat | courses/course-06-multi-step-workflows/skill/project-scaffolder/scripts/validate_structure.py:175-179 | The CONTENT errors of a split list of required strings are those of its parts, in order. |
| ProjectStructureProperties.EntryCleanIffSatisfied | courses/course-06-multi-step-workflows/skill/project-scaffolder/scripts/validate_structure.py:144-179 | An entry gives no error exactly when the project satisfies it. For a file entry: present, regular, readable, not blank when content is expected, and containing every required string. |
| ProjectStructureProperties.NoErrorsIffAllSatisfied | courses/course-06-multi-step-workflows/skill/project-scaffolder/scripts/validate_structure.py:144-179 | A template gives no error exactly when every one of its entries is satisfied. |
| ProjectStructureProperties.TemplateErrorsConcat | courses/course-06-multi-step-workflows/skill/project-scaffolder/scripts/validate_structure.py:144-179 | Two runs of entries checked one after the other give the errors of the first run followed by those of the second. |
| ProjectStructureProperties.ErrorsInEntryOrder | courses/course-06-multi-step-workflows/skill/project-scaffolder/scripts/validate_structure.py:144-179 | The errors of entry `k` come after those of every earlier entry and before those of every later one. |
| ProjectStructureProperties.ErrorsOnlySeeTemplatePaths | courses/course-06-multi-step-workflows/skill/project-scaffolder/scripts/validate_structure.py:144-179 | Two trees that agree on the template paths give the same errors. |
| ProjectStructureProperties.ExtraFilesNeverAffectValidity | courses/course-06-multi-step-workflows/skill/project-scaffolder/scripts/validate_structure.py:181-195 | Adding, changing or removing an entry outside the template paths changes no error and never changes `valid`. |
| ProjectStructureProperties.DotNameIsHidden | courses/course-06-multi-step-workflows/skill/project-scaffolder/scripts/validate_structure.py:186-190 | A name starting with a dot hides itself and everything below it. |
| ProjectStructureProperties.WarnedIffExtra | courses/course-06-multi-step-workflows/skill/project-scaffolder/scripts/validate_structure.py:182-193 | A path is warned about exactly when it is a non-directory entry that is not hidden and not a template path. A hidden path never is. |
| ProjectStructureProperties.SummaryAndDeterminism | courses/course-06-multi-step-workflows/skill/project-scaffolder/scripts/validate_structure.py:195-202 | The summary counts the template errors and the distinct extra files. Two runs on the same project agree on everything except the order of the warnings. |
| ProjectStructureProperties.TemplateNames | courses/course-06-multi-step-workflows/skill/project-scaffolder/scripts/validate_structure.py:27-88 | The templates are exactly `python-api` and `node-api`. |
| ProjectStructureProperties.TemplatesWellFormed | courses/course-06-multi-step-workflows/skill/project-scaffolder/scripts/validate_structure.py:27-88 | Each template lists each path once, and no directory entry requires content. |
| ProjectStructureProperties.NodeTestAssetSatisfiesEntry | courses/course-06-multi-step-workflows/skill/project-scaffolder/scripts/validate_structure.py:82-86 | The scaffolded `tests/index.test.ts` of node-api contains `describe` and `it(`, and so satisfies its entry. |
| ProjectStructureProperties.CliExitCodes | courses/course-06-multi-step-workflows/skill/project-scaffolder/scripts/validate_structure.py:206-230 | Help alone exits 0. A wrong argument count or an unknown template exits 2, and only those do. Otherwise the exit code is 0 exactly when the root is a directory satisfying every template entry, and 1 when not. |

## Left out

- Reading standard input, `json.loads` and `json.dumps`, printing, `sys.exit` and the `KeyboardInterrupt` branch. JSON parsing is a parameter of `ActionItems.RunValidator`; exit codes are functions of the outcome.
- Message wording: issues and errors are tagged values (field or kind, and path or string). Python type names, the item index inside messages and exception text are not modelled.
- Unicode: `strip()`, `upper()` and `\d` are modelled on ASCII only. Whitespace is Python's ASCII `isspace()` set: 9 to 13 and 28 to 32.
- JSON numbers are integers in the model; the validators only ask whether a value is a string, an object or `null`.
- The real file system:
  - `Path.exists`, `is_dir`, `is_file`, `read_text` and `os.walk` become the root kind plus the path-to-entry map;
  - a UTF-8 decoding failure and an `OSError` are both the `Unreadable` file content;
  - symbolic links are not modelled;
  - the map is meant to hold exactly what lies below the root. `ProjectStructure.IsTree` states what that requires (every `/`-prefix of a listed path is a listed directory), and `MissingBelowNonDirectory` uses it. The other results hold for any map, so they do not assume it. For a map that is not a tree, the model looks each path up directly, where `exists()` would say False.
- `ProjectStructure.FindExtraFiles`: the order of EXTRA warnings, which depends on the directory listing order, is left open. The contract states the warnings as a duplicate-free list whose elements are exactly the extra files.
- The `project_dir` field of the report (the resolved path string), and the project path argument itself: `RunCli` takes a function from the directory argument to what it names on disk.
- `print_usage`, which only prints. `RunCli` also receives the arguments after the program name.
- The `project_dir.exists() and project_dir.is_dir()` test before the walk is always true at that point, so it is not a branch of the model.
- The node-api test asset is modelled only as file content, to show that it satisfies its template entry.
