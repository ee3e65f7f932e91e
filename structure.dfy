/**
 * The project-structure validator: the template table, `validate_project`
 * over a project directory given as a map from relative paths to entries,
 * and the argument and exit-code decision of `main`.
 *
 * Errors and warnings are tagged values (a kind and the path concerned); the
 * wording of the messages is not modelled.
 */
module ProjectStructure {
  import opened Text

  // ------------------------------------------------------ the file system

  /** What `read_text(encoding="utf-8")` makes of a regular file: its text,
      or an `OSError` / `UnicodeDecodeError`. */
  datatype FileContent = Readable(text: string) | Unreadable

  /** An entry below the project root: a directory, a regular file, or
      something that exists but is neither (a socket, a device, a pipe). */
  datatype Node = Dir | File(content: FileContent) | Other

  /** What `exists()` and `is_dir()` say of the project root itself. */
  datatype RootKind = RootAbsent | RootNotADirectory | RootDirectory

  /** A project directory: what its root is, and every entry below it keyed
      by its path relative to the root, segments joined with `/`. */
  datatype Project = Project(root: RootKind, tree: map<string, Node>)

  /** The map describes a real directory tree: every proper `/`-prefix of
      a listed path is itself listed, as a directory. */
  predicate IsTree(tree: map<string, Node>) {
    forall p, k :: p in tree && 0 < k < |p| && p[k] == '/' ==> p[..k] in tree && tree[p[..k]].Dir?
  }

  // -------------------------------------------------------- the templates

  datatype EntryType = FileEntry | DirEntry

  /** One expected entry: its relative path, its type, and the strings a
      file must contain (a directory entry has none). */
  datatype TemplateEntry = TemplateEntry(path: string, entryType: EntryType, requiredContent: seq<string>)

  const PythonApi: seq<TemplateEntry> := [
    TemplateEntry("pyproject.toml", FileEntry, ["[project]", "[build-system]"]),
    TemplateEntry("README.md", FileEntry, ["#"]),
    TemplateEntry("src", DirEntry, []),
    TemplateEntry("src/__init__.py", FileEntry, []),
    TemplateEntry("tests", DirEntry, []),
    TemplateEntry("tests/test_placeholder.py", FileEntry, ["import pytest", "def test_"])
  ]

  const NodeApi: seq<TemplateEntry> := [
    TemplateEntry("package.json", FileEntry, ["\"name\"", "\"scripts\""]),
    TemplateEntry("README.md", FileEntry, ["#"]),
    TemplateEntry("src", DirEntry, []),
    TemplateEntry("src/index.ts", FileEntry, []),
    TemplateEntry("tests", DirEntry, []),
    TemplateEntry("tests/index.test.ts", FileEntry, ["describe", "it("])
  ]

  /** `TEMPLATES`: the expected structure of each template, in check order. */
  const Templates: map<string, seq<TemplateEntry>> := map["python-api" := PythonApi, "node-api" := NodeApi]

  // ---------------------------------------------------- errors and report

  datatype ErrorKind =
    | Missing
    | NotADirectory
    | NotAFile
    | ReadFailed                  // UNREADABLE
    | Empty                       // whitespace only, but content expected
    | Content(required: string)   // a required string does not occur

  datatype Target = ProjectRoot | At(path: string)

  datatype Error = Error(kind: ErrorKind, target: Target)

  /** EXTRA: a file that is not part of the template. */
  datatype Warning = Extra(path: string)

  /** The counts the `summary` text reports. */
  datatype Summary = Summary(errorCount: nat, warningCount: nat)

  /** The result of `validate_project`, without `project_dir`. */
  datatype StructureReport = StructureReport(
    valid: bool, template: string, errors: seq<Error>, warnings: seq<Warning>, summary: Summary)

  // --------------------------------------------------- the expected rules

  /** A `dir` entry: missing, or present but not a directory. */
  function DirEntryErrors(tree: map<string, Node>, path: string): seq<Error> {
    if path !in tree then [Error(Missing, At(path))]
    else if !tree[path].Dir? then [Error(NotADirectory, At(path))]
    else []
  }

  /** One CONTENT error per required string that does not occur in `text`,
      in declared order. */
  function ContentErrors(text: string, reqs: seq<string>, path: string): seq<Error> {
    if reqs == [] then []
    else
      ContentErrors(text, reqs[..|reqs| - 1], path)
      + (if Contains(text, reqs[|reqs| - 1]) then [] else [Error(Content(reqs[|reqs| - 1]), At(path))])
  }

  /** The checks on a readable file: EMPTY when it is blank and content is
      expected, then the content checks, which run in either case. */
  function ReadableFileErrors(text: string, reqs: seq<string>, path: string): seq<Error> {
    (if Trim(text) == "" && reqs != [] then [Error(Empty, At(path))] else [])
    + ContentErrors(text, reqs, path)
  }

  /** A `file` entry: missing, not a regular file, unreadable, or else the
      checks on its text. */
  function FileEntryErrors(tree: map<string, Node>, e: TemplateEntry): seq<Error> {
    if e.path !in tree then [Error(Missing, At(e.path))]
    else if !tree[e.path].File? then [Error(NotAFile, At(e.path))]
    else if tree[e.path].content.Unreadable? then [Error(ReadFailed, At(e.path))]
    else ReadableFileErrors(tree[e.path].content.text, e.requiredContent, e.path)
  }

  function EntryErrors(tree: map<string, Node>, e: TemplateEntry): seq<Error> {
    match e.entryType
    case DirEntry => DirEntryErrors(tree, e.path)
    case FileEntry => FileEntryErrors(tree, e)
  }

  /** The errors of the entries, entry by entry in order. */
  function TemplateErrors(tree: map<string, Node>, entries: seq<TemplateEntry>): seq<Error> {
    if entries == [] then []
    else TemplateErrors(tree, entries[..|entries| - 1]) + EntryErrors(tree, entries[|entries| - 1])
  }

  /** `expected_paths`. */
  function ExpectedPaths(entries: seq<TemplateEntry>): set<string> {
    set e | e in entries :: e.path
  }

  // ------------------------------------------------------ the extra files

  /** A path segment starts at position `i` of `p` with a dot. */
  predicate DotSegmentAt(p: string, i: int) {
    0 <= i < |p| && p[i] == '.' && (i == 0 || p[i - 1] == '/')
  }

  /** The walk never reports `p`: it lies under a directory whose name starts
      with a dot (pruned from `dirs`), or its own name does (skipped). */
  predicate Hidden(p: string) {
    exists i | 0 <= i < |p| :: DotSegmentAt(p, i)
  }

  /** A file the walk reports as EXTRA: a non-directory entry, not hidden,
      whose path is not a template path. */
  predicate IsExtra(tree: map<string, Node>, expected: set<string>, p: string) {
    p in tree && !tree[p].Dir? && !Hidden(p) && p !in expected
  }

  function ExtraFiles(tree: map<string, Node>, expected: set<string>): set<string> {
    set p | p in tree && IsExtra(tree, expected, p)
  }

  predicate NoDuplicates(ws: seq<Warning>) {
    forall i, j :: 0 <= i < j < |ws| ==> ws[i] != ws[j]
  }

  /** `ws` names each path of `paths` once, in some order, and nothing else. */
  ghost predicate ListsExactly(ws: seq<Warning>, paths: set<string>) {
    NoDuplicates(ws) && forall w :: w in ws <==> w.path in paths
  }

  // ---------------------------------------------------------- the report

  /** What `validate_project` returns for `project` and `name`: one root
      error and nothing else when the root is missing or not a directory;
      otherwise the template errors in entry order, every extra file once,
      `valid` exactly when there is no error, and the counts. */
  ghost predicate IsReportFor(report: StructureReport, project: Project, name: string)
    requires project.root.RootDirectory? ==> name in Templates
  {
    match project.root
    case RootAbsent =>
      report == StructureReport(false, name, [Error(Missing, ProjectRoot)], [], Summary(1, 0))
    case RootNotADirectory =>
      report == StructureReport(false, name, [Error(NotADirectory, ProjectRoot)], [], Summary(1, 0))
    case RootDirectory =>
      var entries := Templates[name];
      && report.template == name
      && report.errors == TemplateErrors(project.tree, entries)
      && ListsExactly(report.warnings, ExtraFiles(project.tree, ExpectedPaths(entries)))
      && report.valid == (report.errors == [])
      && report.summary == Summary(|report.errors|, |report.warnings|)
  }

  // ----------------------------------------------------------- the checks

  /** The `for required in ...` loop over one readable file, appending to
      `errors`. */
  method CheckRequiredContent(text: string, reqs: seq<string>, path: string, errors: seq<Error>)
    returns (result: seq<Error>)
    ensures result == errors + ContentErrors(text, reqs, path)
  {
    result := errors;
    for r := 0 to |reqs|
      invariant result == errors + ContentErrors(text, reqs[..r], path)
    {
      var required := reqs[r];
      if !Contains(text, required) {
        result := result + [Error(Content(required), At(path))];
      }
      assert reqs[..r + 1][..r] == reqs[..r];
    }
    assert reqs[..|reqs|] == reqs;
  }

  /** The EMPTY and CONTENT checks on a file that could be read, appending
      to `errors`. */
  method CheckReadableFile(text: string, reqs: seq<string>, path: string, errors: seq<Error>)
    returns (result: seq<Error>)
    ensures result == errors + ReadableFileErrors(text, reqs, path)
  {
    result := errors;
    if Trim(text) == "" {
      if reqs != [] {
        result := result + [Error(Empty, At(path))];
      }
    }
    result := CheckRequiredContent(text, reqs, path, result);
  }

  /** The `for item in template_spec` loop: each entry's errors, appended in
      entry order; an unreadable file skips its content checks. */
  method CheckEntries(tree: map<string, Node>, spec: seq<TemplateEntry>) returns (errors: seq<Error>)
    ensures errors == TemplateErrors(tree, spec)
  {
    errors := [];
    for k := 0 to |spec|
      invariant errors == TemplateErrors(tree, spec[..k])
    {
      var item := spec[k];
      var path := item.path;
      assert spec[..k + 1][..k] == spec[..k];
      ghost var before := errors;
      if item.entryType == DirEntry {
        if path !in tree {
          errors := errors + [Error(Missing, At(path))];
        } else if !tree[path].Dir? {
          errors := errors + [Error(NotADirectory, At(path))];
        }
      } else {
        if path !in tree {
          errors := errors + [Error(Missing, At(path))];
        } else if !tree[path].File? {
          errors := errors + [Error(NotAFile, At(path))];
        } else {
          var content := tree[path].content;
          if content.Unreadable? {
            errors := errors + [Error(ReadFailed, At(path))];
            assert errors == before + EntryErrors(tree, item);
            continue;
          }
          errors := CheckReadableFile(content.text, item.requiredContent, path, errors);
        }
      }
      assert errors == before + EntryErrors(tree, item);
    }
    assert spec[..|spec|] == spec;
  }

  /** The `os.walk` loop: every entry of the tree is visited once, in an
      order the model leaves open, and each extra file is reported. */
  method FindExtraFiles(tree: map<string, Node>, expected: set<string>) returns (warnings: seq<Warning>)
    ensures ListsExactly(warnings, ExtraFiles(tree, expected))
  {
    warnings := [];
    var unvisited := tree.Keys;
    while unvisited != {}
      invariant unvisited <= tree.Keys
      invariant NoDuplicates(warnings)
      invariant forall w :: w in warnings <==> w.path in ExtraFiles(tree, expected) && w.path !in unvisited
      decreases |unvisited|
    {
      var p :| p in unvisited;
      unvisited := unvisited - {p};
      if !tree[p].Dir? && !Hidden(p) && p !in expected {
        warnings := warnings + [Extra(p)];
      }
    }
  }

  /** `validate_project`. */
  method ValidateProject(project: Project, templateName: string) returns (report: StructureReport)
    requires project.root.RootDirectory? ==> templateName in Templates
    ensures IsReportFor(report, project, templateName)
  {
    var errors: seq<Error> := [];
    var warnings: seq<Warning> := [];
    if project.root.RootAbsent? {
      errors := errors + [Error(Missing, ProjectRoot)];
      return StructureReport(false, templateName, errors, warnings, Summary(|errors|, |warnings|));
    }
    if !project.root.RootDirectory? {
      errors := errors + [Error(NotADirectory, ProjectRoot)];
      return StructureReport(false, templateName, errors, warnings, Summary(|errors|, |warnings|));
    }
    var spec := Templates[templateName];
    errors := CheckEntries(project.tree, spec);
    var expected := ExpectedPaths(spec);
    warnings := FindExtraFiles(project.tree, expected);
    var isValid := |errors| == 0;
    report := StructureReport(isValid, templateName, errors, warnings, Summary(|errors|, |warnings|));
  }

  // ------------------------------------------------------ the command line

  datatype CliOutcome =
    | Help                         // `--help` or `-h` alone
    | WrongArgumentCount
    | UnknownTemplate(name: string)
    | Checked(report: StructureReport)

  function ExitCode(o: CliOutcome): int {
    match o
    case Help => 0
    case WrongArgumentCount => 2
    case UnknownTemplate(_) => 2
    case Checked(r) => if r.valid then 0 else 1
  }

  /** `main`, given the arguments after the program name and what each
      directory argument names on disk. Printing is not modelled. */
  ghost predicate IsCliOutcome(args: seq<string>, disk: string -> Project, o: CliOutcome) {
    if |args| == 1 && args[0] in {"--help", "-h"} then o == Help
    else if |args| != 2 then o == WrongArgumentCount
    else if args[1] !in Templates then o == UnknownTemplate(args[1])
    else o.Checked? && IsReportFor(o.report, disk(args[0]), args[1])
  }

  method RunCli(args: seq<string>, disk: string -> Project) returns (outcome: CliOutcome)
    ensures IsCliOutcome(args, disk, outcome)
  {
    if |args| == 1 && args[0] in {"--help", "-h"} {
      return Help;
    }
    if |args| != 2 {
      return WrongArgumentCount;
    }
    var projectDir := disk(args[0]);
    var templateName := args[1];
    if templateName !in Templates {
      return UnknownTemplate(templateName);
    }
    var result := ValidateProject(projectDir, templateName);
    return Checked(result);
  }
}
