/**
 * What the project-structure validator promises, proved about the functions
 * of `ProjectStructure` that its methods are shown to compute.
 */
module ProjectStructureProperties {
  import opened Text
  import opened ProjectStructure

  // ------------------------------------------------------- the project root

  /** A missing root, or a root that is not a directory, gives exactly one
      error about the root, no warning and an invalid result, whatever the
      tree and the template name. */
  lemma RootErrorOnly(project: Project, name: string, report: StructureReport)
    requires !project.root.RootDirectory?
    requires IsReportFor(report, project, name)
    ensures |report.errors| == 1 && report.errors[0].target == ProjectRoot
    ensures report.errors[0].kind == (if project.root.RootAbsent? then Missing else NotADirectory)
    ensures report.warnings == [] && !report.valid
    ensures report.summary == Summary(1, 0)
    ensures forall tree :: IsReportFor(report, Project(project.root, tree), name)
  {
  }

  // ----------------------------------------------------------- one entry

  /** A `dir` entry gives at most one error: MISSING when absent,
      NOT_A_DIRECTORY when present but not a directory. */
  lemma DirEntryVerdict(tree: map<string, Node>, e: TemplateEntry)
    requires e.entryType == DirEntry
    ensures |EntryErrors(tree, e)| <= 1
    ensures EntryErrors(tree, e) == [Error(Missing, At(e.path))] <==> e.path !in tree
    ensures EntryErrors(tree, e) == [Error(NotADirectory, At(e.path))] <==> e.path in tree && !tree[e.path].Dir?
    ensures EntryErrors(tree, e) == [] <==> e.path in tree && tree[e.path].Dir?
  {
  }

  /** In a real tree, an entry below a directory that is missing or is not a
      directory is itself missing, since nothing can lie below it. */
  lemma MissingBelowNonDirectory(tree: map<string, Node>, e: TemplateEntry, k: nat)
    requires IsTree(tree)
    requires 0 < k < |e.path| && e.path[k] == '/'
    requires e.path[..k] !in tree || !tree[e.path[..k]].Dir?
    ensures EntryErrors(tree, e) == [Error(Missing, At(e.path))]
  {
    assert e.path !in tree;
  }

  /** Every CONTENT error is about `path` and names a required string. */
  lemma {:induction false} ContentErrorsAreContent(text: string, reqs: seq<string>, path: string)
    ensures |ContentErrors(text, reqs, path)| <= |reqs|
    ensures forall er :: er in ContentErrors(text, reqs, path) ==>
              er.kind.Content? && er.kind.required in reqs && er.target == At(path)
  {
    if reqs != [] {
      ContentErrorsAreContent(text, reqs[..|reqs| - 1], path);
    }
  }

  /** A file entry that is absent, not a regular file, or unreadable gives
      exactly one error, MISSING, NOT_A_FILE or UNREADABLE, and no EMPTY or
      CONTENT error. */
  lemma FileFailureVerdict(tree: map<string, Node>, e: TemplateEntry)
    requires e.entryType == FileEntry
    requires e.path !in tree || !tree[e.path].File? || tree[e.path].content.Unreadable?
    ensures EntryErrors(tree, e)
         == [Error(if e.path !in tree then Missing
                   else if !tree[e.path].File? then NotAFile
                   else ReadFailed, At(e.path))]
  {
  }

  /** A readable file gets EMPTY exactly when it is all whitespace and the
      entry expects content; a blank file that expects nothing gets no error
      at all. */
  lemma EmptyVerdict(tree: map<string, Node>, e: TemplateEntry)
    requires e.entryType == FileEntry && e.path in tree && tree[e.path].File?
    requires tree[e.path].content.Readable?
    ensures var text := tree[e.path].content.text;
            && (Error(Empty, At(e.path)) in EntryErrors(tree, e) <==> AllSpace(text) && e.requiredContent != [])
            && (AllSpace(text) && e.requiredContent == [] ==> EntryErrors(tree, e) == [])
  {
    var text := tree[e.path].content.text;
    TrimEmptyIffAllSpace(text);
    ContentErrorsAreContent(text, e.requiredContent, e.path);
  }

  /** The CONTENT errors are one per required string that does not occur as
      an exact substring, and none for one that does. */
  lemma {:induction false} ContentErrorsIff(text: string, reqs: seq<string>, path: string, s: string)
    ensures Error(Content(s), At(path)) in ContentErrors(text, reqs, path) <==>
            s in reqs && !exists k :: OccursAt(text, s, k)
  {
    ContainsIff(text, s);
    if reqs != [] {
      ContentErrorsIff(text, reqs[..|reqs| - 1], path, s);
      assert reqs == reqs[..|reqs| - 1] + [reqs[|reqs| - 1]];
    }
  }

  /** The content checks run in declared order and go on after a miss: the
      errors of a split list are those of its parts, in order. */
  lemma {:induction false} ContentErrorsConcat(text: string, a: seq<string>, b: seq<string>, path: string)
    ensures ContentErrors(text, a + b, path) == ContentErrors(text, a, path) + ContentErrors(text, b, path)
  {
    if b == [] {
      assert a + b == a;
    } else {
      var c := a + b;
      assert c[..|c| - 1] == a + b[..|b| - 1];
      assert c[|c| - 1] == b[|b| - 1];
      ContentErrorsConcat(text, a, b[..|b| - 1], path);
    }
  }

  /** An entry the project satisfies, in the project's own terms. */
  ghost predicate Satisfies(tree: map<string, Node>, e: TemplateEntry) {
    && e.path in tree
    && match e.entryType
       case DirEntry => tree[e.path].Dir?
       case FileEntry =>
         && tree[e.path].File? && tree[e.path].content.Readable?
         && var text := tree[e.path].content.text;
            && !(AllSpace(text) && e.requiredContent != [])
            && forall s :: s in e.requiredContent ==> exists k :: OccursAt(text, s, k)
  }

  /** An entry gives no error exactly when the project satisfies it. */
  lemma EntryCleanIffSatisfied(tree: map<string, Node>, e: TemplateEntry)
    ensures EntryErrors(tree, e) == [] <==> Satisfies(tree, e)
  {
    if e.entryType == FileEntry && e.path in tree && tree[e.path].File? && tree[e.path].content.Readable? {
      var text := tree[e.path].content.text;
      TrimEmptyIffAllSpace(text);
      var errs := ContentErrors(text, e.requiredContent, e.path);
      forall s | s in e.requiredContent
        ensures Error(Content(s), At(e.path)) in errs <==> !exists k :: OccursAt(text, s, k)
      {
        ContentErrorsIff(text, e.requiredContent, e.path, s);
      }
      if errs != [] {
        ContentErrorsAreContent(text, e.requiredContent, e.path);
        assert errs[0] in errs;
        ContentErrorsIff(text, e.requiredContent, e.path, errs[0].kind.required);
      }
    }
  }

  // ------------------------------------------------------ the whole template

  /** The template gives no error exactly when every entry is satisfied. */
  lemma {:induction false} NoErrorsIffAllSatisfied(tree: map<string, Node>, entries: seq<TemplateEntry>)
    ensures TemplateErrors(tree, entries) == [] <==> forall e :: e in entries ==> Satisfies(tree, e)
  {
    if entries != [] {
      var init, last := entries[..|entries| - 1], entries[|entries| - 1];
      NoErrorsIffAllSatisfied(tree, init);
      EntryCleanIffSatisfied(tree, last);
      assert entries == init + [last];
    }
  }

  /** The last element of a non-empty second operand is the last element of
      the concatenation. */
  lemma SnocOfConcat<T>(a: seq<T>, b: seq<T>)
    requires b != []
    ensures (a + b)[..|a + b| - 1] == a + b[..|b| - 1]
    ensures (a + b)[|a + b| - 1] == b[|b| - 1]
  {
  }

  lemma ConcatAssoc<T>(x: seq<T>, y: seq<T>, z: seq<T>)
    ensures x + y + z == x + (y + z)
  {
  }

  /** Checking two runs of entries one after the other gives the errors of
      the first run followed by those of the second. */
  lemma {:induction false} TemplateErrorsConcat(tree: map<string, Node>, a: seq<TemplateEntry>, b: seq<TemplateEntry>)
    ensures TemplateErrors(tree, a + b) == TemplateErrors(tree, a) + TemplateErrors(tree, b)
  {
    if b == [] {
      assert a + b == a;
    } else {
      var init, last := b[..|b| - 1], b[|b| - 1];
      SnocOfConcat(a, b);
      TemplateErrorsConcat(tree, a, init);
      ConcatAssoc(TemplateErrors(tree, a), TemplateErrors(tree, init), EntryErrors(tree, last));
    }
  }

  /** The errors follow template order: those of entry `k` come after those
      of every earlier entry and before those of every later one. */
  lemma ErrorsInEntryOrder(tree: map<string, Node>, entries: seq<TemplateEntry>, k: nat)
    requires k < |entries|
    ensures TemplateErrors(tree, entries)
         == TemplateErrors(tree, entries[..k]) + EntryErrors(tree, entries[k]) + TemplateErrors(tree, entries[k + 1..])
  {
    var pre, mid, post := entries[..k], [entries[k]], entries[k + 1..];
    SplitAround(entries, k);
    TemplateErrorsConcat(tree, pre + mid, post);
    TemplateErrorsConcat(tree, pre, mid);
    SnocOfConcat([], mid);
    assert TemplateErrors(tree, mid) == TemplateErrors(tree, []) + EntryErrors(tree, entries[k]);
  }

  lemma SplitAround<T>(s: seq<T>, k: nat)
    requires k < |s|
    ensures s == s[..k] + [s[k]] + s[k + 1..]
  {
  }

  /** Two trees that agree on every template path give the same errors. */
  lemma {:induction false} ErrorsOnlySeeTemplatePaths(t1: map<string, Node>, t2: map<string, Node>, entries: seq<TemplateEntry>)
    requires forall e :: e in entries ==> (e.path in t1 <==> e.path in t2)
    requires forall e :: e in entries && e.path in t1 ==> t1[e.path] == t2[e.path]
    ensures TemplateErrors(t1, entries) == TemplateErrors(t2, entries)
  {
    if entries != [] {
      var init := entries[..|entries| - 1];
      assert forall e :: e in init ==> e in entries;
      ErrorsOnlySeeTemplatePaths(t1, t2, init);
    }
  }

  /** Adding, changing or removing a file outside the template paths changes
      no error and so never changes `valid`; only the warnings may differ. */
  lemma ExtraFilesNeverAffectValidity(
    root: RootKind, tree: map<string, Node>, name: string, p: string, n: Node,
    r1: StructureReport, r2: StructureReport, r3: StructureReport)
    requires root.RootDirectory? ==> name in Templates
    requires root.RootDirectory? ==> p !in ExpectedPaths(Templates[name])
    requires IsReportFor(r1, Project(root, tree), name)
    requires IsReportFor(r2, Project(root, tree[p := n]), name)
    requires IsReportFor(r3, Project(root, tree - {p}), name)
    ensures r1.errors == r2.errors == r3.errors
    ensures r1.valid == r2.valid == r3.valid
  {
    if root.RootDirectory? {
      var entries := Templates[name];
      ErrorsOnlySeeTemplatePaths(tree, tree[p := n], entries);
      ErrorsOnlySeeTemplatePaths(tree, tree - {p}, entries);
    }
  }

  // --------------------------------------------------------- the warnings

  /** A name that starts with a dot hides itself and everything below it. */
  lemma DotNameIsHidden(dir: string, name: string, rest: string)
    requires dir == "" || dir[|dir| - 1] == '/'
    requires name != "" && name[0] == '.'
    ensures Hidden(dir + name + rest)
  {
    assert DotSegmentAt(dir + name + rest, |dir|);
  }

  /** Exactly the extra files are warned about, whatever the walk order; no
      hidden path ever is. */
  lemma WarnedIffExtra(project: Project, name: string, report: StructureReport, p: string)
    requires project.root.RootDirectory? && name in Templates
    requires IsReportFor(report, project, name)
    ensures Extra(p) in report.warnings <==>
            p in project.tree && !project.tree[p].Dir? && !Hidden(p) && p !in ExpectedPaths(Templates[name])
    ensures Hidden(p) ==> Extra(p) !in report.warnings
  {
    assert Extra(p).path == p;
  }

  /** A list that names each path of a set once has the set's size. */
  lemma {:induction false} ListsExactlySize(ws: seq<Warning>, paths: set<string>)
    requires ListsExactly(ws, paths)
    ensures |ws| == |paths|
  {
    if ws != [] {
      var init, last := ws[..|ws| - 1], ws[|ws| - 1];
      assert last in ws;
      assert forall w :: w in init ==> w in ws;
      assert forall w :: w in ws ==> w in init || w == last;
      assert last !in init;
      assert ListsExactly(init, paths - {last.path});
      ListsExactlySize(init, paths - {last.path});
    } else {
      assert forall q :: q in paths ==> Extra(q) in ws;
      assert paths == {};
    }
  }

  /** The summary counts the errors and the distinct extra files; two runs
      on the same project agree on everything but the order of the
      warnings. */
  lemma SummaryAndDeterminism(project: Project, name: string, r1: StructureReport, r2: StructureReport)
    requires project.root.RootDirectory? && name in Templates
    requires IsReportFor(r1, project, name) && IsReportFor(r2, project, name)
    ensures r1.summary.warningCount == |ExtraFiles(project.tree, ExpectedPaths(Templates[name]))|
    ensures r1.summary.errorCount == |TemplateErrors(project.tree, Templates[name])|
    ensures r1.valid == r2.valid && r1.errors == r2.errors && r1.summary == r2.summary
    ensures forall w :: w in r1.warnings <==> w in r2.warnings
  {
    var extra := ExtraFiles(project.tree, ExpectedPaths(Templates[name]));
    ListsExactlySize(r1.warnings, extra);
    ListsExactlySize(r2.warnings, extra);
  }

  // -------------------------------------------------------- the templates

  /** The two templates, and no others. */
  lemma TemplateNames()
    ensures Templates.Keys == {"python-api", "node-api"}
  {
  }

  predicate DistinctPaths(entries: seq<TemplateEntry>) {
    forall i, j :: 0 <= i < j < |entries| ==> entries[i].path != entries[j].path
  }

  /** Each template lists each path once, and a directory entry expects no
      content. */
  lemma TemplatesWellFormed()
    ensures forall name :: name in Templates ==> DistinctPaths(Templates[name])
    ensures forall name, e :: name in Templates && e in Templates[name] && e.entryType == DirEntry ==>
              e.requiredContent == []
  {
    assert DistinctPaths(PythonApi);
    assert DistinctPaths(NodeApi);
  }

  /** The scaffold's `tests/index.test.ts` for node-api, written in pieces
      that are cut where the two strings its entry requires begin. */
  const AssetHead := "import { "
  const AssetMiddle := ", it, expect } from \"vitest\";\n\ndescribe(\"{{PROJECT_NAME}}\", () => {\n  "
  const AssetTail :=
    "\"should be defined\", () => {\n    expect(true).toBe(true);\n  });\n\n"
    + "  it(\"should have a valid project name\", () => {\n    const name = \"{{PROJECT_NAME}}\";\n"
    + "    expect(name).toBeTruthy();\n    expect(name).not.toContain(\"{{\");\n  });\n});\n"
  const NodeTestAsset: string := AssetHead + "describe" + AssetMiddle + "it(" + AssetTail

  /** The scaffolded test file meets the node-api entry for it. */
  lemma NodeTestAssetSatisfiesEntry()
    ensures Satisfies(map["tests/index.test.ts" := File(Readable(NodeTestAsset))], NodeApi[5])
  {
    var upToDescribe := AssetHead + "describe";
    var upToIt := upToDescribe + AssetMiddle + "it(";
    OccursAtEnd(AssetHead, "describe");
    OccursInPrefix(upToDescribe, AssetMiddle, "describe", |AssetHead|);
    OccursInPrefix(upToDescribe + AssetMiddle, "it(", "describe", |AssetHead|);
    OccursInPrefix(upToIt, AssetTail, "describe", |AssetHead|);
    OccursAtEnd(upToDescribe + AssetMiddle, "it(");
    OccursInPrefix(upToIt, AssetTail, "it(", |upToDescribe + AssetMiddle|);
    assert NodeTestAsset[0] == 'i';
  }

  // ------------------------------------------------------ the command line

  /** Exit 0 for help alone; exit 2 for a wrong argument count or an unknown
      template; otherwise exit 0 exactly when the project is a directory
      that satisfies every entry of the template, and 1 when it does not. */
  lemma CliExitCodes(args: seq<string>, disk: string -> Project, o: CliOutcome)
    requires IsCliOutcome(args, disk, o)
    ensures |args| == 1 && args[0] in {"--help", "-h"} ==> ExitCode(o) == 0
    ensures ExitCode(o) == 2 <==>
            !(|args| == 1 && args[0] in {"--help", "-h"}) && (|args| != 2 || args[1] !in Templates)
    ensures |args| == 2 && args[1] in Templates ==>
              (ExitCode(o) == 0 <==>
                 disk(args[0]).root.RootDirectory?
                 && forall e :: e in Templates[args[1]] ==> Satisfies(disk(args[0]).tree, e))
    ensures 0 <= ExitCode(o) <= 2
  {
    if |args| == 2 && args[1] in Templates && disk(args[0]).root.RootDirectory? {
      NoErrorsIffAllSatisfied(disk(args[0]).tree, Templates[args[1]]);
    }
  }
}
