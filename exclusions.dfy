/**
 * The fixed name lists: what sync never transfers (`EXCLUDE_ITEMS`), what may
 * exist locally as a copy of remote content (`DUPLICATED_ITEMS`), the
 * `.gitignore` template and the list `clean` never deletes (`CLEAN_IGNORE`),
 * plus the "only bootstrap files here" test behind the default direction.
 */
module Exclusions {
  import opened Text

  const ExcludeItems: seq<string> := [
    "upload.sh",
    ".gitignore",
    "s3-project-backup.json",
    "s3-project-backup.py",
    "_DS_Store",
    ".DS_Store"
  ]

  const DuplicatedItems: seq<string> := ["README.md"]

  /** The lines of the `.gitignore` written by `init`: ignore everything but three files. */
  const GitIgnoreLines: seq<string> := ["", "/*", "!.gitignore", "!README.md", "!s3-project-backup.json", ""]

  /** The `.gitignore` template text: its lines separated by line breaks. */
  const GitIgnore: string := Join(GitIgnoreLines, '\n')

  /** `lines[2:]`: Python slicing, which yields nothing on a short list. */
  function DropTwo(lines: seq<string>): (r: seq<string>)
    ensures |lines| >= 2 ==> r == lines[2..]
    ensures |lines| < 2 ==> r == []
  {
    if |lines| < 2 then [] else lines[2..]
  }

  /**
   * The comprehension that derives the extra clean-ignore names, as written:
   * it keeps every line that is non-empty or starts with `!` (that is, every
   * non-empty line), drops its first character and strips whitespace.
   */
  function AllowListAsWritten(lines: seq<string>): (r: seq<string>)
    ensures |r| <= |lines|
    ensures (forall k :: 0 <= k < |lines| ==> lines[k] == []) ==> r == []
    ensures (forall k :: 0 <= k < |lines| ==> lines[k] != []) ==> |r| == |lines|
  {
    if lines == [] then []
    else
      var p := lines[0];
      (if p != [] || StartsWith(p, "!") then [Strip(p[1..])] else []) + AllowListAsWritten(lines[1..])
  }

  /**
   * The names a `.gitignore` re-admits: its `!name` lines, without the `!`.
   * The length bound is only a sanity fact; `AllowListAsWrittenAgrees` and
   * `CleanIgnoreValue` state what it yields.
   */
  function AllowList(lines: seq<string>): (r: seq<string>)
    ensures |r| <= |lines|
  {
    if lines == [] then []
    else
      var p := lines[0];
      (if StartsWith(p, "!") then [Strip(p[1..])] else []) + AllowList(lines[1..])
  }

  /**
   * Where every remaining line is empty or a `!` line, the comprehension as
   * written keeps exactly the `!` lines.
   */
  lemma {:induction false} AllowListAsWrittenAgrees(lines: seq<string>)
    requires forall k :: 0 <= k < |lines| ==> lines[k] == [] || StartsWith(lines[k], "!")
    ensures AllowListAsWritten(lines) == AllowList(lines)
  {
    if lines != [] {
      AllowListAsWrittenAgrees(lines[1..]);
    }
  }

  /** `CLEAN_IGNORE` computed from a template text the way the script does. */
  function CleanIgnoreFrom(template: string): (r: seq<string>)
    ensures |ExcludeItems| <= |r| && r[..|ExcludeItems|] == ExcludeItems
  {
    ExcludeItems + AllowListAsWritten(DropTwo(Split(template, '\n')))
  }

  const CleanIgnore: seq<string> := CleanIgnoreFrom(GitIgnore)

  /** Splitting the template at line breaks gives back its lines. */
  lemma SplitGitIgnore()
    ensures Split(GitIgnore, '\n') == GitIgnoreLines
  {
    assert forall k :: 0 <= k < |GitIgnoreLines| ==> '\n' !in GitIgnoreLines[k];
    SplitJoin(GitIgnoreLines, '\n');
  }

  /** One step of the comprehension: the head line's contribution, then the rest. */
  lemma AllowListAsWrittenCons(p: string, rest: seq<string>)
    ensures AllowListAsWritten([p] + rest)
         == (if p != [] then [Strip(p[1..])] else []) + AllowListAsWritten(rest)
  {
    assert ([p] + rest)[1..] == rest;
  }

  /**
   * `CLEAN_IGNORE` is `EXCLUDE_ITEMS` followed by the three names the
   * `.gitignore` template re-admits, in template order.
   */
  lemma CleanIgnoreValue()
    ensures CleanIgnore == ExcludeItems + [".gitignore", "README.md", "s3-project-backup.json"]
  {
    SplitGitIgnore();
    TemplateAllowList();
  }

  /** A `!name` line whose name has no surrounding whitespace contributes exactly that name. */
  lemma AllowListAsWrittenBang(p: string, rest: seq<string>)
    requires |p| >= 2 && !IsSpace(p[1]) && !IsSpace(p[|p| - 1])
    ensures AllowListAsWritten([p] + rest) == [p[1..]] + AllowListAsWritten(rest)
  {
    AllowListAsWrittenCons(p, rest);
    StripClean(p[1..]);
  }

  /** The comprehension applied to the template's lines after the first two. */
  lemma TemplateAllowList()
    ensures AllowListAsWritten(DropTwo(GitIgnoreLines)) == [".gitignore", "README.md", "s3-project-backup.json"]
  {
    assert DropTwo(GitIgnoreLines) == ["!.gitignore", "!README.md", "!s3-project-backup.json", ""];
    TemplateAllowListStep2();
    TemplateAllowListStep3();
    TemplateAllowListLast();
  }

  lemma TemplateAllowListStep2()
    ensures AllowListAsWritten(["!.gitignore", "!README.md", "!s3-project-backup.json", ""])
         == [".gitignore"] + AllowListAsWritten(["!README.md", "!s3-project-backup.json", ""])
  {
    assert ["!.gitignore", "!README.md", "!s3-project-backup.json", ""]
        == ["!.gitignore"] + ["!README.md", "!s3-project-backup.json", ""];
    AllowListAsWrittenBang("!.gitignore", ["!README.md", "!s3-project-backup.json", ""]);
  }

  lemma TemplateAllowListStep3()
    ensures AllowListAsWritten(["!README.md", "!s3-project-backup.json", ""])
         == ["README.md"] + AllowListAsWritten(["!s3-project-backup.json", ""])
  {
    assert ["!README.md", "!s3-project-backup.json", ""] == ["!README.md"] + ["!s3-project-backup.json", ""];
    AllowListAsWrittenBang("!README.md", ["!s3-project-backup.json", ""]);
  }

  lemma TemplateAllowListLast()
    ensures AllowListAsWritten(["!s3-project-backup.json", ""]) == ["s3-project-backup.json"]
  {
    assert ["!s3-project-backup.json", ""] == ["!s3-project-backup.json"] + [""];
    AllowListAsWrittenCons("", []);
    AllowListAsWrittenBang("!s3-project-backup.json", [""]);
  }

  /** An entry the default-direction test treats as tool bookkeeping. */
  predicate IsBootstrap(name: string)
  {
    name in ExcludeItems || name in DuplicatedItems
  }

  /** Every entry of the listing is bookkeeping. */
  predicate OnlyBootstrapFiles(names: seq<string>)
  {
    forall k :: 0 <= k < |names| ==> IsBootstrap(names[k])
  }

  /**
   * `check_no_local_files`: walks the directory listing and answers false at
   * the first entry that is neither excluded nor a known duplicate.
   */
  method CheckNoLocalFiles(names: seq<string>) returns (r: bool)
    ensures r <==> OnlyBootstrapFiles(names)
    ensures !r ==> exists k :: 0 <= k < |names| && !IsBootstrap(names[k])
  {
    var i := 0;
    while i < |names|
      invariant 0 <= i <= |names|
      invariant forall k :: 0 <= k < i ==> IsBootstrap(names[k])
    {
      if names[i] !in ExcludeItems && names[i] !in DuplicatedItems {
        return false;
      }
      i := i + 1;
    }
    return true;
  }

  /** An empty directory counts as holding only bootstrap files. */
  lemma EmptyIsBootstrapOnly()
    ensures OnlyBootstrapFiles([])
  {
  }

  /** Adding one entry keeps the verdict only if that entry is bookkeeping too. */
  lemma OnlyBootstrapFilesAppend(names: seq<string>, name: string)
    ensures OnlyBootstrapFiles(names + [name]) <==> OnlyBootstrapFiles(names) && IsBootstrap(name)
  {
    assert forall k :: 0 <= k < |names| ==> (names + [name])[k] == names[k];
    assert (names + [name])[|names|] == name;
  }

  /**
   * A project holding only its configuration and README is bootstrap-only;
   * one more entry such as `src` is not.
   */
  lemma BootstrapScenario()
    ensures OnlyBootstrapFiles(["s3-project-backup.json", "README.md"])
    ensures !OnlyBootstrapFiles(["s3-project-backup.json", "README.md", "src"])
  {
    var s := ["s3-project-backup.json", "README.md", "src"];
    assert s[2] == "src";
    assert !("src" in ExcludeItems);
  }
}
