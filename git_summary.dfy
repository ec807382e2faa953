/** The change summary `getGitChanges` assembles from git's output: a
    header with branch and porcelain status, the staged and unstaged file
    lists, their diff-stat sections (or a placeholder when a stat query
    failed), all capped at 4000 characters. */
module GitSummary {
  import opened Wrappers
  import opened JsString

  /** What one `execAsync` call produced: the command's standard output,
      or the message of the error it raised. */
  datatype Exec = Ran(stdout: string) | Failed(message: string)

  /** The git commands the core issues. */
  datatype GitCommand =
    | StatusPorcelain        // git status --porcelain
    | ShowCurrentBranch      // git branch --show-current
    | CachedNameOnly         // git diff --cached --name-only
    | NameOnly               // git diff --name-only
    | CachedStat             // git diff --cached --stat
    | Stat                   // git diff --stat
    | CommitMessage(escaped: string)  // git commit -m "<escaped>"
    | PushOrigin(branch: string)  // git push origin <branch>

  /** What each read-only git query would answer if it were issued now. */
  datatype GitOutputs = GitOutputs(
    status: Exec,
    branch: Exec,
    stagedNames: Exec,
    unstagedNames: Exec,
    stagedStat: Exec,
    unstagedStat: Exec)

  /** The two sections a summary may contain, in the order they appear. */
  datatype StatKind = Staged | Unstaged

  const SummaryCap: nat := 4000
  const TruncationMarker: string := "\n... (truncated for brevity)"
  const NoChangesMessage: string := "No changes detected"

  /** The hard cap: at most 4000 characters of the summary are kept, and the
      marker is appended after the cut. */
  function Truncate(s: string): (r: string)
    ensures |s| <= SummaryCap ==> r == s
    ensures |s| > SummaryCap ==>
              |r| == SummaryCap + |TruncationMarker|
              && r[..SummaryCap] == s[..SummaryCap]
              && r[SummaryCap..] == TruncationMarker
    ensures |r| <= SummaryCap + |TruncationMarker|
  {
    if |s| > SummaryCap then s[..SummaryCap] + TruncationMarker else s
  }

  const BranchLabel: string := "Branch: "
  const StatusLabel: string := "\n\nStatus:\n"
  const BlankLine: string := "\n\n"
  const StagedFilesLabel: string := "Staged files:\n"
  const UnstagedFilesLabel: string := "Unstaged files:\n"
  const StagedSummaryLabel: string := "\nStaged changes summary:\n"
  const UnstagedSummaryLabel: string := "\nUnstaged changes summary:\n"
  const StagedPlaceholder: string := "\nStaged changes: (too large to display)\n\n"
  const UnstagedPlaceholder: string := "\nUnstaged changes: (too large to display)\n"

  function Header(branch: string, status: string): string
  {
    BranchLabel + Trim(branch) + StatusLabel + status + BlankLine
  }

  /** The file-list section for `kind`, present only when git listed a file. */
  function FilesSection(kind: StatKind, names: string): string
  {
    if Trim(names) == [] then ""
    else (if kind == Staged then StagedFilesLabel else UnstagedFilesLabel) + names + "\n"
  }

  /** The stat queries the file lists call for, in the order they are issued. */
  function StatKinds(staged: string, unstaged: string): (ks: seq<StatKind>)
    ensures Staged in ks <==> Trim(staged) != []
    ensures Unstaged in ks <==> Trim(unstaged) != []
    ensures |ks| <= 2 && (|ks| == 2 ==> ks == [Staged, Unstaged])
  {
    (if Trim(staged) != [] then [Staged] else []) + (if Trim(unstaged) != [] then [Unstaged] else [])
  }

  function StatCommand(kind: StatKind): GitCommand
  {
    if kind == Staged then CachedStat else Stat
  }

  function StatOutput(git: GitOutputs, kind: StatKind): Exec
  {
    if kind == Staged then git.stagedStat else git.unstagedStat
  }

  /** The stat section of one kind: the command's output when it ran, a
      placeholder when it failed (the failure is not propagated). */
  function StatSection(kind: StatKind, e: Exec): string
  {
    match e
    case Ran(out) =>
      if kind == Staged then StagedSummaryLabel + out + BlankLine
      else UnstagedSummaryLabel + out + "\n"
    case Failed(_) =>
      if kind == Staged then StagedPlaceholder else UnstagedPlaceholder
  }

  /** The stat sections for `kinds`, in order (the order `allSettled` keeps). */
  function StatSections(kinds: seq<StatKind>, git: GitOutputs): string
  {
    if kinds == [] then ""
    else StatSections(kinds[..|kinds| - 1], git) + StatSection(kinds[|kinds| - 1], StatOutput(git, kinds[|kinds| - 1]))
  }

  /** Text that ends with the stat sections of the first `k` kinds ends,
      once the next kind's section is appended, with those of the first
      `k + 1`. */
  lemma StatSectionsExtend(prefix: string, text: string, kinds: seq<StatKind>, k: nat, git: GitOutputs)
    requires k < |kinds| && text == prefix + StatSections(kinds[..k], git)
    ensures text + StatSection(kinds[k], StatOutput(git, kinds[k])) == prefix + StatSections(kinds[..k + 1], git)
  {
    assert kinds[..k + 1][..k] == kinds[..k];
  }

  /** The summary before the cap. */
  function Summary(branch: string, status: string, staged: string, unstaged: string, git: GitOutputs): string
  {
    Header(branch, status) + FilesSection(Staged, staged) + FilesSection(Unstaged, unstaged)
    + StatSections(StatKinds(staged, unstaged), git)
  }

  /** What `getGitChanges` computes once status, branch and both file lists
      are known: a blank status is the "No changes detected" error, anything
      else a capped summary, whatever the stat queries did. */
  function ChangeSummary(branch: string, status: string, staged: string, unstaged: string, git: GitOutputs)
    : (r: Result<string>)
    ensures r.Err? <==> AllWhitespace(status)
    ensures r.Err? ==> r.message == NoChangesMessage
    ensures r.Ok? ==> |r.value| <= SummaryCap + |TruncationMarker|
  {
    TrimEmptyIff(status);
    if Trim(status) == [] then Err(NoChangesMessage)
    else Ok(Truncate(Summary(branch, status, staged, unstaged, git)))
  }

  /** The stat sections a summary ends with: the staged one, then the
      unstaged one, each present exactly when its file list is not blank. */
  lemma StatSectionsInOrder(staged: string, unstaged: string, git: GitOutputs)
    ensures StatSections(StatKinds(staged, unstaged), git)
            == (if Trim(staged) != [] then StatSection(Staged, git.stagedStat) else "")
               + (if Trim(unstaged) != [] then StatSection(Unstaged, git.unstagedStat) else "")
  {
    var ks := StatKinds(staged, unstaged);
    if Trim(staged) != [] && Trim(unstaged) != [] {
      assert ks == [Staged, Unstaged];
      assert ks[..1] == [Staged];
      assert [Staged][..0] == [];
      assert StatSections([Staged], git) == StatSection(Staged, git.stagedStat);
      assert StatSections(ks, git) == StatSections([Staged], git) + StatSection(Unstaged, git.unstagedStat);
    } else if Trim(staged) != [] {
      assert ks == [Staged];
      assert [Staged][..0] == [];
    } else if Trim(unstaged) != [] {
      assert ks == [Unstaged];
      assert [Unstaged][..0] == [];
    } else {
      assert ks == [];
    }
  }

  /** Layout: the header first, then the staged file list, the unstaged file
      list, the staged stat section and the unstaged stat section, each
      present exactly when its file list is not blank. */
  lemma SummaryLayout(branch: string, status: string, staged: string, unstaged: string, git: GitOutputs)
    ensures Summary(branch, status, staged, unstaged, git)
            == Header(branch, status) + FilesSection(Staged, staged) + FilesSection(Unstaged, unstaged)
               + (if Trim(staged) != [] then StatSection(Staged, git.stagedStat) else "")
               + (if Trim(unstaged) != [] then StatSection(Unstaged, git.unstagedStat) else "")
  {
    StatSectionsInOrder(staged, unstaged, git);
  }

  /** The header is the trimmed branch and the raw status, as the summary's
      first lines. */
  lemma HeaderShape(branch: string, status: string)
    ensures Header(branch, status) == "Branch: " + Trim(branch) + "\n\nStatus:\n" + status + "\n\n"
    ensures StartsWith(Header(branch, status), "Branch: ")
  {
  }

  /** The file-list part of a summary, for any header and any tail: the staged
      list starts right after the header exactly when it is present. */
  lemma FileListsAfterHeader(h: string, staged: string, unstaged: string, tail: string)
    requires Trim(staged) == [] && Trim(unstaged) == [] ==> tail == []
    ensures var s := h + FilesSection(Staged, staged) + FilesSection(Unstaged, unstaged) + tail;
            StartsWith(s, h) && (StartsWith(s[|h|..], "Staged files:\n") <==> Trim(staged) != [])
  {
    var fs := FilesSection(Staged, staged);
    var fu := FilesSection(Unstaged, unstaged);
    var s := h + fs + fu + tail;
    var rest := fs + fu + tail;
    assert StartsWith(s, h) && s[|h|..] == rest by {
      assert s == h + rest;
      StartsWithConcat(h, rest);
    }
    var tag := "Staged files:\n";
    if Trim(staged) != [] {
      assert StartsWith(rest, tag) by {
        StartsWithConcat(tag, staged);
        StartsWithExtend(tag + staged, "\n", tag);
        StartsWithExtend(fs, fu, tag);
        StartsWithExtend(fs + fu, tail, tag);
      }
    } else if Trim(unstaged) != [] {
      assert rest[0] == 'U' by {
        var other := "Unstaged files:\n";
        StartsWithConcat(other, unstaged);
        StartsWithExtend(other + unstaged, "\n", other);
        StartsWithExtend(fu, tail, other);
        assert rest == fu + tail;
      }
      assert tag[0] == 'S';
    } else {
      assert rest == [];
    }
  }

  /** Right after the header, the summary continues with the staged file
      list if and only if git listed a staged file. */
  lemma StagedSectionFollowsHeader(branch: string, status: string, staged: string, unstaged: string, git: GitOutputs)
    ensures var s := Summary(branch, status, staged, unstaged, git);
            var h := Header(branch, status);
            StartsWith(s, h) && (StartsWith(s[|h|..], "Staged files:\n") <==> Trim(staged) != [])
  {
    var ks := StatKinds(staged, unstaged);
    assert Trim(staged) == [] && Trim(unstaged) == [] ==> ks == [];
    FileListsAfterHeader(Header(branch, status), staged, unstaged, StatSections(ks, git));
  }

  /** Both file lists present, for any header and tail: the staged one first,
      the unstaged one directly after it. */
  lemma BothFileListsInOrder(h: string, staged: string, unstaged: string, tail: string)
    requires Trim(staged) != [] && Trim(unstaged) != []
    ensures var fs := FilesSection(Staged, staged);
            var s := h + fs + FilesSection(Unstaged, unstaged) + tail;
            StartsWith(s[|h|..], "Staged files:\n" + staged)
            && StartsWith(s[|h| + |fs|..], "Unstaged files:\n" + unstaged)
  {
    var fs := FilesSection(Staged, staged);
    var fu := FilesSection(Unstaged, unstaged);
    var s := h + fs + fu + tail;
    assert s[|h|..] == fs + fu + tail by {
      assert s == h + (fs + fu + tail);
      StartsWithConcat(h, fs + fu + tail);
    }
    assert s[|h| + |fs|..] == fu + tail by {
      assert s == h + fs + (fu + tail);
      StartsWithConcat(h + fs, fu + tail);
    }
    var p1 := "Staged files:\n" + staged;
    assert StartsWith(fs + fu + tail, p1) by {
      StartsWithConcat(p1, "\n");
      StartsWithExtend(fs, fu, p1);
      StartsWithExtend(fs + fu, tail, p1);
    }
    var p2 := "Unstaged files:\n" + unstaged;
    assert StartsWith(fu + tail, p2) by {
      StartsWithConcat(p2, "\n");
      StartsWithExtend(fu, tail, p2);
    }
  }

  /** When both file lists are present, the staged one comes first and the
      unstaged one follows it directly. */
  lemma StagedBeforeUnstaged(branch: string, status: string, staged: string, unstaged: string, git: GitOutputs)
    requires Trim(staged) != [] && Trim(unstaged) != []
    ensures var s := Summary(branch, status, staged, unstaged, git);
            var i := |Header(branch, status)|;
            var j := i + |FilesSection(Staged, staged)|;
            StartsWith(s[i..], "Staged files:\n" + staged) && StartsWith(s[j..], "Unstaged files:\n" + unstaged)
  {
    BothFileListsInOrder(Header(branch, status), staged, unstaged, StatSections(StatKinds(staged, unstaged), git));
  }

  /** Degrade, not fail: the text of a failed stat query never reaches the
      summary; any failure gives the same result as any other. */
  lemma StatFailureTextIrrelevant(branch: string, status: string, staged: string, unstaged: string,
                                  git: GitOutputs, m1: string, m2: string, kind: StatKind)
    ensures var g1 := if kind == Staged then git.(stagedStat := Failed(m1)) else git.(unstagedStat := Failed(m1));
            var g2 := if kind == Staged then git.(stagedStat := Failed(m2)) else git.(unstagedStat := Failed(m2));
            ChangeSummary(branch, status, staged, unstaged, g1) == ChangeSummary(branch, status, staged, unstaged, g2)
  {
    var g1 := if kind == Staged then git.(stagedStat := Failed(m1)) else git.(unstagedStat := Failed(m1));
    var g2 := if kind == Staged then git.(stagedStat := Failed(m2)) else git.(unstagedStat := Failed(m2));
    SummaryLayout(branch, status, staged, unstaged, g1);
    SummaryLayout(branch, status, staged, unstaged, g2);
  }

  /** A summary within the cap is returned unchanged, without the marker; a
      longer one keeps exactly its first 4000 characters followed by it. */
  lemma CapIsExact(branch: string, status: string, staged: string, unstaged: string, git: GitOutputs)
    requires !AllWhitespace(status)
    ensures var s := Summary(branch, status, staged, unstaged, git);
            var r := ChangeSummary(branch, status, staged, unstaged, git);
            r.Ok?
            && (|s| <= 4000 ==> r.value == s)
            && (|s| > 4000 ==> r.value == s[..4000] + "\n... (truncated for brevity)")
  {
  }

  const GitChangesPrefix: string := "Failed to get git changes: "

  /** The index of the first failed query, in the order they are issued. */
  function FirstFailed(es: seq<Exec>): (r: Option<nat>)
    ensures r.None? <==> forall i :: 0 <= i < |es| ==> es[i].Ran?
    ensures r.Some? ==> r.value < |es| && es[r.value].Failed? && forall j :: 0 <= j < r.value ==> es[j].Ran?
  {
    if es == [] then None
    else if es[0].Failed? then Some(0)
    else match FirstFailed(es[1..])
         case None => None
         case Some(i) => Some(i + 1)
  }

  /** The message of the first failed query, if one failed. */
  function FirstFailure(es: seq<Exec>): (r: Option<string>)
    ensures r.None? <==> forall i :: 0 <= i < |es| ==> es[i].Ran?
  {
    match FirstFailed(es)
    case None => None
    case Some(i) => Some(es[i].message)
  }

  /** The status `getGitChanges` works with: the one cached by
      `checkForChanges` when there is one, otherwise a fresh query. */
  function StatusFor(cachedStatus: Option<string>, git: GitOutputs): Exec
  {
    if cachedStatus.Some? then Ran(cachedStatus.value) else git.status
  }

  /** The four queries awaited together, in the order they are listed. */
  function Batch(cachedStatus: Option<string>, git: GitOutputs): (b: seq<Exec>)
    ensures |b| == 4 && b[0] == StatusFor(cachedStatus, git) && b[1] == git.branch
            && b[2] == git.stagedNames && b[3] == git.unstagedNames
  {
    [StatusFor(cachedStatus, git), git.branch, git.stagedNames, git.unstagedNames]
  }

  /** `getGitChanges`: the capped summary, or its error prefixed with
      "Failed to get git changes: " when a query fails or the status is
      blank; a failed stat query is not an error. */
  function GitChanges(cachedStatus: Option<string>, git: GitOutputs): (r: Result<string>)
  {
    match FirstFailure(Batch(cachedStatus, git))
    case Some(m) => Err(GitChangesPrefix + m)
    case None =>
      match ChangeSummary(git.branch.stdout, StatusFor(cachedStatus, git).stdout,
                          git.stagedNames.stdout, git.unstagedNames.stdout, git)
      case Ok(summary) => Ok(summary)
      case Err(m) => Err(GitChangesPrefix + m)
  }

  /** The git commands `getGitChanges` issues, in order: the status query
      unless it is cached, the branch and both file lists, then the stat
      query of each file list that is not blank, once the status is known
      not to be blank. */
  function GitChangesQueries(cachedStatus: Option<string>, git: GitOutputs): seq<GitCommand>
  {
    (if cachedStatus.Some? then [] else [StatusPorcelain])
    + [ShowCurrentBranch, CachedNameOnly, NameOnly]
    + (if FirstFailure(Batch(cachedStatus, git)).None? && !AllWhitespace(StatusFor(cachedStatus, git).stdout)
       then StatCommands(StatKinds(git.stagedNames.stdout, git.unstagedNames.stdout))
       else [])
  }

  function StatCommands(kinds: seq<StatKind>): (cs: seq<GitCommand>)
    ensures |cs| == |kinds| && forall i :: 0 <= i < |kinds| ==> cs[i] == StatCommand(kinds[i])
  {
    if kinds == [] then [] else StatCommands(kinds[..|kinds| - 1]) + [StatCommand(kinds[|kinds| - 1])]
  }

  /** `getGitChanges` fails exactly when one of the four queries fails or
      the status is blank; a blank status gives "Failed to get git changes:
      No changes detected", a failed query the first failure's message
      after that prefix; otherwise the result is the capped summary. */
  lemma GitChangesOutcome(cachedStatus: Option<string>, git: GitOutputs)
    ensures var r := GitChanges(cachedStatus, git);
            var status := StatusFor(cachedStatus, git);
            && (r.Err? <==> (exists i :: 0 <= i < 4 && Batch(cachedStatus, git)[i].Failed?)
                            || AllWhitespace(status.stdout))
            && (FirstFailure(Batch(cachedStatus, git)).None? && AllWhitespace(status.stdout)
                ==> r == Err(GitChangesPrefix + NoChangesMessage))
            && (r.Err? ==> StartsWith(r.message, GitChangesPrefix))
            && (FirstFailure(Batch(cachedStatus, git)).Some?
                ==> r == Err(GitChangesPrefix + FirstFailure(Batch(cachedStatus, git)).value))
            && (r.Ok? ==> r.value == Truncate(Summary(git.branch.stdout, status.stdout,
                                                      git.stagedNames.stdout, git.unstagedNames.stdout, git)))
  {
    var r := GitChanges(cachedStatus, git);
    if r.Err? {
      var m := if FirstFailure(Batch(cachedStatus, git)).Some? then FirstFailure(Batch(cachedStatus, git)).value
               else NoChangesMessage;
      assert r.message == GitChangesPrefix + m;
      StartsWithConcat(GitChangesPrefix, m);
    }
  }

  /** With a cached status, no status query is issued. */
  lemma CachedStatusNotQueried(status: string, git: GitOutputs)
    ensures StatusPorcelain !in GitChangesQueries(Some(status), git)
  {
    if FirstFailure(Batch(Some(status), git)).None? && !AllWhitespace(status) {
      var ks := StatKinds(git.stagedNames.stdout, git.unstagedNames.stdout);
      assert StatusPorcelain !in StatCommands(ks);
      assert GitChangesQueries(Some(status), git) == [ShowCurrentBranch, CachedNameOnly, NameOnly] + StatCommands(ks);
    }
  }

  /** With a cached status, what a fresh status query would have said does
      not matter. */
  lemma CachedStatusReused(status: string, git: GitOutputs, again: Exec)
    ensures GitChanges(Some(status), git) == GitChanges(Some(status), git.(status := again))
  {
    var g2 := git.(status := again);
    assert Batch(Some(status), git) == Batch(Some(status), g2);
    if FirstFailure(Batch(Some(status), git)).None? {
      StatSectionsIgnoreStatus(StatKinds(git.stagedNames.stdout, git.unstagedNames.stdout), git, again);
      assert Summary(git.branch.stdout, status, git.stagedNames.stdout, git.unstagedNames.stdout, git)
          == Summary(git.branch.stdout, status, git.stagedNames.stdout, git.unstagedNames.stdout, g2);
    }
  }

  /** A blank status issues no stat query. */
  lemma NoStatQueryWhenBlank(cachedStatus: Option<string>, git: GitOutputs)
    requires StatusFor(cachedStatus, git).Ran? && AllWhitespace(StatusFor(cachedStatus, git).stdout)
    ensures CachedStat !in GitChangesQueries(cachedStatus, git) && Stat !in GitChangesQueries(cachedStatus, git)
  {
  }

  lemma {:induction false} StatSectionsIgnoreStatus(kinds: seq<StatKind>, git: GitOutputs, again: Exec)
    ensures StatSections(kinds, git) == StatSections(kinds, git.(status := again))
  {
    if kinds != [] {
      StatSectionsIgnoreStatus(kinds[..|kinds| - 1], git, again);
      var k := kinds[|kinds| - 1];
      assert StatOutput(git, k) == StatOutput(git.(status := again), k);
    }
  }
}
