/** The `ClaudeAutoCommit` object: its options, the per-run cache of git
    output, the configuration cache, and the operations that read and
    update them. Git's answers, the completion service's answers, the clock
    and the configuration file are parameters; the git commands issued are
    recorded in a ghost log. */
module AutoCommit {
  import opened Wrappers
  import opened JsString
  import opened GitSummary
  import opened Prompt
  import opened Response
  import opened Retry
  import opened Config
  import opened Cli
  import Escaping

  const StatusKey: string := "status"
  const BranchKey: string := "branch"
  const CheckStatusPrefix: string := "Failed to check git status: "
  const CreateCommitPrefix: string := "Failed to create commit: "
  const DefaultTimeout: nat := 30000

  /** How `pushChanges` ends; its errors are reported, not raised. */
  datatype PushReport = Pushed(branch: string) | PushFailed(message: string)

  /** The file lists `getGitChanges` appends to the header: each one that
      is not blank, staged first; and the stat queries they call for. */
  method AppendFileLists(header: string, diff: string, diffUnstaged: string)
    returns (changes: string, kinds: seq<StatKind>)
    ensures changes == header + FilesSection(Staged, diff) + FilesSection(Unstaged, diffUnstaged)
    ensures kinds == StatKinds(diff, diffUnstaged)
  {
    changes := header;
    kinds := [];
    if Trim(diff) != [] {
      changes := changes + FilesSection(Staged, diff);
      kinds := kinds + [Staged];
    }
    if Trim(diffUnstaged) != [] {
      changes := changes + FilesSection(Unstaged, diffUnstaged);
      kinds := kinds + [Unstaged];
    }
  }

  /** The stat sections `getGitChanges` appends, one per stat query, in
      the order the queries were issued (the order `allSettled` keeps). */
  method AppendStatSections(prefix: string, kinds: seq<StatKind>, git: GitOutputs) returns (changes: string)
    ensures changes == prefix + StatSections(kinds, git)
  {
    changes := prefix;
    var k := 0;
    while k < |kinds|
      invariant 0 <= k <= |kinds|
      invariant changes == prefix + StatSections(kinds[..k], git)
    {
      StatSectionsExtend(prefix, changes, kinds, k, git);
      changes := changes + StatSection(kinds[k], StatOutput(git, kinds[k]));
      k := k + 1;
    }
    assert kinds[..k] == kinds;
  }

  /** The summary `getGitChanges` builds once the status is known not to be
      blank: the header, the file lists, the stat sections, then the cap;
      and the stat queries it issues. */
  method AssembleChanges(branch: string, status: string, diff: string, diffUnstaged: string, git: GitOutputs)
    returns (changes: string, kinds: seq<StatKind>)
    ensures changes == Truncate(Summary(branch, status, diff, diffUnstaged, git))
    ensures kinds == StatKinds(diff, diffUnstaged)
  {
    changes, kinds := AppendFileLists(Header(branch, status), diff, diffUnstaged);
    changes := AppendStatSections(changes, kinds, git);
    if |changes| > SummaryCap {
      changes := changes[..SummaryCap] + TruncationMarker;
    }
  }

  /** What `getGitChanges` does once the four queries have answered: a
      blank status is the "No changes detected" error and issues no stat
      query; otherwise the capped summary, with the stat queries it issued. */
  method DescribeStatus(branch: string, status: string, diff: string, diffUnstaged: string, git: GitOutputs)
    returns (r: Result<string>, kinds: seq<StatKind>)
    ensures AllWhitespace(status) ==> r == Err(GitChangesPrefix + NoChangesMessage) && kinds == []
    ensures !AllWhitespace(status) ==>
              r == Ok(Truncate(Summary(branch, status, diff, diffUnstaged, git)))
              && kinds == StatKinds(diff, diffUnstaged)
  {
    TrimEmptyIff(status);
    if Trim(status) == [] {
      return Err(GitChangesPrefix + NoChangesMessage), [];
    }
    var changes;
    changes, kinds := AssembleChanges(branch, status, diff, diffUnstaged, git);
    r := Ok(changes);
  }

  class ClaudeAutoCommit {
    var language: string
    var useEmoji: bool
    var conventionalCommit: bool
    var commitType: string
    var dryRun: bool
    var verbose: bool
    var push: bool
    var templateName: string
    var maxRetries: nat
    var timeout: nat
    /** `_gitCache`: the status and branch output of this run. */
    var gitCache: map<string, string>
    var configCache: Option<Config>
    var configCacheTime: nat
    /** The git commands issued so far, in order. */
    ghost var issued: seq<GitCommand>

    /** The constructor's defaults are in place: a language, at least one
        attempt and a positive timeout. */
    predicate Valid()
      reads this
    {
      language != "" && maxRetries >= 1 && timeout >= 1
    }

    /** Each option, or its default when it is absent or falsy: English,
        three attempts, 30 s; both caches empty. */
    constructor(options: Options)
      ensures Valid()
      ensures language == OrElse(options.language, DefaultLanguage)
      ensures useEmoji == options.useEmoji && conventionalCommit == options.conventionalCommit
      ensures commitType == options.commitType && dryRun == options.dryRun && verbose == options.verbose
      ensures push == options.push && templateName == options.templateName
      ensures maxRetries == (if options.maxRetries == 0 then DefaultMaxRetries else options.maxRetries)
      ensures timeout == (if options.timeout == 0 then DefaultTimeout else options.timeout)
      ensures gitCache == map[] && configCache == None && configCacheTime == 0 && issued == []
    {
      language := OrElse(options.language, DefaultLanguage);
      useEmoji := options.useEmoji;
      conventionalCommit := options.conventionalCommit;
      commitType := options.commitType;
      dryRun := options.dryRun;
      verbose := options.verbose;
      push := options.push;
      templateName := options.templateName;
      maxRetries := if options.maxRetries == 0 then DefaultMaxRetries else options.maxRetries;
      timeout := if options.timeout == 0 then DefaultTimeout else options.timeout;
      gitCache := map[];
      configCache := None;
      configCacheTime := 0;
      issued := [];
    }

    /** `loadConfig` at time `now`: the cached configuration while it is
        fresh; otherwise the file's, which is cached and merged into the
        options (an option already set wins); nothing when there is no
        readable file. */
    method LoadConfig(now: nat, file: ConfigFile) returns (r: Option<Config>)
      modifies this`configCache, this`configCacheTime, this`language, this`useEmoji,
               this`conventionalCommit, this`verbose
      ensures old(CacheFresh(configCache, configCacheTime, now)) ==> r == old(configCache) && unchanged(this)
      ensures !old(CacheFresh(configCache, configCacheTime, now)) && file.Parsed? ==>
                && r == Some(file.config)
                && configCache == Some(file.config) && configCacheTime == now
                && Preferences() == Merge(old(Preferences()), file.config)
      ensures !old(CacheFresh(configCache, configCacheTime, now)) && !file.Parsed? ==> r == None && unchanged(this)
      ensures old(Valid()) ==> Valid()
    {
      if CacheFresh(configCache, configCacheTime, now) {
        return configCache;
      }
      match file {
        case Parsed(c) =>
          ApplyConfig(now, c);
          r := Some(c);
        case _ =>
          r := None;
      }
    }

    /** The options a configuration file can set. */
    function Preferences(): Config
      reads this
    {
      Config(language, useEmoji, conventionalCommit, verbose)
    }

    /** The file's configuration, cached at `now` and merged into the options. */
    method ApplyConfig(now: nat, c: Config)
      modifies this`configCache, this`configCacheTime, this`language, this`useEmoji,
               this`conventionalCommit, this`verbose
      ensures configCache == Some(c) && configCacheTime == now
      ensures Preferences() == Merge(old(Preferences()), c)
      ensures old(Valid()) ==> Valid()
    {
      var m := Merge(Preferences(), c);
      configCache, configCacheTime := Some(c), now;
      language, useEmoji, conventionalCommit, verbose := m.language, m.useEmoji, m.conventionalCommit, m.verbose;
    }

    /** `checkForChanges`: the status query's output is cached, and there
        are changes exactly when it is not blank; a failed query is an
        error and caches nothing. */
    method CheckForChanges(status: Exec) returns (r: Result<bool>)
      modifies this`gitCache, this`issued
      ensures issued == old(issued) + [StatusPorcelain]
      ensures status.Ran? ==> r == Ok(!AllWhitespace(status.stdout))
                              && gitCache == old(gitCache)[StatusKey := status.stdout]
      ensures status.Failed? ==> r == Err(CheckStatusPrefix + status.message) && gitCache == old(gitCache)
    {
      issued := issued + [StatusPorcelain];
      match status {
        case Ran(out) =>
          gitCache := gitCache[StatusKey := out];
          TrimEmptyIff(out);
          r := Ok(|Trim(out)| > 0);
        case Failed(m) =>
          r := Err(CheckStatusPrefix + m);
      }
    }

    function CachedStatus(): Option<string>
      reads this
    {
      if StatusKey in gitCache then Some(gitCache[StatusKey]) else None
    }

    /** `getGitChanges`: the status comes from the cache when
        `checkForChanges` put it there. The branch is cached once the four
        queries have answered, before the blank-status check. The summary
        is built section by section, with one stat section per non-blank
        file list, and capped. */
    method GetGitChanges(git: GitOutputs) returns (r: Result<string>)
      modifies this`gitCache, this`issued
      ensures r == GitChanges(old(CachedStatus()), git)
      ensures issued == old(issued) + GitChangesQueries(old(CachedStatus()), git)
      ensures gitCache == if FirstFailure(Batch(old(CachedStatus()), git)).None?
                          then old(gitCache)[BranchKey := git.branch.stdout] else old(gitCache)
    {
      var cached := CachedStatus();
      var statusExec := StatusFor(cached, git);
      ghost var lead: seq<GitCommand> := if cached.None? then [StatusPorcelain] else [];
      ghost var log := lead + [ShowCurrentBranch, CachedNameOnly, NameOnly];
      var failure := FirstFailure(Batch(cached, git));
      GitChangesOutcome(cached, git);
      if failure.Some? {
        issued := issued + log;
        assert GitChangesQueries(cached, git) == log + [];
        return Err(GitChangesPrefix + failure.value);
      }
      var branch := git.branch.stdout;
      gitCache := gitCache[BranchKey := branch];
      var kinds;
      r, kinds := DescribeStatus(branch, statusExec.stdout, git.stagedNames.stdout, git.unstagedNames.stdout, git);
      assert GitChangesQueries(cached, git) == log + StatCommands(kinds);
      issued := issued + (log + StatCommands(kinds));
    }

    /** `buildPrompt` with this object's options. */
    function PromptFor(changes: string): (p: string)
      reads this
      ensures EndsWith(p, ChangesSeparator + changes)
      ensures StartsWith(p, WordingFor(language).request)
    {
      BuildPrompt(language, conventionalCommit, commitType, useEmoji, changes)
    }

    /** `generateCommitMessage`: at most `maxRetries` attempts, the
        completion service answering attempt k on `PromptFor(changes)` with
        `outcomes[k - 1]`; the
        first reply wins, a failed attempt other than the last is followed
        by the backoff delay, and after the last failed attempt the error
        names the number of attempts and the last cause. */
    method GenerateCommitMessage(changes: string, outcomes: seq<Attempt>)
      returns (r: Result<string>, ghost attempts: nat, ghost delays: seq<nat>)
      requires Valid() && maxRetries <= |outcomes|
      ensures r == RetryOutcome(Results(outcomes), maxRetries)
      ensures attempts == AttemptsMade(Results(outcomes), maxRetries)
      ensures delays == BackoffSchedule(attempts - 1)
    {
      ghost var rs := Results(outcomes);
      var attempt := 1;
      var o := AttemptOutcome(outcomes[0]);
      delays := [];
      while o.Err? && attempt < maxRetries
        invariant 1 <= attempt <= maxRetries
        invariant o == rs[attempt - 1]
        invariant FirstSuccess(rs, attempt - 1).None?
        invariant delays == BackoffSchedule(attempt - 1)
      {
        delays := delays + [Backoff(attempt)];
        attempt := attempt + 1;
        o := AttemptOutcome(outcomes[attempt - 1]);
      }
      if o.Ok? {
        r := o;
      } else {
        r := Err(ExhaustedMessage(maxRetries, o.message));
      }
      attempts := attempt;
    }

    /** `createCommit`: commits with the message escaped as at line 339;
        a failure is raised with its prefix. */
    method CreateCommit(message: string, commitResult: Exec) returns (r: Result<bool>)
      modifies this`issued
      ensures issued == old(issued) + [CommitMessage(Escaping.QuoteEscape(message))]
      ensures r == if commitResult.Ran? then Ok(true) else Err(CreateCommitPrefix + commitResult.message)
    {
      issued := issued + [CommitMessage(Escaping.QuoteEscape(message))];
      if commitResult.Ran? {
        r := Ok(true);
      } else {
        r := Err(CreateCommitPrefix + commitResult.message);
      }
    }

    /** `pushChanges`: the branch cached by `getGitChanges`, trimmed, or a
        fresh branch query; then the push. Failures are reported. */
    method PushChanges(branchQuery: Exec, pushResult: Exec) returns (report: PushReport)
      modifies this`issued
      ensures BranchKey in old(gitCache) ==>
                issued == old(issued) + [PushOrigin(Trim(old(gitCache)[BranchKey]))]
                && report == (if pushResult.Ran? then Pushed(Trim(old(gitCache)[BranchKey]))
                              else PushFailed(pushResult.message))
      ensures BranchKey !in old(gitCache) && branchQuery.Failed? ==>
                issued == old(issued) + [ShowCurrentBranch] && report == PushFailed(branchQuery.message)
      ensures BranchKey !in old(gitCache) && branchQuery.Ran? ==>
                issued == old(issued) + [ShowCurrentBranch, PushOrigin(Trim(branchQuery.stdout))]
                && report == (if pushResult.Ran? then Pushed(Trim(branchQuery.stdout))
                              else PushFailed(pushResult.message))
    {
      var currentBranch: string;
      if BranchKey in gitCache {
        currentBranch := Trim(gitCache[BranchKey]);
      } else {
        issued := issued + [ShowCurrentBranch];
        if branchQuery.Failed? {
          return PushFailed(branchQuery.message);
        }
        currentBranch := Trim(branchQuery.stdout);
      }
      issued := issued + [PushOrigin(currentBranch)];
      if pushResult.Ran? {
        report := Pushed(currentBranch);
      } else {
        report := PushFailed(pushResult.message);
      }
    }
  }

  /** The git steps of `run()` in order: `checkForChanges`, then, when
      there are changes, `getGitChanges`; a dry run stops there; otherwise
      `createCommit` with the given message and, once it succeeded,
      `pushChanges` only when the push option is set. The status is queried
      once and the branch once, and the push goes to the trimmed branch of
      that one query. A clean repository ends the sequence with `Ok("")`. */
  method CheckDescribeCommitPush(a: ClaudeAutoCommit, git: GitOutputs, message: string,
                                 commitResult: Exec, pushResult: Exec)
    returns (changes: Result<string>, committed: Option<Result<bool>>, report: Option<PushReport>)
    requires a.gitCache == map[]
    modifies a`gitCache, a`issued
    ensures changes.Err? || (git.status.Ran? && AllWhitespace(git.status.stdout)) ==>
              committed == None && report == None
    ensures report.Some? ==> a.push && !a.dryRun && committed == Some(Ok(true))
    ensures git.status.Failed? ==>
              && changes == Err(CheckStatusPrefix + git.status.message)
              && a.issued == old(a.issued) + [StatusPorcelain] && a.gitCache == map[]
    ensures git.status.Ran? && AllWhitespace(git.status.stdout) ==>
              && changes == Ok("")
              && a.issued == old(a.issued) + [StatusPorcelain]
              && a.gitCache == map[StatusKey := git.status.stdout]
    ensures git.status.Ran? && !AllWhitespace(git.status.stdout) && FirstFailure(Batch(None, git)).Some? ==>
              && changes == Err(GitChangesPrefix + FirstFailure(Batch(None, git)).value)
              && a.issued == old(a.issued) + [StatusPorcelain] + GitChangesQueries(Some(git.status.stdout), git)
              && a.gitCache == map[StatusKey := git.status.stdout]
    ensures git.status.Ran? && !AllWhitespace(git.status.stdout) && FirstFailure(Batch(None, git)).None? ==>
              && changes == GitChanges(Some(git.status.stdout), git)
              && committed == (if a.dryRun then None
                               else Some(if commitResult.Ran? then Ok(true)
                                         else Err(CreateCommitPrefix + commitResult.message)))
    ensures git.status.Ran? && !AllWhitespace(git.status.stdout) && FirstFailure(Batch(None, git)).None? ==>
              report == (if !a.dryRun && commitResult.Ran? && a.push
                         then Some(if pushResult.Ran? then Pushed(Trim(git.branch.stdout))
                                   else PushFailed(pushResult.message))
                         else None)
    ensures git.status.Ran? && !AllWhitespace(git.status.stdout) && FirstFailure(Batch(None, git)).None? ==>
              a.issued == old(a.issued) + [StatusPorcelain] + GitChangesQueries(Some(git.status.stdout), git)
                          + (if a.dryRun then [] else [CommitMessage(Escaping.QuoteEscape(message))])
                          + (if report.Some? then [PushOrigin(Trim(git.branch.stdout))] else [])
              && a.gitCache == map[StatusKey := git.status.stdout, BranchKey := git.branch.stdout]
  {
    committed, report := None, None;
    var has := a.CheckForChanges(git.status);
    if has != Ok(true) {
      changes := if has.Err? then Err(has.message) else Ok("");
      return;
    }
    assert a.CachedStatus() == Some(git.status.stdout);
    ghost var checked := a.issued;
    changes := a.GetGitChanges(git);
    ghost var described := a.issued;
    assert described == checked + GitChangesQueries(Some(git.status.stdout), git);
    if changes.Err? || a.dryRun {
      return;
    }
    var c := a.CreateCommit(message, commitResult);
    committed := Some(c);
    if c.Err? || !a.push {
      return;
    }
    assert a.gitCache[BranchKey] == git.branch.stdout;
    var branchQuery := git.branch;
    var pushed := a.PushChanges(branchQuery, pushResult);
    report := Some(pushed);
  }
}
