/** The command line: the options `parseArgs` collects and what it decides
    to do. An option that is absent (or falsy) is "", false or 0. */
module Cli {

  /** The options the constructor accepts. Only some of them have a command
      line flag; `maxRetries` and `timeout` are set only by a caller that
      constructs the class directly. */
  datatype Options = Options(
    language: string,
    useEmoji: bool,
    conventionalCommit: bool,
    commitType: string,
    dryRun: bool,
    verbose: bool,
    push: bool,
    templateName: string,
    maxRetries: nat,
    timeout: nat)

  const NoOptions: Options := Options("", false, false, "", false, false, false, "", 0, 0)

  /** What the command line asks for: a run with these options, or one of
      the listings that end the program (the help and version texts, the
      template listing). */
  datatype Command = RunWith(options: Options) | ListTemplates | ShowVersion | ShowHelp

  /** `args[i]`, where JavaScript gives `undefined`, a falsy value, past the
      end. */
  function ArgAt(args: seq<string>, i: nat): string
  {
    if i < |args| then args[i] else ""
  }

  /** The cases of the `switch` in `parseArgs`; `Positional` is every
      argument that matches none of them. */
  datatype Flag =
    | LanguageFlag | EmojiFlag | ConventionalFlag | TypeFlag | DryRunFlag | VerboseFlag | PushFlag
    | TemplateFlag | SaveTemplateFlag | ListTemplatesFlag | VersionFlag | HelpFlag | Positional

  function Classify(a: string): Flag
  {
    if a == "-l" || a == "--language" then LanguageFlag
    else if a == "-e" || a == "--emoji" then EmojiFlag
    else if a == "-c" || a == "--conventional" then ConventionalFlag
    else if a == "-t" || a == "--type" then TypeFlag
    else if a == "-d" || a == "--dry-run" then DryRunFlag
    else if a == "-v" || a == "--verbose" then VerboseFlag
    else if a == "-p" || a == "--push" then PushFlag
    else if a == "--template" then TemplateFlag
    else if a == "--save-template" then SaveTemplateFlag
    else if a == "--list-templates" then ListTemplatesFlag
    else if a == "--version" then VersionFlag
    else if a == "-h" || a == "--help" then HelpFlag
    else Positional
  }

  /** The effect of the arguments from index `i` on, given the options
      collected before it. A flag with a value takes the next argument,
      whatever it is; `--save-template` takes none; an argument that is not a
      flag is skipped. */
  function ParseFrom(args: seq<string>, i: nat, o: Options): Command
    decreases |args| - i
  {
    if i >= |args| then RunWith(o)
    else
      match Classify(args[i])
      case LanguageFlag => ParseFrom(args, i + 2, o.(language := ArgAt(args, i + 1)))
      case EmojiFlag => ParseFrom(args, i + 1, o.(useEmoji := true))
      case ConventionalFlag => ParseFrom(args, i + 1, o.(conventionalCommit := true))
      case TypeFlag => ParseFrom(args, i + 2, o.(commitType := ArgAt(args, i + 1), conventionalCommit := true))
      case DryRunFlag => ParseFrom(args, i + 1, o.(dryRun := true))
      case VerboseFlag => ParseFrom(args, i + 1, o.(verbose := true))
      case PushFlag => ParseFrom(args, i + 1, o.(push := true))
      case TemplateFlag => ParseFrom(args, i + 2, o.(templateName := ArgAt(args, i + 1)))
      case SaveTemplateFlag => ParseFrom(args, i + 1, o)
      case ListTemplatesFlag => ListTemplates
      case VersionFlag => ShowVersion
      case HelpFlag => ShowHelp
      case Positional => ParseFrom(args, i + 1, o)
  }

  /** `parseArgs`: one pass over the arguments, advancing past a flag's
      value inside the loop body, as the source does with `args[++i]`. */
  method ParseArgs(args: seq<string>) returns (c: Command)
    ensures c == ParseFrom(args, 0, NoOptions)
  {
    var o := NoOptions;
    var i := 0;
    while i < |args|
      invariant 0 <= i <= |args| + 1
      invariant ParseFrom(args, i, o) == ParseFrom(args, 0, NoOptions)
      decreases |args| - i
    {
      match Classify(args[i]) {
        case LanguageFlag =>
          i := i + 1;
          o := o.(language := ArgAt(args, i));
        case EmojiFlag =>
          o := o.(useEmoji := true);
        case ConventionalFlag =>
          o := o.(conventionalCommit := true);
        case TypeFlag =>
          i := i + 1;
          o := o.(commitType := ArgAt(args, i));
          o := o.(conventionalCommit := true);
        case DryRunFlag =>
          o := o.(dryRun := true);
        case VerboseFlag =>
          o := o.(verbose := true);
        case PushFlag =>
          o := o.(push := true);
        case TemplateFlag =>
          i := i + 1;
          o := o.(templateName := ArgAt(args, i));
        case SaveTemplateFlag =>
        case ListTemplatesFlag =>
          return ListTemplates;
        case VersionFlag =>
          return ShowVersion;
        case HelpFlag =>
          return ShowHelp;
        case Positional =>
      }
      i := i + 1;
    }
    c := RunWith(o);
  }

  /** The options parsed so far are consistent when a commit type comes with
      the conventional format. */
  predicate TypeImpliesConventional(o: Options)
  {
    o.commitType != "" ==> o.conventionalCommit
  }

  /** `-t` turns the conventional format on: whatever follows, a run that
      has a commit type also has the conventional format, which once on
      stays on. */
  lemma {:induction false} ParseKeepsConsistency(args: seq<string>, i: nat, o: Options)
    requires TypeImpliesConventional(o)
    ensures var c := ParseFrom(args, i, o);
            c.RunWith? ==> TypeImpliesConventional(c.options) && (o.conventionalCommit ==> c.options.conventionalCommit)
    decreases |args| - i
  {
    if i < |args| {
      match Classify(args[i])
      case LanguageFlag => ParseKeepsConsistency(args, i + 2, o.(language := ArgAt(args, i + 1)));
      case EmojiFlag => ParseKeepsConsistency(args, i + 1, o.(useEmoji := true));
      case ConventionalFlag => ParseKeepsConsistency(args, i + 1, o.(conventionalCommit := true));
      case TypeFlag =>
        ParseKeepsConsistency(args, i + 2, o.(commitType := ArgAt(args, i + 1), conventionalCommit := true));
      case DryRunFlag => ParseKeepsConsistency(args, i + 1, o.(dryRun := true));
      case VerboseFlag => ParseKeepsConsistency(args, i + 1, o.(verbose := true));
      case PushFlag => ParseKeepsConsistency(args, i + 1, o.(push := true));
      case TemplateFlag => ParseKeepsConsistency(args, i + 2, o.(templateName := ArgAt(args, i + 1)));
      case SaveTemplateFlag => ParseKeepsConsistency(args, i + 1, o);
      case Positional => ParseKeepsConsistency(args, i + 1, o);
      case _ =>
    }
  }

  /** The boolean flags once given stay given: no later argument turns
      emoji, dry run or push off. */
  lemma {:induction false} FlagsStayGiven(args: seq<string>, i: nat, o: Options)
    ensures var c := ParseFrom(args, i, o);
            c.RunWith? ==> (o.useEmoji ==> c.options.useEmoji) && (o.dryRun ==> c.options.dryRun)
                           && (o.push ==> c.options.push) && (o.verbose ==> c.options.verbose)
    decreases |args| - i
  {
    if i < |args| {
      match Classify(args[i])
      case LanguageFlag => FlagsStayGiven(args, i + 2, o.(language := ArgAt(args, i + 1)));
      case EmojiFlag => FlagsStayGiven(args, i + 1, o.(useEmoji := true));
      case ConventionalFlag => FlagsStayGiven(args, i + 1, o.(conventionalCommit := true));
      case TypeFlag => FlagsStayGiven(args, i + 2, o.(commitType := ArgAt(args, i + 1), conventionalCommit := true));
      case DryRunFlag => FlagsStayGiven(args, i + 1, o.(dryRun := true));
      case VerboseFlag => FlagsStayGiven(args, i + 1, o.(verbose := true));
      case PushFlag => FlagsStayGiven(args, i + 1, o.(push := true));
      case TemplateFlag => FlagsStayGiven(args, i + 2, o.(templateName := ArgAt(args, i + 1)));
      case SaveTemplateFlag => FlagsStayGiven(args, i + 1, o);
      case Positional => FlagsStayGiven(args, i + 1, o);
      case _ =>
    }
  }

  /** A run whose command line has a commit type uses the conventional
      format, and one started with `-t` or `--type` always does. */
  lemma TypeFlagImpliesConventional(args: seq<string>)
    ensures var c := ParseFrom(args, 0, NoOptions);
            c.RunWith? ==> TypeImpliesConventional(c.options)
    ensures |args| > 0 && (args[0] == "-t" || args[0] == "--type") && ParseFrom(args, 0, NoOptions).RunWith?
            ==> ParseFrom(args, 0, NoOptions).options.conventionalCommit
  {
    ParseKeepsConsistency(args, 0, NoOptions);
    if |args| > 0 && (args[0] == "-t" || args[0] == "--type") {
      ParseKeepsConsistency(args, 2, NoOptions.(commitType := ArgAt(args, 1), conventionalCommit := true));
    }
  }

  /** A value flag takes the next argument as its value whatever that
      argument is, flags included, and parsing resumes after it; a value
      flag at the end sets its option to the absent value, even one given
      earlier, and ends the parse. */
  lemma ValueTakesNextArgument(args: seq<string>, i: nat, o: Options)
    requires i < |args|
    ensures Classify(args[i]) == LanguageFlag && i + 1 < |args| ==>
              ParseFrom(args, i, o) == ParseFrom(args, i + 2, o.(language := args[i + 1]))
    ensures Classify(args[i]) == TypeFlag && i + 1 < |args| ==>
              ParseFrom(args, i, o) == ParseFrom(args, i + 2, o.(commitType := args[i + 1], conventionalCommit := true))
    ensures Classify(args[i]) == TemplateFlag && i + 1 < |args| ==>
              ParseFrom(args, i, o) == ParseFrom(args, i + 2, o.(templateName := args[i + 1]))
    ensures Classify(args[i]) == LanguageFlag && i + 1 == |args| ==>
              ParseFrom(args, i, o) == RunWith(o.(language := ""))
    ensures Classify(args[i]) == TypeFlag && i + 1 == |args| ==>
              ParseFrom(args, i, o) == RunWith(o.(commitType := "", conventionalCommit := true))
    ensures Classify(args[i]) == TemplateFlag && i + 1 == |args| ==>
              ParseFrom(args, i, o) == RunWith(o.(templateName := ""))
  {
  }

  /** Two instances: `-l -e` sets the language to "-e" and no emoji, and a
      lone `-t` sets no commit type but still the conventional format. */
  lemma FlagAsValue()
    ensures ParseFrom(["-l", "-e"], 0, NoOptions) == RunWith(NoOptions.(language := "-e"))
    ensures ParseFrom(["-t"], 0, NoOptions) == RunWith(NoOptions.(conventionalCommit := true))
  {
    ValueTakesNextArgument(["-l", "-e"], 0, NoOptions);
  }

  /** An argument that is not a flag, like the name after `--save-template`,
      changes nothing. */
  lemma {:induction false} NonFlagIgnored(args: seq<string>, i: nat, o: Options)
    requires i < |args| && Classify(args[i]) in {Positional, SaveTemplateFlag}
    ensures ParseFrom(args, i, o) == ParseFrom(args, i + 1, o)
  {
  }
}
