/** `buildPrompt`: the request sent to the completion service. It is a
    sequence of instruction sentences, the same structure in both
    languages, rendered in the Japanese or the English wording, followed by
    the change summary. */
module Prompt {
  import opened JsString

  const ChangesSeparator: string := "\n\nChanges:\n"

  /** The instruction sentences `buildPrompt` may append. */
  datatype Sentence =
    | Request                   // a commit message for the changes below
    | ConventionalFormat        // use Conventional Commits, with the example tags
    | CommitType(name: string)  // use this commit type
    | Emoji                     // include emojis
    | OutputOnly                // output only the message

  /** The words of one template: each fixed sentence, and the text around
      the commit type in the commit-type sentence. */
  datatype Wording = Wording(
    request: string,
    conventional: string,
    typeBefore: string,
    typeAfter: string,
    emoji: string,
    outputOnly: string)

  const EnRequest: string := "Generate an appropriate git commit message based on the following changes."
  const EnConventional: string := " Use Conventional Commits format (e.g., feat:, fix:, docs:, style:, refactor:, test:, chore:)."
  const EnTypeBefore: string := " Use \""
  const EnTypeAfter: string := "\" as the commit type."
  const EnEmoji: string := " Include appropriate emojis."
  const EnOutputOnly: string := " Output only the commit message. No explanation or additional text needed."

  const JaRequest: string := "以下のGit変更内容に基づいて、適切なコミットメッセージを生成してください。"
  const JaConventional: string := " Conventional Commits形式（例：feat:, fix:, docs:, style:, refactor:, test:, chore:）を使用してください。"
  const JaTypeBefore: string := " コミットタイプは \""
  const JaTypeAfter: string := "\" を使用してください。"
  const JaEmoji: string := " 適切な絵文字を含めてください。"
  const JaOutputOnly: string := " コミットメッセージのみを出力してください。説明や追加のテキストは不要です。"

  const English: Wording :=
    Wording(EnRequest, EnConventional, EnTypeBefore, EnTypeAfter, EnEmoji, EnOutputOnly)

  const Japanese: Wording :=
    Wording(JaRequest, JaConventional, JaTypeBefore, JaTypeAfter, JaEmoji, JaOutputOnly)

  /** Only `"ja"` selects the Japanese template; any other value, including
      an unknown one, selects English. */
  function WordingFor(language: string): Wording
  {
    if language == "ja" then Japanese else English
  }

  function Text(s: Sentence, w: Wording): string
  {
    match s
    case Request => w.request
    case ConventionalFormat => w.conventional
    case CommitType(name) => w.typeBefore + name + w.typeAfter
    case Emoji => w.emoji
    case OutputOnly => w.outputOnly
  }

  /** The sentences in the order they are appended. The conventional-format
      request is there exactly with `conventionalCommit`; a commit-type
      sentence exactly with it and a non-empty `commitType`, naming that
      type; the emoji request exactly with `useEmoji`; the request opens and
      the output-only instruction closes. */
  function Sentences(conventionalCommit: bool, commitType: string, useEmoji: bool): (ss: seq<Sentence>)
    ensures |ss| >= 2 && ss[0] == Request && ss[|ss| - 1] == OutputOnly
    ensures ConventionalFormat in ss <==> conventionalCommit
    ensures forall name :: CommitType(name) in ss <==> conventionalCommit && commitType != "" && name == commitType
    ensures Emoji in ss <==> useEmoji
  {
    [Request]
    + (if conventionalCommit
       then [ConventionalFormat] + (if commitType != "" then [CommitType(commitType)] else [])
       else [])
    + (if useEmoji then [Emoji] else [])
    + [OutputOnly]
  }

  function Render(ss: seq<Sentence>, w: Wording): string
  {
    if ss == [] then "" else Text(ss[0], w) + Render(ss[1..], w)
  }

  /** The prompt for any wording: the rendered sentences, the separator, then
      the change summary verbatim. */
  function PromptIn(w: Wording, conventionalCommit: bool, commitType: string, useEmoji: bool,
                    changes: string): (p: string)
    ensures EndsWith(p, ChangesSeparator + changes)
    ensures StartsWith(p, w.request)
  {
    var body := Render(Sentences(conventionalCommit, commitType, useEmoji), w);
    RenderStartsWithRequest(conventionalCommit, commitType, useEmoji, w);
    FollowedByChanges(body, w.request, changes);
    body + ChangesSeparator + changes
  }

  /** The rendered sentences open with the request. */
  lemma RenderStartsWithRequest(conventionalCommit: bool, commitType: string, useEmoji: bool, w: Wording)
    ensures StartsWith(Render(Sentences(conventionalCommit, commitType, useEmoji), w), w.request)
  {
    var ss := Sentences(conventionalCommit, commitType, useEmoji);
    StartsWithConcat(Text(ss[0], w), Render(ss[1..], w));
  }

  /** Appending the separator and the changes keeps the start and puts the
      changes at the end. */
  lemma FollowedByChanges(body: string, first: string, changes: string)
    requires StartsWith(body, first)
    ensures StartsWith(body + ChangesSeparator + changes, first)
    ensures EndsWith(body + ChangesSeparator + changes, ChangesSeparator + changes)
  {
    StartsWithExtend(body, ChangesSeparator, first);
    StartsWithExtend(body + ChangesSeparator, changes, first);
    EndsWithConcat(body, ChangesSeparator + changes);
  }

  /** `buildPrompt`: the prompt in the template `language` selects. */
  function BuildPrompt(language: string, conventionalCommit: bool, commitType: string, useEmoji: bool,
                       changes: string): (p: string)
    ensures EndsWith(p, ChangesSeparator + changes)
    ensures StartsWith(p, WordingFor(language).request)
  {
    PromptIn(WordingFor(language), conventionalCommit, commitType, useEmoji, changes)
  }

  /** The two requests differ within the shorter one. */
  lemma RequestsDiffer()
    ensures |EnRequest| == 74 && |JaRequest| == 38 && EnRequest[36] == 'e' && JaRequest[36] == 'い'
  {
  }

  /** Only `"ja"` gives the Japanese prompt: a prompt opens with the Japanese
      request exactly when the language is `"ja"`, and with the English one
      exactly when it is anything else. */
  lemma LanguageSelectsTemplate(language: string, conventionalCommit: bool, commitType: string, useEmoji: bool,
                                changes: string)
    ensures var p := BuildPrompt(language, conventionalCommit, commitType, useEmoji, changes);
            (StartsWith(p, JaRequest) <==> language == "ja") && (StartsWith(p, EnRequest) <==> language != "ja")
  {
    var p := BuildPrompt(language, conventionalCommit, commitType, useEmoji, changes);
    RequestsDiffer();
  }

  /** Where each sentence sits: the conventional request second, the type
      sentence right after it, the emoji request just before the closing
      instruction; the count of sentences follows from the three options. */
  lemma SentenceOrder(conventionalCommit: bool, commitType: string, useEmoji: bool)
    ensures var ss := Sentences(conventionalCommit, commitType, useEmoji);
            && |ss| == 2 + (if conventionalCommit then 1 else 0)
                         + (if conventionalCommit && commitType != "" then 1 else 0)
                         + (if useEmoji then 1 else 0)
            && (conventionalCommit ==> ss[1] == ConventionalFormat)
            && (conventionalCommit && commitType != "" ==> ss[2] == CommitType(commitType))
            && (useEmoji ==> ss[|ss| - 2] == Emoji)
  {
  }

  /** A wording whose sentences can be told apart: the fixed sentences are
      pairwise different and none of them ends the way the commit-type
      sentence does. */
  predicate Distinct(w: Wording)
  {
    && w.request != w.conventional && w.request != w.emoji && w.request != w.outputOnly
    && w.conventional != w.emoji && w.conventional != w.outputOnly && w.emoji != w.outputOnly
    && !EndsWith(w.request, w.typeAfter) && !EndsWith(w.conventional, w.typeAfter)
    && !EndsWith(w.emoji, w.typeAfter) && !EndsWith(w.outputOnly, w.typeAfter)
  }

  lemma NotEndsWithAt(s: string, suffix: string, k: nat)
    requires 1 <= k <= |suffix| && k <= |s| && s[|s| - k] != suffix[|suffix| - k]
    ensures !EndsWith(s, suffix)
  {
  }

  lemma DifferAt(x: string, y: string, k: nat)
    requires 1 <= k <= |x| && k <= |y| && x[|x| - k] != y[|y| - k]
    ensures x != y
  {
  }

  // The characters near the end of each template sentence that tell them apart.

  lemma EnglishEnds()
    ensures |EnRequest| == 74 && EnRequest[72] == 's'
    ensures |EnConventional| == 94 && EnConventional[92] == ')'
    ensures |EnTypeAfter| == 21 && EnTypeAfter[19] == 'e'
    ensures |EnEmoji| == 28 && EnEmoji[26] == 's'
    ensures |EnOutputOnly| == 74 && EnOutputOnly[72] == 'd'
  {
  }

  lemma JapaneseEnds()
    ensures |JaRequest| == 38 && JaRequest[30] == '成' && JaRequest[36] == 'い'
    ensures |JaConventional| == 89 && JaConventional[78] == '）'
    ensures |JaTypeAfter| == 12 && JaTypeAfter[1] == ' ' && JaTypeAfter[4] == '用'
                                && JaTypeAfter[5] == 'し' && JaTypeAfter[10] == 'い'
    ensures |JaEmoji| == 16 && JaEmoji[9] == 'め'
    ensures |JaOutputOnly| == 38 && JaOutputOnly[36] == 'す'
  {
  }

  lemma EnglishSentencesDiffer()
    ensures EnRequest != EnConventional && EnRequest != EnEmoji && EnRequest != EnOutputOnly
    ensures EnConventional != EnEmoji && EnConventional != EnOutputOnly && EnEmoji != EnOutputOnly
  {
    EnglishEnds();
    DifferAt(EnRequest, EnOutputOnly, 2);
  }

  lemma EnglishTypeEndingUnique()
    ensures !EndsWith(EnRequest, EnTypeAfter) && !EndsWith(EnConventional, EnTypeAfter)
    ensures !EndsWith(EnEmoji, EnTypeAfter) && !EndsWith(EnOutputOnly, EnTypeAfter)
  {
    EnglishEnds();
    NotEndsWithAt(EnRequest, EnTypeAfter, 2);
    NotEndsWithAt(EnConventional, EnTypeAfter, 2);
    NotEndsWithAt(EnEmoji, EnTypeAfter, 2);
    NotEndsWithAt(EnOutputOnly, EnTypeAfter, 2);
  }

  lemma EnglishDistinct()
    ensures Distinct(English)
  {
    EnglishSentencesDiffer();
    EnglishTypeEndingUnique();
  }

  lemma JapaneseSentencesDiffer()
    ensures JaRequest != JaConventional && JaRequest != JaEmoji && JaRequest != JaOutputOnly
    ensures JaConventional != JaEmoji && JaConventional != JaOutputOnly && JaEmoji != JaOutputOnly
  {
    JapaneseEnds();
    DifferAt(JaRequest, JaOutputOnly, 2);
  }

  lemma JapaneseTypeEndingUnique()
    ensures !EndsWith(JaRequest, JaTypeAfter) && !EndsWith(JaConventional, JaTypeAfter)
    ensures !EndsWith(JaEmoji, JaTypeAfter) && !EndsWith(JaOutputOnly, JaTypeAfter)
  {
    JapaneseEnds();
    NotEndsWithAt(JaRequest, JaTypeAfter, 8);
    NotEndsWithAt(JaConventional, JaTypeAfter, 11);
    NotEndsWithAt(JaEmoji, JaTypeAfter, 7);
    NotEndsWithAt(JaOutputOnly, JaTypeAfter, 2);
  }

  lemma JapaneseDistinct()
    ensures Distinct(Japanese)
  {
    JapaneseSentencesDiffer();
    JapaneseTypeEndingUnique();
  }

  /** In a wording whose sentences can be told apart, different sentences
      have different words, so which sentences are present is a fact about
      the text itself. */
  lemma TextInjective(a: Sentence, b: Sentence, w: Wording)
    requires Distinct(w) && Text(a, w) == Text(b, w)
    ensures a == b
  {
    if a.CommitType? && b.CommitType? {
      MiddleOfConcat(w.typeBefore, a.name, w.typeAfter);
      MiddleOfConcat(w.typeBefore, b.name, w.typeAfter);
    } else if a.CommitType? || b.CommitType? {
      var t := if a.CommitType? then a else b;
      EndsWithConcat(w.typeBefore + t.name, w.typeAfter);
    }
  }

  /** Both templates of the source can be told apart. */
  lemma TemplatesDistinct(language: string)
    ensures Distinct(WordingFor(language))
  {
    EnglishDistinct();
    JapaneseDistinct();
  }

  /** The words of every sentence of a sequence occur in its rendering. */
  lemma {:induction false} SentenceInRender(ss: seq<Sentence>, w: Wording, k: nat)
    requires k < |ss|
    ensures Contains(Render(ss, w), Text(ss[k], w))
  {
    if k == 0 {
      ContainsItself(Text(ss[0], w));
      ContainsInLeft(Text(ss[0], w), Render(ss[1..], w), Text(ss[0], w));
    } else {
      SentenceInRender(ss[1..], w, k - 1);
      ContainsInRight(Text(ss[0], w), Render(ss[1..], w), Text(ss[k], w));
    }
  }

  /** The words of every selected sentence occur in the prompt. */
  lemma SentenceInPrompt(w: Wording, conventionalCommit: bool, commitType: string, useEmoji: bool,
                         changes: string, s: Sentence)
    requires s in Sentences(conventionalCommit, commitType, useEmoji)
    ensures Contains(PromptIn(w, conventionalCommit, commitType, useEmoji, changes), Text(s, w))
  {
    var ss := Sentences(conventionalCommit, commitType, useEmoji);
    var k :| 0 <= k < |ss| && ss[k] == s;
    SentenceInRender(ss, w, k);
    ContainsInLeft(Render(ss, w), ChangesSeparator, Text(s, w));
    ContainsInLeft(Render(ss, w) + ChangesSeparator, changes, Text(s, w));
  }

  lemma FixSentence()
    ensures EnTypeBefore + "fix" + EnTypeAfter == " Use \"fix\" as the commit type."
  {
  }

  /** English, conventional format, type "fix", no emoji: the prompt asks for
      the "fix" type and carries no emoji request. */
  lemma FixTypeScenario(changes: string)
    ensures Contains(BuildPrompt("en", true, "fix", false, changes), " Use \"fix\" as the commit type.")
    ensures Emoji !in Sentences(true, "fix", false)
  {
    assert BuildPrompt("en", true, "fix", false, changes) == PromptIn(English, true, "fix", false, changes);
    SentenceInPrompt(English, true, "fix", false, changes, CommitType("fix"));
    FixSentence();
  }
}
