/** services/llm.py: the system prompt and the two-message conversation
    sent to the language model. The client call itself is outside the
    model; `search_fn` is an optional function parameter. */
module Llm {
  import opened Common
  import opened PyText

  /** Python truthiness of an optional string: `None` and `""` are false. */
  predicate Truthy(text: Option<string>) {
    text.Some? && text.value != ""
  }

  // ---------------------------------------------------------------------
  // build_system_prompt
  // ---------------------------------------------------------------------

  const Instructions :=
    "You are ScholarDigestAI, tasked with summarizing and explaining academic papers. "
    + "Your goal is to be as clear as possible while matching the user\U{2019}s technical level. "
    + "Avoid excessive jargon and provide context to help with understanding."

  const LevelLabel := "\nTechnical Level: "
  const RelevantTextLabel := "Here is some relevant text:\n"

  /** Everything the prompt holds before the background. */
  function PromptHeader(technicalLevel: string): string {
    Instructions + LevelLabel + technicalLevel + "\n\n"
  }

  function PromptBackground(articleText: Option<string>): (background: string)
    ensures background == "" <==> !Truthy(articleText)
  {
    if Truthy(articleText) then RelevantTextLabel + articleText.value else ""
  }

  /** `build_system_prompt`: the fixed instructions, the technical level, then
      the article text behind its label when there is any. */
  function BuildSystemPrompt(technicalLevel: string := "high school",
                             articleText: Option<string> := None): (prompt: string)
    ensures StartsWith(prompt, PromptHeader(technicalLevel))
    ensures var rest := prompt[|PromptHeader(technicalLevel)|..];
      && (rest == "" <==> !Truthy(articleText))
      && (Truthy(articleText) ==> rest == RelevantTextLabel + articleText.value)
  {
    var header := PromptHeader(technicalLevel);
    var prompt := header + PromptBackground(articleText);
    assert prompt[..|header|] == header;
    assert prompt[|header|..] == PromptBackground(articleText);
    prompt
  }

  /** The background determines the article text, for any text that counts. */
  lemma PromptBackgroundInjective(a: Option<string>, b: Option<string>)
    requires PromptBackground(a) == PromptBackground(b)
    ensures Truthy(a) <==> Truthy(b)
    ensures Truthy(a) ==> a == b
  {
    if Truthy(a) && Truthy(b) {
      var pa, pb := PromptBackground(a), PromptBackground(b);
      assert a.value == pa[|RelevantTextLabel|..] == pb[|RelevantTextLabel|..] == b.value;
    }
  }

  /** In `lead + line + rest` with `rest` starting with a newline, the first
      newline after `lead` is the one that ends `line`. */
  lemma LineEnds(lead: string, line: string, rest: string)
    requires '\n' !in line && rest != [] && rest[0] == '\n'
    ensures var s := lead + line + rest;
      s[|lead| + |line|] == '\n' && forall k :: |lead| <= k < |lead| + |line| ==> s[k] != '\n'
  {
    var s := lead + line + rest;
    forall k | |lead| <= k < |lead| + |line| ensures s[k] != '\n' {
      assert s[k] == line[k - |lead|];
    }
  }

  /** Two strings that agree after a common `lead` and each continue with a
      line and a newline agree on that line. */
  lemma {:induction false} SameFirstLine(lead: string, x: string, r1: string, y: string, r2: string)
    requires '\n' !in x && '\n' !in y
    requires r1 != [] && r1[0] == '\n' && r2 != [] && r2[0] == '\n'
    requires lead + x + r1 == lead + y + r2
    ensures x == y && r1 == r2
  {
    var s := lead + x + r1;
    LineEnds(lead, x, r1);
    LineEnds(lead, y, r2);
    assert |x| == |y|;
    assert x == s[|lead|..|lead| + |x|] == y;
    assert r1 == s[|lead| + |x|..] == r2;
  }

  /** Regrouping a five-part concatenation, stated on variables so that the
      long literal constants of the prompt are not unfolded. */
  lemma Regroup(a: string, b: string, c: string, d: string, e: string)
    ensures a + b + c + d + e == (a + b) + c + (d + e)
  {
  }

  /** Moving the first character of `lead` out of the parenthesis, stated
      on variables for the same reason. */
  lemma SplitLead(q: string, lead: string, mid: string, end: string)
    requires lead != []
    ensures q + (lead + mid + end) == q + [lead[0]] + (lead[1..] + mid + end)
  {
    assert lead == [lead[0]] + lead[1..];
  }

  /** In `line + "\n" + rest` with a one-line `rest`, the newline after
      `line` is the last one. */
  lemma LineStarts(line: string, rest: string)
    requires '\n' !in rest
    ensures var s := line + "\n" + rest;
      s[|line|] == '\n' && forall k :: |line| < k < |s| ==> s[k] != '\n'
  {
    var s := line + "\n" + rest;
    forall k | |line| < k < |s| ensures s[k] != '\n' {
      assert s[k] == rest[k - |line| - 1];
    }
  }

  /** Two strings that each end with a newline and a last line agree on
      what precedes that newline and on the last line. */
  lemma {:induction false} SameLastLine(x: string, t1: string, y: string, t2: string)
    requires '\n' !in t1 && '\n' !in t2
    requires x + "\n" + t1 == y + "\n" + t2
    ensures x == y && t1 == t2
  {
    var s := x + "\n" + t1;
    LineStarts(x, t1);
    LineStarts(y, t2);
    assert |x| == |y|;
    assert x == s[..|x|] == y;
    assert t1 == s[|x| + 1..] == t2;
  }

  /** When technical levels are one line each (as the level choices of the
      app are), the prompt determines both the level and the article text. */
  lemma {:induction false} PromptDeterminesInputs(level: string, level': string, a: Option<string>, b: Option<string>)
    requires '\n' !in level && '\n' !in level'
    requires BuildSystemPrompt(level, a) == BuildSystemPrompt(level', b)
    ensures level == level'
    ensures Truthy(a) <==> Truthy(b)
    ensures Truthy(a) ==> a == b
  {
    var lead := Instructions + LevelLabel;
    var r1 := "\n\n" + PromptBackground(a);
    var r2 := "\n\n" + PromptBackground(b);
    Regroup(Instructions, LevelLabel, level, "\n\n", PromptBackground(a));
    Regroup(Instructions, LevelLabel, level', "\n\n", PromptBackground(b));
    SameFirstLine(lead, level, r1, level', r2);
    assert PromptBackground(a) == r1[2..] == r2[2..] == PromptBackground(b);
    PromptBackgroundInjective(a, b);
  }

  // ---------------------------------------------------------------------
  // explain_paper
  // ---------------------------------------------------------------------

  const ArticleTextLabel := "Here is the article text: "
  const SectionsLabel :=
    "Here is the relevant section of the paper you can use to answer the question (where applicable):\n"
  const SummaryInstructions :=
    "You are a ScholarDigestAI tasked with summarising an academic paper. "
    + "Your goal is to summarize and explain the answer in a clear and concise manner, "
    + "minimizing the use of technical terms where possible. Provide context to assist in understanding "
    + "rather than just repeating the text.\n"

  /** The background of `explain_paper`: the article text when there is
      any; otherwise what `search_fn` finds for the question, or "" without
      a `search_fn`, behind a fixed lead-in. */
  function ExplainBackground(question: string, articleText: Option<string>,
                             searchFn: Option<string -> string>): (background: string)
    ensures Truthy(articleText) ==> background == ArticleTextLabel + articleText.value
    ensures !Truthy(articleText) && searchFn.Some? ==> background == SectionsLabel + searchFn.value(question)
    ensures !Truthy(articleText) && searchFn.None? ==> background == SectionsLabel
  {
    if Truthy(articleText) then ArticleTextLabel + articleText.value
    else
      var relevantSections := if searchFn.Some? then searchFn.value(question) else "";
      SectionsLabel + relevantSections
  }

  datatype Message = Message(role: string, content: string)

  const AnswerLevelLead := "\nPlease give your answer at a "
  const AnswerLevelEnd := " level."

  /** The conversation of `explain_paper`: a system message with the
      summary instructions and the background, then the user's question
      with the requested level. */
  function ExplainConversation(question: string, technicalLevel: string, articleText: Option<string>,
                               searchFn: Option<string -> string>): (conversation: seq<Message>)
    ensures |conversation| == 2
    ensures conversation[0].role == "system" && conversation[1].role == "user"
    ensures StartsWith(conversation[0].content, SummaryInstructions)
    ensures conversation[0].content[|SummaryInstructions|..] == ExplainBackground(question, articleText, searchFn)
    ensures StartsWith(conversation[1].content, question)
    ensures conversation[1].content[|question|..] == AnswerLevelLead + technicalLevel + AnswerLevelEnd
  {
    var background := ExplainBackground(question, articleText, searchFn);
    var levelLine := AnswerLevelLead + technicalLevel + AnswerLevelEnd;
    PrefixOfConcat(SummaryInstructions, background);
    PrefixOfConcat(question, levelLine);
    [Message("system", SummaryInstructions + background), Message("user", question + levelLine)]
  }

  /** The user message loses nothing: when the levels are one line each
      (as the level choices of the app are), it determines both the
      question, which may span several lines, and the requested level. */
  lemma {:induction false} UserMessageDeterminesInputs(question: string, level: string,
                                                       question': string, level': string)
    requires '\n' !in level && '\n' !in level'
    requires question + (AnswerLevelLead + level + AnswerLevelEnd)
          == question' + (AnswerLevelLead + level' + AnswerLevelEnd)
    ensures question == question' && level == level'
  {
    var text := AnswerLevelLead[1..];
    assert '\n' !in text;
    var t1 := text + level + AnswerLevelEnd;
    var t2 := text + level' + AnswerLevelEnd;
    assert AnswerLevelLead[0] == '\n';
    SplitLead(question, AnswerLevelLead, level, AnswerLevelEnd);
    SplitLead(question', AnswerLevelLead, level', AnswerLevelEnd);
    SameLastLine(question, t1, question', t2);
    assert |level| == |level'|;
    assert level == t1[|text|..|t1| - |AnswerLevelEnd|] == level';
  }

  /** With article text the search function is never consulted: any two
      search functions, or none, give the same conversation. */
  lemma ArticleTextBypassesSearch(question: string, technicalLevel: string, articleText: Option<string>,
                                  s1: Option<string -> string>, s2: Option<string -> string>)
    requires Truthy(articleText)
    ensures ExplainConversation(question, technicalLevel, articleText, s1)
         == ExplainConversation(question, technicalLevel, articleText, s2)
  {
  }
}
