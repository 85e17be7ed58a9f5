/** The prompt composer of app/prompt_generator.py: one fixed template,
    filled for each of three fixed poster variants. */
module PromptGenerator {
  import opened Results
  import opened Text
  import opened Schemas

  /** The literal text of the prompt template around its eight holes
      (variant, genre, mood, palette, style keywords, title, tagline,
      summary). */
  const PromptPieces: seq<string> := [
    Opening,
    KeyArt + "cinematic composition, dramatic lighting, high detail, 4k. Genre: ",
    ". Mood: ",
    ". Color palette: ",
    ". Visual style: ",
    ". Title text on poster: \"",
    "\". Tagline on the poster: \"",
    QuoteEnd + SummaryLead,
    SentenceEnd
  ]

  const QuoteEnd: string := "\". "
  const SentenceEnd: string := ". "

  const Opening: string := "Movie poster, "
  const KeyArt: string := " key art, "
  const SummaryLead: string := "Design a poster for the following movie summary: "
  const StyleLead: string := "The overall style should feel "

  /** The values of the holes, in template order. */
  function PromptFields(summary: string, a: PosterAnalysis, variant: string): (fields: seq<string>)
    ensures |fields| + 1 == |PromptPieces|
    ensures fields[0] == variant && fields[|fields| - 1] == summary
    ensures fields[1..] == SharedFields(summary, a)
  {
    [variant] + SharedFields(summary, a)
  }

  /** The hole values that do not depend on the variant. */
  function SharedFields(summary: string, a: PosterAnalysis): (fields: seq<string>)
    ensures |fields| == 7 && fields[6] == summary
  {
    [a.genre, a.mood, a.colorPalette, Join(", ", a.visualStyleKeywords), a.title, a.tagline, summary]
  }

  /** The closing sentence, added only for a truthy (present, non-empty) hint. */
  function StyleClause(hint: Option<string>): (clause: string)
    ensures !Truthy(hint) <==> clause == ""
  {
    if Truthy(hint) then StyleLead + hint.value + "." else ""
  }

  /** The filled template opens with the variant's key-art phrase. */
  lemma TemplateOpening(fields: seq<string>)
    requires |fields| + 1 == |PromptPieces|
    ensures StartsWith(Fill(PromptPieces, fields), Opening + fields[0] + KeyArt)
  {
    var rest := Fill(PromptPieces[1..], fields[1..]);
    assert Fill(PromptPieces, fields) == Opening + fields[0] + rest;
    assert StartsWith(rest, KeyArt) by {
      assert StartsWith(rest, PromptPieces[1]);
      assert PromptPieces[1][..|KeyArt|] == KeyArt;
    }
    assert (Opening + fields[0] + rest)[..|Opening + fields[0] + KeyArt|] == Opening + fields[0] + rest[..|KeyArt|];
  }

  /** The filled template closes with the summary sentence. */
  lemma TemplateEnding(fields: seq<string>)
    requires |fields| + 1 == |PromptPieces|
    ensures EndsWith(Fill(PromptPieces, fields), SummaryLead + fields[|fields| - 1] + SentenceEnd)
  {
    var last := fields[|fields| - 1];
    FillEndsWith(PromptPieces, fields);
    assert PromptPieces[7] == QuoteEnd + SummaryLead && PromptPieces[8] == SentenceEnd;
    Regroup(QuoteEnd, SummaryLead, last, SentenceEnd);
    EndsWithSuffix(Fill(PromptPieces, fields), QuoteEnd, SummaryLead + last + SentenceEnd);
  }

  /** `build_poster_prompt`: the filled template, then the style sentence
      when there is a hint. */
  function BuildPosterPrompt(summary: string, a: PosterAnalysis, variant: string, hint: Option<string>): string {
    Fill(PromptPieces, PromptFields(summary, a, variant)) + StyleClause(hint)
  }

  /** The prompt opens with the variant's key-art phrase and closes with the
      summary sentence, or with the style sentence when there is a hint. */
  lemma PromptFraming(summary: string, a: PosterAnalysis, variant: string, hint: Option<string>)
    ensures var prompt := BuildPosterPrompt(summary, a, variant, hint);
      && StartsWith(prompt, Opening + variant + KeyArt)
      && (!Truthy(hint) ==> EndsWith(prompt, SummaryLead + summary + SentenceEnd))
      && (Truthy(hint) ==> EndsWith(prompt, StyleLead + hint.value + "."))
  {
    var fields := PromptFields(summary, a, variant);
    var base := Fill(PromptPieces, fields);
    TemplateOpening(fields);
    StartsWithAppend(base, Opening + variant + KeyArt, StyleClause(hint));
    TemplateEnding(fields);
    EndsWithAppend(base, StyleClause(hint));
  }

  /** The three creative variants, in output order. */
  const VariantNames: seq<string> := ["theatrical poster", "streaming thumbnail", "social media teaser"]

  /** The loop of `generate_prompts`: one entry per name, in order. */
  method PromptsFor(names: seq<string>, entry: string -> PromptVariant) returns (prompts: seq<PromptVariant>)
    ensures |prompts| == |names|
    ensures forall i :: 0 <= i < |prompts| ==> prompts[i] == entry(names[i])
  {
    prompts := [];
    for i := 0 to |names|
      invariant |prompts| == i
      invariant forall j :: 0 <= j < i ==> prompts[j] == entry(names[j])
    {
      prompts := prompts + [entry(names[i])];
    }
  }

  /** `generate_prompts`: one prompt per variant, in the fixed order. */
  method GeneratePrompts(summary: string, a: PosterAnalysis, hint: Option<string>) returns (prompts: seq<PromptVariant>)
    ensures |prompts| == |VariantNames|
    ensures forall i :: 0 <= i < |prompts| ==>
      prompts[i].variant == VariantNames[i] && prompts[i].prompt == BuildPosterPrompt(summary, a, VariantNames[i], hint)
  {
    prompts := PromptsFor(VariantNames, v => PromptVariant(v, BuildPosterPrompt(summary, a, v, hint)));
  }

  /** The prompt shows the variant, the analysis fields and the summary in
      template order. */
  lemma PromptFieldsInOrder(summary: string, a: PosterAnalysis, variant: string, hint: Option<string>)
    ensures InOrder(BuildPosterPrompt(summary, a, variant, hint), PromptFields(summary, a, variant))
  {
    var fields := PromptFields(summary, a, variant);
    FillInOrder(PromptPieces, fields);
    InOrderAppend(Fill(PromptPieces, fields), fields, StyleClause(hint));
  }

  /** A missing hint and an empty one give the same prompt: the filled
      template alone. */
  lemma EmptyHintIsNoHint(summary: string, a: PosterAnalysis, variant: string)
    ensures BuildPosterPrompt(summary, a, variant, Some("")) == BuildPosterPrompt(summary, a, variant, None)
    ensures BuildPosterPrompt(summary, a, variant, None) == Fill(PromptPieces, PromptFields(summary, a, variant))
  {
  }

  /** A non-empty hint adds exactly one closing sentence to the hintless
      prompt. */
  lemma HintAppendsSentence(summary: string, a: PosterAnalysis, variant: string, hint: string)
    requires |hint| > 0
    ensures BuildPosterPrompt(summary, a, variant, Some(hint))
      == BuildPosterPrompt(summary, a, variant, None) + StyleLead + hint + "."
  {
    var base := Fill(PromptPieces, PromptFields(summary, a, variant));
    assert BuildPosterPrompt(summary, a, variant, None) == base;
    assert BuildPosterPrompt(summary, a, variant, Some(hint)) == base + (StyleLead + hint + ".");
    Regroup(base, StyleLead, hint, ".");
  }

  /** Everything of a prompt after "Movie poster, <variant>". */
  function SharedTail(summary: string, a: PosterAnalysis, hint: Option<string>): string {
    Fill(PromptPieces[1..], SharedFields(summary, a)) + StyleClause(hint)
  }

  lemma FillSplit(summary: string, a: PosterAnalysis, variant: string)
    ensures Fill(PromptPieces, PromptFields(summary, a, variant))
      == Opening + variant + Fill(PromptPieces[1..], SharedFields(summary, a))
  {
    FillCons(PromptPieces, PromptFields(summary, a, variant));
  }

  lemma BuildIsFill(summary: string, a: PosterAnalysis, variant: string, hint: Option<string>)
    ensures BuildPosterPrompt(summary, a, variant, hint) == Fill(PromptPieces, PromptFields(summary, a, variant)) + StyleClause(hint)
  {
  }

  lemma PromptSplit(summary: string, a: PosterAnalysis, variant: string, hint: Option<string>)
    ensures BuildPosterPrompt(summary, a, variant, hint) == (Opening + variant) + SharedTail(summary, a, hint)
  {
    BuildIsFill(summary, a, variant, hint);
    FillSplit(summary, a, variant);
    RegroupPairs(Opening, variant, Fill(PromptPieces[1..], SharedFields(summary, a)), StyleClause(hint));
  }

  lemma SplitConcat(x: string, y: string)
    ensures (x + y)[..|x|] == x && (x + y)[|x|..] == y
  {
  }

  /** Two variants' prompts for the same inputs differ only in the variant
      name: after "Movie poster, <variant>" they agree character for
      character. */
  lemma VariantsDifferOnlyInName(summary: string, a: PosterAnalysis, v1: string, v2: string, hint: Option<string>)
    ensures var p1 := BuildPosterPrompt(summary, a, v1, hint);
      var p2 := BuildPosterPrompt(summary, a, v2, hint);
      |Opening + v1| <= |p1| && |Opening + v2| <= |p2| &&
      p1[..|Opening + v1|] == Opening + v1 && p2[..|Opening + v2|] == Opening + v2 &&
      p1[|Opening + v1|..] == p2[|Opening + v2|..]
  {
    var tail := SharedTail(summary, a, hint);
    PromptSplit(summary, a, v1, hint);
    PromptSplit(summary, a, v2, hint);
    SplitConcat(Opening + v1, tail);
    SplitConcat(Opening + v2, tail);
  }

  /** Different variant names give different prompts. */
  lemma DistinctVariantsDistinctPrompts(summary: string, a: PosterAnalysis, v1: string, v2: string, hint: Option<string>)
    requires v1 != v2
    ensures BuildPosterPrompt(summary, a, v1, hint) != BuildPosterPrompt(summary, a, v2, hint)
  {
    var p1 := BuildPosterPrompt(summary, a, v1, hint);
    var p2 := BuildPosterPrompt(summary, a, v2, hint);
    VariantsDifferOnlyInName(summary, a, v1, v2, hint);
    if |v1| == |v2| {
      assert p1[|Opening|..|Opening + v1|] == v1;
      assert p2[|Opening|..|Opening + v2|] == v2;
    }
  }

  /** The prompt mentions every analysis field and the summary. */
  lemma PromptMentionsFields(summary: string, a: PosterAnalysis, variant: string, hint: Option<string>)
    ensures var p := BuildPosterPrompt(summary, a, variant, hint);
      Contains(p, a.genre) && Contains(p, a.mood) && Contains(p, a.colorPalette) &&
      Contains(p, Join(", ", a.visualStyleKeywords)) && Contains(p, a.title) &&
      Contains(p, a.tagline) && Contains(p, summary)
  {
    PromptFieldsInOrder(summary, a, variant, hint);
    EachField(BuildPosterPrompt(summary, a, variant, hint), PromptFields(summary, a, variant));
  }

  lemma EachField(p: string, fields: seq<string>)
    requires InOrder(p, fields) && |fields| == 8
    ensures Contains(p, fields[1]) && Contains(p, fields[2]) && Contains(p, fields[3]) && Contains(p, fields[4])
    ensures Contains(p, fields[5]) && Contains(p, fields[6]) && Contains(p, fields[7])
  {
    InOrderEach(p, fields);
  }

  /** The three variant names are distinct, so are the three prompts. */
  lemma CampaignPromptsDistinct(summary: string, a: PosterAnalysis, hint: Option<string>, i: nat, j: nat)
    requires i < j < |VariantNames|
    ensures BuildPosterPrompt(summary, a, VariantNames[i], hint) != BuildPosterPrompt(summary, a, VariantNames[j], hint)
  {
    assert VariantNames[i] != VariantNames[j] by {
      assert |VariantNames[0]| == 17 && |VariantNames[1]| == 19 && |VariantNames[2]| == 19;
      assert VariantNames[1][1] == 't' && VariantNames[2][1] == 'o';
    }
    DistinctVariantsDistinctPrompts(summary, a, VariantNames[i], VariantNames[j], hint);
  }
}
