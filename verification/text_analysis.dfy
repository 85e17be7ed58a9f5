/** The rule engine of app/text_analysis.py: from a genre label to mood,
    colour palette, visual style keywords and tagline, plus the heuristic
    title. Each choice is an ordered table of substring rules; the first rule
    one of whose keywords occurs in the normalised genre decides. The
    classifier that predicts the genre is not modelled: the genre is an
    input. */
module TextAnalysis {
  import opened Results
  import opened Text
  import opened Schemas

  /** One `if "a" in g or "b" in g: ...` branch of a rule chain. */
  datatype Rule<T> = Rule(keywords: seq<string>, value: T)

  predicate Fires<T>(rule: Rule<T>, g: string) {
    exists kw :: kw in rule.keywords && Contains(g, kw)
  }

  /** Some keyword from position `i` on occurs in `g`: the `or` chain of
      one branch, evaluated left to right. */
  predicate AnyFrom(g: string, keywords: seq<string>, i: nat)
    decreases |keywords| - i
  {
    i < |keywords| && (Contains(g, keywords[i]) || AnyFrom(g, keywords, i + 1))
  }

  lemma {:induction false} AnyFromIff(g: string, keywords: seq<string>, i: nat)
    ensures AnyFrom(g, keywords, i) <==> exists j :: i <= j < |keywords| && Contains(g, keywords[j])
    decreases |keywords| - i
  {
    if i < |keywords| {
      AnyFromIff(g, keywords, i + 1);
    }
  }

  /** The position of the first rule from `k` on that fires, or `|rules|`
      if none does: the `if`/`elif` chain, tried top to bottom. */
  function FirstFrom<T>(rules: seq<Rule<T>>, g: string, k: nat): nat
    decreases |rules| - k
  {
    if k >= |rules| then k
    else if AnyFrom(g, rules[k].keywords, 0) then k
    else FirstFrom(rules, g, k + 1)
  }

  lemma {:induction false} FirstFromFinds<T>(rules: seq<Rule<T>>, g: string, k: nat)
    requires k <= |rules|
    ensures k <= FirstFrom(rules, g, k) <= |rules|
    ensures FirstFrom(rules, g, k) < |rules| ==> Fires(rules[FirstFrom(rules, g, k)], g)
    ensures forall j :: k <= j < FirstFrom(rules, g, k) ==> !Fires(rules[j], g)
    decreases |rules| - k
  {
    if k < |rules| {
      AnyFromIff(g, rules[k].keywords, 0);
      FirstFromFinds(rules, g, k + 1);
    }
  }

  /** The position of the first rule that fires, or `|rules|` if none does. */
  function FirstFiring<T>(rules: seq<Rule<T>>, g: string): (k: nat)
    ensures k <= |rules|
    ensures k < |rules| ==> Fires(rules[k], g)
    ensures forall j :: 0 <= j < k ==> !Fires(rules[j], g)
  {
    FirstFromFinds(rules, g, 0);
    FirstFrom(rules, g, 0)
  }

  /** The value of the first rule that fires, or the fallback. */
  function Choose<T>(rules: seq<Rule<T>>, g: string, fallback: T): (r: T)
    ensures r == fallback || exists k :: 0 <= k < |rules| && r == rules[k].value
  {
    var k := FirstFiring(rules, g);
    if k < |rules| then rules[k].value else fallback
  }

  /** First-match semantics: a rule that fires after only silent rules decides. */
  lemma ChooseFirst<T>(rules: seq<Rule<T>>, g: string, fallback: T, k: nat)
    requires k < |rules| && Fires(rules[k], g)
    requires forall j :: 0 <= j < k ==> !Fires(rules[j], g)
    ensures Choose(rules, g, fallback) == rules[k].value
  {
    var f := FirstFiring(rules, g);
    assert f <= k;
    assert !(f < k);
  }

  /** When no rule fires, the fallback is chosen, and only then (provided
      no rule carries the fallback value). */
  lemma ChooseFallback<T>(rules: seq<Rule<T>>, g: string, fallback: T)
    requires forall j :: 0 <= j < |rules| ==> rules[j].value != fallback
    ensures Choose(rules, g, fallback) == fallback <==> forall j :: 0 <= j < |rules| ==> !Fires(rules[j], g)
  {
  }

  /** `genre.lower().strip()`. */
  function Normalize(genre: string): string {
    Strip(Lower(genre))
  }

  const MoodRules: seq<Rule<string>> := [
    Rule(["horror"], "dark and suspenseful"),
    Rule(["thriller", "mystery", "crime"], "tense and gripping"),
    Rule(["comedy"], "light-hearted and playful"),
    Rule(["romance"], "romantic and emotional"),
    Rule(["action", "adventure"], "dynamic and energetic"),
    Rule(["sci", "fantasy"], "futuristic and imaginative"),
    Rule(["documentary"], "serious and realistic")
  ]
  const DefaultMood: string := "dramatic"

  const PaletteRules: seq<Rule<string>> := [
    Rule(["horror", "thriller", "crime"], "dark reds, deep blacks and muted blues"),
    Rule(["comedy", "family"], "bright and warm yellows, oranges and light blues"),
    Rule(["romance"], "soft pinks, warm reds and gentle purples"),
    Rule(["action", "adventure"], "high-contrast oranges and blues"),
    Rule(["sci", "fantasy"], "cool neon blues, purples and cyans"),
    Rule(["documentary"], "natural, muted earth tones and soft blues")
  ]
  const DefaultPalette: string := "balanced warm and cool tones"

  const StyleRules: seq<Rule<seq<string>>> := [
    Rule(["horror"], ["gritty", "high contrast", "moody lighting", "distressed textures"]),
    Rule(["thriller", "crime", "mystery"], ["noir-inspired", "shadowy", "dramatic lighting", "cinematic close-up"]),
    Rule(["comedy"], ["colorful", "bold typography", "playful composition"]),
    Rule(["romance"], ["soft focus", "glowing highlights", "gentle gradients"]),
    Rule(["action", "adventure"], ["dynamic composition", "motion blur", "epic scale"]),
    Rule(["sci", "fantasy"], ["futuristic", "high contrast", "neon glow", "surreal elements"]),
    Rule(["documentary"], ["minimalist", "photographic", "clean layout"])
  ]
  const DefaultStyle: seq<string> := ["cinematic", "atmospheric", "high contrast"]

  /** The noun phrase that closes a tagline. */
  const CoreRules: seq<Rule<string>> := [
    Rule(["horror"], "nightmare"),
    Rule(["thriller", "crime"], "game of secrets"),
    Rule(["comedy"], "ride of laughter"),
    Rule(["romance"], "journey of hearts"),
    Rule(["action", "adventure"], "mission you'll never forget"),
    Rule(["sci", "fantasy"], "world beyond imagination")
  ]
  const DefaultCore: string := "story"

  /** Every keyword any of the four tables looks for. */
  const AllKeywords: seq<string> := [
    "horror", "thriller", "mystery", "crime", "comedy", "family", "romance",
    "action", "adventure", "sci", "fantasy", "documentary"
  ]

  /** Every value of a table is non-empty. */
  predicate NonEmptyValues<T>(rules: seq<Rule<seq<T>>>) {
    forall k :: 0 <= k < |rules| ==> |rules[k].value| > 0
  }

  lemma TablesHaveNonEmptyValues()
    ensures NonEmptyValues(MoodRules) && NonEmptyValues(PaletteRules)
    ensures NonEmptyValues(StyleRules) && NonEmptyValues(CoreRules)
    ensures forall k, i :: 0 <= k < |StyleRules| && 0 <= i < |StyleRules[k].value| ==> |StyleRules[k].value[i]| > 0
  {
  }

  /** The rule tables applied to an already normalised genre `n`. */
  function MoodFor(n: string): (mood: string)
    ensures |mood| > 0
  {
    TablesHaveNonEmptyValues();
    Choose(MoodRules, n, DefaultMood)
  }

  function PaletteFor(n: string): (palette: string)
    ensures |palette| > 0
  {
    TablesHaveNonEmptyValues();
    Choose(PaletteRules, n, DefaultPalette)
  }

  function StyleFor(n: string): (keywords: seq<string>)
    ensures |keywords| > 0
    ensures forall i :: 0 <= i < |keywords| ==> |keywords[i]| > 0
  {
    TablesHaveNonEmptyValues();
    Choose(StyleRules, n, DefaultStyle)
  }

  /** The tagline noun phrase of a normalised genre: one of seven fixed phrases. */
  /** The seven phrases a tagline can end with. */
  const TaglineCores: set<string> := {"nightmare", "game of secrets", "ride of laughter", "journey of hearts",
                                      "mission you'll never forget", "world beyond imagination", "story"}

  function CoreFor(n: string): (core: string)
    ensures core in TaglineCores
  {
    Choose(CoreRules, n, DefaultCore)
  }

  /** `_infer_mood`, `_infer_color_palette`, `_infer_style_keywords` and the
      core choice of `_make_tagline`: each normalises the genre first. */
  function InferMood(genre: string): (mood: string)
    ensures |mood| > 0
  {
    MoodFor(Normalize(genre))
  }

  function InferColorPalette(genre: string): (palette: string)
    ensures |palette| > 0
  {
    PaletteFor(Normalize(genre))
  }

  function InferStyleKeywords(genre: string): (keywords: seq<string>)
    ensures |keywords| > 0
    ensures forall i :: 0 <= i < |keywords| ==> |keywords[i]| > 0
  {
    StyleFor(Normalize(genre))
  }

  function TaglineCore(genre: string): string {
    CoreFor(Normalize(genre))
  }

  /** `_make_tagline`: "A <mood> <core>." with the mood verbatim. */
  function MakeTagline(genre: string, mood: string): (tagline: string)
    ensures StartsWith(tagline, "A " + mood + " ")
    ensures tagline[|tagline| - 1] == '.'
    ensures tagline[3 + |mood|..|tagline| - 1] == TaglineCore(genre)
  {
    var core := TaglineCore(genre);
    var tagline := "A " + mood + " " + core + ".";
    assert tagline[..|"A " + mood + " "|] == "A " + mood + " ";
    assert tagline[3 + |mood|..|tagline| - 1] == core;
    tagline
  }

  /** The summary with double quotes and line breaks turned into spaces,
      then stripped. */
  function CleanSummary(summary: string): string {
    Strip(seq(|summary|, i requires 0 <= i < |summary| =>
      if summary[i] in {'"', '\n', '\r'} then ' ' else summary[i]))
  }

  function Min(a: int, b: int): int {
    if a <= b then a else b
  }

  /** At most the first six words of a word list. */
  function FirstSix(words: seq<string>): seq<string> {
    words[..Min(6, |words|)]
  }

  /** Title-casing words, joining them, cutting to 60 characters and
      stripping leaves at least the first character of the first word. */
  lemma TitleCutNonEmpty(used: seq<string>)
    requires |used| > 0 && IsWord(used[0])
    ensures var titled := Title(Join(" ", used)); |Strip(titled[..Min(60, |titled|)])| > 0
  {
    var titled := Title(Join(" ", used));
    assert Join(" ", used)[0] == used[0][0];
    StripKeepsLeadingChar(titled[..Min(60, |titled|)]);
  }

  /** The words part of `_make_title`: the first three to six words
      title-cased, or the one or two words there are, cut to 60 characters
      and stripped. Empty only when there are no words. */
  function CutTitle(words: seq<string>): (cut: string)
    requires forall i :: 0 <= i < |words| ==> IsWord(words[i])
    ensures |cut| <= 60 && Trimmed(cut)
    ensures |cut| > 0 <==> |words| > 0
  {
    var titled :=
      if |words| >= 3 then Title(Join(" ", words[..Min(6, |words|)]))
      else if |words| > 0 then Title(Join(" ", words))
      else "";
    var cut := Strip(titled[..Min(60, |titled|)]);
    assert |words| > 0 ==> |cut| > 0 by {
      if |words| > 0 {
        TitleCutNonEmpty(if |words| >= 3 then words[..Min(6, |words|)] else words);
      }
    }
    StripIsTrimmed(titled[..Min(60, |titled|)]);
    cut
  }

  /** `_make_title`: the title from the words of the cleaned summary; with
      no words at all, "Untitled <genre> Film". */
  function MakeTitle(summary: string, genre: string): (title: string)
    ensures |title| > 0
    ensures |Words(CleanSummary(summary))| > 0 ==> |title| <= 60 && Trimmed(title)
    ensures |Words(CleanSummary(summary))| == 0 ==> title == "Untitled " + genre + " Film"
  {
    var cut := CutTitle(Words(CleanSummary(summary)));
    if |cut| == 0 then "Untitled " + genre + " Film" else cut
  }

  /** `analyze_summary` with the predicted genre given: every derived field
      is a function of the genre, and the title also of the summary. */
  function AnalyzeSummary(summary: string, genre: string, styleHint: Option<string>): (a: PosterAnalysis)
    ensures a.genre == genre
    ensures |a.mood| > 0 && |a.colorPalette| > 0 && |a.visualStyleKeywords| > 0 && |a.title| > 0
    ensures StartsWith(a.tagline, "A " + a.mood + " ")
    ensures |a.title| <= 60 || a.title == "Untitled " + genre + " Film"
  {
    var mood := InferMood(genre);
    PosterAnalysis(
      title := MakeTitle(summary, genre),
      tagline := MakeTagline(genre, mood),
      genre := genre,
      mood := mood,
      colorPalette := InferColorPalette(genre),
      visualStyleKeywords := InferStyleKeywords(genre))
  }
}
