/** The worked examples of app/text_analysis.py: concrete genre labels run
    through the rule tables. The scans over literal labels are evaluated by
    the verifier, a few rules at a time. */
module TextAnalysisExamples {
  import opened Results
  import opened Text
  import opened TextAnalysis
  import opened TextAnalysisProperties

  /** A lower-case, already trimmed label normalises to itself. */
  lemma NormalizeTrimmedAscii(g: string, n: string)
    requires Lower(g) == n && Trimmed(n)
    ensures Normalize(g) == n
  {
    TrimmedIsFixed(n);
  }

  lemma SciFiThrillerFacts()
    ensures Contains("sci-fi thriller", "sci") && Contains("sci-fi thriller", "thriller")
    ensures !Contains("sci-fi thriller", "horror")
  {
    ContainsAt("sci-fi thriller", "sci", 0);
    ContainsAt("sci-fi thriller", "thriller", 7);
    assert !ContainsFrom("sci-fi thriller", "horror", 12);
    assert !ContainsFrom("sci-fi thriller", "horror", 8);
    assert !ContainsFrom("sci-fi thriller", "horror", 4);
  }

  /** A label that normalises to "sci-fi thriller" says both "sci" and
      "thriller"; the thriller mood wins. */
  lemma SciFiThrillerExample(genre: string)
    requires Normalize(genre) == "sci-fi thriller"
    ensures InferMood(genre) == "tense and gripping"
  {
    SciFiThrillerFacts();
    ThrillerOutranksSci(Normalize(genre));
  }

  lemma HorrorComedyFacts()
    ensures Contains("horror comedy", "horror")
  {
    ContainsAt("horror comedy", "horror", 0);
  }

  /** "horror" decides the mood whatever else the label says. */
  lemma HorrorComedyExample(genre: string)
    requires Normalize(genre) == "horror comedy"
    ensures InferMood(genre) == "dark and suspenseful"
  {
    HorrorComedyFacts();
    HorrorOutranksEverything(Normalize(genre));
  }

  lemma FamilyMoodSilent()
    ensures !AnyFrom("family", MoodRules[0].keywords, 0) && !AnyFrom("family", MoodRules[1].keywords, 0)
    ensures !AnyFrom("family", MoodRules[2].keywords, 0) && !AnyFrom("family", MoodRules[3].keywords, 0)
  {
  }

  lemma FamilyMoodSilentLate()
    ensures !AnyFrom("family", MoodRules[4].keywords, 0) && !AnyFrom("family", MoodRules[5].keywords, 0)
    ensures !AnyFrom("family", MoodRules[6].keywords, 0)
  {
  }

  lemma FamilyScans()
    ensures FirstFrom(MoodRules, "family", 0) == 7
    ensures FirstFrom(PaletteRules, "family", 0) == 1
  {
    FamilyMoodSilent();
    FamilyMoodSilentLate();
  }

  lemma ComedyScans()
    ensures FirstFrom(PaletteRules, "comedy", 0) == 1
    ensures FirstFrom(MoodRules, "comedy", 0) == 2
  {
  }

  lemma FamilyLabel()
    ensures PaletteFor("family") == "bright and warm yellows, oranges and light blues"
    ensures MoodFor("family") == "dramatic"
  {
    FamilyScans();
  }

  lemma ComedyLabel()
    ensures PaletteFor("comedy") == "bright and warm yellows, oranges and light blues"
    ensures MoodFor("comedy") == "light-hearted and playful"
  {
    ComedyScans();
  }

  /** "Family" and "Comedy" share a palette but not a mood: "family" has no
      mood rule. */
  lemma FamilyAndComedyExample(family: string, comedy: string)
    requires Normalize(family) == "family" && Normalize(comedy) == "comedy"
    ensures InferColorPalette(family) == InferColorPalette(comedy)
    ensures InferMood(family) == "dramatic" != InferMood(comedy)
  {
    FamilyLabel();
    ComedyLabel();
  }

  lemma MysteryPaletteSilent()
    ensures !AnyFrom("mystery", PaletteRules[0].keywords, 0) && !AnyFrom("mystery", PaletteRules[1].keywords, 0)
    ensures !AnyFrom("mystery", PaletteRules[2].keywords, 0)
  {
  }

  lemma MysteryPaletteSilentLate()
    ensures !AnyFrom("mystery", PaletteRules[3].keywords, 0) && !AnyFrom("mystery", PaletteRules[4].keywords, 0)
    ensures !AnyFrom("mystery", PaletteRules[5].keywords, 0)
  {
  }

  lemma MysteryCoreSilent()
    ensures !AnyFrom("mystery", CoreRules[0].keywords, 0) && !AnyFrom("mystery", CoreRules[1].keywords, 0)
    ensures !AnyFrom("mystery", CoreRules[2].keywords, 0)
  {
  }

  lemma MysteryCoreSilentLate()
    ensures !AnyFrom("mystery", CoreRules[3].keywords, 0) && !AnyFrom("mystery", CoreRules[4].keywords, 0)
    ensures !AnyFrom("mystery", CoreRules[5].keywords, 0)
  {
  }

  lemma MysteryScans()
    ensures FirstFrom(PaletteRules, "mystery", 0) == 6
    ensures FirstFrom(MoodRules, "mystery", 0) == 1
    ensures FirstFrom(CoreRules, "mystery", 0) == 6
  {
    MysteryPaletteSilent();
    MysteryPaletteSilentLate();
    MysteryCoreSilent();
    MysteryCoreSilentLate();
  }

  lemma MysteryLabel()
    ensures PaletteFor("mystery") == "balanced warm and cool tones"
    ensures MoodFor("mystery") == "tense and gripping"
    ensures CoreFor("mystery") == "story"
  {
    MysteryScans();
  }

  /** The palette table has no "mystery" bucket, the mood table has one, and
      the tagline table leaves mystery to the default "story". */
  lemma MysteryExample(genre: string)
    requires Normalize(genre) == "mystery"
    ensures InferColorPalette(genre) == "balanced warm and cool tones"
    ensures InferMood(genre) == "tense and gripping"
    ensures TaglineCore(genre) == "story"
  {
    MysteryLabel();
  }

  lemma DocumentaryCoreSilent()
    ensures !Contains("documentary", "horror") && !Contains("documentary", "thriller")
    ensures !Contains("documentary", "crime")
  {
    assert !ContainsFrom("documentary", "horror", 6);
    assert !ContainsFrom("documentary", "thriller", 6);
    assert !ContainsFrom("documentary", "crime", 6);
  }

  lemma DocumentaryCoreSilentMiddle()
    ensures !Contains("documentary", "comedy") && !Contains("documentary", "romance")
    ensures !Contains("documentary", "action")
  {
    assert !ContainsFrom("documentary", "comedy", 6);
    assert !ContainsFrom("documentary", "romance", 6);
    assert !ContainsFrom("documentary", "action", 6);
  }

  lemma DocumentaryCoreSilentLate()
    ensures !Contains("documentary", "adventure") && !Contains("documentary", "sci")
    ensures !Contains("documentary", "fantasy")
  {
    assert !ContainsFrom("documentary", "adventure", 6);
    assert !ContainsFrom("documentary", "sci", 6);
    assert !ContainsFrom("documentary", "fantasy", 6);
  }

  lemma DocumentaryScan()
    ensures FirstFrom(CoreRules, "documentary", 0) == 6
  {
    DocumentaryCoreSilent();
    DocumentaryCoreSilentMiddle();
    DocumentaryCoreSilentLate();
  }

  lemma DocumentaryLabel()
    ensures CoreFor("documentary") == "story"
  {
    DocumentaryScan();
  }

  /** A documentary gets the generic "story" tagline with its mood verbatim. */
  lemma DocumentaryTagline(genre: string, mood: string)
    requires Normalize(genre) == "documentary"
    ensures MakeTagline(genre, mood) == "A " + mood + " " + "story" + "."
  {
    DocumentaryLabel();
    TaglineShape(genre, mood);
  }

  lemma ActionScans()
    ensures FirstFrom(MoodRules, "action", 0) == 4
    ensures FirstFrom(CoreRules, "action", 0) == 4
  {
  }

  lemma ActionLabel()
    ensures MoodFor("action") == "dynamic and energetic"
    ensures CoreFor("action") == "mission you'll never forget"
  {
    ActionScans();
  }

  /** With the classifier answering "Action", whatever the summary. */
  lemma ActionExample(summary: string, genre: string, styleHint: Option<string>)
    requires Normalize(genre) == "action"
    ensures AnalyzeSummary(summary, genre, styleHint).mood == "dynamic and energetic"
    ensures AnalyzeSummary(summary, genre, styleHint).tagline
      == "A " + "dynamic and energetic" + " " + "mission you'll never forget" + "."
  {
    ActionLabel();
    AnalysisFields(summary, genre, styleHint);
    TaglineShape(genre, "dynamic and energetic");
  }

  /** The labels of the examples above, as the classifier spells them,
      normalise to the strings the examples assume. */
  lemma NormalizeSciFiThriller()
    ensures Normalize("Sci-Fi Thriller") == "sci-fi thriller"
  {
    NormalizeTrimmedAscii("Sci-Fi Thriller", "sci-fi thriller");
  }

  lemma NormalizeHorrorComedy()
    ensures Normalize("Horror Comedy") == "horror comedy"
  {
    NormalizeTrimmedAscii("Horror Comedy", "horror comedy");
  }

  lemma NormalizeFamily()
    ensures Normalize("Family") == "family"
  {
    NormalizeTrimmedAscii("Family", "family");
  }

  lemma NormalizeComedy()
    ensures Normalize("Comedy") == "comedy"
  {
    NormalizeTrimmedAscii("Comedy", "comedy");
  }

  lemma NormalizeMystery()
    ensures Normalize("Mystery") == "mystery"
  {
    NormalizeTrimmedAscii("Mystery", "mystery");
  }

  lemma NormalizeAction()
    ensures Normalize("Action") == "action"
  {
    NormalizeTrimmedAscii("Action", "action");
  }

  lemma NormalizeDocumentary()
    ensures Normalize("Documentary") == "documentary"
  {
    NormalizeTrimmedAscii("Documentary", "documentary");
  }
}
