/** Properties of the rule engine of app/text_analysis.py: insensitivity to
    case and surrounding whitespace, first-match order, the default bucket,
    the differences between the tables, the tagline shape and the title. */
module TextAnalysisProperties {
  import opened Results
  import opened Text
  import opened Schemas
  import opened TextAnalysis

  /** The rules see the genre only through `lower().strip()`: changing the
      case of letters or adding whitespace around the label changes nothing. */
  lemma RulesIgnoreCaseAndPadding(g: string, h: string, ws1: string, ws2: string)
    requires Lower(g) == Lower(h)
    requires AllSpace(ws1) && AllSpace(ws2)
    ensures Normalize(ws1 + h + ws2) == Normalize(g)
    ensures InferMood(ws1 + h + ws2) == InferMood(g)
    ensures InferColorPalette(ws1 + h + ws2) == InferColorPalette(g)
    ensures InferStyleKeywords(ws1 + h + ws2) == InferStyleKeywords(g)
    ensures TaglineCore(ws1 + h + ws2) == TaglineCore(g)
  {
    LowerOfAppend(ws1 + h, ws2);
    LowerOfAppend(ws1, h);
    LowerOfSpaces(ws1);
    LowerOfSpaces(ws2);
    StripOfPadded(ws1, Lower(h), ws2);
  }

  /** Normalising a normalised label changes nothing, so feeding the rules
      an already normalised label gives the same results. */
  lemma NormalizeIdempotent(g: string)
    ensures Normalize(Normalize(g)) == Normalize(g)
  {
    var l := Lower(g);
    assert NoUpper(l);
    StripKeepsNoUpper(l);
    LowerOfUncapitalised(Strip(l));
    StripIdempotent(l);
  }

  lemma RulesOfNormalized(g: string)
    ensures InferMood(Normalize(g)) == InferMood(g)
    ensures InferColorPalette(Normalize(g)) == InferColorPalette(g)
    ensures InferStyleKeywords(Normalize(g)) == InferStyleKeywords(g)
    ensures TaglineCore(Normalize(g)) == TaglineCore(g)
  {
    NormalizeIdempotent(g);
  }

  /** The keywords of a table all occur in a list. */
  predicate KeywordsAmong<T>(rules: seq<Rule<T>>, ks: seq<string>) {
    forall k, kw :: 0 <= k < |rules| && kw in rules[k].keywords ==> kw in ks
  }

  /** A label containing none of the listed keywords fires no rule. */
  lemma NoRuleFires<T>(rules: seq<Rule<T>>, ks: seq<string>, g: string, fallback: T)
    requires KeywordsAmong(rules, ks)
    requires forall kw :: kw in ks ==> !Contains(g, kw)
    ensures forall k :: 0 <= k < |rules| ==> !Fires(rules[k], g)
    ensures Choose(rules, g, fallback) == fallback
  {
  }

  lemma TablesUseListedKeywords()
    ensures KeywordsAmong(MoodRules, AllKeywords)
    ensures KeywordsAmong(PaletteRules, AllKeywords)
    ensures KeywordsAmong(StyleRules, AllKeywords)
    ensures KeywordsAmong(CoreRules, AllKeywords)
  {
  }

  /** A genre whose normalised form contains no keyword of any table gets
      every default. */
  lemma UnmatchedGenreGetsDefaults(g: string)
    requires forall kw :: kw in AllKeywords ==> !Contains(Normalize(g), kw)
    ensures InferMood(g) == "dramatic"
    ensures InferColorPalette(g) == "balanced warm and cool tones"
    ensures InferStyleKeywords(g) == ["cinematic", "atmospheric", "high contrast"]
    ensures TaglineCore(g) == "story"
  {
    TablesUseListedKeywords();
    var n := Normalize(g);
    NoRuleFires(MoodRules, AllKeywords, n, DefaultMood);
    NoRuleFires(PaletteRules, AllKeywords, n, DefaultPalette);
    NoRuleFires(StyleRules, AllKeywords, n, DefaultStyle);
    NoRuleFires(CoreRules, AllKeywords, n, DefaultCore);
  }

  /** The keywords the mood table looks for ("family" is not among them). */
  const MoodKeywords: seq<string> := [
    "horror", "thriller", "mystery", "crime", "comedy", "romance",
    "action", "adventure", "sci", "fantasy", "documentary"
  ]

  /** The mood rule that looks for each mood keyword. */
  lemma MoodKeywordRule(i: nat) returns (k: nat)
    requires i < |MoodKeywords|
    ensures k < |MoodRules| && MoodKeywords[i] in MoodRules[k].keywords
  {
    k := [0, 1, 1, 1, 2, 3, 4, 4, 5, 5, 6][i];
    var j := [0, 0, 1, 2, 0, 0, 0, 1, 0, 1, 0][i];
    assert MoodRules[k].keywords[j] == MoodKeywords[i];
  }

  /** The mood is "dramatic" exactly when the normalised genre contains no
      mood keyword. */
  lemma DramaticMoodIffNoKeyword(n: string)
    ensures MoodFor(n) == "dramatic" <==> forall kw :: kw in MoodKeywords ==> !Contains(n, kw)
  {
    assert KeywordsAmong(MoodRules, MoodKeywords);
    if forall kw :: kw in MoodKeywords ==> !Contains(n, kw) {
      NoRuleFires(MoodRules, MoodKeywords, n, DefaultMood);
    } else {
      var kw :| kw in MoodKeywords && Contains(n, kw);
      var i :| 0 <= i < |MoodKeywords| && MoodKeywords[i] == kw;
      var k := MoodKeywordRule(i);
      assert Fires(MoodRules[k], n);
      ChooseFallback(MoodRules, n, DefaultMood);
    }
  }

  /** Order decides: a genre with "thriller" gets the thriller mood even when
      it also says "sci", because the thriller rule comes first; only
      "horror" outranks it. */
  lemma ThrillerOutranksSci(n: string)
    requires Contains(n, "thriller")
    requires !Contains(n, "horror")
    ensures MoodFor(n) == "tense and gripping"
  {
    assert !Fires(MoodRules[0], n);
    assert "thriller" in MoodRules[1].keywords;
    assert Fires(MoodRules[1], n);
    ChooseFirst(MoodRules, n, DefaultMood, 1);
  }

  /** "horror" anywhere in the genre decides every table. */
  lemma HorrorOutranksEverything(n: string)
    requires Contains(n, "horror")
    ensures MoodFor(n) == "dark and suspenseful"
    ensures PaletteFor(n) == "dark reds, deep blacks and muted blues"
    ensures StyleFor(n) == ["gritty", "high contrast", "moody lighting", "distressed textures"]
    ensures CoreFor(n) == "nightmare"
  {
    assert "horror" in MoodRules[0].keywords && Fires(MoodRules[0], n);
    assert "horror" in PaletteRules[0].keywords && Fires(PaletteRules[0], n);
    assert "horror" in StyleRules[0].keywords && Fires(StyleRules[0], n);
    assert "horror" in CoreRules[0].keywords && Fires(CoreRules[0], n);
    ChooseFirst(MoodRules, n, DefaultMood, 0);
    ChooseFirst(PaletteRules, n, DefaultPalette, 0);
    ChooseFirst(StyleRules, n, DefaultStyle, 0);
    ChooseFirst(CoreRules, n, DefaultCore, 0);
  }

  /** The two branches of `_make_title` agree: with at least one word, the
      title is built from the first (up to) six words. */
  lemma TitleFromFirstSixWords(summary: string, genre: string)
    requires |Words(CleanSummary(summary))| > 0
    ensures var titled := Title(Join(" ", FirstSix(Words(CleanSummary(summary)))));
      MakeTitle(summary, genre) == Strip(titled[..Min(60, |titled|)])
  {
    var words := Words(CleanSummary(summary));
    CutTitleOfFirstSix(words);
    assert MakeTitle(summary, genre) == CutTitle(words);
  }

  /** The words part of the title, for any word list with a word. */
  lemma CutTitleOfFirstSix(words: seq<string>)
    requires 0 < |words| && forall i :: 0 <= i < |words| ==> IsWord(words[i])
    ensures var titled := Title(Join(" ", FirstSix(words)));
      CutTitle(words) == Strip(titled[..Min(60, |titled|)])
  {
    if |words| < 3 {
      assert FirstSix(words) == words;
    }
  }

  /** A summary with words yields a title that depends only on its first
      six words (and not on the genre). */
  lemma TitleDependsOnFirstSixWords(s1: string, s2: string, g1: string, g2: string)
    requires |Words(CleanSummary(s1))| > 0
    requires FirstSix(Words(CleanSummary(s1))) == FirstSix(Words(CleanSummary(s2)))
    ensures MakeTitle(s1, g1) == MakeTitle(s2, g2)
  {
    TitleFromFirstSixWords(s1, g1);
    assert |Words(CleanSummary(s2))| > 0 by {
      assert |FirstSix(Words(CleanSummary(s2)))| > 0;
    }
    TitleFromFirstSixWords(s2, g2);
  }

  /** A character `_make_title` turns into a space or strips away. */
  predicate Blank(c: char) {
    c in {'"', '\n', '\r'} || IsSpace(c)
  }

  /** A summary of quotes, line breaks and whitespace only (the empty one
      included) falls back to the genre title, without truncation. */
  lemma UntitledFallback(summary: string, genre: string)
    requires forall i :: 0 <= i < |summary| ==> Blank(summary[i])
    ensures MakeTitle(summary, genre) == "Untitled " + genre + " Film"
  {
    var spaced := seq(|summary|, i requires 0 <= i < |summary| =>
      if summary[i] in {'"', '\n', '\r'} then ' ' else summary[i]);
    assert AllSpace(spaced);
    LStripOfSpaces(spaced);
    assert CleanSummary(summary) == "";
  }

  /** The tagline is exactly "A " + mood + " " + core + ".". */
  lemma TaglineShape(genre: string, mood: string)
    ensures MakeTagline(genre, mood) == "A " + mood + " " + TaglineCore(genre) + "."
  {
  }

  /** The core with the given last three characters. */
  function CoreEndingIn(e: string): string {
    if e == "are" then "nightmare"
    else if e == "ets" then "game of secrets"
    else if e == "ter" then "ride of laughter"
    else if e == "rts" then "journey of hearts"
    else if e == "get" then "mission you'll never forget"
    else if e == "ion" then "world beyond imagination"
    else "story"
  }

  /** Every core is told apart by its last three characters. */
  lemma CoreEnding(c: string)
    requires c in TaglineCores
    ensures |c| >= 3 && CoreEndingIn(c[|c| - 3..]) == c
  {
    if c == "nightmare" {
      assert c[|c| - 3..] == "are";
    } else if c == "game of secrets" {
      assert c[|c| - 3..] == "ets";
    } else if c == "ride of laughter" {
      assert c[|c| - 3..] == "ter";
    } else if c == "journey of hearts" {
      assert c[|c| - 3..] == "rts";
    } else if c == "mission you'll never forget" {
      assert c[|c| - 3..] == "get";
    } else if c == "world beyond imagination" {
      assert c[|c| - 3..] == "ion";
    } else {
      assert c == "story";
      assert c[|c| - 3..] == "ory";
    }
  }

  /** No tagline core ends with another one. */
  lemma CoresSuffixFree(c1: string, c2: string)
    requires c1 in TaglineCores && c2 in TaglineCores
    requires |c2| <= |c1| && c1[|c1| - |c2|..] == c2
    ensures c1 == c2
  {
    CoreEnding(c1);
    CoreEnding(c2);
    assert c1[|c1| - 3..] == c2[|c2| - 3..] by {
      assert c1[|c1| - 3..] == c1[|c1| - |c2|..][|c2| - 3..];
    }
  }

  /** A tagline can be read back: equal taglines have the same mood and the
      same core, so neither a mood nor a genre change goes unnoticed. */
  lemma {:induction false} TaglineDeterminesMoodAndCore(g1: string, m1: string, g2: string, m2: string)
    ensures MakeTagline(g1, m1) == MakeTagline(g2, m2) <==> m1 == m2 && TaglineCore(g1) == TaglineCore(g2)
  {
    var c1, c2 := TaglineCore(g1), TaglineCore(g2);
    if MakeTagline(g1, m1) == MakeTagline(g2, m2) {
      TaglineShape(g1, m1);
      TaglineShape(g2, m2);
      var h1, h2 := "A " + m1 + " ", "A " + m2 + " ";
      var u := h1 + c1;
      assert u == h2 + c2 by {
        assert MakeTagline(g1, m1) == u + ".";
        assert MakeTagline(g2, m2) == (h2 + c2) + ".";
        assert u == MakeTagline(g1, m1)[..|u|];
      }
      assert u[|h1|..] == c1 && u[|h2|..] == c2;
      if |c2| <= |c1| {
        assert c1[|c1| - |c2|..] == c2;
        CoresSuffixFree(c1, c2);
      } else {
        assert c2[|c2| - |c1|..] == c1;
        CoresSuffixFree(c2, c1);
      }
      assert h1 == u[..|h1|] && h2 == u[..|h2|];
      assert m1 == h1[2..|h1| - 1] && m2 == h2[2..|h2| - 1];
    }
  }

  /** The fields of the analysis are the rule engine's answers for the genre. */
  lemma AnalysisFields(summary: string, genre: string, styleHint: Option<string>)
    ensures var a := AnalyzeSummary(summary, genre, styleHint);
      a.mood == InferMood(genre) && a.tagline == MakeTagline(genre, a.mood) &&
      a.colorPalette == InferColorPalette(genre) && a.visualStyleKeywords == InferStyleKeywords(genre) &&
      a.title == MakeTitle(summary, genre)
  {
  }

  /** The style hint plays no part in the analysis. */
  lemma StyleHintIgnored(summary: string, genre: string, h1: Option<string>, h2: Option<string>)
    ensures AnalyzeSummary(summary, genre, h1) == AnalyzeSummary(summary, genre, h2)
  {
  }

  /** Apart from the title, the analysis depends on the genre alone. */
  lemma AnalysisDependsOnGenre(s1: string, s2: string, genre: string, h: Option<string>)
    ensures var a1 := AnalyzeSummary(s1, genre, h); var a2 := AnalyzeSummary(s2, genre, h);
      a1.(title := a2.title) == a2
  {
  }
}
