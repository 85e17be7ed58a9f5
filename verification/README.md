# Poster campaign pipeline — a Dafny model

This project models the deterministic core of a movie-poster service. It is
written in Dafny and its properties are proved by the verifier. The service
takes a movie summary and produces a poster campaign:

1. A rule engine turns a genre label into a mood, a colour palette, style
   keywords and a tagline. It also derives a title from the summary.
2. Three prompt variants are composed from a fixed template.
3. An image service (OpenAI or Hugging Face) is asked for one image per
   prompt.
4. The results are numbered and returned as one campaign. Any failure
   becomes an HTTP 500.

A client script posts to the service, decodes the returned
`data:image/png;base64,...` URLs and writes the PNG files under `outputs/`.
The training script numbers the distinct genres for the classifier.

The genre classifier and the two image services are not modelled as code.
They appear as function-valued parameters:

- the classifier is `string -> Result<string, string>`;
- an image client is a function from its request, plus the number of the
  call within the run, to a result.

Configuration values are plain data (`PosterGenerator.Settings`). The HTTP
exchange of the client script is the parameter `post` of
`SavePoster.GenerateAndSave`.

Modules, one per source file, plus three shared ones:

| file | module | models |
|---|---|---|
| `results.dfy` | `Results` | `Option` / `Result` |
| `text.dfy` | `Text` | the Python `str` built-ins the code relies on: `lower`, `strip`, `split`, `title`, `in`, `join`, `str(int)` |
| `base64.dfy` | `Base64` | base64 as in section 4 of RFC 4648 |
| `schemas.dfy` | `Schemas` | the request and response records of app/schemas.py |
| `text_analysis.dfy`, `text_analysis_properties.dfy`, `text_analysis_examples.dfy` | `TextAnalysis`, `TextAnalysisProperties`, `TextAnalysisExamples` | app/text_analysis.py |
| `prompt_generator.dfy` | `PromptGenerator` | app/prompt_generator.py |
| `poster_generator.dfy` | `PosterGenerator` | app/poster_generator.py |
| `app.dfy` | `App` | app/main.py |
| `save_poster.dfy` | `SavePoster` | save_poster.py |
| `label_mapping.dfy` | `LabelMapping` | train_text_classifier.py (label mapping and sample caps) |

Each rule chain of the engine is an ordered table of `(keywords, value)`
rows. One generic first-match function reads these tables, so the `if` order
of the source is the row order.

## Model

| member | source | states |
|---|---|---|
| TextAnalysis.FirstFiring | app/text_analysis.py:69-85 | The chosen rule fires, and every rule above it is silent: the `if` chain is tried top to bottom. |
| TextAnalysis.ChooseFirst | app/text_analysis.py:69-85 | The first rule that fires decides the result, whatever fires after it. |
| TextAnalysis.ChooseFallback | app/text_analysis.py:85 | The fallback is returned exactly when no rule fires. |
| TextAnalysis.AnyFromIff | app/text_analysis.py:73 | An `or` of `in` tests holds iff some listed keyword occurs in the label. |
| TextAnalysis.TablesHaveNonEmptyValues | app/text_analysis.py:69-164 | Every mood, palette, keyword list and tagline core in the tables is non-empty. |
| TextAnalysis.MoodFor | app/text_analysis.py:69-85 | The mood of a normalised label is non-empty. |
| TextAnalysis.PaletteFor | app/text_analysis.py:88-102 | The palette of a normalised label is non-empty. |
| TextAnalysis.StyleFor | app/text_analysis.py:105-121 | The style keywords form a non-empty list of non-empty words. |
| TextAnalysis.CoreFor | app/text_analysis.py:150-164 | The tagline core is one of the seven fixed phrases. |
| TextAnalysis.InferMood | app/text_analysis.py:69-85 | `_infer_mood` always gives a non-empty mood. |
| TextAnalysis.InferColorPalette | app/text_analysis.py:88-102 | `_infer_color_palette` always gives a non-empty palette. |
| TextAnalysis.InferStyleKeywords | app/text_analysis.py:105-121 | `_infer_style_keywords` always gives a non-empty list of non-empty keywords. |
| TextAnalysis.MakeTagline | app/text_analysis.py:146-166 | The tagline is "A ", the mood verbatim, a space, the genre's core, then a full stop. |
| TextAnalysis.CutTitle | app/text_analysis.py:131-140 | The cut title is at most 60 characters with no surrounding whitespace, and it is empty iff there are no words. |
| TextAnalysis.MakeTitle | app/text_analysis.py:124-143 | The title is never empty. With words in the cleaned summary it is at most 60 characters and has no surrounding whitespace. With none it is "Untitled <genre> Film". |
| TextAnalysis.AnalyzeSummary | app/text_analysis.py:169-191 | The analysis keeps the given genre. Its mood, palette, keywords and title are non-empty. The tagline starts with "A <mood> ". The title is short or the fallback. That each field is its rule's answer for the genre, and the title is the summary's, is proved as `TextAnalysisProperties.AnalysisFields`. |
| TextAnalysisProperties.RulesIgnoreCaseAndPadding | app/text_analysis.py:65-66 | Labels with the same lower case give the same mood, palette, keywords and tagline core, even with surrounding whitespace. |
| TextAnalysisProperties.NormalizeIdempotent | app/text_analysis.py:65-66 | Normalising twice is normalising once. |
| TextAnalysisProperties.RulesOfNormalized | app/text_analysis.py:65-166 | Every rule sees only the normalised label. |
| TextAnalysisProperties.NoRuleFires | app/text_analysis.py:69-164 | A label containing none of a table's keywords gets the table's fallback. |
| TextAnalysisProperties.TablesUseListedKeywords | app/text_analysis.py:69-164 | Every table's keywords come from one fixed list of twelve words. |
| TextAnalysisProperties.UnmatchedGenreGetsDefaults | app/text_analysis.py:69-164 | A label matching no keyword gets mood "dramatic", the balanced palette, the three default keywords and the core "story". |
| TextAnalysisProperties.MoodKeywordRule | app/text_analysis.py:69-84 | Every mood keyword belongs to some mood rule. |
| TextAnalysisProperties.DramaticMoodIffNoKeyword | app/text_analysis.py:69-85 | The mood is "dramatic" iff no mood keyword occurs in the label. |
| TextAnalysisProperties.ThrillerOutranksSci | app/text_analysis.py:71-82 | A label with "thriller" and without "horror" is "tense and gripping", even when it also says "sci". |
| TextAnalysisProperties.HorrorOutranksEverything | app/text_analysis.py:69-164 | "horror" decides all four choices, whatever else the label says. |
| TextAnalysisProperties.TitleFromFirstSixWords | app/text_analysis.py:130-140 | With words present, the title is the first six words title-cased, cut to 60 characters and stripped. |
| TextAnalysisProperties.TitleDependsOnFirstSixWords | app/text_analysis.py:130-134 | Summaries whose first six words agree get the same title, whatever the genre. |
| TextAnalysisProperties.CoresSuffixFree | app/text_analysis.py:150-164 | No tagline core ends with another one, so the end of a tagline singles out its core. |
| TextAnalysisProperties.TaglineDeterminesMoodAndCore | app/text_analysis.py:146-166 | Two taglines are equal iff their moods are equal and their genres pick the same core: the tagline can be parsed back into its mood and core. |
| TextAnalysisProperties.UntitledFallback | app/text_analysis.py:130-142 | A summary of only whitespace, quotes and line breaks gets "Untitled <genre> Film". |
| TextAnalysisProperties.StyleHintIgnored | app/text_analysis.py:169-191 | The style hint has no effect on the analysis. |
| TextAnalysisProperties.AnalysisDependsOnGenre | app/text_analysis.py:177-182 | Two summaries with the same genre differ at most in the title. |
| TextAnalysisExamples.SciFiThrillerExample | app/text_analysis.py:73-74 | "Sci-Fi Thriller" is "tense and gripping": the thriller row comes before the sci row. |
| TextAnalysisExamples.HorrorComedyExample | app/text_analysis.py:71-72 | "Horror Comedy" is "dark and suspenseful". |
| TextAnalysisExamples.FamilyAndComedyExample | app/text_analysis.py:69-102 | "Family" and "Comedy" share a palette, but "Family" falls through to the "dramatic" mood. |
| TextAnalysisExamples.MysteryExample | app/text_analysis.py:69-164 | "Mystery" is tense in mood but gets the default palette and the "story" core. |
| TextAnalysisExamples.DocumentaryTagline | app/text_analysis.py:151-166 | "Documentary" has no tagline row, so its tagline ends in "story.". |
| TextAnalysisExamples.ActionExample | app/text_analysis.py:79-166 | "Action" is "dynamic and energetic", and its tagline uses "mission you'll never forget". |
| Text.Lower | app/text_analysis.py:66 | `lower` keeps the length and lower-cases each ASCII letter. |
| Text.Words | app/text_analysis.py:131 | `split()` yields non-empty words without whitespace. |
| Text.WordsEmptyIff | app/text_analysis.py:131-137 | `split()` gives no words iff the text is all whitespace, which is the case that leads to the fallback title. |
| Text.WordsOfFill | app/text_analysis.py:131 | Words separated by whitespace gaps (possibly empty at either end) split back into exactly those words, in order. |
| Text.WordsGaps | app/text_analysis.py:131 | Every text is its words separated by whitespace gaps, non-empty between words: nothing but whitespace is dropped. |
| Text.Title | app/text_analysis.py:133-136 | `title` keeps the length and every non-letter. It upper-cases a letter at the start or after a non-letter, and lower-cases a letter after a letter. |
| Text.TitleIdempotent | app/text_analysis.py:133-136 | Title-casing a title-cased text changes nothing. |
| Text.StripIdempotent | app/text_analysis.py:66 | Stripping twice is stripping once. |
| Text.IntToString | save_poster.py:59 | `str(id)` is a minus sign exactly for negative ids, then the decimal digits whose value is the id's magnitude, without leading zeros. |
| Text.ParseIntToString | save_poster.py:59 | Reading the printed id back as a decimal integer gives the id. |
| Text.IntToStringOfParse | save_poster.py:59 | Every canonical decimal numeral is the printed form of the integer it denotes. |
| Text.IntToStringInjective | save_poster.py:59 | Different ids print differently. |
| PromptGenerator.PromptFraming | app/prompt_generator.py:14-24 | The prompt opens with "Movie poster, <variant> key art" and closes with the summary sentence or the style sentence. |
| PromptGenerator.PromptFieldsInOrder | app/prompt_generator.py:14-22 | Variant, genre, mood, palette, keywords, title, tagline and summary appear in that order. |
| PromptGenerator.PromptMentionsFields | app/prompt_generator.py:14-22 | Every analysis field and the summary occur in the prompt. |
| PromptGenerator.StyleClause | app/prompt_generator.py:23-24 | The style sentence is empty exactly when the hint is missing or empty. |
| PromptGenerator.EmptyHintIsNoHint | app/prompt_generator.py:23 | An empty hint and no hint give the same prompt. |
| PromptGenerator.HintAppendsSentence | app/prompt_generator.py:23-24 | A non-empty hint appends "The overall style should feel <hint>." to the base prompt. |
| PromptGenerator.VariantsDifferOnlyInName | app/prompt_generator.py:14-15 | Prompts for two variants differ only in the variant name. |
| PromptGenerator.DistinctVariantsDistinctPrompts | app/prompt_generator.py:14-15 | Different variant names give different prompts. |
| PromptGenerator.CampaignPromptsDistinct | app/prompt_generator.py:36-44 | The three campaign prompts are pairwise distinct. |
| PromptGenerator.GeneratePrompts | app/prompt_generator.py:28-45 | Exactly three prompts, in the order theatrical, streaming thumbnail, social teaser, each built for its variant. |
| PosterGenerator.SinglePromptShape | app/poster_generator.py:13-20 | The prompt starts with the fixed lead and the quoted summary. It ends with the fixed sentence, or with the style sentence holding the hint verbatim. |
| PosterGenerator.SingleEmptyHint | app/poster_generator.py:18 | An empty hint and no hint give the same single prompt. |
| PosterGenerator.SingleQuotesSummary | app/poster_generator.py:13-20 | The summary appears in double quotes. |
| PosterGenerator.FormatPlain | app/poster_generator.py:20 | `str.format` returns brace-free text unchanged. |
| PosterGenerator.FormatField | app/poster_generator.py:20 | `{summary}` is replaced by the summary, and formatting continues with the rest. |
| PosterGenerator.FormatAfterPlain | app/poster_generator.py:20 | Brace-free text passes through formatting unchanged. |
| PosterGenerator.SinglePromptAsWritten | app/poster_generator.py:12-20 | As written, the hint is formatted with the template: it agrees with the intended prompt whenever the hint has no braces. |
| PosterGenerator.BraceInHintFails | app/poster_generator.py:18-20 | As written, the hint `{x}` makes prompt building fail. |
| PosterGenerator.SelectProvider | app/poster_generator.py:77-81 | Hugging Face is chosen iff the lower-cased setting is "huggingface"; anything else is OpenAI. |
| PosterGenerator.ProviderIgnoresCase | app/poster_generator.py:77-81 | Settings with the same lower case choose the same provider. |
| PosterGenerator.Connect | app/poster_generator.py:99-112 | Connecting succeeds iff the chosen provider's key is truthy; otherwise it fails with that provider's fixed message. |
| PosterGenerator.DataUrl | app/poster_generator.py:62-66 | An inline image is "data:image/png;base64," followed by the base64 of the PNG. |
| PosterGenerator.Render | app/poster_generator.py:26-68 | OpenAI's answer is passed through. Hugging Face's PNG becomes its data URL, and its failure propagates. |
| PosterGenerator.GeneratePoster | app/poster_generator.py:74-86 | The prompt is built first, so a formatting failure wins. Then a missing key fails with its message. Otherwise the response is the service's image with the prompt used, or the service's error. |
| PosterGenerator.CredentialsCheckedFirst | app/poster_generator.py:26-86 | When the prompt fails or the key is missing, the outcome does not depend on the services. It is the format error or one of the two key messages, and a key message whenever the hint has no braces. |
| PosterGenerator.BraceFreeHintPoster | app/poster_generator.py:74-86 | Without braces in the hint, the poster endpoint behaves as if the intended prompt were sent. |
| PosterGenerator.HuggingFacePoster | app/poster_generator.py:54-86 | On the Hugging Face path the poster is the data URL of the returned PNG, with the prompt that was sent. |
| PosterGenerator.SlotsLength | app/poster_generator.py:114-118 | The campaign asks for `prompts × n` images. |
| PosterGenerator.SlotsAt | app/poster_generator.py:114-118 | Image `i*n+j` is for prompt `i`, prompt-major. |
| PosterGenerator.GenerateImagesForCampaign | app/poster_generator.py:89-145 | A missing key fails before any call. On success, image `k` copies slot `k`'s variant and prompt, and its URL answers call `k`. A failure is the first failing call, with no result list. |
| PosterGenerator.AskCopies | app/poster_generator.py:118-143 | The inner loop asks for `n` copies of one prompt, in order, and stops at the first failure. |
| PosterGenerator.CampaignEntry | app/poster_generator.py:114-143 | Every entry of a successful run is prompt `i`'s variant and prompt, with the answer to its own call. |
| App.Generate | app/main.py:29-37 | The single-poster endpoint returns the poster, or a 500 whose detail is the failure's message. |
| App.NumberVariants | app/main.py:60-69 | Poster `k` gets id `k` and copies image `k`'s variant, prompt and URL. |
| App.Campaign | app/main.py:71-79 | The campaign copies the six analysis fields and holds the numbered posters. |
| App.BraceHintIsServerError | app/main.py:29-37 | The style hint `{x}` makes the single-poster endpoint answer with a 500 and the format error, whatever the settings and services. |
| App.GenerateCampaign | app/main.py:40-81 | A classifier failure or a missing key gives a 500 with no image request. Every failure is a 500. Past those, the campaign succeeds iff every one of the three image requests succeeds; a failure carries the message of the first failing request, which is the last one sent. A success holds three posters, numbered 0..2 in variant order, each with its prompt and the answer to that prompt's request. |
| App.StoppedIsFailedAt | app/main.py:58-81 | An image run that stopped at a failing call stops the campaign at that poster's request. |
| App.CampaignAssembled | app/main.py:55-79 | A successful run of the three stages assembles into such a campaign, and every image request succeeded. |
| Base64.Encode | app/poster_generator.py:65 | The encoding has a length divisible by four and uses only the base64 alphabet and padding. |
| Base64.RoundTrip | save_poster.py:14 | Decoding an encoding gives back the bytes. |
| Base64.KnownAnswers | app/poster_generator.py:65 | The encoder gives the test vectors "", "f", "fo" and "foo" of section 10 of RFC 4648. |
| Base64.KnownAnswersLonger | app/poster_generator.py:65 | The encoder gives the test vectors "foob", "fooba" and "foobar" of section 10 of RFC 4648. |
| Base64.EncodedLength | app/poster_generator.py:65 | n bytes encode to 4·⌈n/3⌉ characters. |
| SavePoster.FirstIndex | save_poster.py:13 | The first comma is found iff there is one, and nothing before it is a comma. |
| SavePoster.SaveDataUrl | save_poster.py:9-14 | A URL without a comma fails as the two-target unpacking does. A success writes to the given path. |
| SavePoster.DecodesAfterFirstComma | save_poster.py:13-14 | Only the text after the first comma is decoded: the result is exactly what base64 decoding of it gives. |
| SavePoster.DataUrlRoundTrip | save_poster.py:9-14 | A data URL made by the service decodes to the PNG it carries. |
| SavePoster.ReplaceSpaces | save_poster.py:52 | `replace(" ", "_")` keeps the length, turns every space into `_` and keeps every other character, so no space is left. |
| SavePoster.ReplaceSpacesIdempotent | save_poster.py:52 | The replacement changes nothing iff there was no space, and a second pass changes nothing. |
| SavePoster.EntryName | save_poster.py:52 | The name is the truthy variant, or else "variant_<id or x>", with spaces replaced. It never holds a space. |
| SavePoster.FileNameShape | save_poster.py:52-59 | The file name is "<id>_", the name, then ".png", and holds no space. |
| SavePoster.FileNameId | save_poster.py:59 | The id is exactly the text before the first underscore. |
| SavePoster.DistinctIdsDistinctFiles | save_poster.py:59 | Entries with different ids get different file names. |
| SavePoster.PathJoinEnds | save_poster.py:43-69 | The joined path ends with the name, and is the name alone when that is absolute. |
| SavePoster.PathJoinInjective | save_poster.py:60 | Under one directory, different relative names give different paths. |
| SavePoster.PlanOf | save_poster.py:51-60 | An entry yields one write iff its image URL is truthy, and that write decodes that URL. |
| SavePoster.PlannedAppend | save_poster.py:50-61 | The writes for a concatenation of entries are the writes for each part, in order. |
| SavePoster.PlannedEntries | save_poster.py:50-61 | When every entry has an image, write `k` is entry `k`'s. |
| SavePoster.RanWithoutErrorIff | save_poster.py:50-61 | The loop ends without error iff every planned write decodes. |
| SavePoster.SaveVariants | save_poster.py:50-61 | The loop makes the planned writes in order and stops at the first failing decode, keeping what was written. |
| SavePoster.LStripSlashes | save_poster.py:30 | `lstrip('/')` removes exactly the leading slashes. |
| SavePoster.EndpointUrl | save_poster.py:30 | The URL is the service address, one slash, and the endpoint without its leading slashes. |
| SavePoster.EndpointIgnoresLeadingSlash | save_poster.py:30 | "/x" and "x" reach the same URL. |
| SavePoster.Plan | save_poster.py:40-74 | A response is rejected with "Unknown response format" iff it has neither `variants` nor `image_url`. |
| SavePoster.VariantsTakePriority | save_poster.py:40-70 | `variants` wins over `image_url`, and an empty list writes nothing. |
| SavePoster.SinglePosterPath | save_poster.py:64-70 | A single poster is written to `outputs/<prefix>.png`. |
| SavePoster.GenerateAndSave | save_poster.py:23-76 | It posts to the endpoint URL. An HTTP failure writes nothing. A known format runs its writes. An unknown one fails with nothing written. |
| SavePoster.CampaignBody | app/main.py:71-79 | A campaign reaches the script with one full entry per poster and no top-level image. |
| SavePoster.CampaignImagesSaved | save_poster.py:40-61 | A campaign of inline PNGs is saved without error, each PNG to the file named after its poster. |
| SavePoster.PosterImageSaved | save_poster.py:64-70 | A single inline PNG poster is saved to `outputs/<prefix>.png` with its bytes. |
| SavePoster.CampaignFilesDistinct | save_poster.py:59-60 | Posters numbered by position never share an output file. |
| LabelMapping.Genres | train_text_classifier.py:33 | `sorted(set(...))`: strictly increasing, and holding exactly the training labels. |
| LabelMapping.SortedUnique | train_text_classifier.py:33 | Only one strictly increasing list has a given set of labels. |
| LabelMapping.GenresDependOnlyOnSet | train_text_classifier.py:33 | Order and duplicates in the data do not change the genre list. |
| LabelMapping.LessTotal | train_text_classifier.py:33 | Python's string order is total on different strings. |
| LabelMapping.LessTransitive | train_text_classifier.py:33 | Python's string order is transitive. |
| LabelMapping.Number | train_text_classifier.py:34 | `enumerate` numbers genre `k` as `k` and covers exactly the genres. |
| LabelMapping.NumberOrdered | train_text_classifier.py:33-34 | Ids follow the label order, and different labels get different ids. |
| LabelMapping.Invert | train_text_classifier.py:35 | The inverted map sends each id back to its label, and only ids that occur are keys. |
| LabelMapping.InverseIsDense | train_text_classifier.py:34-35 | The ids are exactly 0..n-1. |
| LabelMapping.PrepareLabelMapping | train_text_classifier.py:31-36 | Labels are exactly the distinct training genres, with dense, order-following ids, and the two maps are exact inverses. |
| LabelMapping.NumLabels | train_text_classifier.py:53 | `num_labels` is the number of distinct genres, and every id below it has a label. |
| LabelMapping.EncodeLabels | train_text_classifier.py:70 | Encoding succeeds iff every genre has an id. It then gives each genre's id in order; otherwise it fails naming a missing genre. |
| LabelMapping.EncodeDecode | train_text_classifier.py:33-70 | Every training genre encodes, and `id2label` gives it back. |
| LabelMapping.SelectSamples | train_text_classifier.py:97-105 | The selection is the first `min(cap, len)` samples. |
| LabelMapping.SelectIdempotent | train_text_classifier.py:97-105 | Capping twice is capping once, and a split under its cap is kept whole. |

## Left out

- Classifier inference (`predict_genre`, `_load_classifier` and the id-key conversion at app/text_analysis.py:39-60): this is neural-network code. The genre is an input or a parameter.
- Training and evaluation in train_text_classifier.py (tokenising, batching, loss, accuracy, F1, device choice): floating point and library code. The seeded shuffle is also left out, because it draws on a random generator; a split is given already shuffled.
- OpenAI and Hugging Face clients: foreign network calls. Each is a function parameter that takes the call number. PIL's PNG encoding (`image.save`) is opaque; the Hugging Face client answers with PNG bytes directly.
- The web layer: FastAPI routing, CORS and `/health`. `HTTPException` is the `App.HttpError` value.
- app/config.py is not part of this model. Its settings are plain values.
- save_poster.py I/O: the HTTP request, `os.makedirs`, file writes and prints. A write is a `SavePoster.Saved` value. The HTTP exchange is the `post` parameter, with a non-success status or a non-JSON body as its failure.
- JSON values of other types: a `null`, an id that is not an integer, or a `variants` value that is not a list. Present keys have the types the service sends.
- The `__main__` block of save_poster.py and test_hf.py: demonstration calls with no logic.
- Text.Lower and Text.Title: only ASCII letters change case. Python's full Unicode case mapping is not modelled. Title also treats every non-ASCII letter as a non-letter, so one starts a new word: `Title("naïve")` gives "NaïVe" where Python gives "Naïve".
- Base64.Decode: strict. It takes only canonical, padded text. Python's `b64decode` also drops characters outside the alphabet. The two agree on every string that `b64encode` produces.
- PosterGenerator.Format: a replacement field other than a bare `{summary}` is an error. Python would also accept conversions and format specs such as `{summary!r}`, index and attribute fields such as `{summary[0]}` and `{summary.upper}`, and it raises different exception types with their own messages. The model uses one message for all of them.
- LabelMapping.EncodeLabels: the failure carries the missing genre. Python's `KeyError` message shows it with quotes.
- LabelMapping.Invert: requires the ids to be distinct. `label2id` always gives distinct ids, so Python's last-wins rule for repeated keys never applies.

## Findings

| source | as written | input that shows it | evidently intended | confidence | as-written member | corrected member |
|---|---|---|---|---|---|---|
| app/poster_generator.py:18-20 | The style hint is appended to the template before `str.format(summary=...)` runs, so `format` parses the hint too. | the style hint `{x}`: `format` looks for a keyword argument `x`, so the poster request fails with a 500 | the hint is inserted verbatim, just as the summary is | high (not executed) | PosterGenerator.SinglePromptAsWritten, PosterGenerator.BraceInHintFails, App.BraceHintIsServerError | PosterGenerator.SinglePrompt, PosterGenerator.SinglePromptShape, PosterGenerator.BraceFreeHintPoster |

The single-poster endpoint (`PosterGenerator.GeneratePoster`, `App.Generate`) runs the prompt as written, as the service does. `PosterGenerator.BraceFreeHintPoster` shows it sends the corrected prompt `PosterGenerator.SinglePrompt` whenever the hint has no braces; the two differ only when it has one.
