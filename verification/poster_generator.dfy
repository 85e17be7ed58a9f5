/** The image back end of app/poster_generator.py: the single-poster
    prompt, the choice of provider, the credential check and the campaign
    fan-out. The OpenAI and Hugging Face services are parameters: a client
    is a function from its request to a result, and the number of the call
    within a run is part of the request, so that the same prompt may give a
    different picture each time. */
module PosterGenerator {
  import opened Results
  import opened Text
  import opened Schemas
  import Base64

  /** The two image services. */
  datatype Provider = OpenAI | HuggingFace

  /** The configuration values the module reads. */
  datatype Settings = Settings(
    imageProvider: string,
    openaiApiKey: Option<string>,
    hfApiKey: Option<string>,
    imageModel: string,
    imageSize: string,
    hfModel: string)

  /** The two services. `openai(key, model, size, prompt, call)` answers
      with the URL of one image; `huggingFace(key, model, prompt, call)` with
      the PNG bytes of one image. A failure carries the exception's message. */
  datatype Clients = Clients(
    openai: (string, string, string, string, nat) -> Result<string, string>,
    huggingFace: (string, string, string, nat) -> Result<seq<Base64.Byte>, string>)

  /** A connected client: the provider together with its key. */
  datatype Backend = OpenAIBackend(openaiKey: string) | HuggingFaceBackend(hfKey: string)

  const OpenAIKeyMissing: string := "OPENAI_API_KEY not set, IMAGE_PROVIDER=openai"
  const HFKeyMissing: string := "HF_API_KEY not set, IMAGE_PROVIDER=huggingface"

  /** The fixed opening of the single-poster prompt, up to the summary. */
  const SingleIntro: string :=
    "Movie poster, cinematic " + "composition, dramatic " + "lighting, high detail, 4k. "
    + "Design a poster for a " + "movie with the following " + "description: "

  /** The fixed last sentence, after the quoted summary. */
  const SingleOutro: string := ". Include a central " + "character and bold " + "typography."

  /** The summary between double quotes, as the template writes it. */
  function Quoted(s: string): (q: string)
    ensures |q| == |s| + 2 && q[0] == '"' && q[|q| - 1] == '"' && q[1..|q| - 1] == s
  {
    "\"" + s + "\""
  }

  const StyleFeel: string := " The style should feel "

  /** No `{` or `}`: text that `str.format` passes through unchanged. */
  predicate BraceFree(s: string) {
    forall i :: 0 <= i < |s| ==> s[i] != '{' && s[i] != '}'
  }

  /** The style sentence appended for a truthy hint. */
  function SingleStyle(hint: Option<string>): (clause: string)
    ensures !Truthy(hint) <==> clause == ""
  {
    if Truthy(hint) then StyleFeel + hint.value + "." else ""
  }

  /** `build_poster_prompt(request)` as evidently intended: the template
      with `{summary}` replaced by the summary, then the hint sentence
      appended verbatim. The source formats after appending the hint; see
      `SinglePromptAsWritten`. */
  function SinglePrompt(request: PosterRequest): string
  {
    SingleIntro + Quoted(request.summary) + SingleOutro + SingleStyle(request.styleHint)
  }

  /** The one replacement field of the single-poster template. */
  const SummaryField: string := "{summary}"

  /** The message of every `str.format` failure; the model does not
      distinguish `KeyError`, `IndexError` and `ValueError`. */
  const FormatError: string := "invalid format string"

  /** Puts `p` in front of a successful result. */
  function Prepend(p: string, r: Result<string, string>): (q: Result<string, string>)
    ensures q.Success? <==> r.Success?
    ensures q.Success? ==> q.value == p + r.value
    ensures q.Failure? ==> q == r
  {
    if r.Success? then Success(p + r.value) else r
  }

  /** `template.format(summary=summary)`: `{{` and `}}` stand for single
      braces, `{summary}` for the summary, and any other brace fails. */
  function Format(t: string, summary: string): (r: Result<string, string>)
    ensures r.Failure? ==> r.error == FormatError
    decreases |t|
  {
    if |t| == 0 then Success("")
    else if t[0] == '{' then
      if |t| >= 2 && t[1] == '{' then Prepend("{", Format(t[2..], summary))
      else if |t| >= |SummaryField| && t[..|SummaryField|] == SummaryField then
        Prepend(summary, Format(t[|SummaryField|..], summary))
      else Failure(FormatError)
    else if t[0] == '}' then
      if |t| >= 2 && t[1] == '}' then Prepend("}", Format(t[2..], summary)) else Failure(FormatError)
    else
      Prepend([t[0]], Format(t[1..], summary))
  }

  /** A character that is not a brace is copied. */
  lemma FormatPlainHead(t: string, summary: string)
    requires |t| > 0 && t[0] != '{' && t[0] != '}'
    ensures Format(t, summary) == Prepend([t[0]], Format(t[1..], summary))
  {
  }

  /** Brace-free text in front passes through `Format` unchanged. */
  lemma {:induction false} FormatAfterPlain(a: string, t: string, summary: string)
    requires BraceFree(a)
    ensures Format(a + t, summary) == Prepend(a, Format(t, summary))
    decreases |a|
  {
    if |a| > 0 {
      assert (a + t)[0] == a[0] && (a + t)[1..] == a[1..] + t;
      FormatAfterPlain(a[1..], t, summary);
      FormatPlainHead(a + t, summary);
      assert [a[0]] + a[1..] == a;
      if Format(t, summary).Success? {
        var v := Format(t, summary).value;
        assert [a[0]] + (a[1..] + v) == a + v;
      }
    } else {
      assert a + t == t;
      if Format(t, summary).Success? {
        assert a + Format(t, summary).value == Format(t, summary).value;
      }
    }
  }

  /** Brace-free text is its own formatting. */
  lemma FormatPlain(t: string, summary: string)
    requires BraceFree(t)
    ensures Format(t, summary) == Success(t)
  {
    FormatAfterPlain(t, "", summary);
    assert t + "" == t;
  }

  /** The replacement field becomes the summary. */
  lemma FormatField(t: string, summary: string)
    ensures Format(SummaryField + t, summary) == Prepend(summary, Format(t, summary))
  {
    var u := SummaryField + t;
    assert u[0] == '{' && u[1] == 's';
    assert u[..|SummaryField|] == SummaryField && u[|SummaryField|..] == t;
  }

  lemma BraceFreeAppend(a: string, b: string)
    requires BraceFree(a) && BraceFree(b)
    ensures BraceFree(a + b)
  {
    forall i | 0 <= i < |a + b| ensures (a + b)[i] != '{' && (a + b)[i] != '}' {
      if i >= |a| { assert (a + b)[i] == b[i - |a|]; }
    }
  }

  /** The fixed parts of the single-poster template hold no braces besides
      the replacement field. */
  lemma TemplatePiecesBraceFree()
    ensures BraceFree(SingleIntro + "\"") && BraceFree("\"" + SingleOutro) && BraceFree(StyleFeel)
  {
    IntroBraceFree();
    OutroBraceFree();
    assert BraceFree(" The style ") && BraceFree("should feel ");
    BraceFreeAppend(" The style ", "should feel ");
    assert StyleFeel == " The style " + "should feel ";
  }

  lemma IntroBraceFree()
    ensures BraceFree(SingleIntro + "\"")
  {
    var i1, i2, i3 := "Movie poster, cinematic ", "composition, dramatic ", "lighting, high detail, 4k. ";
    var i4, i5, i6 := "Design a poster for a ", "movie with the following ", "description: ";
    IntroHeadBraceFree();
    assert BraceFree(i4) && BraceFree(i5) && BraceFree(i6);
    BraceFreeAppend(i1 + i2 + i3, i4);
    BraceFreeAppend(i1 + i2 + i3 + i4, i5);
    BraceFreeAppend(i1 + i2 + i3 + i4 + i5, i6);
    assert BraceFree("\"");
    BraceFreeAppend(SingleIntro, "\"");
  }

  lemma IntroHeadBraceFree()
    ensures BraceFree("Movie poster, cinematic " + "composition, dramatic " + "lighting, high detail, 4k. ")
  {
    var i1, i2, i3 := "Movie poster, cinematic ", "composition, dramatic ", "lighting, high detail, 4k. ";
    assert BraceFree(i1) && BraceFree(i2) && BraceFree(i3);
    BraceFreeAppend(i1, i2);
    BraceFreeAppend(i1 + i2, i3);
  }

  lemma OutroBraceFree()
    ensures BraceFree("\"" + SingleOutro)
  {
    var o1, o2, o3 := ". Include a central ", "character and bold ", "typography.";
    assert BraceFree("\"") && BraceFree(o1) && BraceFree(o2) && BraceFree(o3);
    BraceFreeAppend(o1, o2);
    BraceFreeAppend(o1 + o2, o3);
    BraceFreeAppend("\"", SingleOutro);
  }

  /** `build_poster_prompt(request)` as written: the hint sentence is
      appended to the template before `str.format` runs, so the hint is
      parsed as part of the format string. */
  function SinglePromptAsWritten(request: PosterRequest): (r: Result<string, string>)
    ensures !Truthy(request.styleHint) || BraceFree(request.styleHint.value) ==>
      r == Success(SinglePrompt(request))
    ensures r.Failure? ==> r.error == FormatError
  {
    var before, after := SingleIntro + "\"", "\"" + SingleOutro + SingleStyle(request.styleHint);
    TemplatePiecesBraceFree();
    FormatSinglePieces(before, after, request);
    Format(before + SummaryField + after, request.summary)
  }

  /** The formatted template is the corrected prompt whenever the hint has
      no braces. */
  lemma FormatSinglePieces(before: string, after: string, request: PosterRequest)
    requires before == SingleIntro + "\"" && after == "\"" + SingleOutro + SingleStyle(request.styleHint)
    requires BraceFree(before) && BraceFree("\"" + SingleOutro) && BraceFree(StyleFeel)
    ensures !Truthy(request.styleHint) || BraceFree(request.styleHint.value) ==>
      Format(before + SummaryField + after, request.summary) == Success(SinglePrompt(request))
  {
    if !Truthy(request.styleHint) || BraceFree(request.styleHint.value) {
      var style := SingleStyle(request.styleHint);
      if Truthy(request.styleHint) {
        BraceFreeAppend(StyleFeel, request.styleHint.value);
        assert BraceFree(".");
        BraceFreeAppend(StyleFeel + request.styleHint.value, ".");
      }
      assert BraceFree(style);
      BraceFreeAppend("\"" + SingleOutro, style);
      FormatPlain(after, request.summary);
      FormatField(after, request.summary);
      FormatAfterPlain(before, SummaryField + after, request.summary);
      assert before + SummaryField + after == before + (SummaryField + after);
      TemplateRegroup(SingleIntro, request.summary, SingleOutro, style);
    }
  }

  lemma TemplateRegroup(intro: string, summary: string, outro: string, style: string)
    ensures intro + Quoted(summary) + outro + style
         == (intro + "\"") + (summary + (("\"" + outro) + style))
  {
  }

  /** The hint `{x}` makes the prompt as written fail: `str.format` looks
      for a keyword argument `x`, so the endpoint answers with an error
      instead of a poster. */
  lemma BraceInHintFails(summary: string)
    ensures SinglePromptAsWritten(PosterRequest(summary, Some("{x}"))).Failure?
  {
    var before := SingleIntro + "\"";
    var mid := "\"" + SingleOutro + StyleFeel;
    var after := mid + "{x}.";
    TemplatePiecesBraceFree();
    assert BraceFree(mid) by {
      var q := "\"" + SingleOutro;
      forall i | 0 <= i < |mid| ensures mid[i] != '{' && mid[i] != '}' {
        if i < |q| { assert mid[i] == q[i]; } else { assert mid[i] == StyleFeel[i - |q|]; }
      }
    }
    assert SingleStyle(Some("{x}")) == StyleFeel + "{x}" + ".";
    assert after == "\"" + SingleOutro + SingleStyle(Some("{x}"));
    FormatAfterPlain(before, SummaryField + after, summary);
    FormatField(after, summary);
    FormatAfterPlain(mid, "{x}.", summary);
    assert before + SummaryField + after == before + (SummaryField + after);
    var tail := "{x}.";
    assert tail[0] == '{' && tail[1] == 'x';
    assert Format(tail, summary) == Failure(FormatError);
  }

  /** The prompt opens with the fixed lead and the quoted summary; it ends
      with the fixed sentence or, for a truthy hint, with the style
      sentence. */
  lemma SinglePromptShape(request: PosterRequest)
    ensures var prompt := SinglePrompt(request);
      var base := SingleIntro + Quoted(request.summary) + SingleOutro;
      && StartsWith(prompt, base)
      && (!Truthy(request.styleHint) ==> prompt == base)
      && (Truthy(request.styleHint) ==> EndsWith(prompt, StyleFeel + request.styleHint.value + "."))
  {
    var base := SingleIntro + Quoted(request.summary) + SingleOutro;
    var clause := SingleStyle(request.styleHint);
    assert (base + clause)[..|base|] == base;
  }

  /** A missing hint and an empty one give the same prompt. */
  lemma SingleEmptyHint(summary: string)
    ensures SinglePrompt(PosterRequest(summary, Some(""))) == SinglePrompt(PosterRequest(summary, None))
  {
  }

  /** The summary is quoted verbatim: the prompt shows `"<summary>"`. */
  lemma SingleQuotesSummary(request: PosterRequest)
    ensures Contains(SinglePrompt(request), Quoted(request.summary))
  {
    var quoted := Quoted(request.summary);
    var rest := SingleOutro + SingleStyle(request.styleHint);
    RegroupPairs(SingleIntro, quoted, SingleOutro, SingleStyle(request.styleHint));
    OccursInMiddle(SingleIntro, quoted, rest);
    ContainsIff(SinglePrompt(request), quoted);
  }

  /** `settings.image_provider.lower() == "huggingface"`. */
  function SelectProvider(config: string): (p: Provider)
    ensures p == HuggingFace <==> Lower(config) == "huggingface"
  {
    if Lower(config) == "huggingface" then HuggingFace else OpenAI
  }

  /** The choice ignores case: any spelling with the same lower case selects
      the same provider, so "HuggingFace" and "HUGGINGFACE" select Hugging
      Face, and every other string, the empty one included, selects OpenAI. */
  lemma ProviderIgnoresCase(a: string, b: string)
    requires Lower(a) == Lower(b)
    ensures SelectProvider(a) == SelectProvider(b)
  {
  }

  lemma ProviderExamples()
    ensures SelectProvider("huggingface") == HuggingFace
    ensures SelectProvider("") == OpenAI
  {
    LowerOfUncapitalised("huggingface");
  }

  /** The credential check: the selected provider's key must be truthy. */
  function Connect(settings: Settings): (r: Result<Backend, string>)
    ensures SelectProvider(settings.imageProvider) == OpenAI ==>
      (r.Success? <==> Truthy(settings.openaiApiKey)) &&
      (r.Success? ==> r.value == OpenAIBackend(settings.openaiApiKey.value)) &&
      (r.Failure? ==> r.error == OpenAIKeyMissing)
    ensures SelectProvider(settings.imageProvider) == HuggingFace ==>
      (r.Success? <==> Truthy(settings.hfApiKey)) &&
      (r.Success? ==> r.value == HuggingFaceBackend(settings.hfApiKey.value)) &&
      (r.Failure? ==> r.error == HFKeyMissing)
  {
    match SelectProvider(settings.imageProvider)
    case OpenAI =>
      if Truthy(settings.openaiApiKey) then Success(OpenAIBackend(settings.openaiApiKey.value))
      else Failure(OpenAIKeyMissing)
    case HuggingFace =>
      if Truthy(settings.hfApiKey) then Success(HuggingFaceBackend(settings.hfApiKey.value))
      else Failure(HFKeyMissing)
  }

  /** The media type and encoding of an inline PNG, before the comma that
      starts its data. */
  const DataUrlHeader: string := "data:image/png;base64"

  const DataUrlPrefix: string := DataUrlHeader + ","

  /** `f"data:image/png;base64,{b64}"`: an inline PNG reference, the data
      URL scheme of RFC 2397 around the base64 text of RFC 4648. */
  function DataUrl(png: seq<Base64.Byte>): (url: string)
    ensures StartsWith(url, DataUrlPrefix)
    ensures url[|DataUrlPrefix|..] == Base64.Encode(png)
  {
    DataUrlPrefix + Base64.Encode(png)
  }

  /** One image from a connected back end: the URL OpenAI answers with, or
      the data URL of the PNG Hugging Face answers with. `call` numbers the
      request within the run. */
  function Render(backend: Backend, clients: Clients, settings: Settings, prompt: string, call: nat): (r: Result<string, string>)
    ensures backend.HuggingFaceBackend? ==>
      var png := clients.huggingFace(backend.hfKey, settings.hfModel, prompt, call);
      (r.Success? <==> png.Success?) && (r.Success? ==> r.value == DataUrl(png.value))
    ensures backend.OpenAIBackend? ==>
      r == clients.openai(backend.openaiKey, settings.imageModel, settings.imageSize, prompt, call)
  {
    match backend
    case OpenAIBackend(key) => clients.openai(key, settings.imageModel, settings.imageSize, prompt, call)
    case HuggingFaceBackend(key) =>
      var png :- clients.huggingFace(key, settings.hfModel, prompt, call);
      Success(DataUrl(png))
  }

  /** `generate_poster`: build the prompt as written, check the
      credentials, then ask the selected service for one image. A hint the
      template formatting rejects fails before the credentials are looked
      at. */
  function GeneratePoster(settings: Settings, clients: Clients, request: PosterRequest): (r: Result<PosterResponse, string>)
    ensures SinglePromptAsWritten(request).Failure? ==> r == Failure(FormatError)
    ensures SinglePromptAsWritten(request).Success? && Connect(settings).Failure? ==>
      r == Failure(Connect(settings).error)
    ensures SinglePromptAsWritten(request).Success? && Connect(settings).Success? ==>
      var prompt := SinglePromptAsWritten(request).value;
      var url := Render(Connect(settings).value, clients, settings, prompt, 0);
      (r.Success? <==> url.Success?) &&
      (r.Success? ==> r.value == PosterResponse(url.value, prompt)) &&
      (r.Failure? ==> r.error == url.error)
  {
    var prompt :- SinglePromptAsWritten(request);
    var backend :- Connect(settings);
    var url :- Render(backend, clients, settings, prompt, 0);
    Success(PosterResponse(url, prompt))
  }

  /** No service is asked before the prompt is built and the key is found:
      when either step fails, the outcome is the same whatever the services
      would answer, and it is the formatting error or one of the two key
      messages. */
  lemma CredentialsCheckedFirst(settings: Settings, c1: Clients, c2: Clients, request: PosterRequest)
    requires SinglePromptAsWritten(request).Failure? || Connect(settings).Failure?
    ensures GeneratePoster(settings, c1, request) == GeneratePoster(settings, c2, request)
    ensures GeneratePoster(settings, c1, request).Failure?
    ensures GeneratePoster(settings, c1, request).error in {FormatError, OpenAIKeyMissing, HFKeyMissing}
    ensures !Truthy(request.styleHint) || BraceFree(request.styleHint.value) ==>
      GeneratePoster(settings, c1, request).error in {OpenAIKeyMissing, HFKeyMissing}
  {
  }

  /** Without braces in the hint, the poster is built from the intended
      prompt: the formatting step changes nothing. */
  lemma BraceFreeHintPoster(settings: Settings, clients: Clients, request: PosterRequest)
    requires !Truthy(request.styleHint) || BraceFree(request.styleHint.value)
    ensures Connect(settings).Success? ==>
      var url := Render(Connect(settings).value, clients, settings, SinglePrompt(request), 0);
      (GeneratePoster(settings, clients, request).Success? <==> url.Success?) &&
      (url.Success? ==> GeneratePoster(settings, clients, request).value == PosterResponse(url.value, SinglePrompt(request)))
  {
  }

  /** On the Hugging Face path the response carries the data URL of the
      returned PNG, and the prompt used. */
  lemma HuggingFacePoster(settings: Settings, clients: Clients, request: PosterRequest)
    requires SelectProvider(settings.imageProvider) == HuggingFace && Truthy(settings.hfApiKey)
    requires SinglePromptAsWritten(request).Success?
    requires clients.huggingFace(settings.hfApiKey.value, settings.hfModel, SinglePromptAsWritten(request).value, 0).Success?
    ensures var prompt := SinglePromptAsWritten(request).value;
      var png := clients.huggingFace(settings.hfApiKey.value, settings.hfModel, prompt, 0).value;
      GeneratePoster(settings, clients, request) == Success(PosterResponse(DataUrl(png), prompt))
  {
  }

  /** The output slots of a campaign, prompt-major: each prompt `n` times,
      in prompt order. */
  function Slots(prompts: seq<PromptVariant>, n: nat): (slots: seq<PromptVariant>)
    decreases |prompts|
  {
    if |prompts| == 0 then [] else Repeat(prompts[0], n) + Slots(prompts[1..], n)
  }

  function Repeat(p: PromptVariant, n: nat): (r: seq<PromptVariant>)
  {
    seq(n, k => p)
  }

  lemma {:induction false} SlotsLength(prompts: seq<PromptVariant>, n: nat)
    ensures |Slots(prompts, n)| == |prompts| * n
    decreases |prompts|
  {
    if |prompts| > 0 {
      SlotsLength(prompts[1..], n);
      assert |prompts| * n == n + (|prompts| - 1) * n;
    }
  }

  /** Slot `i * n + j` holds prompt `i`, for every `j < n`. */
  lemma {:induction false} SlotsAt(prompts: seq<PromptVariant>, n: nat, i: nat, j: nat)
    requires i < |prompts| && j < n
    ensures i * n + j < |Slots(prompts, n)| && Slots(prompts, n)[i * n + j] == prompts[i]
    decreases i
  {
    SlotsLength(prompts, n);
    if i > 0 {
      SlotsAt(prompts[1..], n, i - 1, j);
      assert i * n + j == n + ((i - 1) * n + j);
    }
  }

  lemma SlotsSnoc(prompts: seq<PromptVariant>, p: PromptVariant, n: nat)
    ensures Slots(prompts + [p], n) == Slots(prompts, n) + Repeat(p, n)
    decreases |prompts|
  {
    if |prompts| == 0 {
      assert Slots([p], n) == Repeat(p, n) + Slots([], n);
    } else {
      assert (prompts + [p])[1..] == prompts[1..] + [p];
      SlotsSnoc(prompts[1..], p, n);
    }
  }

  /** The prompts the services are asked for, one per slot. */
  function SlotPrompts(slots: seq<PromptVariant>): (r: seq<string>)
    ensures |r| == |slots| && forall k :: 0 <= k < |slots| ==> r[k] == slots[k].prompt
  {
    seq(|slots|, k requires 0 <= k < |slots| => slots[k].prompt)
  }

  /** `images` is what the services produced for `slots`: entry `k` copies
      slot `k`'s variant and prompt, and its image is the answer to call
      `k`, which succeeded. */
  predicate Produced(backend: Backend, clients: Clients, settings: Settings, slots: seq<PromptVariant>, images: seq<GeneratedImage>) {
    |images| == |slots| &&
    forall k :: 0 <= k < |slots| ==>
      var url := Render(backend, clients, settings, slots[k].prompt, k);
      url.Success? && images[k] == GeneratedImage(slots[k].variant, slots[k].prompt, url.value)
  }

  /** `range(n)` runs no iteration for a negative `n`. */
  function Count(n: int): nat {
    if n < 0 then 0 else n
  }

  /** A run that stopped at its first failing call: the calls for the
      first `|requested|` slots were made in order, all but the last
      succeeded, and the last failed with `error`. */
  predicate Stopped(backend: Backend, clients: Clients, settings: Settings, slots: seq<PromptVariant>, requested: seq<string>, error: string) {
    && 0 < |requested| <= |slots|
    && requested == SlotPrompts(slots[..|requested|])
    && Render(backend, clients, settings, slots[|requested| - 1].prompt, |requested| - 1) == Failure(error)
    && forall k :: 0 <= k < |requested| - 1 ==> Render(backend, clients, settings, slots[k].prompt, k).Success?
  }

  /** `generate_images_for_campaign`: check the credentials once, then for
      every prompt, in order, ask `n` times for an image. The first failure
      ends the run with its message and no partial list. `requested` lists
      the prompts sent to the service, in order. */
  method GenerateImagesForCampaign(settings: Settings, clients: Clients, prompts: seq<PromptVariant>, n: int)
    returns (r: Result<seq<GeneratedImage>, string>, requested: seq<string>)
    ensures Connect(settings).Failure? ==> r == Failure(Connect(settings).error) && requested == []
    ensures r.Success? ==>
      Connect(settings).Success? &&
      Produced(Connect(settings).value, clients, settings, Slots(prompts, Count(n)), r.value) &&
      requested == SlotPrompts(Slots(prompts, Count(n)))
    ensures r.Failure? && Connect(settings).Success? ==>
      Stopped(Connect(settings).value, clients, settings, Slots(prompts, Count(n)), requested, r.error)
  {
    requested := [];
    var backend;
    match Connect(settings)
    case Failure(e) =>
      return Failure(e), requested;
    case Success(b) =>
      backend := b;
    var count := Count(n);
    var images: seq<GeneratedImage> := [];
    for i := 0 to |prompts|
      invariant Produced(backend, clients, settings, Slots(prompts[..i], count), images)
      invariant requested == SlotPrompts(Slots(prompts[..i], count))
    {
      var failure, sent;
      images, requested, failure, sent := AskCopies(backend, clients, settings, prompts[i], count, Slots(prompts[..i], count), images, requested);
      if failure.Some? {
        StoppedInside(backend, clients, settings, prompts, count, i, sent, images, failure.value);
        return Failure(failure.value), requested;
      }
      SlotsSnoc(prompts[..i], prompts[i], count);
      assert prompts[..i + 1] == prompts[..i] + [prompts[i]];
    }
    assert prompts[..|prompts|] == prompts;
    return Success(images), requested;
  }

  /** The inner loop of the fan-out: `count` requests for one prompt,
      appended to the run so far. On a failure, `sent` is the number of
      requests made for this prompt, the failing one included. */
  method AskCopies(backend: Backend, clients: Clients, settings: Settings, p: PromptVariant, count: nat,
                   ghost before: seq<PromptVariant>, images0: seq<GeneratedImage>, requested0: seq<string>)
    returns (images: seq<GeneratedImage>, requested: seq<string>, failure: Option<string>, sent: nat)
    requires Produced(backend, clients, settings, before, images0) && requested0 == SlotPrompts(before)
    ensures failure.None? ==>
      Produced(backend, clients, settings, before + Repeat(p, count), images) &&
      requested == SlotPrompts(before + Repeat(p, count))
    ensures failure.Some? ==>
      0 < sent <= count &&
      Produced(backend, clients, settings, before + Repeat(p, sent - 1), images) &&
      requested == SlotPrompts(before + Repeat(p, sent)) &&
      Render(backend, clients, settings, p.prompt, |before| + sent - 1) == Failure(failure.value)
  {
    images, requested, sent := images0, requested0, 0;
    for j := 0 to count
      invariant Produced(backend, clients, settings, before + Repeat(p, j), images)
      invariant requested == SlotPrompts(before + Repeat(p, j))
    {
      var url := Render(backend, clients, settings, p.prompt, |images|);
      RepeatSnoc(p, j);
      assert before + Repeat(p, j + 1) == (before + Repeat(p, j)) + [p];
      SlotPromptsSnoc(before + Repeat(p, j), p);
      requested := requested + [p.prompt];
      if url.Failure? {
        return images, requested, Some(url.error), j + 1;
      }
      ProducedSnoc(backend, clients, settings, before + Repeat(p, j), images, p);
      images := images + [GeneratedImage(p.variant, p.prompt, url.value)];
    }
    failure := None;
  }

  /** A finished fan-out holds `|prompts| * n` images in prompt-major
      order: image `i * n + j` is copy `j` of prompt `i`, with that prompt's
      variant name and text, and the answer to call `i * n + j`. */
  lemma CampaignEntry(backend: Backend, clients: Clients, settings: Settings, prompts: seq<PromptVariant>, n: nat,
                      images: seq<GeneratedImage>, i: nat, j: nat)
    requires Produced(backend, clients, settings, Slots(prompts, n), images)
    requires i < |prompts| && j < n
    ensures |images| == |prompts| * n && i * n + j < |images|
    ensures var img := images[i * n + j];
      img.variant == prompts[i].variant && img.prompt == prompts[i].prompt &&
      Success(img.imageUrl) == Render(backend, clients, settings, prompts[i].prompt, i * n + j)
  {
    SlotsLength(prompts, n);
    SlotsAt(prompts, n, i, j);
  }

  /** One more successful call extends the produced list by one entry. */
  lemma ProducedSnoc(backend: Backend, clients: Clients, settings: Settings, slots: seq<PromptVariant>, images: seq<GeneratedImage>, slot: PromptVariant)
    requires Produced(backend, clients, settings, slots, images)
    requires Render(backend, clients, settings, slot.prompt, |images|).Success?
    ensures Produced(backend, clients, settings, slots + [slot],
      images + [GeneratedImage(slot.variant, slot.prompt, Render(backend, clients, settings, slot.prompt, |images|).value)])
  {
  }

  lemma SlotPromptsSnoc(slots: seq<PromptVariant>, slot: PromptVariant)
    ensures SlotPrompts(slots + [slot]) == SlotPrompts(slots) + [slot.prompt]
  {
  }

  lemma RepeatSnoc(p: PromptVariant, j: nat)
    ensures Repeat(p, j + 1) == Repeat(p, j) + [p]
  {
  }

  /** A failure at copy `sent` of prompt `i` stops the whole run there. */
  lemma StoppedInside(backend: Backend, clients: Clients, settings: Settings, prompts: seq<PromptVariant>, count: nat,
                      i: nat, sent: nat, images: seq<GeneratedImage>, error: string)
    requires i < |prompts| && 0 < sent <= count
    requires Produced(backend, clients, settings, Slots(prompts[..i], count) + Repeat(prompts[i], sent - 1), images)
    requires Render(backend, clients, settings, prompts[i].prompt, |Slots(prompts[..i], count)| + sent - 1) == Failure(error)
    ensures Stopped(backend, clients, settings, Slots(prompts, count),
      SlotPrompts(Slots(prompts[..i], count) + Repeat(prompts[i], sent)), error)
  {
    var front := Slots(prompts[..i], count);
    var all := Slots(prompts, count);
    SlotsPrefix(prompts, count, i, sent);
    var m := |front| + sent - 1;
    RepeatSnoc(prompts[i], sent - 1);
    assert all[..m + 1] == front + Repeat(prompts[i], sent);
    assert all[..m] == front + Repeat(prompts[i], sent - 1);
    assert all[m] == prompts[i];
    forall k | 0 <= k < m
      ensures Render(backend, clients, settings, all[k].prompt, k).Success?
    {
      assert all[k] == all[..m][k];
    }
  }

  /** The slots of the first `i` prompts and `j` copies of prompt `i` are
      the first slots of the whole campaign. */
  lemma SlotsPrefix(prompts: seq<PromptVariant>, count: nat, i: nat, j: nat)
    requires i < |prompts| && j <= count
    ensures var front := Slots(prompts[..i], count) + Repeat(prompts[i], j);
      |front| <= |Slots(prompts, count)| && Slots(prompts, count)[..|front|] == front
  {
    var done := prompts[..i];
    SlotsSnoc(done, prompts[i], count);
    assert prompts == done + [prompts[i]] + prompts[i + 1..];
    SlotsAppend(done + [prompts[i]], prompts[i + 1..], count);
    assert Repeat(prompts[i], count)[..j] == Repeat(prompts[i], j);
  }

  lemma {:induction false} SlotsAppend(a: seq<PromptVariant>, b: seq<PromptVariant>, n: nat)
    ensures Slots(a + b, n) == Slots(a, n) + Slots(b, n)
    decreases |a|
  {
    if |a| == 0 {
      assert a + b == b;
    } else {
      assert (a + b)[1..] == a[1..] + b;
      SlotsAppend(a[1..], b, n);
    }
  }
}
