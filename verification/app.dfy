/** The two endpoints of app/main.py without the web framework: the
    single-poster passthrough and the campaign pipeline (analysis, prompts,
    images, numbering). An exception at any stage becomes an HTTP 500 whose
    detail is the exception's message. The genre classifier is a
    parameter. */
module App {
  import opened Results
  import opened Text
  import opened Schemas
  import opened TextAnalysis
  import opened PromptGenerator
  import opened PosterGenerator

  /** `HTTPException(status_code, detail)`. */
  datatype HttpError = HttpError(status: int, detail: string)

  const InternalError: int := 500

  /** `generate`: the single poster, with any failure reported as a 500. */
  function Generate(settings: Settings, clients: Clients, request: PosterRequest): (r: Result<PosterResponse, HttpError>)
    ensures r.Success? <==> GeneratePoster(settings, clients, request).Success?
    ensures r.Success? ==> r.value == GeneratePoster(settings, clients, request).value
    ensures r.Failure? ==> r.error == HttpError(InternalError, GeneratePoster(settings, clients, request).error)
  {
    match GeneratePoster(settings, clients, request)
    case Success(response) => Success(response)
    case Failure(e) => Failure(HttpError(InternalError, e))
  }

  /** A style hint with a brace in it reaches the endpoint as a server
      error, whatever the credentials and the image service would have
      done: the prompt is formatted before the backend is chosen. */
  lemma BraceHintIsServerError(settings: Settings, clients: Clients, summary: string)
    ensures Generate(settings, clients, PosterRequest(summary, Some("{x}"))) == Failure(HttpError(InternalError, FormatError))
  {
    BraceInHintFails(summary);
  }

  /** The numbering loop: `PosterVariant(id=idx, ...)` for each image. */
  method NumberVariants(images: seq<GeneratedImage>) returns (variants: seq<PosterVariant>)
    ensures |variants| == |images|
    ensures forall k :: 0 <= k < |images| ==>
      variants[k] == PosterVariant(k, images[k].variant, images[k].prompt, images[k].imageUrl)
  {
    variants := [];
    for idx := 0 to |images|
      invariant |variants| == idx
      invariant forall k :: 0 <= k < idx ==>
        variants[k] == PosterVariant(k, images[k].variant, images[k].prompt, images[k].imageUrl)
    {
      variants := variants + [PosterVariant(idx, images[idx].variant, images[idx].prompt, images[idx].imageUrl)];
    }
  }

  /** The campaign response: the analysis fields and the numbered posters. */
  function Campaign(a: PosterAnalysis, variants: seq<PosterVariant>): (c: CampaignResponse)
    ensures c.title == a.title && c.tagline == a.tagline && c.genre == a.genre && c.mood == a.mood
    ensures c.colorPalette == a.colorPalette && c.visualStyleKeywords == a.visualStyleKeywords
    ensures c.variants == variants
  {
    CampaignResponse(a.title, a.tagline, a.genre, a.mood, a.colorPalette, a.visualStyleKeywords, variants)
  }

  /** A successful campaign for the analysis `a`: the analysis fields
      copied, and one poster per variant, numbered from 0, in the fixed
      variant order, whose image is the answer to the request with the same
      number. */
  predicate CampaignOf(backend: Backend, clients: Clients, settings: Settings, request: PosterRequest, a: PosterAnalysis,
                       c: CampaignResponse, requested: seq<string>) {
    && c == Campaign(a, c.variants)
    && |c.variants| == |VariantNames| == |requested|
    && forall k :: 0 <= k < |c.variants| ==>
      && c.variants[k].id == k
      && c.variants[k].variant == VariantNames[k]
      && c.variants[k].prompt == BuildPosterPrompt(request.summary, a, VariantNames[k], request.styleHint)
      && requested[k] == c.variants[k].prompt
      && Success(c.variants[k].imageUrl) == Render(backend, clients, settings, requested[k], k)
  }

  /** The request for poster `k` of a campaign for the analysis `a`. */
  function CampaignPrompt(request: PosterRequest, a: PosterAnalysis, k: nat): string
    requires k < |VariantNames|
  {
    BuildPosterPrompt(request.summary, a, VariantNames[k], request.styleHint)
  }

  /** Every image request of a campaign for the analysis `a` succeeds. */
  predicate AllRendered(backend: Backend, clients: Clients, settings: Settings, request: PosterRequest, a: PosterAnalysis) {
    forall k :: 0 <= k < |VariantNames| ==>
      Render(backend, clients, settings, CampaignPrompt(request, a, k), k).Success?
  }

  /** The image stage stopped at request `k`: the requests before it
      succeeded, and request `k` failed with `error`. */
  predicate FailedAt(backend: Backend, clients: Clients, settings: Settings, request: PosterRequest, a: PosterAnalysis,
                     k: nat, error: string) {
    && k < |VariantNames|
    && Render(backend, clients, settings, CampaignPrompt(request, a, k), k) == Failure(error)
    && forall j :: 0 <= j < k ==> Render(backend, clients, settings, CampaignPrompt(request, a, j), j).Success?
  }

  /** Once the analysis `a` is known and the image backend connects, the
      campaign succeeds exactly when every image request succeeds, and a
      failure carries the message of the first request that failed, the
      last one sent. */
  predicate ImageOutcome(backend: Backend, clients: Clients, settings: Settings, request: PosterRequest, a: PosterAnalysis,
                         r: Result<CampaignResponse, HttpError>, requested: seq<string>) {
    && (r.Success? <==> AllRendered(backend, clients, settings, request, a))
    && (r.Failure? ==> |requested| > 0 && FailedAt(backend, clients, settings, request, a, |requested| - 1, r.error.detail))
  }

  /** `generate_campaign`: classify the summary, derive the analysis, build
      the three prompts, ask for one image per prompt and number the
      results. The first failure, whichever stage raises it, is the only
      outcome: there is no partial campaign. `requested` lists the prompts
      sent to the image service. */
  method GenerateCampaign(settings: Settings, clients: Clients, classify: string -> Result<string, string>, request: PosterRequest)
    returns (r: Result<CampaignResponse, HttpError>, requested: seq<string>)
    ensures classify(request.summary).Failure? ==>
      r == Failure(HttpError(InternalError, classify(request.summary).error)) && requested == []
    ensures classify(request.summary).Success? && Connect(settings).Failure? ==>
      r == Failure(HttpError(InternalError, Connect(settings).error)) && requested == []
    ensures r.Failure? ==> r.error.status == InternalError
    ensures classify(request.summary).Success? && Connect(settings).Success? ==>
      ImageOutcome(Connect(settings).value, clients, settings, request,
        AnalyzeSummary(request.summary, classify(request.summary).value, request.styleHint), r, requested)
    ensures r.Success? ==>
      classify(request.summary).Success? && Connect(settings).Success? &&
      CampaignOf(Connect(settings).value, clients, settings, request,
        AnalyzeSummary(request.summary, classify(request.summary).value, request.styleHint), r.value, requested)
  {
    requested := [];
    var genre;
    match classify(request.summary)
    case Failure(e) =>
      return Failure(HttpError(InternalError, e)), requested;
    case Success(g) =>
      genre := g;
    var analysis := AnalyzeSummary(request.summary, genre, request.styleHint);
    var prompts := GeneratePrompts(request.summary, analysis, request.styleHint);
    var images;
    images, requested := GenerateImagesForCampaign(settings, clients, prompts, 1);
    match images
    case Failure(e) =>
      r := Failure(HttpError(InternalError, e));
      if Connect(settings).Success? {
        var backend := Connect(settings).value;
        StoppedIsFailedAt(backend, clients, settings, request, analysis, prompts, requested, e);
      }

    case Success(list) =>
      var variants := NumberVariants(list);
      CampaignAssembled(Connect(settings).value, clients, settings, request, analysis, prompts, list, requested, variants);
      return Success(Campaign(analysis, variants)), requested;
  }

  /** The pieces of a successful run assemble into a campaign. */
  lemma {:induction false} CampaignAssembled(backend: Backend, clients: Clients, settings: Settings, request: PosterRequest, a: PosterAnalysis,
                          prompts: seq<PromptVariant>, images: seq<GeneratedImage>, requested: seq<string>,
                          variants: seq<PosterVariant>)
    requires |prompts| == |VariantNames|
    requires forall i :: 0 <= i < |prompts| ==>
      prompts[i].variant == VariantNames[i] &&
      prompts[i].prompt == BuildPosterPrompt(request.summary, a, VariantNames[i], request.styleHint)
    requires Produced(backend, clients, settings, Slots(prompts, Count(1)), images)
    requires requested == SlotPrompts(Slots(prompts, Count(1)))
    requires |variants| == |images|
    requires forall k :: 0 <= k < |images| ==>
      variants[k] == PosterVariant(k, images[k].variant, images[k].prompt, images[k].imageUrl)
    ensures CampaignOf(backend, clients, settings, request, a, Campaign(a, variants), requested)
    ensures ImageOutcome(backend, clients, settings, request, a, Success(Campaign(a, variants)), requested)
  {
    SlotsOnce(prompts);
    var c := Campaign(a, variants);
    assert CampaignOf(backend, clients, settings, request, a, c, requested);
    forall k | 0 <= k < |VariantNames|
      ensures Render(backend, clients, settings, CampaignPrompt(request, a, k), k).Success?
    {
      assert requested[k] == CampaignPrompt(request, a, k);
    }
  }

  /** A fan-out over the campaign prompts that stopped at its first
      failing call failed at that request, so not every request succeeds. */
  lemma StoppedIsFailedAt(backend: Backend, clients: Clients, settings: Settings, request: PosterRequest, a: PosterAnalysis,
                          prompts: seq<PromptVariant>, requested: seq<string>, error: string)
    requires |prompts| == |VariantNames|
    requires forall i :: 0 <= i < |prompts| ==> prompts[i].prompt == CampaignPrompt(request, a, i)
    requires Stopped(backend, clients, settings, Slots(prompts, Count(1)), requested, error)
    ensures ImageOutcome(backend, clients, settings, request, a, Failure(HttpError(InternalError, error)), requested)
  {
    SlotsOnce(prompts);
    var k := |requested| - 1;
    assert Slots(prompts, Count(1))[k].prompt == CampaignPrompt(request, a, k);
    forall j | 0 <= j < k
      ensures Render(backend, clients, settings, CampaignPrompt(request, a, j), j).Success?
    {
      assert Slots(prompts, Count(1))[j].prompt == CampaignPrompt(request, a, j);
    }
  }

  /** With one image per prompt, the slots are the prompts themselves. */
  lemma {:induction false} SlotsOnce(prompts: seq<PromptVariant>)
    ensures Slots(prompts, 1) == prompts
    decreases |prompts|
  {
    if |prompts| > 0 {
      SlotsOnce(prompts[1..]);
      assert Repeat(prompts[0], 1) == [prompts[0]];
    }
  }
}
