/** The records exchanged by the pipeline (the pydantic models of
    app/schemas.py and the dictionaries passed between stages). */
module Schemas {
  import opened Results

  /** An incoming request: the plot summary and an optional style hint. */
  datatype PosterRequest = PosterRequest(summary: string, styleHint: Option<string>)

  /** The single-poster response: an image reference and the prompt used. */
  datatype PosterResponse = PosterResponse(imageUrl: string, prompt: string)

  /** The creative metadata derived from a summary. */
  datatype PosterAnalysis = PosterAnalysis(
    title: string,
    tagline: string,
    genre: string,
    mood: string,
    colorPalette: string,
    visualStyleKeywords: seq<string>)

  /** One creative variant's prompt, `{"variant": ..., "prompt": ...}`. */
  datatype PromptVariant = PromptVariant(variant: string, prompt: string)

  /** One generated image, `{"variant": ..., "prompt": ..., "image_url": ...}`. */
  datatype GeneratedImage = GeneratedImage(variant: string, prompt: string, imageUrl: string)

  /** One numbered poster of a campaign. */
  datatype PosterVariant = PosterVariant(id: int, variant: string, prompt: string, imageUrl: string)

  /** The campaign response: the analysis fields and the numbered posters. */
  datatype CampaignResponse = CampaignResponse(
    title: string,
    tagline: string,
    genre: string,
    mood: string,
    colorPalette: string,
    visualStyleKeywords: seq<string>,
    variants: seq<PosterVariant>)
}
