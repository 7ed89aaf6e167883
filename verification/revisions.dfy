/** What the two service revisions share and where they differ: both put the
    same `data:` URL in the request and ask for at most 2048 completion
    tokens, but the legacy one reads only the first choice while the newer
    one takes the first choice that has content. */
module ServiceRevisions {
  import opened Base
  import opened Exceptions
  import opened ChatRequests
  import opened OpenAiResponses
  import opened InsectInfo
  import Insects
  import LegacyOpenAiService
  import StructuredOpenAiService
  import Base64

  /** For the same upload, the controller's Base64 text handed to the legacy
      service and the newer service's own encoding give one and the same
      image URL. */
  lemma SameImageUrl(imageBytes: seq<byte>)
    ensures ImageUrls(LegacyOpenAiService.RequestBody(Base64.Encode(imageBytes)).messages)
         == ImageUrls(StructuredOpenAiService.CreateParams(imageBytes).messages)
    ensures LegacyOpenAiService.RequestBody(Base64.Encode(imageBytes)).maxCompletionTokens
         == StructuredOpenAiService.CreateParams(imageBytes).maxCompletionTokens
  {
    LegacyOpenAiService.RequestCarriesImage(imageBytes);
    StructuredOpenAiService.RequestCarriesImage(imageBytes);
  }

  /** The selection rules differ: with an empty first choice and content in
      the second, the legacy reader yields `null` and the newer one the
      second choice's content. */
  lemma SelectionRulesDiffer(content: string, parse: string -> Option<InsectInfoDto>, insect: Insects.Insect)
    ensures ToInsectInfoDto(OpenAiResponse(Some([Some(Choice(Some(Message(None)))),
                                                Some(Choice(Some(Message(Some(content)))))])), parse)
         == Returns(None)
    ensures StructuredOpenAiService.FirstWithContent(
              [StructuredOpenAiService.StructuredChoice(None), StructuredOpenAiService.StructuredChoice(Some(insect))])
         == Some(insect)
  {
  }
}
