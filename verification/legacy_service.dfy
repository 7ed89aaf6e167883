/** The root package's `OpenAiService.identifyInsect`: builds the request
    body around the Base64 text it is given, posts it, maps the raw reply to
    an `OpenAiResponse` and hands that to `toInsectInfoDto`.

    The HTTP exchange (`RestTemplate.exchange`, with the bearer key and the
    JSON content type) is the parameter `exchange`: it returns the raw body,
    which may be `null`, or throws. Jackson's mapping of the raw body is the
    parameter `readResponse`, `None` standing both for a thrown exception
    (caught and printed) and for the JSON literal `null`. */
module LegacyOpenAiService {
  import opened Base
  import opened Exceptions
  import opened ChatRequests
  import opened InsectInfo
  import opened OpenAiResponses
  import InsectInfoSchema
  import DataUrl
  import Base64

  const SystemPrompt: string := "Identify the insect in the image and respond with information about that insect."

  /** The request: a system message with the fixed instruction, a user
      message with the image as a `data:` URL, the hand-written
      `insect_info` schema in strict mode, and fixed sampling parameters. */
  function RequestBody(base64Image: string): (body: ChatRequest)
    ensures body.model == Gpt41
    ensures |body.messages| == 2
    ensures body.messages[0].role == System && body.messages[0].content == [TextPart(SystemPrompt)]
    ensures body.messages[1].role == User && body.messages[1].content == [ImageUrlPart(DataUrl.JpegPrefix + base64Image)]
    ensures body.responseFormat == JsonSchema(InsectInfoSchema.InsectInfoFormat())
    ensures body.responseFormat.jsonSchema.name == "insect_info" && body.responseFormat.jsonSchema.strict
    ensures !body.responseFormat.jsonSchema.schema.additionalProperties
    ensures body.temperature == Some(1) && body.topP == Some(1)
    ensures body.maxCompletionTokens == Some(MaxCompletionTokens)
    ensures body.frequencyPenalty == Some(0) && body.presencePenalty == Some(0)
    ensures body.store == Some(false)
  {
    ChatRequest(
      model := Gpt41,
      messages := [ChatMessage(System, [TextPart(SystemPrompt)]),
                   ChatMessage(User, [ImageUrlPart(DataUrl.JpegPrefix + base64Image)])],
      responseFormat := JsonSchema(InsectInfoSchema.InsectInfoFormat()),
      temperature := Some(1),
      maxCompletionTokens := Some(MaxCompletionTokens),
      topP := Some(1),
      frequencyPenalty := Some(0),
      presencePenalty := Some(0),
      store := Some(false))
  }

  /** `identifyInsect(base64Image)`: a failed exchange propagates its
      exception; an absent or unmappable reply gives `null`; otherwise the
      outcome of `toInsectInfoDto`. */
  function IdentifyInsect(base64Image: string,
                          exchange: ChatRequest -> Java<Option<string>>,
                          readResponse: string -> Option<OpenAiResponse>,
                          parse: string -> Option<InsectInfoDto>): (r: Java<Option<InsectInfoDto>>)
    ensures exchange(RequestBody(base64Image)).Throws? ==> r == Throws(exchange(RequestBody(base64Image)).exception)
    ensures exchange(RequestBody(base64Image)) == Returns(None) ==> r == Returns(None)
    ensures forall raw :: exchange(RequestBody(base64Image)) == Returns(Some(raw)) && readResponse(raw).None?
                          ==> r == Returns(None)
    ensures forall raw, resp :: exchange(RequestBody(base64Image)) == Returns(Some(raw)) && readResponse(raw) == Some(resp)
                                ==> r == ToInsectInfoDto(resp, parse)
  {
    match exchange(RequestBody(base64Image))
    case Throws(e) => Throws(e)
    case Returns(rawBody) =>
      match rawBody
      case None => Returns(None)
      case Some(raw) =>
        match readResponse(raw)
        case None => Returns(None)
        case Some(resp) => ToInsectInfoDto(resp, parse)
  }

  /** The request carries exactly one image, and its URL decodes to the bytes
      whose Base64 text the service was given. */
  lemma RequestCarriesImage(bytes: seq<byte>)
    ensures ImageUrls(RequestBody(Base64.Encode(bytes)).messages) == [DataUrl.JpegPrefix + Base64.Encode(bytes)]
    ensures DataUrl.Parse(DataUrl.JpegPrefix + Base64.Encode(bytes)) == Some((DataUrl.JpegMediaType, bytes))
  {
    var body := RequestBody(Base64.Encode(bytes));
    ImageUrlsOfTextThenImage(body.messages, SystemPrompt, DataUrl.JpegPrefix + Base64.Encode(bytes));
    DataUrl.JpegUrl(bytes);
  }

  /** A reply whose first choice holds content that parses yields that parse. */
  lemma ParsedReply(base64Image: string,
                    exchange: ChatRequest -> Java<Option<string>>,
                    readResponse: string -> Option<OpenAiResponse>,
                    parse: string -> Option<InsectInfoDto>,
                    raw: string, resp: OpenAiResponse, content: string)
    requires exchange(RequestBody(base64Image)) == Returns(Some(raw))
    requires readResponse(raw) == Some(resp)
    requires HasFirstContent(resp, content)
    ensures IdentifyInsect(base64Image, exchange, readResponse, parse) == Returns(parse(content))
  {
  }

  /** A `null` first choice is not caught here: the `NullPointerException`
      from `toInsectInfoDto` leaves the service. */
  lemma NullFirstChoiceThrows(base64Image: string,
                              exchange: ChatRequest -> Java<Option<string>>,
                              readResponse: string -> Option<OpenAiResponse>,
                              parse: string -> Option<InsectInfoDto>,
                              raw: string, rest: seq<Option<Choice>>)
    requires exchange(RequestBody(base64Image)) == Returns(Some(raw))
    requires readResponse(raw) == Some(OpenAiResponse(Some([None] + rest)))
    ensures IdentifyInsect(base64Image, exchange, readResponse, parse) == Throws(NullPointer)
  {
  }
}
