/** The root `InsectIdentificationController.identifyInsect`
    (`POST /insect/identify`): reads the uploaded bytes, Base64-encodes
    them, calls the legacy service and turns its outcome into a status:
    200 with the DTO, 502 with no body for `null`, 400 with no body for any
    exception. */
module InsectIdentificationController {
  import opened Base
  import opened Exceptions
  import opened InsectInfo
  import opened OpenAiResponses
  import opened ChatRequests
  import LegacyOpenAiService
  import DataUrl
  import Base64

  datatype HttpResponse = HttpResponse(status: int, body: Option<InsectInfoDto>)

  const Ok := 200
  const BadRequest := 400
  const BadGateway := 502

  /** `identifyInsect(imageFile)`. `getBytes` is `imageFile.getBytes()`,
      which may throw an `IOException`; `service` is
      `openAiService.identifyInsect`. */
  function IdentifyInsect(getBytes: Java<seq<byte>>, service: string -> Java<Option<InsectInfoDto>>): (r: HttpResponse)
    ensures r.status == Ok || r.status == BadRequest || r.status == BadGateway
    ensures r.body.Some? <==> r.status == Ok
    ensures r.status == BadRequest <==> getBytes.Throws? || service(Base64.Encode(getBytes.value)).Throws?
    ensures r.status == BadGateway <==> getBytes.Returns? && service(Base64.Encode(getBytes.value)) == Returns(None)
    ensures r.status == Ok ==> getBytes.Returns? && service(Base64.Encode(getBytes.value)) == Returns(r.body)
  {
    match getBytes
    case Throws(_) => HttpResponse(BadRequest, None)
    case Returns(imageBytes) =>
      match service(Base64.Encode(imageBytes))
      case Throws(_) => HttpResponse(BadRequest, None)
      case Returns(result) =>
        match result
        case None => HttpResponse(BadGateway, None)
        case Some(dto) => HttpResponse(Ok, Some(dto))
  }

  /** The controller wired to the legacy service, whose collaborators are
      the remote exchange and the two Jackson mappings. */
  function Endpoint(getBytes: Java<seq<byte>>,
                    exchange: ChatRequest -> Java<Option<string>>,
                    readResponse: string -> Option<OpenAiResponse>,
                    parse: string -> Option<InsectInfoDto>): HttpResponse
  {
    IdentifyInsect(getBytes, b => LegacyOpenAiService.IdentifyInsect(b, exchange, readResponse, parse))
  }

  /** End to end: the request sent carries the uploaded bytes as its one
      image, and a reply whose first choice parses is returned with 200. */
  lemma ParsedReplyIsOk(imageBytes: seq<byte>,
                        exchange: ChatRequest -> Java<Option<string>>,
                        readResponse: string -> Option<OpenAiResponse>,
                        parse: string -> Option<InsectInfoDto>,
                        raw: string, resp: OpenAiResponse, content: string, dto: InsectInfoDto)
    requires exchange(LegacyOpenAiService.RequestBody(Base64.Encode(imageBytes))) == Returns(Some(raw))
    requires readResponse(raw) == Some(resp)
    requires HasFirstContent(resp, content) && parse(content) == Some(dto)
    ensures Endpoint(Returns(imageBytes), exchange, readResponse, parse) == HttpResponse(Ok, Some(dto))
    ensures var urls := ImageUrls(LegacyOpenAiService.RequestBody(Base64.Encode(imageBytes)).messages);
            |urls| == 1 && DataUrl.Parse(urls[0]) == Some((DataUrl.JpegMediaType, imageBytes))
  {
    LegacyOpenAiService.ParsedReply(Base64.Encode(imageBytes), exchange, readResponse, parse, raw, resp, content);
    LegacyOpenAiService.RequestCarriesImage(imageBytes);
  }

  /** A transport failure of the exchange is not caught by the service and
      becomes a 400, as does a `null` first choice. */
  lemma UpstreamFailuresAreBadRequest(imageBytes: seq<byte>,
                                      exchange: ChatRequest -> Java<Option<string>>,
                                      readResponse: string -> Option<OpenAiResponse>,
                                      parse: string -> Option<InsectInfoDto>,
                                      raw: string, rest: seq<Option<Choice>>)
    ensures exchange(LegacyOpenAiService.RequestBody(Base64.Encode(imageBytes))).Throws?
            ==> Endpoint(Returns(imageBytes), exchange, readResponse, parse) == HttpResponse(BadRequest, None)
    ensures exchange(LegacyOpenAiService.RequestBody(Base64.Encode(imageBytes))) == Returns(Some(raw))
            && readResponse(raw) == Some(OpenAiResponse(Some([None] + rest)))
            ==> Endpoint(Returns(imageBytes), exchange, readResponse, parse) == HttpResponse(BadRequest, None)
  {
    if exchange(LegacyOpenAiService.RequestBody(Base64.Encode(imageBytes))) == Returns(Some(raw))
       && readResponse(raw) == Some(OpenAiResponse(Some([None] + rest))) {
      LegacyOpenAiService.NullFirstChoiceThrows(Base64.Encode(imageBytes), exchange, readResponse, parse, raw, rest);
    }
  }

  /** Every way the legacy service can come back with `null` is a 502: no
      body, a body that cannot be mapped, `null` or empty choices, a first
      choice without a message or without content, and content that does
      not parse, whatever the later choices hold. */
  lemma NoResultIsBadGateway(imageBytes: seq<byte>,
                             exchange: ChatRequest -> Java<Option<string>>,
                             readResponse: string -> Option<OpenAiResponse>,
                             parse: string -> Option<InsectInfoDto>,
                             raw: string, first: Choice, rest: seq<Option<Choice>>)
    ensures exchange(LegacyOpenAiService.RequestBody(Base64.Encode(imageBytes))) == Returns(None)
            ==> Endpoint(Returns(imageBytes), exchange, readResponse, parse) == HttpResponse(BadGateway, None)
    ensures exchange(LegacyOpenAiService.RequestBody(Base64.Encode(imageBytes))) == Returns(Some(raw))
            && (readResponse(raw).None? || readResponse(raw) == Some(OpenAiResponse(None))
                || readResponse(raw) == Some(OpenAiResponse(Some([]))))
            ==> Endpoint(Returns(imageBytes), exchange, readResponse, parse) == HttpResponse(BadGateway, None)
    ensures exchange(LegacyOpenAiService.RequestBody(Base64.Encode(imageBytes))) == Returns(Some(raw))
            && readResponse(raw) == Some(OpenAiResponse(Some([Some(first)] + rest)))
            && (first.message.None? || first.message.value.content.None?
                || parse(first.message.value.content.value).None?)
            ==> Endpoint(Returns(imageBytes), exchange, readResponse, parse) == HttpResponse(BadGateway, None)
  {
  }

  /** A failure to read the upload is a 400 and never reaches the service. */
  lemma UnreadableUploadIsBadRequest(detail: string, service: string -> Java<Option<InsectInfoDto>>)
    ensures IdentifyInsect(Throws(Io(detail)), service) == HttpResponse(BadRequest, None)
  {
  }
}
