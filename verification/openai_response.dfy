/** `OpenAiResponse`: the part of a chat-completion reply the legacy service
    maps with Jackson, and `toInsectInfoDto`, which reads only the first
    choice. Every reference Jackson may leave `null` is an `Option`,
    the elements of the `choices` array included. */
module OpenAiResponses {
  import opened Base
  import opened Exceptions
  import opened InsectInfo

  datatype Message = Message(content: Option<string>)
  datatype Choice = Choice(message: Option<Message>)
  datatype OpenAiResponse = OpenAiResponse(choices: Option<seq<Option<Choice>>>)

  /** The guard `choices != null && choices.length > 0 && choices[0].message
      != null && choices[0].message.content != null`, evaluated left to right:
      the content it lets through, or `None`; a `null` first element makes the
      dereference `choices[0].message` throw. */
  function FirstChoiceContent(resp: OpenAiResponse): Java<Option<string>> {
    match resp.choices
    case None => Returns(None)
    case Some(cs) =>
      if |cs| == 0 then Returns(None)
      else match cs[0]
        case None => Throws(NullPointer)
        case Some(choice) =>
          match choice.message
          case None => Returns(None)
          case Some(m) => Returns(m.content)
  }

  /** The content of the first choice, when every reference on the way to it
      is set. */
  predicate HasFirstContent(resp: OpenAiResponse, content: string) {
    resp.choices.Some? && |resp.choices.value| > 0 && resp.choices.value[0].Some?
    && resp.choices.value[0].value.message.Some?
    && resp.choices.value[0].value.message.value.content == Some(content)
  }

  /** `toInsectInfoDto(objectMapper)`; `parse` is Jackson's
      `readValue(content, InsectInfoDto.class)`, `None` standing for any
      exception it throws, which the method catches. */
  function ToInsectInfoDto(resp: OpenAiResponse, parse: string -> Option<InsectInfoDto>): (r: Java<Option<InsectInfoDto>>)
    ensures r.Throws? <==> resp.choices.Some? && |resp.choices.value| > 0 && resp.choices.value[0].None?
    ensures r.Throws? ==> r.exception == NullPointer
    ensures r.Returns? && r.value.Some? <==> exists c :: HasFirstContent(resp, c) && parse(c).Some?
    ensures forall c :: HasFirstContent(resp, c) ==> r == Returns(parse(c))
  {
    match FirstChoiceContent(resp)
    case Throws(e) => Throws(e)
    case Returns(content) =>
      match content
      case None => Returns(None)
      case Some(c) => Returns(parse(c))
  }

  /** A missing or empty `choices` array gives `null`. */
  lemma NoChoicesGiveNull(parse: string -> Option<InsectInfoDto>)
    ensures ToInsectInfoDto(OpenAiResponse(None), parse) == Returns(None)
    ensures ToInsectInfoDto(OpenAiResponse(Some([])), parse) == Returns(None)
  {
  }

  /** Only `choices[0]` is read: the choices after it never change the result. */
  lemma OnlyFirstChoiceMatters(first: Option<Choice>, rest: seq<Option<Choice>>, rest': seq<Option<Choice>>,
                               parse: string -> Option<InsectInfoDto>)
    ensures ToInsectInfoDto(OpenAiResponse(Some([first] + rest)), parse)
         == ToInsectInfoDto(OpenAiResponse(Some([first] + rest')), parse)
  {
  }

  /** A first choice without content gives `null` even when a later choice
      holds a reply that parses. */
  lemma LaterContentIgnored(first: Choice, later: string, parse: string -> Option<InsectInfoDto>)
    requires first.message.None? || first.message.value.content.None?
    requires parse(later).Some?
    ensures ToInsectInfoDto(OpenAiResponse(Some([Some(first), Some(Choice(Some(Message(Some(later)))))])), parse)
         == Returns(None)
  {
  }
}
