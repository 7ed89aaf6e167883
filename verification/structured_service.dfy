/** `services/OpenAIService.identifyInsect`: the revision that uses the
    client library's structured outputs. It sends the image bytes as a
    `data:` URL in one user message, asks for replies shaped like `Insect`,
    and returns the JSON text of the first choice that carries content.

    The remote call is the parameter `create`: it returns the choices, each
    with its content already read into an `Insect` or absent, or throws.
    Jackson's `writeValueAsString` is the parameter `write`. */
module StructuredOpenAiService {
  import opened Base
  import opened Exceptions
  import opened ChatRequests
  import opened Insects
  import DataUrl
  import Base64

  const Prompt: string := "Identify the insect in the image provided."

  /** The class the response format is derived from. */
  const InsectClass: string := "dev.stroe.buggloo.models.Insect"

  /** One choice of a structured reply: `choice.message().content()`. */
  datatype StructuredChoice = StructuredChoice(content: Option<Insect>)

  /** The image URL the request carries. */
  function ImageUrl(imageBytes: seq<byte>): (url: string)
    ensures DataUrl.Parse(url) == Some((DataUrl.JpegMediaType, imageBytes))
  {
    DataUrl.JpegUrl(imageBytes);
    DataUrl.JpegPrefix + Base64.Encode(imageBytes)
  }

  /** The request: one user message whose parts are the prompt and then the
      image; only the model, the token ceiling and the response format set. */
  function CreateParams(imageBytes: seq<byte>): (params: ChatRequest)
    ensures params.model == Gpt41
    ensures |params.messages| == 1 && params.messages[0].role == User
    ensures params.messages[0].content == [TextPart(Prompt), ImageUrlPart(ImageUrl(imageBytes))]
    ensures params.responseFormat == DerivedFromClass(InsectClass)
    ensures params.maxCompletionTokens == Some(MaxCompletionTokens)
    ensures params.temperature.None? && params.topP.None? && params.store.None?
    ensures params.frequencyPenalty.None? && params.presencePenalty.None?
  {
    ChatRequest(
      model := Gpt41,
      messages := [ChatMessage(User, [TextPart(Prompt), ImageUrlPart(ImageUrl(imageBytes))])],
      responseFormat := DerivedFromClass(InsectClass),
      temperature := None,
      maxCompletionTokens := Some(MaxCompletionTokens),
      topP := None,
      frequencyPenalty := None,
      presencePenalty := None,
      store := None)
  }

  /** `choices.stream().flatMap(c -> c.message().content().stream()).findFirst()`. */
  function FirstWithContent(choices: seq<StructuredChoice>): (r: Option<Insect>)
    ensures r.None? <==> forall i :: 0 <= i < |choices| ==> choices[i].content.None?
    ensures r.Some? ==> exists k :: 0 <= k < |choices| && choices[k].content == r
                                    && forall i :: 0 <= i < k ==> choices[i].content.None?
  {
    if |choices| == 0 then None
    else if choices[0].content.Some? then choices[0].content
    else
      var r := FirstWithContent(choices[1..]);
      assert forall i :: 1 <= i < |choices| ==> choices[i] == choices[1..][i - 1];
      if r.Some? then
        var k :| 0 <= k < |choices[1..]| && choices[1..][k].content == r
                 && forall i :: 0 <= i < k ==> choices[1..][i].content.None?;
        assert choices[k + 1].content == r;
        r
      else r
  }

  /** `identifyInsect(imageBytes)`: the remote call's failure propagates;
      no content gives `null`; the first content is serialised, and a
      serialisation failure is rethrown wrapped in a `RuntimeException`. */
  function IdentifyInsect(imageBytes: seq<byte>,
                          create: ChatRequest -> Java<seq<StructuredChoice>>,
                          write: Insect -> Java<string>): (r: Java<Option<string>>)
    ensures create(CreateParams(imageBytes)).Throws? ==> r == Throws(create(CreateParams(imageBytes)).exception)
    ensures forall choices :: create(CreateParams(imageBytes)) == Returns(choices) ==>
              (FirstWithContent(choices).None? ==> r == Returns(None))
              && (FirstWithContent(choices).Some? && write(FirstWithContent(choices).value).Throws?
                  ==> r == Throws(WrappedRuntime(write(FirstWithContent(choices).value).exception)))
              && (FirstWithContent(choices).Some? && write(FirstWithContent(choices).value).Returns?
                  ==> r == Returns(Some(write(FirstWithContent(choices).value).value)))
  {
    match create(CreateParams(imageBytes))
    case Throws(e) => Throws(e)
    case Returns(choices) =>
      match FirstWithContent(choices)
      case None => Returns(None)
      case Some(insect) =>
        match write(insect)
        case Throws(e) => Throws(WrappedRuntime(e))
        case Returns(json) => Returns(Some(json))
  }

  /** Choices without content are skipped: leading empty choices never
      change the result. */
  lemma {:induction false} EmptyChoicesSkipped(empty: seq<StructuredChoice>, choices: seq<StructuredChoice>)
    requires forall i :: 0 <= i < |empty| ==> empty[i].content.None?
    ensures FirstWithContent(empty + choices) == FirstWithContent(choices)
    decreases |empty|
  {
    if |empty| == 0 {
      assert empty + choices == choices;
    } else {
      assert (empty + choices)[0] == empty[0];
      assert (empty + choices)[1..] == empty[1..] + choices;
      EmptyChoicesSkipped(empty[1..], choices);
    }
  }

  /** End to end: a reply with no content anywhere gives `null`, and
      empty choices in front of the first content do not change the outcome. */
  lemma NoContentOrSkipped(imageBytes: seq<byte>,
                           create: ChatRequest -> Java<seq<StructuredChoice>>,
                           write: Insect -> Java<string>,
                           empty: seq<StructuredChoice>, choices: seq<StructuredChoice>)
    requires forall i :: 0 <= i < |empty| ==> empty[i].content.None?
    ensures create(CreateParams(imageBytes)) == Returns(empty) ==> IdentifyInsect(imageBytes, create, write) == Returns(None)
    ensures create(CreateParams(imageBytes)) == Returns(empty + choices)
            ==> (IdentifyInsect(imageBytes, create, write)
                 == IdentifyInsect(imageBytes, _ => Returns(choices), write))
  {
    EmptyChoicesSkipped(empty, choices);
  }

  /** The request carries exactly the one image, after the prompt. */
  lemma RequestCarriesImage(imageBytes: seq<byte>)
    ensures ImageUrls(CreateParams(imageBytes).messages) == [ImageUrl(imageBytes)]
  {
    var parts := [TextPart(Prompt), ImageUrlPart(ImageUrl(imageBytes))];
    assert parts[1..][1..] == [];
    assert PartImages(parts[1..]) == [ImageUrl(imageBytes)];
    assert PartImages(parts) == [ImageUrl(imageBytes)];
    assert CreateParams(imageBytes).messages[1..] == [];
  }
}
