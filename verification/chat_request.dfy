/** The chat-completion request both service revisions send: a model name,
    a list of messages whose content is a list of text and image parts, a
    response format and the optional sampling and token parameters. The
    legacy revision writes it as nested maps, the newer one through the
    client library's builder; both denote a value of this type. */
module ChatRequests {
  import opened Base
  import InsectInfoSchema

  datatype Role = System | User

  datatype ContentPart = TextPart(text: string) | ImageUrlPart(url: string)

  datatype ChatMessage = ChatMessage(role: Role, content: seq<ContentPart>)

  datatype ResponseFormat =
      /** `{"type": "json_schema", "json_schema": ...}` with a hand-written schema. */
    | JsonSchema(jsonSchema: InsectInfoSchema.JsonSchemaFormat)
      /** `responseFormat(SomeClass.class)`: the library derives the schema
          from the class; the derivation is not modelled. */
    | DerivedFromClass(className: string)

  /** Parameters the builder leaves unset are `None`. */
  datatype ChatRequest = ChatRequest(
    model: string,
    messages: seq<ChatMessage>,
    responseFormat: ResponseFormat,
    temperature: Option<int>,
    maxCompletionTokens: Option<int>,
    topP: Option<int>,
    frequencyPenalty: Option<int>,
    presencePenalty: Option<int>,
    store: Option<bool>)

  const Gpt41: string := "gpt-4.1"

  /** The completion-token ceiling both revisions set. */
  const MaxCompletionTokens: int := 2048

  /** The image URLs among some content parts, in order. */
  function PartImages(parts: seq<ContentPart>): (urls: seq<string>)
    ensures |urls| <= |parts|
    ensures forall u :: u in urls <==> ImageUrlPart(u) in parts
  {
    if |parts| == 0 then []
    else (if parts[0].ImageUrlPart? then [parts[0].url] else []) + PartImages(parts[1..])
  }

  /** Every image URL a request carries, message by message. */
  function ImageUrls(messages: seq<ChatMessage>): (urls: seq<string>)
    ensures forall u :: u in urls <==> exists i :: 0 <= i < |messages| && ImageUrlPart(u) in messages[i].content
  {
    if |messages| == 0 then []
    else
      var rest := ImageUrls(messages[1..]);
      assert forall u :: (exists i :: 1 <= i < |messages| && ImageUrlPart(u) in messages[i].content)
                         ==> u in rest by {
        forall u | exists i :: 1 <= i < |messages| && ImageUrlPart(u) in messages[i].content
          ensures u in rest
        {
          var i :| 1 <= i < |messages| && ImageUrlPart(u) in messages[i].content;
          assert messages[1..][i - 1] == messages[i];
        }
      }
      PartImages(messages[0].content) + rest
  }

  /** A text-only message followed by a message holding one image: the
      request carries that image and no other. */
  lemma {:induction false} ImageUrlsOfTextThenImage(messages: seq<ChatMessage>, text: string, url: string)
    requires |messages| == 2
    requires messages[0].content == [TextPart(text)] && messages[1].content == [ImageUrlPart(url)]
    ensures ImageUrls(messages) == [url]
  {
    assert messages[1..][1..] == [];
    assert [ImageUrlPart(url)][1..] == [];
    assert [TextPart(text)][1..] == [];
    assert PartImages(messages[0].content) == [];
    assert ImageUrls(messages[1..]) == PartImages(messages[1].content);
  }
}
