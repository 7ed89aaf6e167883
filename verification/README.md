# Buggloo core in Dafny

This project models the pure logic of the Buggloo backend. Buggloo is a Spring Boot service that takes an uploaded photo and asks a remote vision model what insect it shows. The model covers:

- **Upload validation.** `ImageValidationService.validateImage` runs three ordered checks: presence, content type and filename.
- **The hand-written structured-output schema.** `OpenAiService.getInsectInfoSchema` and its `insect_info` wrapper, and their agreement with the record `InsectInfoDto`.
- **Request assembly in both service revisions.** The image becomes a `data:` URL (section 3 of RFC 2397) carrying the Base64 encoding of the bytes (section 4 of RFC 4648). It is placed in a fixed message layout with fixed model, token and sampling parameters.
- **Reading the reply.** `OpenAiResponse.toInsectInfoDto` reads only `choices[0]`. The newer `services/OpenAIService` takes the first choice that has content.
- **The root `InsectIdentificationController`**, which has three outcomes: 200, 502 and 400.
- **The Bean Validation rules of `models/Insect`.**
- **`GlobalExceptionHandler`**: which handler Spring picks for each exception kind, and the status, code and message it returns.
- **The `ApiResponse` envelope**: its factories and the key set it serialises under `NON_NULL`.

Conventions used throughout:

- Java `null` is `Option`.
- A call that may throw returns `Java<T>`, which is `Returns(v)` or `Throws(e)`.
- Each exception class is a constructor of one `Exception` datatype.
- The remote model, the HTTP client and Jackson's text (de)serialisation are function parameters of the operations that call them. Everything else is a pure function.

Modules, one per file:

| module | file |
|---|---|
| `Base` | `base.dfy` |
| `Json` | `json.dfy` |
| `Exceptions` | `exceptions.dfy` |
| `JavaStrings` | `java_strings.dfy` |
| `Base64` | `base64.dfy` |
| `DataUrl` | `data_url.dfy` |
| `ImageValidation` | `image_validation.dfy` |
| `ApiResponses` | `api_response.dfy` |
| `GlobalExceptionHandler` | `exception_handler.dfy` |
| `InsectInfo` (the DTO and its JSON form) | `insect_info.dfy` |
| `InsectInfoSchema` | `insect_schema.dfy` |
| `ChatRequests` | `chat_request.dfy` |
| `OpenAiResponses` | `openai_response.dfy` |
| `LegacyOpenAiService` | `legacy_service.dfy` |
| `StructuredOpenAiService` | `structured_service.dfy` |
| `Insects` | `insect.dfy` |
| `InsectIdentificationController` | `controller.dfy` |
| `ServiceRevisions` | `revisions.dfy` |

Points where the code behaves in a way worth stating, all modelled as written:

- Neither service revision inspects the image bytes. The legacy service puts whatever Base64 text it is given into the URL (src/main/java/dev/stroe/buggloo/OpenAiService.java:37), and the newer one encodes whatever bytes it is given (src/main/java/dev/stroe/buggloo/services/OpenAIService.java:28). For no bytes the URL is `data:image/jpeg;base64,`. The newer controllers reject an empty upload before the service runs, through `validateImage` (src/main/java/dev/stroe/buggloo/controllers/InsectIdentificationController.java:43). The root controller has no such check (src/main/java/dev/stroe/buggloo/InsectIdentificationController.java:19-21), so an empty upload reaches the legacy service.
- There are two selection rules, one per revision. `toInsectInfoDto` reads only `choices[0]` (src/main/java/dev/stroe/buggloo/OpenAiResponse.java:9-11). The newer service takes the first choice that has content (src/main/java/dev/stroe/buggloo/services/OpenAIService.java:50-52). Both rules are modelled.
- The hand-written schema has 29 properties, one per field of `InsectInfoDto`, `conservation_status` among them (src/main/java/dev/stroe/buggloo/OpenAiService.java:93-126). It has no property for `models/Insect`'s `isInsect` (src/main/java/dev/stroe/buggloo/models/Insect.java:16-18), because it describes the DTO, not that record.
- `getInsectInfoSchema` builds a fresh map on every call (src/main/java/dev/stroe/buggloo/OpenAiService.java:90-129). The model treats the schema as a constant, which has the same observable behaviour.
- The guard in `toInsectInfoDto` reads `choices[0].message` without checking that `choices[0]` is non-null, and it sits outside the `try` (src/main/java/dev/stroe/buggloo/OpenAiResponse.java:9-14). A `null` first element therefore throws a `NullPointerException`. The model returns `Throws(NullPointer)` for that case, and the root controller's `catch` turns it into a 400 (src/main/java/dev/stroe/buggloo/InsectIdentificationController.java:26-28).

## Model

| member | source | states |
|---|---|---|
| ImageValidation.ValidateImage | src/main/java/dev/stroe/buggloo/services/ImageValidationService.java:30-44 | Validation returns normally exactly when the file is present and non-empty, its lower-cased content type is allowed and its trimmed filename is non-blank. Otherwise it throws `InvalidImageException` with the message of the first failing check, in the order presence, type, filename. |
| ImageValidation.ContentTypeAllowedIff | src/main/java/dev/stroe/buggloo/services/ImageValidationService.java:35-38 | A content type passes exactly when it equals one of the six allowed types, ignoring letter case. |
| ImageValidation.AllowedAreLowerCase | src/main/java/dev/stroe/buggloo/services/ImageValidationService.java:15-22 | The allowed set is written in lower case, so lower-casing an allowed type leaves it unchanged. |
| ImageValidation.ContentTypeCaseInsensitive | src/main/java/dev/stroe/buggloo/services/ImageValidationService.java:36 | Two content types that differ only in letter case get the same verdict. |
| ImageValidation.ContentTypeExamples | src/main/java/dev/stroe/buggloo/services/ImageValidationService.java:15-22 | "IMAGE/PNG", "image/jpeg", "image/jpg" and "Image/WebP" are accepted. "image/svg+xml" and a null type are rejected. |
| ImageValidation.FilenameUsableIff | src/main/java/dev/stroe/buggloo/services/ImageValidationService.java:40-43 | A filename passes exactly when it has a character above U+0020. |
| ImageValidation.ContentIrrelevant | src/main/java/dev/stroe/buggloo/services/ImageValidationService.java:31 | The uploaded bytes matter only through being empty or not. |
| ImageValidation.EarlierCheckWins | src/main/java/dev/stroe/buggloo/services/ImageValidationService.java:30-44 | An empty file is reported as missing whatever its type and name. A non-empty file whose type is missing or not allowed is a format error whatever its name. A non-empty file with an allowed type and a missing or blank name is a filename error. |
| JavaStrings.SameLowerCaseIff | src/main/java/dev/stroe/buggloo/services/ImageValidationService.java:36 | Two strings have the same lower-case form exactly when they are equal up to letter case. |
| JavaStrings.ToLowerCaseIdempotent | src/main/java/dev/stroe/buggloo/services/ImageValidationService.java:36 | A lower-cased string has no upper-case letters, and lower-casing it again changes nothing. |
| JavaStrings.TrimIsSlice | src/main/java/dev/stroe/buggloo/services/ImageValidationService.java:41 | `trim()` returns a contiguous slice of its input. Only characters up to U+0020 are dropped, and only from the two ends. |
| JavaStrings.TrimEmptyIff | src/main/java/dev/stroe/buggloo/services/ImageValidationService.java:41 | `trim()` is empty exactly when every character is at most U+0020. |
| GlobalExceptionHandler.ResolveHandler | src/main/java/dev/stroe/buggloo/exceptions/GlobalExceptionHandler.java:20-53 | Every exception class resolves to one of the five declared handler types: its own if it has one, otherwise its superclass's. |
| GlobalExceptionHandler.ResolveIsNearestInLineage | src/main/java/dev/stroe/buggloo/exceptions/GlobalExceptionHandler.java:20-53 | The resolved handler is the nearest class on the superclass chain, starting from the class itself, that has a handler. |
| GlobalExceptionHandler.ResolutionIsMostSpecific | src/main/java/dev/stroe/buggloo/exceptions/GlobalExceptionHandler.java:20-53 | Each exception with a dedicated handler is caught by that handler rather than by the generic one. Every other exception, `InsectIdentificationException` included, is caught by the `Exception` handler. |
| GlobalExceptionHandler.Handle | src/main/java/dev/stroe/buggloo/exceptions/GlobalExceptionHandler.java:20-53 | Every handled response is an error envelope: not successful, no data, an error code set, and a 4xx or 5xx status. |
| GlobalExceptionHandler.HandledOutcomes | src/main/java/dev/stroe/buggloo/exceptions/GlobalExceptionHandler.java:20-53 | Service failure gives 502 SERVICE_FAILED with its own message. Invalid image gives 400 INVALID_IMAGE with its own message. Upload too large gives 413 FILE_TOO_LARGE with the fixed message. No insect gives 404 NO_INSECT with the fixed message. Anything else gives 500 INTERNAL_ERROR with the fixed message. |
| GlobalExceptionHandler.StatusMatchesCode | src/main/java/dev/stroe/buggloo/exceptions/GlobalExceptionHandler.java:20-53 | Across all exceptions, the HTTP status and the error code determine each other. |
| ApiResponses.EmittedKeys | src/main/java/dev/stroe/buggloo/models/ApiResponse.java:9-19 | Under NON_NULL, `success` and `timestamp` are always emitted. `data`, `message` and `error` are emitted exactly when they are non-null. |
| ApiResponses.Success | src/main/java/dev/stroe/buggloo/models/ApiResponse.java:22-27 | `success(d)` is a success envelope that carries `d` as its data, with no message and no error code. Its keys are success and timestamp, plus data when `d` is non-null. |
| ApiResponses.SuccessWithMessage | src/main/java/dev/stroe/buggloo/models/ApiResponse.java:29-35 | `success(d, m)` is `success(d)` with the message set, and it has no error code. |
| ApiResponses.Error | src/main/java/dev/stroe/buggloo/models/ApiResponse.java:37-42 | `error(e)` is a failure envelope that carries `e` as its error code, with no data and no message. Its keys are success and timestamp, plus error when `e` is non-null. |
| ApiResponses.ErrorWithMessage | src/main/java/dev/stroe/buggloo/models/ApiResponse.java:44-50 | `error(e, m)` is a failure envelope that carries `e` as its error code and `m` as its message, with no data. It is `error(e)` with the message set. |
| ApiResponses.KeysSeparateOutcomes | src/main/java/dev/stroe/buggloo/models/ApiResponse.java:9-50 | The key `error` appears in failure envelopes whose code is set and never in success envelopes. `data` never appears in a failure envelope. |
| Base64.Encode | src/main/java/dev/stroe/buggloo/services/OpenAIService.java:28 | The encoding is empty exactly for empty input. It consists only of alphabet symbols and `=`. |
| Base64.EncodedLength | src/main/java/dev/stroe/buggloo/InsectIdentificationController.java:20 | The encoding of n bytes has 4·⌈n/3⌉ characters. |
| Base64.DecodeEncode | src/main/java/dev/stroe/buggloo/InsectIdentificationController.java:20 | Decoding the encoding of any bytes gives those bytes back. |
| Base64.EncodeDecode | src/main/java/dev/stroe/buggloo/InsectIdentificationController.java:20 | Whatever the strict decoder accepts is exactly the encoding of what it returns. |
| Base64.DecodeIffEncode | src/main/java/dev/stroe/buggloo/InsectIdentificationController.java:20 | A text decodes to some bytes exactly when it is the encoding of those bytes. |
| Base64.EncodeInjective | src/main/java/dev/stroe/buggloo/InsectIdentificationController.java:20 | Different byte sequences have different encodings. |
| DataUrl.Format | src/main/java/dev/stroe/buggloo/services/OpenAIService.java:28 | A formatted URL starts with `data:`. Right after the media type and `;base64` comes a comma, and the rest is the Base64 of the bytes. |
| DataUrl.FirstComma | src/main/java/dev/stroe/buggloo/services/OpenAIService.java:28 | Returns the position of the first comma, or the length when there is none. |
| DataUrl.ParseFormat | src/main/java/dev/stroe/buggloo/services/OpenAIService.java:28 | Parsing a formatted URL whose media type has no comma gives back that media type and the bytes. |
| DataUrl.FormatParse | src/main/java/dev/stroe/buggloo/services/OpenAIService.java:28 | Any URL the parser accepts is exactly the formatted URL of its result. |
| DataUrl.ParseIff | src/main/java/dev/stroe/buggloo/services/OpenAIService.java:28 | A URL parses to a media type and bytes exactly when it is their formatted URL and the media type has no comma. |
| DataUrl.JpegUrl | src/main/java/dev/stroe/buggloo/OpenAiService.java:37 | The literal prefix `data:image/jpeg;base64,` followed by the Base64 text is the formatted `image/jpeg` URL, and it parses back to the bytes. |
| DataUrl.JpegUrlInjective | src/main/java/dev/stroe/buggloo/OpenAiService.java:37 | Different images give different image URLs. |
| InsectInfo.Position | src/main/java/dev/stroe/buggloo/InsectInfoDto.java:6-37 | Each of the 29 DTO fields has a declaration position below 29, and the field at that position is the field itself. |
| InsectInfo.PositionOfFieldAt | src/main/java/dev/stroe/buggloo/InsectInfoDto.java:6-37 | Field positions and fields correspond one to one. |
| InsectInfo.JsonKeysDistinct | src/main/java/dev/stroe/buggloo/InsectInfoDto.java:7-36 | The 29 JSON property names are pairwise distinct. |
| InsectInfo.KeyInjective | src/main/java/dev/stroe/buggloo/InsectInfoDto.java:7-36 | Two fields share a JSON name exactly when they are the same field. |
| InsectInfo.RenamedField | src/main/java/dev/stroe/buggloo/InsectInfoDto.java:13-14 | Field `clazz` is serialised as "class". The other fields keep their snake_case names, for example `common_name`, `has_wings` and `leg_count`. |
| InsectInfo.StringValue | src/main/java/dev/stroe/buggloo/InsectInfoDto.java:7-8 | A `String` field serialises to JSON null exactly when it is null, and otherwise to the same string. |
| InsectInfo.ListValue | src/main/java/dev/stroe/buggloo/InsectInfoDto.java:9 | A `List<String>` field serialises to JSON null exactly when it is null, and otherwise to an array of the same length. |
| InsectInfo.Members | src/main/java/dev/stroe/buggloo/InsectInfoDto.java:6-37 | The serialised members of a DTO come in declaration order under the 29 JSON names. |
| InsectInfo.ToJson | src/main/java/dev/stroe/buggloo/InsectInfoDto.java:6-37 | The JSON object of a DTO has exactly the 29 names as keys. |
| InsectInfo.ToJsonLookup | src/main/java/dev/stroe/buggloo/InsectInfoDto.java:6-37 | Every field can be read back from the JSON object under its own name. |
| InsectInfo.ValueFits | src/main/java/dev/stroe/buggloo/InsectInfoDto.java:7-36 | Each serialised field fits its Java type. A `String` is null or a string, and a list is null or an array of strings. `has_wings` is a boolean and `leg_count` an integer in 32-bit range. |
| InsectInfo.ValueInjective | src/main/java/dev/stroe/buggloo/InsectInfoDto.java:7-36 | Equal serialised values of a field imply equal field contents. |
| InsectInfo.ToJsonInjective | src/main/java/dev/stroe/buggloo/InsectInfoDto.java:6-37 | Two DTOs with the same JSON object agree on every field. |
| InsectInfo.PrimitivesNeverNull | src/main/java/dev/stroe/buggloo/InsectInfoDto.java:24-25 | The primitive fields `has_wings` and `leg_count` never serialise to null. |
| InsectInfoSchema.GetInsectInfoSchema | src/main/java/dev/stroe/buggloo/OpenAiService.java:90-129 | The schema is an `object` schema with `additionalProperties` false. |
| InsectInfoSchema.InsectInfoFormat | src/main/java/dev/stroe/buggloo/OpenAiService.java:46-49 | The wrapper is named "insect_info", is strict and carries the schema `getInsectInfoSchema` builds. |
| InsectInfoSchema.NamesAreKeys | src/main/java/dev/stroe/buggloo/OpenAiService.java:94-126 | The property names and the `required` list are both exactly the DTO's JSON names, in DTO order. |
| InsectInfoSchema.PropertyEntries | src/main/java/dev/stroe/buggloo/OpenAiService.java:93-123 | The properties map has exactly the 29 listed names as keys. |
| InsectInfoSchema.PropertyLookup | src/main/java/dev/stroe/buggloo/OpenAiService.java:94-122 | Each listed property can be looked up with the kind and description it was put with. |
| InsectInfoSchema.RequiredIsProperties | src/main/java/dev/stroe/buggloo/OpenAiService.java:124-126 | `required` has 29 names, none repeated, and as a set it equals the property names. |
| InsectInfoSchema.KindAtPosition | src/main/java/dev/stroe/buggloo/OpenAiService.java:94-122 | The declared type at each field's position matches that field's Java type. |
| InsectInfoSchema.PropertyMatchesField | src/main/java/dev/stroe/buggloo/OpenAiService.java:94-122 | Every DTO field has a property under its JSON name. The property's type matches the field: string for `String`, an array of strings for `List<String>`, boolean for `boolean`, integer for `int`. |
| InsectInfoSchema.PropertyHasField | src/main/java/dev/stroe/buggloo/OpenAiService.java:94-122 | Every schema property names some DTO field. |
| InsectInfoSchema.ListFields | src/main/java/dev/stroe/buggloo/InsectInfoDto.java:9-34 | The `List<String>` fields are exactly alternative_names, colors, predators, defense_mechanisms, interesting_facts and similar_species. |
| InsectInfoSchema.ListFieldKeys | src/main/java/dev/stroe/buggloo/OpenAiService.java:96-120 | The JSON names of the six list fields are "alternative_names", "colors", "predators", "defense_mechanisms", "interesting_facts" and "similar_species". |
| InsectInfoSchema.ArrayProperties | src/main/java/dev/stroe/buggloo/OpenAiService.java:94-122 | Every array property has string items. A property is an array exactly when it is the name of one of the six list fields. |
| InsectInfoSchema.FieldConforms | src/main/java/dev/stroe/buggloo/OpenAiService.java:124-127 | A serialised field satisfies the strict schema exactly when it is not null. |
| InsectInfoSchema.ToJsonKeys | src/main/java/dev/stroe/buggloo/OpenAiService.java:94-126 | A serialised DTO has exactly the schema's property names as keys, so every required name is present. |
| InsectInfoSchema.PopulatedConforms | src/main/java/dev/stroe/buggloo/OpenAiService.java:124-127 | A DTO with no null field serialises to an object the schema accepts. |
| InsectInfoSchema.ConformsPopulated | src/main/java/dev/stroe/buggloo/OpenAiService.java:124-127 | If the schema accepts a DTO's object, no field of that DTO is null. |
| InsectInfoSchema.ToJsonConformsIff | src/main/java/dev/stroe/buggloo/OpenAiService.java:94-127 | The schema accepts a DTO's object exactly when no field of it is null. |
| InsectInfoSchema.ConformingValueFits | src/main/java/dev/stroe/buggloo/OpenAiService.java:111 | A value the schema accepts for a field always fits the DTO's field type, except that the schema's `integer` does not bound `leg_count` to 32 bits. |
| OpenAiResponses.ToInsectInfoDto | src/main/java/dev/stroe/buggloo/OpenAiResponse.java:8-17 | The method throws only when `choices` is non-empty and its first element is null, and then with a NullPointerException. It yields a DTO exactly when the first choice's content is present and parses. When that content is present, the result is its parse, with a parse failure giving null. |
| OpenAiResponses.NoChoicesGiveNull | src/main/java/dev/stroe/buggloo/OpenAiResponse.java:9-16 | A null or empty `choices` array gives null. |
| OpenAiResponses.OnlyFirstChoiceMatters | src/main/java/dev/stroe/buggloo/OpenAiResponse.java:9 | Choices after the first never change the result. |
| OpenAiResponses.LaterContentIgnored | src/main/java/dev/stroe/buggloo/OpenAiResponse.java:9-16 | When the first choice has no message or no content, the result is null, even if the second choice holds a reply that parses. |
| LegacyOpenAiService.RequestBody | src/main/java/dev/stroe/buggloo/OpenAiService.java:27-64 | The body has a system message with the fixed instruction, then a user message with one image part whose URL is `data:image/jpeg;base64,` followed by the input. It carries the strict `insect_info` schema with no additional properties. Its parameters are model gpt-4.1, temperature 1, max_completion_tokens 2048, top_p 1, both penalties 0 and store false. |
| LegacyOpenAiService.IdentifyInsect | src/main/java/dev/stroe/buggloo/OpenAiService.java:66-87 | An exception from the exchange propagates unchanged. A null body or one that cannot be mapped gives null. Otherwise the result is `toInsectInfoDto` of the mapped reply. |
| LegacyOpenAiService.RequestCarriesImage | src/main/java/dev/stroe/buggloo/OpenAiService.java:35-44 | Given the Base64 text of some bytes, the request carries exactly one image URL, and that URL decodes to the same bytes. |
| LegacyOpenAiService.ParsedReply | src/main/java/dev/stroe/buggloo/OpenAiService.java:84-85 | A mapped reply whose first choice has content yields the parse of that content. |
| LegacyOpenAiService.NullFirstChoiceThrows | src/main/java/dev/stroe/buggloo/OpenAiService.java:84-85 | A null first choice raises a NullPointerException out of the service. |
| StructuredOpenAiService.ImageUrl | src/main/java/dev/stroe/buggloo/services/OpenAIService.java:28 | The image URL is the `image/jpeg` data URL that parses back to the uploaded bytes, whatever type was uploaded. |
| StructuredOpenAiService.CreateParams | src/main/java/dev/stroe/buggloo/services/OpenAIService.java:30-47 | The request is one user message whose parts are the prompt "Identify the insect in the image provided." and then the image. The model is gpt-4.1, the token ceiling is 2048, the format is derived from `Insect`, and the sampling parameters are unset. |
| StructuredOpenAiService.RequestCarriesImage | src/main/java/dev/stroe/buggloo/services/OpenAIService.java:37-46 | The request carries exactly one image URL, the one for the uploaded bytes. |
| StructuredOpenAiService.FirstWithContent | src/main/java/dev/stroe/buggloo/services/OpenAIService.java:50-52 | The result is absent exactly when no choice has content. Otherwise it is the content of a choice that every earlier choice lacks. |
| StructuredOpenAiService.EmptyChoicesSkipped | src/main/java/dev/stroe/buggloo/services/OpenAIService.java:51 | Choices without content before the first one with content do not change the result. |
| StructuredOpenAiService.IdentifyInsect | src/main/java/dev/stroe/buggloo/services/OpenAIService.java:50-60 | A failure of the remote call propagates. No content gives null. Otherwise the JSON text of the first content is returned. A serialisation failure is rethrown wrapped in a RuntimeException. |
| StructuredOpenAiService.NoContentOrSkipped | src/main/java/dev/stroe/buggloo/services/OpenAIService.java:50-60 | Through the whole service, a reply with no content in any choice gives null. Empty choices in front of the first content leave the outcome unchanged. |
| Insects.MatchUrl | src/main/java/dev/stroe/buggloo/models/Insect.java:21 | The scan accepts a URL exactly when it matches `^https?://.*` as a whole. That means `http://` or `https://`, followed by no line terminator. |
| Insects.UrlMatchesPrefix | src/main/java/dev/stroe/buggloo/models/Insect.java:21 | A matching URL begins with "http://" or "https://". |
| Insects.UrlExamples | src/main/java/dev/stroe/buggloo/models/Insect.java:21 | "https://a.b" and "http://" match. A URL with a line feed after the scheme does not, and neither does "ftp://x". |
| Insects.Utf16Length | src/main/java/dev/stroe/buggloo/models/Insect.java:26 | `String.length()` lies between the number of characters and twice that number, and it equals the number of characters when all lie in the Basic Multilingual Plane. |
| Insects.Validate | src/main/java/dev/stroe/buggloo/models/Insect.java:16-30 | The validator reports only the four declared violations. It reports a null `isInsect` exactly when it is null, a URL exactly when one is set and does not match the pattern, and a name over 100 UTF-16 units exactly when there is one. |
| Insects.ValidIffNoViolations | src/main/java/dev/stroe/buggloo/models/Insect.java:16-30 | An Insect satisfies all four constraints exactly when the validator reports nothing. |
| Insects.Bare | src/main/java/dev/stroe/buggloo/models/Insect.java:16-133 | The record that carries the given `isInsect` flag and has every other field null. |
| Insects.OnlyIsInsectRequired | src/main/java/dev/stroe/buggloo/models/Insect.java:16-18 | A record with every field null except `isInsect` is valid, and it is invalid once `isInsect` is null too. |
| Insects.BoxedFieldsMayBeNull | src/main/java/dev/stroe/buggloo/models/Insect.java:82-133 | Clearing `hasWings`, `legCount`, `venomous` and `toxicToHumans` keeps a valid record valid. |
| Insects.NameLengthBoundary | src/main/java/dev/stroe/buggloo/models/Insect.java:25-30 | A name made of Basic Multilingual Plane characters passes exactly when it has at most 100 characters. A character outside that plane counts as two. |
| ChatRequests.ImageUrls | src/main/java/dev/stroe/buggloo/services/OpenAIService.java:46 | A URL is among a request's image URLs exactly when some message has an image part with that URL. |
| InsectIdentificationController.IdentifyInsect | src/main/java/dev/stroe/buggloo/InsectIdentificationController.java:17-30 | The status is always 200, 400 or 502, and a body is present exactly for 200. A 400 means reading the bytes or the service threw. A 502 means the service returned null. A 200 carries the service's result, and the service is always called with the Base64 text of the bytes. |
| InsectIdentificationController.ParsedReplyIsOk | src/main/java/dev/stroe/buggloo/InsectIdentificationController.java:19-25 | Through the legacy service, a reply whose first choice parses gives 200 with that DTO. The request sent carries one image URL, which decodes to the uploaded bytes. |
| InsectIdentificationController.UpstreamFailuresAreBadRequest | src/main/java/dev/stroe/buggloo/InsectIdentificationController.java:26-28 | A transport failure in the exchange, or a null first choice, ends in 400 with no body. |
| InsectIdentificationController.NoResultIsBadGateway | src/main/java/dev/stroe/buggloo/InsectIdentificationController.java:21-24 | Every way the legacy service returns null ends in 502 with no body, whatever the later choices hold. The cases are: no body, a body that cannot be mapped, null or empty `choices`, a first choice with no message or no content, and content that does not parse. |
| InsectIdentificationController.UnreadableUploadIsBadRequest | src/main/java/dev/stroe/buggloo/InsectIdentificationController.java:19-28 | An `IOException` while reading the upload ends in 400 with no body. |
| ServiceRevisions.SameImageUrl | src/main/java/dev/stroe/buggloo/services/OpenAIService.java:28 | For the same upload, both revisions send the same single image URL and the same 2048-token ceiling. |
| ServiceRevisions.SelectionRulesDiffer | src/main/java/dev/stroe/buggloo/services/OpenAIService.java:50-52 | Take an empty first choice and content in the second. The legacy reader returns null, while the newer service returns the second choice's content. |

## Left out

- HTTP transport is not modelled: `RestTemplate.exchange`, the client library's `create`, the bearer key, the JSON content type and the endpoint URL. The exchange is a parameter that returns the raw body or throws.
- Jackson is not modelled. `readValue` into `OpenAiResponse` and `InsectInfoDto`, and `writeValueAsString` of an `Insect`, are parameters. A failed read is `None`; a failed write is a thrown exception.
- The JSON-to-DTO direction is not modelled. The model defines the DTO's JSON object and proves it injective field by field. It has no reader that builds a DTO from a JSON object, because parsing text is Jackson's job.
- The schema the client library derives from `Insect.class` for the newer revision is not modelled. The request records only that the format is derived from that class.
- Elements of the DTO's and the Insect's lists are taken as never null.
- The newer revision's client library reads each choice's content into an `Insect` inside `create`, so `create` is a parameter that returns the choices already read. Content that does not fit `Insect` therefore surfaces as `create` throwing. In the legacy revision, unreadable content gives null and then a 502. The two revisions differ here, and the library's conversion itself is not modelled.
- The JSON property names of `Insect` (`clazz` as "class") are not modelled. The class's JSON form matters only to the derived schema and to `writeValueAsString`, and neither is modelled.
- `ApiResponse.timestamp` is modelled only as a key that is always emitted. Its value comes from the clock.
- The chat flow, the `controllers/` package, `OpenAIConfig`, logging and `printStackTrace` are not modelled. They do routing, wiring and logging only, and the newer controllers do not fit the newer service's return type.
- No code branches on `isInsect`: the newer controllers only pass it to a log call (src/main/java/dev/stroe/buggloo/controllers/InsectIdentificationController.java:49-50). No code throws `NoInsectException`. So no insect/non-insect branching is modelled beyond the handler's mapping.
- `GlobalExceptionHandler.Handle`: for exceptions with no message of their own, only the fixed messages the handlers use are modelled, not what `getMessage()` returns.
- JavaStrings.ToLowerCase: models ASCII case mapping only, not locale-dependent lower-casing.
- Insects.MatchUrl: the model does not treat `\r\n` as one terminator. It does not need to: either character alone already prevents a match.
- Insects.NameLengthBoundary: the model states the bound only for names made of Basic Multilingual Plane characters. `Utf16Length` covers the general case.
- InsectInfoSchema.ConformingValueFits: the schema's `integer` is unbounded, while `leg_count` is a Java `int`. A larger number in a reply would make Jackson fail, and that failure is a parse failure, which is already a parameter.
