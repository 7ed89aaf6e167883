/** `services/ImageValidationService.validateImage`: three checks on an
    uploaded multipart file, run in order; the first that fails throws an
    `InvalidImageException` with its own message. */
module ImageValidation {
  import opened Base
  import opened Exceptions
  import opened JavaStrings

  /** What the check reads from a `MultipartFile`: its bytes (`isEmpty()` is
      "no bytes"), the declared content type and the client's file name,
      either of which may be `null`. */
  datatype Upload = Upload(content: seq<byte>, contentType: Option<string>, originalFilename: Option<string>)

  const AllowedContentTypes: set<string> :=
    {"image/jpeg", "image/jpg", "image/png", "image/gif", "image/bmp", "image/webp"}

  const NoFileMessage: string := "No image file provided"
  const FormatMessage: string := "Invalid image format. Supported formats: JPEG, PNG, GIF, BMP, WebP"
  const FilenameMessage: string := "Invalid filename"

  /** First check: a file was sent and it has content. */
  predicate FilePresent(file: Option<Upload>) {
    file.Some? && |file.value.content| > 0
  }

  /** Second check: the lower-cased content type is one of the six. */
  predicate ContentTypeAllowed(contentType: Option<string>) {
    contentType.Some? && ToLowerCase(contentType.value) in AllowedContentTypes
  }

  /** Third check: the file name is not blank after `trim()`. */
  predicate FilenameUsable(filename: Option<string>) {
    filename.Some? && |Trim(filename.value)| > 0
  }

  function Reject(message: string): Java<()> {
    Throws(InvalidImageException(Some(message)))
  }

  /** `validateImage(file)`: returns normally, or throws. */
  function ValidateImage(file: Option<Upload>): (r: Java<()>)
    ensures r.Returns? <==>
              FilePresent(file) && ContentTypeAllowed(file.value.contentType)
              && FilenameUsable(file.value.originalFilename)
    ensures r.Throws? ==> r.exception.InvalidImageException? && r.exception.message.Some?
    ensures !FilePresent(file) ==> r == Reject(NoFileMessage)
    ensures FilePresent(file) && !ContentTypeAllowed(file.value.contentType) ==> r == Reject(FormatMessage)
    ensures (FilePresent(file) && ContentTypeAllowed(file.value.contentType)
             && !FilenameUsable(file.value.originalFilename)) ==> r == Reject(FilenameMessage)
  {
    if file.None? || |file.value.content| == 0 then Reject(NoFileMessage)
    else if file.value.contentType.None? || ToLowerCase(file.value.contentType.value) !in AllowedContentTypes then
      Reject(FormatMessage)
    else if file.value.originalFilename.None? || |Trim(file.value.originalFilename.value)| == 0 then
      Reject(FilenameMessage)
    else Returns(())
  }

  /** The allowed set is written in lower case, so lower-casing it is a no-op. */
  lemma AllowedAreLowerCase(t: string)
    requires t in AllowedContentTypes
    ensures ToLowerCase(t) == t
  {
    ToLowerCaseOfLower(t);
  }

  /** A content type passes exactly when it equals one of the six allowed
      types up to the case of its letters. */
  lemma ContentTypeAllowedIff(t: string)
    ensures ContentTypeAllowed(Some(t)) <==> exists a :: a in AllowedContentTypes && EqualsIgnoreCase(t, a)
  {
    if ContentTypeAllowed(Some(t)) {
      var a := ToLowerCase(t);
      AllowedAreLowerCase(a);
      SameLowerCaseIff(t, a);
    }
    if exists a :: a in AllowedContentTypes && EqualsIgnoreCase(t, a) {
      var a :| a in AllowedContentTypes && EqualsIgnoreCase(t, a);
      SameLowerCaseIff(t, a);
      AllowedAreLowerCase(a);
    }
  }

  /** Changing the case of the content type never changes the verdict. */
  lemma ContentTypeCaseInsensitive(content: seq<byte>, t: string, t': string, filename: Option<string>)
    requires EqualsIgnoreCase(t, t')
    ensures ValidateImage(Some(Upload(content, Some(t), filename)))
         == ValidateImage(Some(Upload(content, Some(t'), filename)))
  {
    SameLowerCaseIff(t, t');
  }

  /** Upper-case and the `jpg` alias are accepted; an unlisted image type is not. */
  lemma ContentTypeExamples()
    ensures ContentTypeAllowed(Some("IMAGE/PNG"))
    ensures ContentTypeAllowed(Some("image/jpeg")) && ContentTypeAllowed(Some("image/jpg"))
    ensures ContentTypeAllowed(Some("Image/WebP"))
    ensures !ContentTypeAllowed(Some("image/svg+xml"))
    ensures !ContentTypeAllowed(None)
  {
    assert ToLowerCase("IMAGE/PNG") == "image/png";
    assert ToLowerCase("image/jpeg") == "image/jpeg";
    assert ToLowerCase("image/jpg") == "image/jpg";
    assert ToLowerCase("Image/WebP") == "image/webp";
    var svg := ToLowerCase("image/svg+xml");
    assert |svg| == 13;
  }

  /** A name made only of characters up to U+0020 (spaces, tabs, control
      characters) is rejected; one with any other character passes. */
  lemma FilenameUsableIff(name: string)
    ensures FilenameUsable(Some(name)) <==> exists i :: 0 <= i < |name| && !IsTrimmable(name[i])
  {
    TrimEmptyIff(name);
  }

  /** The bytes matter only through their emptiness. */
  lemma ContentIrrelevant(u: Upload, content': seq<byte>)
    requires |u.content| > 0 && |content'| > 0
    ensures ValidateImage(Some(u)) == ValidateImage(Some(u.(content := content')))
  {
  }

  /** The first failing check decides the message: an empty file is missing
      whatever else is wrong with it, a bad type is reported whatever the
      name, and the name is looked at only once the type passes. */
  lemma EarlierCheckWins(content: seq<byte>, t: Option<string>, filename: Option<string>)
    ensures ValidateImage(Some(Upload([], t, filename))) == Reject(NoFileMessage)
    ensures |content| > 0 && !ContentTypeAllowed(t)
            ==> ValidateImage(Some(Upload(content, t, filename))) == Reject(FormatMessage)
    ensures |content| > 0 && ContentTypeAllowed(t) && !FilenameUsable(filename)
            ==> ValidateImage(Some(Upload(content, t, filename))) == Reject(FilenameMessage)
  {
  }
}
