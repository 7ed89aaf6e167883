/** The `data:` URL of section 3 of RFC 2397 in the one form the program
    writes, `data:<media type>;base64,<Base64 of the bytes>`, and a parser
    for that form which recovers the media type and the bytes. */
module DataUrl {
  import opened Base
  import Base64

  const Scheme: string := "data:"
  const Base64Marker: string := ";base64"
  const Separator: char := ','

  /** The media type both service revisions announce, whatever was uploaded. */
  const JpegMediaType: string := "image/jpeg"

  /** The literal prefix the services concatenate the Base64 text to. */
  const JpegPrefix: string := "data:image/jpeg;base64,"

  /** `"data:" + mediaType + ";base64," + Base64(bytes)`. */
  function Format(mediaType: string, bytes: seq<byte>): (url: string)
    ensures |url| == |Scheme| + |mediaType| + |Base64Marker| + 1 + |Base64.Encode(bytes)|
    ensures url[..|Scheme|] == Scheme
    ensures url[|Scheme| + |mediaType| + |Base64Marker|] == Separator
    ensures url[|Scheme| + |mediaType| + |Base64Marker| + 1..] == Base64.Encode(bytes)
  {
    Scheme + mediaType + Base64Marker + [Separator] + Base64.Encode(bytes)
  }

  /** The first comma of `s`, or `|s|` when there is none. */
  function FirstComma(s: string): (k: nat)
    ensures k <= |s|
    ensures k < |s| ==> s[k] == Separator
    ensures forall i :: 0 <= i < k ==> s[i] != Separator
    decreases |s|
  {
    if |s| == 0 || s[0] == Separator then 0 else 1 + FirstComma(s[1..])
  }

  /** A base64 `data:` URL split into its media type and decoded bytes, or
      `None` when the text is not one: no `data:` scheme, no comma, a
      parameter part not ending in `;base64`, or a payload that is not
      canonical Base64. */
  function Parse(url: string): (r: Option<(string, seq<byte>)>)
  {
    if |url| < |Scheme| || url[..|Scheme|] != Scheme then None
    else
      var rest := url[|Scheme|..];
      var k := FirstComma(rest);
      if k == |rest| then None
      else
        var meta := rest[..k];
        if |meta| < |Base64Marker| || meta[|meta| - |Base64Marker|..] != Base64Marker then None
        else
          var bytes :- Base64.Decode(rest[k + 1..]);
          Some((meta[..|meta| - |Base64Marker|], bytes))
  }

  predicate NoComma(s: string) {
    forall i :: 0 <= i < |s| ==> s[i] != Separator
  }

  /** The comma that ends the parameters is the first one when the media type
      itself has none. */
  lemma CommaAfterMarker(mediaType: string, payload: string)
    requires NoComma(mediaType)
    ensures var rest := mediaType + Base64Marker + [Separator] + payload;
            FirstComma(rest) == |mediaType| + |Base64Marker|
  {
    var rest := mediaType + Base64Marker + [Separator] + payload;
    var n := |mediaType| + |Base64Marker|;
    assert rest[n] == Separator;
    forall i | 0 <= i < n ensures rest[i] != Separator {
      if i >= |mediaType| {
        assert rest[i] == Base64Marker[i - |mediaType|];
      }
    }
  }

  /** Parsing a formatted URL gives back the media type and the bytes. */
  lemma {:induction false} ParseFormat(mediaType: string, bytes: seq<byte>)
    requires NoComma(mediaType)
    ensures Parse(Format(mediaType, bytes)) == Some((mediaType, bytes))
  {
    var url := Format(mediaType, bytes);
    var payload := Base64.Encode(bytes);
    var rest := mediaType + Base64Marker + [Separator] + payload;
    assert url == Scheme + rest;
    assert url[|Scheme|..] == rest;
    CommaAfterMarker(mediaType, payload);
    var k := |mediaType| + |Base64Marker|;
    assert rest[..k] == mediaType + Base64Marker;
    assert rest[k + 1..] == payload;
    Base64.DecodeEncode(bytes);
  }

  /** Only a formatted URL parses: whatever `Parse` accepts is exactly the
      text `Format` writes for its result, and the media type has no comma. */
  lemma {:induction false} FormatParse(url: string, mediaType: string, bytes: seq<byte>)
    requires Parse(url) == Some((mediaType, bytes))
    ensures NoComma(mediaType)
    ensures url == Format(mediaType, bytes)
  {
    var rest := url[|Scheme|..];
    var k := FirstComma(rest);
    var meta := rest[..k];
    assert Base64.Decode(rest[k + 1..]) == Some(bytes);
    Base64.EncodeDecode(rest[k + 1..], bytes);
    assert meta == mediaType + Base64Marker;
    assert rest == meta + [Separator] + rest[k + 1..];
    assert url == url[..|Scheme|] + rest;
  }

  /** The two lemmas together: a URL parses to `(m, b)` exactly when it is
      `Format(m, b)` for a comma-free `m`. */
  lemma ParseIff(url: string, mediaType: string, bytes: seq<byte>)
    ensures Parse(url) == Some((mediaType, bytes)) <==> NoComma(mediaType) && url == Format(mediaType, bytes)
  {
    if Parse(url) == Some((mediaType, bytes)) {
      FormatParse(url, mediaType, bytes);
    }
    if NoComma(mediaType) && url == Format(mediaType, bytes) {
      ParseFormat(mediaType, bytes);
    }
  }

  /** The services' literal prefix followed by the Base64 text is the
      formatted `image/jpeg` URL, and it carries the bytes back out. */
  lemma JpegUrl(bytes: seq<byte>)
    ensures JpegPrefix + Base64.Encode(bytes) == Format(JpegMediaType, bytes)
    ensures Parse(JpegPrefix + Base64.Encode(bytes)) == Some((JpegMediaType, bytes))
  {
    assert JpegPrefix == Scheme + JpegMediaType + Base64Marker + [Separator];
    ParseFormat(JpegMediaType, bytes);
  }

  /** Different images give different URLs. */
  lemma JpegUrlInjective(a: seq<byte>, b: seq<byte>)
    requires JpegPrefix + Base64.Encode(a) == JpegPrefix + Base64.Encode(b)
    ensures a == b
  {
    JpegUrl(a);
    JpegUrl(b);
  }
}
