/**
 * Image analysis: the uploaded image is checked and given a data-URL header
 * before it is sent to the backend; any failure yields fixed guidance text.
 *
 * `atob` accepts exactly the strings the forgiving-base64 decode of the WHATWG
 * Infra Standard accepts, over the alphabet of section 4 of RFC 4648.
 */
module ImageAnalysis {
  import opened Wrappers

  predicate StartsWith(s: string, prefix: string) {
    |prefix| <= |s| && s[..|prefix|] == prefix
  }

  const DataImagePrefix: string := "data:image/"
  const JpegHeader: string := "data:image/jpeg;base64,"
  const InvalidBase64: string := "Format base64 invalide"

  /** TAB, LF, FF, CR and SPACE. */
  predicate IsAsciiWhitespace(c: char) {
    c == '\t' || c == '\n' || c == '\U{000C}' || c == '\r' || c == ' '
  }

  /** The characters of the base64 alphabet (RFC 4648, section 4), padding excluded. */
  predicate IsBase64Char(c: char) {
    ('A' <= c <= 'Z') || ('a' <= c <= 'z') || ('0' <= c <= '9') || c == '+' || c == '/'
  }

  /** Step 1 of the decode: every ASCII whitespace character removed. */
  function StripWhitespace(s: string): (r: string)
    ensures |r| <= |s|
    ensures forall i :: 0 <= i < |r| ==> !IsAsciiWhitespace(r[i])
    decreases |s|
  {
    if s == [] then []
    else if IsAsciiWhitespace(s[0]) then StripWhitespace(s[1..])
    else [s[0]] + StripWhitespace(s[1..])
  }

  /** Step 2: when the length is a multiple of four, one or two trailing '=' removed. */
  function DropPadding(s: string): (r: string)
    ensures |s| % 4 != 0 ==> r == s
    ensures |r| <= |s|
  {
    if |s| % 4 != 0 then s
    else if |s| >= 2 && s[|s| - 2..] == "==" then s[..|s| - 2]
    else if |s| >= 1 && s[|s| - 1] == '=' then s[..|s| - 1]
    else s
  }

  /**
   * `atob(s)` does not throw: after steps 1 and 2 the length is not 1 modulo 4
   * and only alphabet characters remain. Dropping padding never makes a length
   * 1 modulo 4, so input whose length without whitespace is 1 modulo 4 is refused.
   */
  predicate Base64Decodable(s: string)
    ensures Base64Decodable(s) ==> |StripWhitespace(s)| % 4 != 1
  {
    var data := DropPadding(StripWhitespace(s));
    |data| % 4 != 1 && forall i :: 0 <= i < |data| ==> IsBase64Char(data[i])
  }

  /** `validateAndFormatBase64Image(base64)`: `Err` carries the message of the error it throws. */
  function FormatBase64Image(base64: string): (r: Result<string>)
    ensures StartsWith(base64, DataImagePrefix) ==> r == Ok(base64)
    ensures !StartsWith(base64, DataImagePrefix) && !Base64Decodable(base64) ==> r == Err(InvalidBase64)
    ensures !StartsWith(base64, DataImagePrefix) && Base64Decodable(base64) ==> r == Ok(JpegHeader + base64)
    ensures r.Ok? ==> StartsWith(r.value, DataImagePrefix)
  {
    if StartsWith(base64, DataImagePrefix) then Ok(base64)
    else if !Base64Decodable(base64) then Err(InvalidBase64)
    else
      assert (JpegHeader + base64)[..|DataImagePrefix|] == DataImagePrefix;
      Ok(JpegHeader + base64)
  }

  /** Formatting a formatted image changes nothing. */
  lemma FormatIdempotent(base64: string)
    requires FormatBase64Image(base64).Ok?
    ensures FormatBase64Image(FormatBase64Image(base64).value) == FormatBase64Image(base64)
  {
  }

  /** A string without ASCII whitespace goes through step 1 unchanged. */
  lemma {:induction false} StripWhitespaceOfClean(s: string)
    requires forall i :: 0 <= i < |s| ==> !IsAsciiWhitespace(s[i])
    ensures StripWhitespace(s) == s
    decreases |s|
  {
    if s != [] {
      StripWhitespaceOfClean(s[1..]);
    }
  }

  /** Step 1 keeps every other character, in order: it works piece by piece. */
  lemma {:induction false} StripWhitespaceOfConcat(a: string, b: string)
    ensures StripWhitespace(a + b) == StripWhitespace(a) + StripWhitespace(b)
    decreases |a|
  {
    if a != [] {
      assert (a + b)[1..] == a[1..] + b;
      StripWhitespaceOfConcat(a[1..], b);
    } else {
      assert a + b == b;
    }
  }

  /** A character that is not whitespace survives step 1, between what its two sides become. */
  lemma StripWhitespaceKeeps(a: string, c: char, b: string)
    requires !IsAsciiWhitespace(c)
    ensures StripWhitespace(a + [c] + b) == StripWhitespace(a) + [c] + StripWhitespace(b)
  {
    StripWhitespaceOfConcat(a + [c], b);
    StripWhitespaceOfConcat(a, [c]);
    assert StripWhitespace([c]) == [c] by { assert [c][1..] == []; }
  }

  /** Stripping twice is stripping once, and whitespace anywhere in the input does not change whether `atob` accepts it. */
  lemma {:induction false} StripWhitespaceIdempotent(s: string)
    ensures StripWhitespace(StripWhitespace(s)) == StripWhitespace(s)
    ensures Base64Decodable(StripWhitespace(s)) == Base64Decodable(s)
  {
    StripWhitespaceOfClean(StripWhitespace(s));
  }

  /**
   * A padded encoding as RFC 4648 (section 4) writes it: alphabet characters,
   * then "=" after a final group of three or "==" after a final group of two.
   */
  predicate PaddedEncoding(body: string, padding: string) {
    && (forall i :: 0 <= i < |body| ==> IsBase64Char(body[i]))
    && (|body| % 4 == 0 ==> padding == "")
    && (|body| % 4 == 2 ==> padding == "==")
    && (|body| % 4 == 3 ==> padding == "=")
    && |body| % 4 != 1
  }

  /** Base64 text never starts with "data:image/": the colon is outside the alphabet. */
  lemma Base64TextIsNoDataUrl(s: string)
    requires forall i :: 0 <= i < |s| ==> IsBase64Char(s[i]) || s[i] == '='
    ensures !StartsWith(s, DataImagePrefix)
  {
    if |s| >= |DataImagePrefix| {
      assert DataImagePrefix[4] == ':';
      assert s[..|DataImagePrefix|][4] != ':';
    }
  }

  /** Step 2 removes exactly the padding RFC 4648 adds. */
  lemma DropPaddingOfPadded(body: string, padding: string)
    requires PaddedEncoding(body, padding)
    ensures DropPadding(body + padding) == body
  {
    var s := body + padding;
    if padding == "==" {
      assert s[|s| - 2..] == "==";
      assert s[..|s| - 2] == body;
    } else if padding == "=" {
      assert s[|s| - 2] == body[|body| - 1];
      assert s[..|s| - 1] == body;
    } else {
      assert s == body;
      if |s| >= 1 {
        assert IsBase64Char(s[|s| - 1]);
      }
    }
  }

  /** Every RFC 4648 encoding, padded as the RFC writes it, passes the check. */
  lemma PaddedEncodingDecodable(body: string, padding: string)
    requires PaddedEncoding(body, padding)
    ensures Base64Decodable(body + padding)
  {
    var s := body + padding;
    forall i | 0 <= i < |s| ensures !IsAsciiWhitespace(s[i]) {
      if i >= |body| {
        assert s[i] == padding[i - |body|];
      }
    }
    StripWhitespaceOfClean(s);
    DropPaddingOfPadded(body, padding);
  }

  /** An RFC 4648 encoding is sent with the JPEG header in front of it. */
  lemma PaddedEncodingFormatted(body: string, padding: string)
    requires PaddedEncoding(body, padding)
    ensures FormatBase64Image(body + padding) == Ok(JpegHeader + (body + padding))
  {
    var s := body + padding;
    forall i | 0 <= i < |s| ensures IsBase64Char(s[i]) || s[i] == '=' {
      if i >= |body| {
        assert s[i] == padding[i - |body|];
      }
    }
    Base64TextIsNoDataUrl(s);
    PaddedEncodingDecodable(body, padding);
  }

  /** Input whose length is 1 modulo 4 once whitespace is removed is refused. */
  lemma OneCharOverIsRefused(s: string)
    requires |StripWhitespace(s)| % 4 == 1
    ensures !Base64Decodable(s)
    ensures !StartsWith(s, DataImagePrefix) ==> FormatBase64Image(s) == Err(InvalidBase64)
  {
  }

  // ----- analyzeImage -----

  const NoAnalysis: string := "Aucune analyse disponible"

  /** The text `analyzeImage` resolves to when anything fails. */
  const GuidanceText: string :=
    "Pour analyser un site d'orpaillage, recherchez les indices suivants :\n\n"
    + "1. Géologie favorable :\n"
    + "   - Affleurements rocheux avec veines de quartz\n"
    + "   - Zones de contact entre différentes formations\n"
    + "   - Signes d'altération hydrothermale\n\n"
    + "2. Morphologie du cours d'eau :\n"
    + "   - Méandres prononcés où l'or s'accumule\n"
    + "   - Zones de ralentissement naturel\n"
    + "   - Points de confluence avec des affluents\n\n"
    + "3. Indices physiques :\n"
    + "   - Bancs de gravier et sable noir\n"
    + "   - Marmites de géant dans le lit rocheux\n"
    + "   - Dépôts alluviaux anciens\n\n"
    + "4. Conseils pratiques :\n"
    + "   - Privilégiez les zones en aval des anciennes mines\n"
    + "   - Examinez les berges intérieures des méandres\n"
    + "   - Recherchez les points bas naturels du lit\n\n"
    + "N'hésitez pas à partager une nouvelle photo pour une analyse plus précise."

  /** The backend's answer to an image request: it failed, or it carries a possibly absent `description`. */
  datatype ImageReply = ImageRequestFailed | Described(description: Option<string>)

  /** What `analyzeImage` does: the image it sends to the backend, if any, and the text it resolves to. */
  datatype Analysis = Analysis(sent: Option<string>, text: string)

  /** `analyzeImage(imageBase64)`, with the backend as a function from the image sent to its reply. */
  function AnalyzeImage(imageBase64: string, backend: string -> ImageReply): (r: Analysis)
    ensures FormatBase64Image(imageBase64).Err? <==> r.sent.None?
    ensures r.sent.Some? ==> r.sent == Some(FormatBase64Image(imageBase64).value) && StartsWith(r.sent.value, DataImagePrefix)
    ensures r.sent.None? ==> r.text == GuidanceText
  {
    match FormatBase64Image(imageBase64)
    case Err(_) => Analysis(None, GuidanceText)
    case Ok(formatted) =>
      match backend(formatted)
      case ImageRequestFailed => Analysis(Some(formatted), GuidanceText)
      case Described(description) =>
        Analysis(Some(formatted), if description.Some? && description.value != [] then description.value else NoAnalysis)
  }

  /** A successful reply gives its description, or "Aucune analyse disponible" when that is empty or absent. */
  lemma AnalyzeImageDescribed(imageBase64: string, backend: string -> ImageReply, description: Option<string>)
    requires FormatBase64Image(imageBase64).Ok?
    requires backend(FormatBase64Image(imageBase64).value) == Described(description)
    ensures AnalyzeImage(imageBase64, backend).text
         == if description.Some? && description.value != [] then description.value else NoAnalysis
  {
  }

  /** A failed request gives the guidance text as well. */
  lemma AnalyzeImageRequestFailed(imageBase64: string, backend: string -> ImageReply)
    requires FormatBase64Image(imageBase64).Ok?
    requires backend(FormatBase64Image(imageBase64).value) == ImageRequestFailed
    ensures AnalyzeImage(imageBase64, backend).text == GuidanceText
  {
  }
}
