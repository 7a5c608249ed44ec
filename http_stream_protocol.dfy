/**
 * HttpStreamProtocol: a pull protocol that fetches a URL at a fixed
 * interval. The HTTP request, the parser and the format are not modelled:
 * the response body, the records the parser cuts from it and the decoding of
 * one record are inputs.
 */
module HttpStream {
  import opened JavaText

  const ID: string := "https://streampipes.org/vocabulary/v1/protocol/stream/http"
  const URL_PROPERTY: string := "url"
  const INTERVAL_PROPERTY: string := "interval"
  const LABEL: string := "HTTP (Stream)"
  const DESCRIPTION: string := "This is the description for the File protocol"
  const SOURCE_TYPE: string := "STREAM"

  /** The number of records sampled to guess the schema. */
  const SAMPLE_SIZE: nat := 20

  /** A free-text configuration property and the value the user entered (null until then). */
  datatype FreeText = FreeText(internalName: string, labelText: string, description: string, value: Option<string>)

  datatype ProtocolDescription = ProtocolDescription(
    id: string,
    labelText: string,
    description: string,
    sourceType: Option<string>,
    config: seq<FreeText>)

  /** A configured protocol: its parser and format, the URL and the pull interval in seconds. */
  datatype HttpStreamProtocol<P, F> = HttpStreamProtocol(parser: P, format: F, url: Option<string>, interval: int)

  /** The extractor's single value: the value of the first property with the name, or null. */
  function SingleValue(config: seq<FreeText>, name: string): (r: Option<string>)
    ensures r.Some? ==> exists i | 0 <= i < |config| :: config[i].internalName == name && config[i].value == r
    ensures (forall i | 0 <= i < |config| :: config[i].internalName != name) ==> r.None?
  {
    if config == [] then None
    else if config[0].internalName == name then config[0].value
    else
      var r := SingleValue(config[1..], name);
      assert forall i | 1 <= i < |config| :: config[i] == config[1..][i - 1];
      r
  }

  /**
   * getInstance: a protocol over the url value and the interval parsed as a
   * long; null when the interval value is missing or does not parse.
   */
  function GetInstance<P, F>(description: ProtocolDescription, parser: P, format: F)
    : (r: Option<HttpStreamProtocol<P, F>>)
    ensures r.None? <==> ParseLong(SingleValue(description.config, INTERVAL_PROPERTY)).None?
    ensures r.Some? ==>
              && r.value.parser == parser && r.value.format == format
              && r.value.url == SingleValue(description.config, URL_PROPERTY)
              && Some(r.value.interval) == ParseLong(SingleValue(description.config, INTERVAL_PROPERTY))
              && LONG_MIN <= r.value.interval <= LONG_MAX
  {
    var urlProperty := SingleValue(description.config, URL_PROPERTY);
    var intervalProperty := ParseLong(SingleValue(description.config, INTERVAL_PROPERTY));
    if intervalProperty.None? then None
    else Some(HttpStreamProtocol(parser, format, urlProperty, intervalProperty.value))
  }

  /** declareModel: the protocol's id and label, source type STREAM, and the url and interval properties in that order. */
  function DeclareModel(): (d: ProtocolDescription)
    ensures d.id == ID && d.labelText == LABEL && d.sourceType == Some(SOURCE_TYPE)
    ensures |d.config| == 2
    ensures d.config[0].internalName == URL_PROPERTY && d.config[0].labelText == "URL"
    ensures d.config[1].internalName == INTERVAL_PROPERTY && d.config[1].labelText == "Interval [Sec]"
    ensures forall i | 0 <= i < |d.config| :: d.config[i].value.None?
  {
    var urlProperty := FreeText(URL_PROPERTY, "URL", "This property defines the URL for the http request.", None);
    var intervalProperty := FreeText(INTERVAL_PROPERTY, "Interval [Sec]",
                                     "This property defines the pull interval in seconds.", None);
    ProtocolDescription(ID, LABEL, DESCRIPTION, Some(SOURCE_TYPE), [urlProperty, intervalProperty])
  }

  /** The declared model with the user's url and interval text entered. */
  function Configured(url: string, interval: string): ProtocolDescription {
    var d := DeclareModel();
    d.(config := [d.config[0].(value := Some(url)), d.config[1].(value := Some(interval))])
  }

  /** A declared model filled in with a url and a printed long yields a protocol with that url and interval. */
  lemma ConfiguredModelGivesInstance<P, F>(url: string, interval: int, parser: P, format: F)
    requires LONG_MIN <= interval <= LONG_MAX
    ensures GetInstance(Configured(url, LongToString(interval)), parser, format)
              == Some(HttpStreamProtocol(parser, format, Some(url), interval))
  {
    var d := Configured(url, LongToString(interval));
    assert SingleValue(d.config, URL_PROPERTY) == Some(url);
    assert d.config[1..][0] == d.config[1];
    assert SingleValue(d.config, INTERVAL_PROPERTY) == Some(LongToString(interval));
    ParseLongRoundTrip(interval);
  }

  /** An interval written with a unit is not a long, so no protocol is built. */
  lemma IntervalWithUnitGivesNoInstance<P, F>(url: string, parser: P, format: F)
    ensures GetInstance(Configured(url, "5s"), parser, format).None?
  {
    var d := Configured(url, "5s");
    assert d.config[1..][0] == d.config[1];
    assert SingleValue(d.config, INTERVAL_PROPERTY) == Some("5s");
    assert !IsDigit("5s"[1]);
  }

  /** getId. */
  function GetId(): (r: string)
    ensures r == DeclareModel().id
  {
    ID
  }

  /**
   * The records getGuessSchema guesses the event schema from: the sample
   * when it has at least 20 records, and the sample twice over otherwise.
   */
  method SchemaSample<R>(parsed: seq<R>) returns (dataByte: seq<R>)
    ensures |parsed| < SAMPLE_SIZE ==> dataByte == parsed + parsed
    ensures |parsed| >= SAMPLE_SIZE ==> dataByte == parsed
  {
    dataByte := parsed;
    if |dataByte| < SAMPLE_SIZE {
      dataByte := dataByte + dataByte;
    }
  }

  /**
   * getNElements: one decoded map per record, in record order. `records` is
   * what the parser's parseNEvents(…, n) cut from the response, at most n of
   * them; fewer records than asked for is not an error.
   */
  method GetNElements<R, M>(n: int, records: seq<R>, parse: R -> M) returns (result: seq<M>)
    ensures |result| == |records|
    ensures forall i | 0 <= i < |records| :: result[i] == parse(records[i])
  {
    result := [];
    for i := 0 to |records|
      invariant |result| == i
      invariant forall j | 0 <= j < i :: result[j] == parse(records[j])
    {
      result := result + [parse(records[i])];
    }
  }

  /**
   * getGuessSchema: the event schema guessed from the schema sample,
   * together with the decoded records of a second fetch. The schema
   * function and the guesser are parameters.
   */
  method GetGuessSchema<R, M, S, G>(sampled: seq<R>, refetched: seq<R>, eventSchema: seq<R> -> S,
                                    parse: R -> M, guess: (S, seq<M>) -> G)
    returns (schemaSample: seq<R>, result: G)
    ensures |sampled| < SAMPLE_SIZE ==> schemaSample == sampled + sampled
    ensures |sampled| >= SAMPLE_SIZE ==> schemaSample == sampled
    ensures exists elements: seq<M> ::
              && |elements| == |refetched|
              && (forall i | 0 <= i < |refetched| :: elements[i] == parse(refetched[i]))
              && result == guess(eventSchema(schemaSample), elements)
  {
    schemaSample := SchemaSample(sampled);
    var elements := GetNElements(SAMPLE_SIZE, refetched, parse);
    result := guess(eventSchema(schemaSample), elements);
  }

  /** A short sample is doubled, not padded: k < 20 records give 2k, which stays short of 20 when k < 10. */
  lemma ShortSampleIsDoubledNotPadded<R>(parsed: seq<R>, doubled: seq<R>)
    requires |parsed| < SAMPLE_SIZE && doubled == parsed + parsed
    ensures |doubled| == 2 * |parsed|
    ensures forall i | 0 <= i < |parsed| :: doubled[i] == parsed[i] && doubled[|parsed| + i] == parsed[i]
    ensures |parsed| < SAMPLE_SIZE / 2 ==> |doubled| < SAMPLE_SIZE
  {
  }

  const BOM_START: char := 'ï'
  const SUBSTRING_OUT_OF_RANGE: string := "StringIndexOutOfBoundsException"

  /**
   * The BOM strip of getDataFromEndpoint: a body starting with "ï" (the
   * first character of a UTF-8 byte order mark read as Latin-1) loses its
   * first three characters; `substring` throws when there are fewer. Other
   * bodies are kept.
   */
  function StripBom(s: string): (r: Result<string>)
    ensures !StartsWith(s, [BOM_START]) ==> r == Ok(s)
    ensures StartsWith(s, [BOM_START]) && |s| >= 3 ==> r.Ok? && s == s[..3] + r.value
    ensures r.Err? <==> StartsWith(s, [BOM_START]) && |s| < 3
  {
    if StartsWith(s, [BOM_START]) then
      if |s| < 3 then Err(SUBSTRING_OUT_OF_RANGE) else Ok(s[3..])
    else Ok(s)
  }

  /** The UTF-8 byte order mark read as Latin-1 text: "ï»¿". */
  const LATIN1_BOM: string := ['ï', '»', '¿']

  /** A body behind a byte order mark comes out as the body alone. */
  lemma BomIsStripped(body: string)
    ensures StripBom(LATIN1_BOM + body) == Ok(body)
  {
    var s := LATIN1_BOM + body;
    assert s[..1] == [BOM_START];
    assert s[3..] == body;
  }

  /**
   * getDataFromEndpoint on the response of the request (None when it threw
   * an IOException): the stripped body, or null after an IOException.
   */
  function GetDataFromEndpoint(response: Option<string>): (r: Result<Option<string>>)
    ensures response.None? ==> r == Ok(None)
    ensures response.Some? && !StartsWith(response.value, [BOM_START]) ==> r == Ok(response)
    ensures r.Ok? && r.value.Some? ==> response.Some? && EndsWith(response.value, r.value.value)
    ensures r.Err? ==> response.Some? && |response.value| < 3
    ensures response.Some? ==>
              && (r.Err? <==> StripBom(response.value).Err?)
              && (r.Ok? ==> r.value == Some(StripBom(response.value).value))
  {
    match response
    case None => Ok(None)
    case Some(s) =>
      var stripped := StripBom(s);
      if stripped.Err? then Err(stripped.message) else Ok(Some(stripped.value))
  }
}
