/** The detection client: builds one structured-output request for the
    hosted vision model from an uploaded data URL, hands it to the service,
    and turns the reply into detections or an error. The service call and
    the JSON parser are parameters, so no network is involved. */
module DetectionClient {
  import opened Outcomes
  import opened Types
  import TextSplit

  /** The model every request names. */
  const ModelName: string := "gemini-3-flash-preview"

  /** The MIME type every inline image is declared with, whatever was
      uploaded. */
  const ImageMimeType: string := "image/jpeg"

  /** The MIME type asked of the reply. */
  const ResponseMimeType: string := "application/json"

  /** The instruction sent along with the image. */
  const Prompt: string :=
    "Detect all significant objects in this image. For each object, provide a label, a confidence score between 0 and 1, and its bounding box. \n"
    + "  The bounding box should be provided in [ymin, xmin, ymax, xmax] format, where coordinates are normalized integers from 0 to 1000.\n"
    + "  Respond strictly with the specified JSON structure."

  /** The subset of the service's response-schema language the client uses. */
  datatype Schema =
    | StringSchema(description: string)
    | NumberSchema(description: string)
    | IntegerSchema
    | ArraySchema(items: Schema, arrayDescription: Option<string>)
    | ObjectSchema(properties: seq<Property>, required: seq<string>)

  datatype Property = Property(name: string, schema: Schema)

  /** One part of the request's single content entry. */
  datatype Part = TextPart(text: string) | InlineDataPart(mimeType: string, data: Option<string>)

  datatype Request = Request(
    model: string,
    parts: seq<Part>,
    responseMimeType: string,
    responseSchema: Schema)

  /** What the service call produced: a reply whose text may be absent, or
      a thrown error (network, credentials, quota). */
  datatype Reply = Answered(text: Option<string>) | Threw(cause: string)

  /** The three ways a detection call fails. */
  datatype ClientError =
    | Transport(cause: string)
    | EmptyResponse
    | Malformed(cause: string)

  /** The message carried by the error the caller receives. */
  function Message(e: ClientError): string {
    match e
    case Transport(cause) => cause
    case EmptyResponse => "No response from AI"
    case Malformed(cause) => cause
  }

  /** The schema of one detection: the three fields, all required. */
  const DetectionSchema: Schema := ObjectSchema(
    [ Property("label", StringSchema("The name of the detected object.")),
      Property("confidence", NumberSchema("Confidence score (0.0 to 1.0).")),
      Property("box_2d", ArraySchema(IntegerSchema, Some("[ymin, xmin, ymax, xmax] coordinates normalized to 0-1000.")))],
    ["label", "confidence", "box_2d"])

  /** The reply must be an array of detections. */
  const ResponseSchema: Schema := ArraySchema(DetectionSchema, None)

  /** The declared property names, in order. */
  function PropertyNames(props: seq<Property>): seq<string> {
    seq(|props|, k requires 0 <= k < |props| => props[k].name)
  }

  /** The schema declares exactly the fields of a detection, in order, and
      requires every one of them. */
  lemma ResponseSchemaMatchesDetection()
    ensures ResponseSchema.ArraySchema? && ResponseSchema.items.ObjectSchema?
    ensures PropertyNames(ResponseSchema.items.properties) == DetectionFields
    ensures ResponseSchema.items.required == DetectionFields
  {
  }

  /** The request for one uploaded image. The payload is the text after the
      data URL's first comma, `undefined` when there is none. */
  function BuildRequest(image: string): (req: Request)
    ensures req.model == ModelName
    ensures req.responseMimeType == ResponseMimeType
    ensures req.responseSchema == ResponseSchema
    ensures |req.parts| == 2 && req.parts[0] == TextPart(Prompt)
    ensures req.parts[1].InlineDataPart? && req.parts[1].mimeType == ImageMimeType
    ensures req.parts[1].data == TextSplit.SecondPiece(image)
    ensures req.parts[1].data.None? <==> ',' !in image
  {
    Request(
      ModelName,
      [TextPart(Prompt), InlineDataPart(ImageMimeType, TextSplit.SecondPiece(image))],
      ResponseMimeType,
      ResponseSchema)
  }

  /** A PNG and a JPEG upload of the same encoded bytes produce the same
      request: the declared type is dropped and `image/jpeg` is sent. */
  lemma RequestIgnoresMediaType(type1: string, type2: string, body: string)
    requires ',' !in type1 && ',' !in type2
    requires forall k :: 0 <= k < |body| ==> TextSplit.IsBase64Char(body[k])
    ensures BuildRequest(TextSplit.Base64DataUrl(type1, body))
         == BuildRequest(TextSplit.Base64DataUrl(type2, body))
    ensures BuildRequest(TextSplit.Base64DataUrl(type1, body)).parts[1]
         == InlineDataPart(ImageMimeType, Some(body))
  {
    TextSplit.DataUrlPayload(type1, body);
    TextSplit.DataUrlPayload(type2, body);
  }

  /** Absent or empty text: `!response.text` holds. */
  predicate IsBlank(text: Option<string>)
    ensures text.None? ==> IsBlank(text)
    ensures text == Some("") ==> IsBlank(text)
    ensures IsBlank(text) && text.Some? ==> |text.value| == 0
  {
    text.None? || text.value == ""
  }

  /** One detection call: the request goes to `service` once; a thrown
      error, a blank reply and a parse failure all reach the caller as an
      error, with no retry and no fallback; otherwise the parsed array is
      returned as it is, with no bounds checks. */
  function Detect(
    image: string,
    service: Request -> Reply,
    parse: string -> Result<seq<Detection>, string>): (r: Result<seq<Detection>, ClientError>)
    ensures var reply := service(BuildRequest(image));
      && (r.Ok? <==> reply.Answered? && !IsBlank(reply.text) && parse(reply.text.value).Ok?)
      && (r.Ok? ==> r.value == parse(reply.text.value).value)
      && (reply.Threw? ==> r == Err(Transport(reply.cause)))
      && (reply.Answered? && IsBlank(reply.text) ==> r == Err(EmptyResponse))
      && (reply.Answered? && !IsBlank(reply.text) && parse(reply.text.value).Err? ==>
            r == Err(Malformed(parse(reply.text.value).error)))
  {
    match service(BuildRequest(image))
    case Threw(cause) => Err(Transport(cause))
    case Answered(text) =>
      if IsBlank(text) then Err(EmptyResponse)
      else
        match parse(text.value)
        case Ok(detections) => Ok(detections)
        case Err(cause) => Err(Malformed(cause))
  }

  /** A blank reply is reported with the fixed message. */
  lemma BlankReplyMessage(image: string, service: Request -> Reply, parse: string -> Result<seq<Detection>, string>)
    requires service(BuildRequest(image)).Answered?
    requires IsBlank(service(BuildRequest(image)).text)
    ensures Detect(image, service, parse).Err?
    ensures Message(Detect(image, service, parse).error) == "No response from AI"
  {
  }
}
