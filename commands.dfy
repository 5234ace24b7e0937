/**
 * Control messages exchanged between the supervisor (GameWorker) and the
 * worker process, one JSON document per line (dweam/commands.py).
 *
 * JSON text is not modelled: a message is a JSON value, and encoding is the
 * value that `model_dump_json` serialises.  Decoding is the validation done by
 * `TypeAdapter(Command)` / `TypeAdapter(Response)` on such a value.
 */
module Commands {
  import opened Wrappers

  datatype Json =
    | JNull
    | JBool(b: bool)
    | JInt(i: int)
    | JStr(s: string)
    | JArray(items: seq<Json>)
    | JObject(fields: map<string, Json>)

  /** OfferData: a session description with its `sdp` and `type`. */
  datatype OfferData = OfferData(sdp: string, offerType: string)

  /** The closed union `Command`. */
  datatype Command =
    | SchemaCommand
    | StopCommand
    | UpdateParamsCommand(params: map<string, Json>)
    | HandleOfferCommand(offer: OfferData)

  /** The closed union `Response`; `SuccessResponse.data` defaults to null. */
  datatype Response =
    | SuccessResponse(data: Json)
    | ErrorResponse(error: string)

  const DefaultSuccess: Response := SuccessResponse(JNull)

  /** The literal `cmd` tag of each command variant. */
  function Tag(c: Command): string
  {
    match c
    case SchemaCommand => "schema"
    case StopCommand => "stop"
    case UpdateParamsCommand(_) => "update"
    case HandleOfferCommand(_) => "handle_offer"
  }

  /** The literal `status` tag of each response variant. */
  function Status(r: Response): string
  {
    match r
    case SuccessResponse(_) => "success"
    case ErrorResponse(_) => "error"
  }

  /** Distinct variants carry distinct tags, so a tag names exactly one variant. */
  lemma TagDeterminesVariant(a: Command, b: Command)
    requires Tag(a) == Tag(b)
    ensures a.SchemaCommand? <==> b.SchemaCommand?
    ensures a.StopCommand? <==> b.StopCommand?
    ensures a.UpdateParamsCommand? <==> b.UpdateParamsCommand?
    ensures a.HandleOfferCommand? <==> b.HandleOfferCommand?
  {
  }

  function EncodeOffer(o: OfferData): (j: Json)
    ensures j.JObject? && j.fields.Keys == {"sdp", "type"}
  {
    JObject(map["sdp" := JStr(o.sdp), "type" := JStr(o.offerType)])
  }

  /** The JSON object `model_dump_json` produces for a command. */
  function EncodeCommand(c: Command): (j: Json)
    ensures j.JObject? && "cmd" in j.fields && j.fields["cmd"] == JStr(Tag(c))
    ensures "data" in j.fields <==> (c.UpdateParamsCommand? || c.HandleOfferCommand?)
  {
    match c
    case SchemaCommand => JObject(map["cmd" := JStr("schema")])
    case StopCommand => JObject(map["cmd" := JStr("stop")])
    case UpdateParamsCommand(p) => JObject(map["cmd" := JStr("update"), "data" := JObject(p)])
    case HandleOfferCommand(o) => JObject(map["cmd" := JStr("handle_offer"), "data" := EncodeOffer(o)])
  }

  /** Why a JSON value is not a valid control message. */
  datatype DecodeError =
    | NotAnObject
    | MissingTag
    | UnknownTag(tag: Json)
    | MissingField(name: string)
    | WrongFieldType(name: string)

  function DecodeOffer(j: Json): (r: Result<OfferData, DecodeError>)
    ensures r.Success? ==> j.JObject? && "sdp" in j.fields && j.fields["sdp"] == JStr(r.value.sdp)
                           && "type" in j.fields && j.fields["type"] == JStr(r.value.offerType)
  {
    if !j.JObject? then Failure(WrongFieldType("data"))
    else if "sdp" !in j.fields then Failure(MissingField("sdp"))
    else if !j.fields["sdp"].JStr? then Failure(WrongFieldType("sdp"))
    else if "type" !in j.fields then Failure(MissingField("type"))
    else if !j.fields["type"].JStr? then Failure(WrongFieldType("type"))
    else Success(OfferData(j.fields["sdp"].s, j.fields["type"].s))
  }

  /**
   * Validation of a line against the `Command` union: the `cmd` literal picks
   * the variant, whose required `data` field is then validated.  Extra fields
   * are ignored, as pydantic does by default.
   */
  function DecodeCommand(j: Json): (r: Result<Command, DecodeError>)
    ensures r.Success? ==> j.JObject? && "cmd" in j.fields && j.fields["cmd"] == JStr(Tag(r.value))
    ensures j.JObject? && "cmd" in j.fields && j.fields["cmd"] in {JStr("schema"), JStr("stop")}
            ==> r.Success?
  {
    if !j.JObject? then Failure(NotAnObject)
    else if "cmd" !in j.fields then Failure(MissingTag)
    else
      var tag := j.fields["cmd"];
      if tag == JStr("schema") then Success(SchemaCommand)
      else if tag == JStr("stop") then Success(StopCommand)
      else if tag == JStr("update") then
        if "data" !in j.fields then Failure(MissingField("data"))
        else if !j.fields["data"].JObject? then Failure(WrongFieldType("data"))
        else Success(UpdateParamsCommand(j.fields["data"].fields))
      else if tag == JStr("handle_offer") then
        if "data" !in j.fields then Failure(MissingField("data"))
        else match DecodeOffer(j.fields["data"])
          case Success(o) => Success(HandleOfferCommand(o))
          case Failure(e) => Failure(e)
      else Failure(UnknownTag(tag))
  }

  /** The JSON object `model_dump_json` produces for a response. */
  function EncodeResponse(r: Response): (j: Json)
    ensures j.JObject? && "status" in j.fields && j.fields["status"] == JStr(Status(r))
  {
    match r
    case SuccessResponse(d) => JObject(map["status" := JStr("success"), "data" := d])
    case ErrorResponse(e) => JObject(map["status" := JStr("error"), "error" := JStr(e)])
  }

  /**
   * Validation of a line against the `Response` union: `success` takes the
   * optional `data` (null when absent), `error` requires a string `error`.
   */
  function DecodeResponse(j: Json): (r: Result<Response, DecodeError>)
    ensures r.Success? ==> j.JObject? && "status" in j.fields && j.fields["status"] == JStr(Status(r.value))
    ensures r.Success? && r.value.SuccessResponse? && "data" !in j.fields ==> r.value == DefaultSuccess
  {
    if !j.JObject? then Failure(NotAnObject)
    else if "status" !in j.fields then Failure(MissingTag)
    else
      var tag := j.fields["status"];
      if tag == JStr("success") then
        Success(SuccessResponse(if "data" in j.fields then j.fields["data"] else JNull))
      else if tag == JStr("error") then
        if "error" !in j.fields then Failure(MissingField("error"))
        else if !j.fields["error"].JStr? then Failure(WrongFieldType("error"))
        else Success(ErrorResponse(j.fields["error"].s))
      else Failure(UnknownTag(tag))
  }

  /** Decoding an encoded command gives back the same variant and payload. */
  lemma CommandRoundTrip(c: Command)
    ensures DecodeCommand(EncodeCommand(c)) == Success(c)
  {
    if c.HandleOfferCommand? {
      OfferRoundTrip(c.offer);
    }
  }

  /** An offer survives encoding as JSON and validation. */
  lemma OfferRoundTrip(o: OfferData)
    ensures DecodeOffer(EncodeOffer(o)) == Success(o)
  {
  }

  /** Decoding an encoded response gives back the same response. */
  lemma ResponseRoundTrip(r: Response)
    ensures DecodeResponse(EncodeResponse(r)) == Success(r)
  {
  }
}
