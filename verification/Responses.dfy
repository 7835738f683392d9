/** Decoding of incoming JSON-RPC frames (JSON-RPC 2.0 Specification, sections 5 and 6). */
module Responses {
  import opened Prelude

  type Id = nat

  datatype RpcId = Num(value: Id) | Str(text: string) | NullId

  datatype Output = Succeeded(id: RpcId, result: Json) | Refused(id: RpcId, reason: string)

  datatype Response = Single(output: Output) | Batch(outputs: seq<Output>)

  datatype Notice = Notice(subscription: Id, result: Json)

  /** A frame, by how the JSON parser reads it. */
  datatype Frame =
    | Text(response: Option<Response>, notice: Option<Notice>)
    | Binary(response: Option<Response>)
    | Ping
    | Pong

  /** Control frames are taken to have been handled before: the reader panics on one. */
  predicate Panics(frame: Frame) { frame.Ping? || frame.Pong? }

  datatype RpcResponse =
    | Subscription(id: Id, result: Json)
    | Success(id: Id, result: Json)
    | Failure(id: Id, error: Error)

  const BAD_ID: Error := RpcError("invalid correlation id, expected int")
  const BAD_JSON: Error := YumError("malformed json")

  function HandleOutput(output: Output): Result<RpcResponse> {
    if !output.id.Num? then Err(BAD_ID)
    else match output
      case Succeeded(id, result) => Ok(Success(id.value, result))
      case Refused(id, reason) => Ok(Failure(id.value, YumError(reason)))
  }

  /** All decoded responses, or the first error. */
  function Collect(outputs: seq<Output>): Result<seq<RpcResponse>> {
    if outputs == [] then Ok([])
    else match HandleOutput(outputs[0])
      case Err(e) => Err(e)
      case Ok(first) =>
        match Collect(outputs[1..])
        case Err(e) => Err(e)
        case Ok(rest) => Ok([first] + rest)
  }

  function HandleResponse(response: Response): Result<seq<RpcResponse>> {
    match response
    case Batch(outputs) => Collect(outputs)
    case Single(output) =>
      match HandleOutput(output)
      case Err(e) => Err(e)
      case Ok(r) => Ok([r])
  }

  function HandleFrame(frame: Frame): Result<seq<RpcResponse>>
    requires !Panics(frame)
  {
    match frame
    case Text(Some(response), _) => HandleResponse(response)
    case Text(None, Some(notice)) => Ok([Subscription(notice.subscription, notice.result)])
    case Binary(Some(response)) => HandleResponse(response)
    case _ => Err(BAD_JSON)
  }

  /** The response has the id of the output, and its result or its error. */
  ghost predicate Carries(response: RpcResponse, output: Output) {
    match output
    case Succeeded(id, result) => id.Num? && response == Success(id.value, result)
    case Refused(id, reason) => id.Num? && response == Failure(id.value, YumError(reason))
  }

  /** A batch decodes exactly when every output carries a numeric id; order and length are kept. */
  lemma {:induction false} BatchDecoding(outputs: seq<Output>)
    ensures Collect(outputs).Ok? <==> forall o :: o in outputs ==> o.id.Num?
    ensures Collect(outputs).Ok? ==>
              && |Collect(outputs).value| == |outputs|
              && forall i :: 0 <= i < |outputs| ==> Carries(Collect(outputs).value[i], outputs[i])
    ensures Collect(outputs).Err? ==> Collect(outputs).error == BAD_ID
  {
    if outputs == [] {
    } else {
      BatchDecoding(outputs[1..]);
      assert outputs == [outputs[0]] + outputs[1..];
    }
  }

  /** A decoded frame holds a notification only when it is a single notification in a text frame. */
  lemma NotificationsComeAlone(frame: Frame)
    requires !Panics(frame) && HandleFrame(frame).Ok?
    ensures var rs := HandleFrame(frame).value;
            (exists r :: r in rs && r.Subscription?) <==> frame.Text? && frame.response.None?
    ensures frame.Text? && frame.response.None? ==> |HandleFrame(frame).value| == 1
  {
    var rs := HandleFrame(frame).value;
    if frame.response.Some? && frame.response.value.Batch? {
      BatchDecoding(frame.response.value.outputs);
      forall r | r in rs ensures !r.Subscription? {
        var i :| 0 <= i < |rs| && rs[i] == r;
        assert Carries(r, frame.response.value.outputs[i]);
      }
    } else if frame.response.None? {
      assert rs[0].Subscription?;
    }
  }
}
