/**
 * The offload protocol as pure definitions: what sendMessage validates,
 * when it offloads, how it rewrites an offloaded request, and what
 * receiveMessage makes of the messages the queue returns. The client class
 * is proved to behave as these say; the lemmas here state what the
 * protocol promises about them.
 */
module Offload {

  import opened Outcomes
  import opened SqsModel
  import opened Backends
  import opened Configuration
  import opened S3Pointer
  import Utf8
  import Decimal
  import MessageSize

  // ---------------------------------------------------------------- send

  /**
   * The validation sendMessage performs before anything else: a null
   * request, or a null or empty body, is a client error.
   */
  function CheckSendRequest(request: Option<SendMessageRequest>): (e: Option<Error>)
    ensures e.None? <==> request.Some? && request.value.messageBody.Some? && request.value.messageBody.value != ""
    ensures e.Some? ==> e.value.SdkClientException?
  {
    if request.None? then Some(SdkClientException(NullSendRequest))
    else if request.value.messageBody.None? || request.value.messageBody.value == "" then
      Some(SdkClientException(EmptyBody))
    else None
  }

  /**
   * The offload decision: forced, or the attributes' and the body's UTF-8
   * byte sizes together strictly over the threshold.
   */
  ghost predicate ShouldOffload(config: ClientConfiguration, request: SendMessageRequest): (offload: bool)
    requires request.messageBody.Some?
    ensures config.alwaysThroughS3 ==> offload
    ensures offload <==>
      || config.alwaysThroughS3
      || MessageSize.AttributesSize(request.messageAttributes) + Utf8.ByteLength(request.messageBody.value)
           > config.messageSizeThreshold
  {
    config.alwaysThroughS3 || MessageSize.MessageSize(request) > config.messageSizeThreshold
  }

  /** The reserved attribute an offloaded message carries: the body's byte size. */
  function SizeAttribute(body: string): MessageAttributeValue
  {
    MessageAttributeValue(Some("Number"), Some(Decimal.NatToString(Utf8.ByteLength(body))), None)
  }

  /**
   * The request actually sent for an offloaded message: the reserved size
   * attribute added, and the body replaced by the pointer to (bucket, key).
   */
  function OffloadedRequest(request: SendMessageRequest, bucket: string, key: string): (r: SendMessageRequest)
    requires request.messageBody.Some?
    ensures r.(messageBody := request.messageBody, messageAttributes := request.messageAttributes) == request
    ensures r.messageBody.Some? && r.messageAttributes.Keys == request.messageAttributes.Keys + {ReservedAttributeName}
    ensures forall name :: name in request.messageAttributes && name != ReservedAttributeName ==>
      r.messageAttributes[name] == request.messageAttributes[name]
  {
    request.(
      messageBody := Some(ToJson(MessageS3Pointer(bucket, key))),
      messageAttributes := request.messageAttributes[ReservedAttributeName := SizeAttribute(request.messageBody.value)])
  }

  /**
   * Everything an offloaded request carries: every other field as given,
   * the attribute map changed only at the reserved name, whose value reads
   * back as the original body's byte size, and a body that reads back as
   * the pointer.
   */
  lemma OffloadedRequestRewrite(request: SendMessageRequest, bucket: string, key: string)
    requires request.messageBody.Some?
    ensures var r := OffloadedRequest(request, bucket, key);
      && r.(messageBody := request.messageBody, messageAttributes := request.messageAttributes) == request
      && (forall name :: name != ReservedAttributeName ==>
            (name in r.messageAttributes <==> name in request.messageAttributes))
      && (forall name :: name in request.messageAttributes && name != ReservedAttributeName ==>
            r.messageAttributes[name] == request.messageAttributes[name])
      && ReservedAttributeName in r.messageAttributes
      && var size := r.messageAttributes[ReservedAttributeName];
      && size.dataType == Some("Number") && size.stringValue.Some? && size.binaryValue.None?
      && Decimal.IsNumeral(size.stringValue.value)
      && Decimal.StringToNat(size.stringValue.value) == Utf8.ByteLength(request.messageBody.value)
      && r.messageBody.Some? && FromJson(r.messageBody.value) == Some(MessageS3Pointer(bucket, key))
  {
    Decimal.StringToNatNatToString(Utf8.ByteLength(request.messageBody.value));
    FromJsonToJson(MessageS3Pointer(bucket, key));
  }

  /**
   * The decision for a request without attributes and with an ASCII body:
   * offloaded iff forced or the body has more characters than the threshold.
   */
  lemma OffloadDecisionAscii(config: ClientConfiguration, request: SendMessageRequest)
    requires request.messageBody.Some? && request.messageAttributes == map[]
    requires Utf8.IsAscii(request.messageBody.value)
    ensures ShouldOffload(config, request) <==>
      config.alwaysThroughS3 || |request.messageBody.value| > config.messageSizeThreshold
  {
    Utf8.AsciiByteLength(request.messageBody.value);
  }

  /**
   * The boundary cases the client's tests fix, for an ASCII body and no
   * attributes: with the default configuration 262144 bytes stay inline and
   * 262145 are offloaded; with threshold 500, 1000 bytes are offloaded and
   * 500 are not; forced offload takes even 3 bytes.
   */
  lemma OffloadBoundaries(s3: S3Client, body: string)
    requires Utf8.IsAscii(body)
    ensures var request := SendMessageRequest("test-queue-url", Some(body), map[], None, None, None);
      var config := EnabledConfiguration(s3, "test-bucket-name");
      && (|body| == 262144 ==> !ShouldOffload(config, request))
      && (|body| == 262145 ==> ShouldOffload(config, request))
      && (|body| == 1000 ==> ShouldOffload(config.(messageSizeThreshold := 500), request))
      && (|body| == 500 ==> !ShouldOffload(config.(messageSizeThreshold := 500), request))
      && (|body| == 3 ==> ShouldOffload(config.(alwaysThroughS3 := true), request))
  {
    var request := SendMessageRequest("test-queue-url", Some(body), map[], None, None, None);
    var config := EnabledConfiguration(s3, "test-bucket-name");
    OffloadDecisionAscii(config, request);
    OffloadDecisionAscii(config.(messageSizeThreshold := 500), request);
  }

  /**
   * What a call of sendMessage does, as backend calls and a result. `key` is
   * the key the client mints when it offloads.
   */
  ghost predicate SendBehaviour(config: ClientConfiguration, request: Option<SendMessageRequest>, key: string,
                                calls: seq<Call>, result: Result<SendMessageResponse, Error>)
  {
    match CheckSendRequest(request)
    case Some(e) => calls == [] && result == Failure(e)
    case None =>
      var req := request.value;
      if !config.IsLargePayloadSupportEnabled() || !ShouldOffload(config, req) then
        calls == [SqsSendMessage(req, result)]
      else
        var bucket := config.largePayloadSupport.s3BucketName;
        var id := ObjectId(bucket, key);
        var content := Utf8.Encode(req.messageBody.value);
        && IsUuid(key)
        && ((calls == [S3PutObject(id, content, false)] && result == Failure(SdkClientException(StoreFailed)))
            || calls == [S3PutObject(id, content, true), SqsSendMessage(OffloadedRequest(req, bucket, key), result)])
  }

  /** The store after a sequence of calls: every successful put overwrites its object. */
  ghost function ApplyPuts(objects: map<ObjectId, seq<Utf8.byte>>, calls: seq<Call>): map<ObjectId, seq<Utf8.byte>>
  {
    if calls == [] then objects
    else
      var c := calls[|calls| - 1];
      var before := ApplyPuts(objects, calls[..|calls| - 1]);
      if c.S3PutObject? && c.succeeded then before[c.id := c.content] else before
  }

  /** One more call: a successful put overwrites its object, any other call leaves the store alone. */
  lemma ApplyPutsAppend(objects: map<ObjectId, seq<Utf8.byte>>, calls: seq<Call>, c: Call)
    ensures ApplyPuts(objects, calls + [c]) ==
      if c.S3PutObject? && c.succeeded then ApplyPuts(objects, calls)[c.id := c.content] else ApplyPuts(objects, calls)
  {
    assert (calls + [c])[..|calls|] == calls;
  }

  /** A send that goes to the queue as given: valid, and not offloaded. */
  lemma ForwardedSend(config: ClientConfiguration, request: Option<SendMessageRequest>, key: string,
                      result: Result<SendMessageResponse, Error>, objects: map<ObjectId, seq<Utf8.byte>>)
    requires CheckSendRequest(request).None?
    requires !config.IsLargePayloadSupportEnabled() || !ShouldOffload(config, request.value)
    ensures SendBehaviour(config, request, key, [SqsSendMessage(request.value, result)], result)
    ensures ApplyPuts(objects, [SqsSendMessage(request.value, result)]) == objects
  {
    ApplyPutsAppend(objects, [], SqsSendMessage(request.value, result));
  }

  /** An offloaded send: the put, and after a successful put the rewritten request. */
  lemma OffloadedSend(config: ClientConfiguration, request: Option<SendMessageRequest>, key: string,
                      calls: seq<Call>, result: Result<SendMessageResponse, Error>,
                      objects: map<ObjectId, seq<Utf8.byte>>)
    requires CheckSendRequest(request).None?
    requires config.IsLargePayloadSupportEnabled() && ShouldOffload(config, request.value) && IsUuid(key)
    requires var id := ObjectId(config.largePayloadSupport.s3BucketName, key);
      var content := Utf8.Encode(request.value.messageBody.value);
      || (calls == [S3PutObject(id, content, false)] && result == Failure(SdkClientException(StoreFailed)))
      || calls == [S3PutObject(id, content, true),
                   SqsSendMessage(OffloadedRequest(request.value, id.bucket, key), result)]
    ensures SendBehaviour(config, request, key, calls, result)
    ensures ApplyPuts(objects, calls) ==
      if |calls| == 2 then objects[calls[0].id := calls[0].content] else objects
  {
    ApplyPutsAppend(objects, [], calls[0]);
    if |calls| == 2 {
      assert calls == [calls[0]] + [calls[1]];
      ApplyPutsAppend(objects, [calls[0]], calls[1]);
    } else {
      assert calls == [] + [calls[0]];
    }
  }

  /**
   * The shape of every send: a validation error touches no backend; with
   * support disabled or a small message the request goes to the queue as
   * given; an offloaded send puts the body once, under the configured
   * bucket, before the queue sees anything, and a failed put ends the call.
   */
  lemma SendCallShape(config: ClientConfiguration, request: Option<SendMessageRequest>, key: string,
                      calls: seq<Call>, result: Result<SendMessageResponse, Error>)
    requires SendBehaviour(config, request, key, calls, result)
    ensures CheckSendRequest(request).Some? <==> calls == []
    ensures calls == [] ==> result.Failure? && result.error.SdkClientException?
    ensures !config.IsLargePayloadSupportEnabled() && calls != [] ==> calls == [SqsSendMessage(request.value, result)]
    ensures forall i :: 0 <= i < |calls| && calls[i].S3PutObject? ==>
      i == 0 && config.IsLargePayloadSupportEnabled()
      && calls[i].id == ObjectId(config.largePayloadSupport.s3BucketName, key)
    ensures forall i :: 0 <= i < |calls| && calls[i].SqsSendMessage? ==> i == |calls| - 1 && calls[i].sendResult == result
    ensures |calls| <= 2
  {
  }

  /**
   * An offloaded send writes the original body's bytes exactly at the
   * object its pointer names.
   */
  lemma OffloadedObjectIsPointerTarget(config: ClientConfiguration, request: Option<SendMessageRequest>, key: string,
                                       calls: seq<Call>, result: Result<SendMessageResponse, Error>)
    requires SendBehaviour(config, request, key, calls, result)
    requires |calls| == 2
    ensures calls[0].S3PutObject? && calls[0].succeeded && calls[1].SqsSendMessage?
    ensures var sent := calls[1].sendRequest;
      && sent.messageBody.Some?
      && FromJson(sent.messageBody.value) == Some(MessageS3Pointer(calls[0].id.bucket, calls[0].id.key))
      && Utf8.Decode(calls[0].content) == request.value.messageBody
  {
    var req := request.value;
    var bucket := config.largePayloadSupport.s3BucketName;
    OffloadedRequestRewrite(req, bucket, key);
    Utf8.DecodeEncode(req.messageBody.value);
  }

  // ------------------------------------------------------------- receive

  /**
   * The attribute names receiveMessage asks for: the reserved name is
   * appended when missing, and the names already there keep their order.
   */
  function WithReservedAttributeName(names: seq<string>): (r: seq<string>)
    ensures ReservedAttributeName in r
    ensures ReservedAttributeName in names ==> r == names
    ensures ReservedAttributeName !in names ==> r == names + [ReservedAttributeName]
    ensures |names| <= |r| <= |names| + 1 && r[..|names|] == names
    ensures forall name :: name in r <==> name in names || name == ReservedAttributeName
  {
    if ReservedAttributeName in names then names else names + [ReservedAttributeName]
  }

  /** Asking for the reserved name a second time changes nothing. */
  lemma WithReservedAttributeNameIdempotent(names: seq<string>)
    ensures WithReservedAttributeName(WithReservedAttributeName(names)) == WithReservedAttributeName(names)
  {
  }

  /** The receive request actually sent: the same request, asking for the reserved attribute too. */
  function ExtendedReceiveRequest(request: ReceiveMessageRequest): (r: ReceiveMessageRequest)
    ensures r.(messageAttributeNames := request.messageAttributeNames) == request
    ensures ReservedAttributeName in r.messageAttributeNames
    ensures forall name :: name in r.messageAttributeNames <==>
      name in request.messageAttributeNames || name == ReservedAttributeName
  {
    request.(messageAttributeNames := WithReservedAttributeName(request.messageAttributeNames))
  }

  /** A message body read as a pointer; anything else is a client error. */
  function ReadMessageS3PointerFromJson(messageBody: string): (r: Result<MessageS3Pointer, Error>)
    ensures r.Failure? <==> FromJson(messageBody).None?
    ensures r.Failure? ==> r.error == SdkClientException(PointerUnreadable)
    ensures r.Success? ==> FromJson(messageBody) == Some(r.value)
  {
    match FromJson(messageBody)
    case None => Failure(SdkClientException(PointerUnreadable))
    case Some(p) => Success(p)
  }

  /** The text of a fetched object; a failed get, or bytes that are not UTF-8, is an error. */
  function TextFromObject(fetched: Option<seq<Utf8.byte>>): (r: Result<string, Error>)
    ensures fetched.None? ==> r == Failure(SdkException(GetFailed))
    ensures fetched.Some? && r.Failure? ==> r.error == SdkClientException(TextUnreadable)
    ensures r.Success? ==> fetched.Some? && Utf8.Encode(r.value) == fetched.value
  {
    match fetched
    case None => Failure(SdkException(GetFailed))
    case Some(bytes) =>
      match Utf8.Decode(bytes)
      case None => Failure(SdkClientException(TextUnreadable))
      case Some(text) => Utf8.EncodeDecode(bytes); Success(text)
  }

  /** The bytes stored for a body read back as that body. */
  lemma TextFromStoredBody(body: string)
    ensures TextFromObject(Some(Utf8.Encode(body))) == Success(body)
  {
    Utf8.DecodeEncode(body);
  }

  /** A marked message with its body restored: the reserved attribute goes, the handle is extended. */
  function RestoreMessage(m: Message, p: MessageS3Pointer, text: string): Message
  {
    m.(body := text,
       messageAttributes := m.messageAttributes - {ReservedAttributeName},
       receiptHandle := EmbedS3PointerInReceiptHandle(m.receiptHandle, p.s3BucketName, p.s3Key))
  }

  /** The object the client fetches for a message, if it fetches one. */
  function FetchOf(m: Message): Option<ObjectId>
  {
    if ReservedAttributeName !in m.messageAttributes then None
    else match FromJson(m.body)
      case None => None
      case Some(p) => Some(ObjectId(p.s3BucketName, p.s3Key))
  }

  /**
   * One received message, given what the store answered for its pointer
   * (ignored when the client does not fetch).
   */
  function ProcessMessage(m: Message, fetched: Option<seq<Utf8.byte>>): (r: Result<Message, Error>)
    ensures ReservedAttributeName !in m.messageAttributes ==> r == Success(m)
    ensures ReservedAttributeName in m.messageAttributes ==>
      (r.Success? <==> FetchOf(m).Some? && TextFromObject(fetched).Success?)
    ensures r.Success? && ReservedAttributeName in m.messageAttributes ==>
      var id := FetchOf(m).value;
      r.value == m.(body := TextFromObject(fetched).value,
                    messageAttributes := m.messageAttributes - {ReservedAttributeName},
                    receiptHandle := EmbedS3PointerInReceiptHandle(m.receiptHandle, id.bucket, id.key))
    ensures r.Failure? ==>
      r.error in {SdkClientException(PointerUnreadable), SdkException(GetFailed), SdkClientException(TextUnreadable)}
  {
    if ReservedAttributeName !in m.messageAttributes then Success(m)
    else match ReadMessageS3PointerFromJson(m.body)
      case Failure(e) => Failure(e)
      case Success(p) =>
        match TextFromObject(fetched)
        case Failure(e) => Failure(e)
        case Success(text) => Success(RestoreMessage(m, p, text))
  }

  /**
   * The whole batch, message by message in order; the first failure ends
   * the call.
   */
  function ProcessAll(msgs: seq<Message>, fetched: seq<Option<seq<Utf8.byte>>>): Result<seq<Message>, Error>
    requires |fetched| == |msgs|
  {
    if msgs == [] then Success([])
    else
      var n := |msgs| - 1;
      AppendOutcome(ProcessAll(msgs[..n], fetched[..n]), ProcessMessage(msgs[n], fetched[n]))
  }

  /** The batch so far followed by one more message: a failure so far stays, else the message's own outcome decides. */
  function AppendOutcome(done: Result<seq<Message>, Error>, next: Result<Message, Error>): Result<seq<Message>, Error>
  {
    match done
    case Failure(e) => Failure(e)
    case Success(ms) =>
      match next
      case Failure(e) => Failure(e)
      case Success(m) => Success(ms + [m])
  }

  /** The gets the client issues for a batch: one per fetched message, up to the first failure. */
  ghost function FetchTrace(msgs: seq<Message>, fetched: seq<Option<seq<Utf8.byte>>>): seq<Call>
    requires |fetched| == |msgs|
  {
    if msgs == [] then []
    else
      var n := |msgs| - 1;
      var before := FetchTrace(msgs[..n], fetched[..n]);
      if ProcessAll(msgs[..n], fetched[..n]).Failure? then before
      else before + FetchCall(msgs[n], fetched[n])
  }

  /** The get issued for one message, if any. */
  function FetchCall(m: Message, fetched: Option<seq<Utf8.byte>>): seq<Call>
  {
    match FetchOf(m)
    case None => []
    case Some(id) => [S3GetObject(id, fetched)]
  }

  /** Each answer the client used is what the store holds at that message's pointer. */
  ghost predicate FetchedFromStore(msgs: seq<Message>, fetched: seq<Option<seq<Utf8.byte>>>,
                                   objects: map<ObjectId, seq<Utf8.byte>>)
    requires |fetched| == |msgs|
  {
    forall j :: 0 <= j < |msgs| && fetched[j].Some? ==>
      FetchOf(msgs[j]).Some? && FetchOf(msgs[j]).value in objects && fetched[j].value == objects[FetchOf(msgs[j]).value]
  }

  /**
   * What a call of receiveMessage with support enabled does: one receive
   * asking for the reserved attribute, then the gets of FetchTrace, and the
   * backend's messages processed by ProcessAll.
   */
  ghost predicate ReceiveBehaviour(request: ReceiveMessageRequest, backendResult: Result<ReceiveMessageResponse, Error>,
                                   fetched: seq<Option<seq<Utf8.byte>>>, calls: seq<Call>,
                                   result: Result<ReceiveMessageResponse, Error>)
  {
    var receive := SqsReceiveMessage(ExtendedReceiveRequest(request), backendResult);
    match backendResult
    case Failure(e) => calls == [receive] && result == Failure(e)
    case Success(response) =>
      && |fetched| == |response.messages|
      && calls == [receive] + FetchTrace(response.messages, fetched)
      && result == match ProcessAll(response.messages, fetched)
           case Failure(e) => Failure(e)
           case Success(ms) => Success(response.(messages := ms))
  }

  /** A batch that succeeds holds every message's own result, in order. */
  lemma {:induction false} ProcessAllSuccess(msgs: seq<Message>, fetched: seq<Option<seq<Utf8.byte>>>)
    requires |fetched| == |msgs|
    requires ProcessAll(msgs, fetched).Success?
    ensures var out := ProcessAll(msgs, fetched).value;
      && |out| == |msgs|
      && forall j :: 0 <= j < |msgs| ==>
           ProcessMessage(msgs[j], fetched[j]).Success? && out[j] == ProcessMessage(msgs[j], fetched[j]).value
    decreases |msgs|
  {
    if msgs != [] {
      var n := |msgs| - 1;
      ProcessAllSuccess(msgs[..n], fetched[..n]);
      assert forall j :: 0 <= j < n ==> msgs[..n][j] == msgs[j] && fetched[..n][j] == fetched[j];
    }
  }

  /** A batch that fails does so with the error of its first failing message. */
  lemma {:induction false} ProcessAllFailure(msgs: seq<Message>, fetched: seq<Option<seq<Utf8.byte>>>)
    requires |fetched| == |msgs|
    requires ProcessAll(msgs, fetched).Failure?
    ensures exists j :: (0 <= j < |msgs| && ProcessMessage(msgs[j], fetched[j]) == Failure(ProcessAll(msgs, fetched).error)
      && forall i :: 0 <= i < j ==> ProcessMessage(msgs[i], fetched[i]).Success?)
    decreases |msgs|
  {
    var n := |msgs| - 1;
    var prefix := ProcessAll(msgs[..n], fetched[..n]);
    if prefix.Failure? {
      ProcessAllFailure(msgs[..n], fetched[..n]);
      var j :| 0 <= j < n && ProcessMessage(msgs[..n][j], fetched[..n][j]) == Failure(prefix.error)
        && forall i :: 0 <= i < j ==> ProcessMessage(msgs[..n][i], fetched[..n][i]).Success?;
      assert forall i :: 0 <= i <= j ==> msgs[..n][i] == msgs[i] && fetched[..n][i] == fetched[i];
      assert ProcessMessage(msgs[j], fetched[j]) == Failure(ProcessAll(msgs, fetched).error);
    } else {
      ProcessAllSuccess(msgs[..n], fetched[..n]);
      assert forall i :: 0 <= i < n ==> msgs[..n][i] == msgs[i] && fetched[..n][i] == fetched[i];
      assert ProcessMessage(msgs[n], fetched[n]) == Failure(ProcessAll(msgs, fetched).error);
    }
  }

  /** A batch fails exactly when one of its messages does, and then with the first such failure. */
  lemma ProcessAllOutcome(msgs: seq<Message>, fetched: seq<Option<seq<Utf8.byte>>>)
    requires |fetched| == |msgs|
    ensures ProcessAll(msgs, fetched).Success? <==>
      forall j :: 0 <= j < |msgs| ==> ProcessMessage(msgs[j], fetched[j]).Success?
    ensures ProcessAll(msgs, fetched).Success? ==>
      var out := ProcessAll(msgs, fetched).value;
      |out| == |msgs| && forall j :: 0 <= j < |msgs| ==> out[j] == ProcessMessage(msgs[j], fetched[j]).value
    ensures ProcessAll(msgs, fetched).Failure? ==>
      exists j :: 0 <= j < |msgs| && ProcessMessage(msgs[j], fetched[j]) == Failure(ProcessAll(msgs, fetched).error)
        && forall i :: 0 <= i < j ==> ProcessMessage(msgs[i], fetched[i]).Success?
  {
    if ProcessAll(msgs, fetched).Success? {
      ProcessAllSuccess(msgs, fetched);
    } else {
      ProcessAllFailure(msgs, fetched);
    }
  }

  /** ProcessAll of a batch in terms of its last message. */
  lemma ProcessAllStep(msgs: seq<Message>, fetched: seq<Option<seq<Utf8.byte>>>)
    requires |fetched| == |msgs| && msgs != []
    ensures var n := |msgs| - 1;
      ProcessAll(msgs, fetched) == AppendOutcome(ProcessAll(msgs[..n], fetched[..n]), ProcessMessage(msgs[n], fetched[n]))
  {
  }

  /** Processing one more message of the batch, as the client's loop does. */
  lemma ProcessAllExtend(msgs: seq<Message>, fetched: seq<Option<seq<Utf8.byte>>>, f: Option<seq<Utf8.byte>>)
    requires |fetched| < |msgs|
    ensures var i := |fetched|;
      ProcessAll(msgs[..i + 1], fetched + [f]) == AppendOutcome(ProcessAll(msgs[..i], fetched), ProcessMessage(msgs[i], f))
  {
    var i := |fetched|;
    var longer, answers := msgs[..i + 1], fetched + [f];
    ProcessAllStep(longer, answers);
    assert longer[..i] == msgs[..i] && longer[i] == msgs[i];
    assert answers[..i] == fetched && answers[i] == f;
  }

  /** FetchTrace of a batch in terms of its last message. */
  lemma FetchTraceStep(msgs: seq<Message>, fetched: seq<Option<seq<Utf8.byte>>>)
    requires |fetched| == |msgs| && msgs != []
    ensures var n := |msgs| - 1;
      FetchTrace(msgs, fetched) ==
        if ProcessAll(msgs[..n], fetched[..n]).Failure? then FetchTrace(msgs[..n], fetched[..n])
        else FetchTrace(msgs[..n], fetched[..n]) + FetchCall(msgs[n], fetched[n])
  {
  }

  /** The gets of one more message: its own get, unless the batch has already failed. */
  lemma FetchTraceExtend(msgs: seq<Message>, fetched: seq<Option<seq<Utf8.byte>>>, f: Option<seq<Utf8.byte>>)
    requires |fetched| < |msgs|
    ensures var i := |fetched|;
      FetchTrace(msgs[..i + 1], fetched + [f]) ==
        if ProcessAll(msgs[..i], fetched).Failure? then FetchTrace(msgs[..i], fetched)
        else FetchTrace(msgs[..i], fetched) + FetchCall(msgs[i], f)
  {
    var i := |fetched|;
    var longer, answers := msgs[..i + 1], fetched + [f];
    FetchTraceStep(longer, answers);
    assert longer[..i] == msgs[..i] && longer[i] == msgs[i];
    assert answers[..i] == fetched && answers[i] == f;
  }

  /** One step of the client's loop over a batch that has not failed yet. */
  lemma RestoreStep(msgs: seq<Message>, fetched: seq<Option<seq<Utf8.byte>>>, f: Option<seq<Utf8.byte>>,
                    done: seq<Message>, processed: Result<Message, Error>)
    requires |fetched| < |msgs|
    requires ProcessAll(msgs[..|fetched|], fetched) == Success(done)
    requires processed == ProcessMessage(msgs[|fetched|], f)
    ensures ProcessAll(msgs[..|fetched| + 1], fetched + [f]) ==
      if processed.Failure? then Failure(processed.error) else Success(done + [processed.value])
    ensures FetchTrace(msgs[..|fetched| + 1], fetched + [f]) ==
      FetchTrace(msgs[..|fetched|], fetched) + FetchCall(msgs[|fetched|], f)
  {
    ProcessAllExtend(msgs, fetched, f);
    FetchTraceExtend(msgs, fetched, f);
  }

  /** An answer taken from the store at the message's pointer keeps FetchedFromStore. */
  lemma FetchedFromStoreExtend(msgs: seq<Message>, fetched: seq<Option<seq<Utf8.byte>>>, f: Option<seq<Utf8.byte>>,
                               objects: map<ObjectId, seq<Utf8.byte>>)
    requires |fetched| < |msgs|
    requires FetchedFromStore(msgs[..|fetched|], fetched, objects)
    requires f.Some? ==> FetchOf(msgs[|fetched|]).Some? && FetchOf(msgs[|fetched|]).value in objects
                         && f.value == objects[FetchOf(msgs[|fetched|]).value]
    ensures FetchedFromStore(msgs[..|fetched| + 1], fetched + [f], objects)
  {
    var i := |fetched|;
    forall j | 0 <= j < i + 1 && (fetched + [f])[j].Some?
      ensures FetchOf(msgs[..i + 1][j]).Some? && FetchOf(msgs[..i + 1][j]).value in objects
              && (fetched + [f])[j].value == objects[FetchOf(msgs[..i + 1][j]).value]
    {
      if j < i {
        assert msgs[..i + 1][j] == msgs[..i][j] && (fetched + [f])[j] == fetched[j];
      }
    }
  }

  /** Once a prefix of the batch has failed, the rest is not processed. */
  lemma {:induction false} ProcessAllPrefixFailure(msgs: seq<Message>, fetched: seq<Option<seq<Utf8.byte>>>, k: nat)
    requires |fetched| == |msgs| && k <= |msgs|
    requires ProcessAll(msgs[..k], fetched[..k]).Failure?
    ensures ProcessAll(msgs, fetched) == ProcessAll(msgs[..k], fetched[..k])
    decreases |msgs|
  {
    if k < |msgs| {
      var n := |msgs| - 1;
      assert msgs[..n][..k] == msgs[..k] && fetched[..n][..k] == fetched[..k];
      ProcessAllPrefixFailure(msgs[..n], fetched[..n], k);
    } else {
      assert msgs[..k] == msgs && fetched[..k] == fetched;
    }
  }

  /** Once a prefix of the batch has failed, nothing more is fetched. */
  lemma {:induction false} FetchTracePrefixFailure(msgs: seq<Message>, fetched: seq<Option<seq<Utf8.byte>>>, k: nat)
    requires |fetched| == |msgs| && k <= |msgs|
    requires ProcessAll(msgs[..k], fetched[..k]).Failure?
    ensures FetchTrace(msgs, fetched) == FetchTrace(msgs[..k], fetched[..k])
    decreases |msgs|
  {
    if k < |msgs| {
      var n := |msgs| - 1;
      var shorter, answers := msgs[..n], fetched[..n];
      assert shorter[..k] == msgs[..k] && answers[..k] == fetched[..k];
      ProcessAllPrefixFailure(shorter, answers, k);
      FetchTracePrefixFailure(shorter, answers, k);
      FetchTraceStep(msgs, fetched);
    } else {
      assert msgs[..k] == msgs && fetched[..k] == fetched;
    }
  }

  /**
   * A batch that failed after the answers in `fetched`: the messages after
   * the failing one get no answer, and the outcome, the gets and the answers
   * are those of the processed prefix.
   */
  lemma FailedBatch(msgs: seq<Message>, fetched: seq<Option<seq<Utf8.byte>>>, objects: map<ObjectId, seq<Utf8.byte>>)
    requires |fetched| <= |msgs|
    requires ProcessAll(msgs[..|fetched|], fetched).Failure?
    requires FetchedFromStore(msgs[..|fetched|], fetched, objects)
    ensures var padded := fetched + seq(|msgs| - |fetched|, _ => None);
      && |padded| == |msgs|
      && ProcessAll(msgs, padded) == ProcessAll(msgs[..|fetched|], fetched)
      && FetchTrace(msgs, padded) == FetchTrace(msgs[..|fetched|], fetched)
      && FetchedFromStore(msgs, padded, objects)
  {
    var k := |fetched|;
    var padded := fetched + seq(|msgs| - k, _ => None);
    assert padded[..k] == fetched;
    ProcessAllPrefixFailure(msgs, padded, k);
    FetchTracePrefixFailure(msgs, padded, k);
    forall j | 0 <= j < |msgs| && padded[j].Some?
      ensures FetchOf(msgs[j]).Some? && FetchOf(msgs[j]).value in objects && padded[j].value == objects[FetchOf(msgs[j]).value]
    {
      assert j < k && msgs[..k][j] == msgs[j] && padded[j] == fetched[j];
    }
  }

  /**
   * What receiveMessage returns, message by message: as many messages as
   * the queue gave, in the same order; an unmarked message unchanged; a
   * marked one with the stored text as its body, the reserved attribute
   * removed and every other attribute kept, and an extended receipt handle
   * that names the pointer and ends with the original handle.
   */
  lemma ReceivedMessages(request: ReceiveMessageRequest, backendResult: Result<ReceiveMessageResponse, Error>,
                         fetched: seq<Option<seq<Utf8.byte>>>, calls: seq<Call>,
                         result: Result<ReceiveMessageResponse, Error>)
    requires ReceiveBehaviour(request, backendResult, fetched, calls, result)
    requires result.Success?
    ensures backendResult.Success?
    ensures var msgs := backendResult.value.messages; var out := result.value.messages;
      && |out| == |msgs|
      && forall j :: 0 <= j < |msgs| ==>
        if ReservedAttributeName !in msgs[j].messageAttributes then out[j] == msgs[j]
        else
          && FetchOf(msgs[j]).Some?
          && var id := FetchOf(msgs[j]).value;
          && TextFromObject(fetched[j]) == Success(out[j].body)
          && out[j].messageAttributes == msgs[j].messageAttributes - {ReservedAttributeName}
          && out[j].receiptHandle == EmbedS3PointerInReceiptHandle(msgs[j].receiptHandle, id.bucket, id.key)
          && out[j].(body := msgs[j].body, messageAttributes := msgs[j].messageAttributes,
                     receiptHandle := msgs[j].receiptHandle) == msgs[j]
  {
    var msgs := backendResult.value.messages;
    ProcessAllOutcome(msgs, fetched);
  }

  /**
   * Send then receive: a message the queue hands back with the body and
   * attributes of an offloaded request, given the bytes stored for it, comes
   * back with the original body and attributes and a handle naming the
   * object.
   */
  lemma SendThenReceive(request: SendMessageRequest, bucket: string, key: string, m: Message)
    requires request.messageBody.Some? && ReservedAttributeName !in request.messageAttributes
    requires var sent := OffloadedRequest(request, bucket, key);
      m.body == sent.messageBody.value && m.messageAttributes == sent.messageAttributes
    ensures FetchOf(m) == Some(ObjectId(bucket, key))
    ensures ProcessMessage(m, Some(Utf8.Encode(request.messageBody.value))) ==
      Success(m.(body := request.messageBody.value,
                 messageAttributes := request.messageAttributes,
                 receiptHandle := EmbedS3PointerInReceiptHandle(m.receiptHandle, bucket, key)))
  {
    OffloadedRequestRewrite(request, bucket, key);
    Utf8.DecodeEncode(request.messageBody.value);
    var attrs := request.messageAttributes[ReservedAttributeName := SizeAttribute(request.messageBody.value)];
    assert attrs - {ReservedAttributeName} == request.messageAttributes;
  }

  /**
   * The caller's own reserved attribute does not survive the round trip:
   * the send overwrites it with the size and the receive removes it, so the
   * message comes back with every other attribute and without that one.
   */
  lemma SendThenReceiveDropsReservedAttribute(request: SendMessageRequest, bucket: string, key: string, m: Message)
    requires request.messageBody.Some? && ReservedAttributeName in request.messageAttributes
    requires var sent := OffloadedRequest(request, bucket, key);
      m.body == sent.messageBody.value && m.messageAttributes == sent.messageAttributes
    ensures FetchOf(m) == Some(ObjectId(bucket, key))
    ensures ProcessMessage(m, Some(Utf8.Encode(request.messageBody.value))) ==
      Success(m.(body := request.messageBody.value,
                 messageAttributes := request.messageAttributes - {ReservedAttributeName},
                 receiptHandle := EmbedS3PointerInReceiptHandle(m.receiptHandle, bucket, key)))
    ensures request.messageAttributes - {ReservedAttributeName} != request.messageAttributes
  {
    OffloadedRequestRewrite(request, bucket, key);
    Utf8.DecodeEncode(request.messageBody.value);
    var attrs := request.messageAttributes[ReservedAttributeName := SizeAttribute(request.messageBody.value)];
    assert attrs - {ReservedAttributeName} == request.messageAttributes - {ReservedAttributeName};
    assert ReservedAttributeName !in request.messageAttributes - {ReservedAttributeName};
  }

  /**
   * Send then receive through the store: after an offloaded send whose put
   * succeeded, a message carrying what was sent names the object the put
   * wrote, and a receive that fetches it from the store as the send left it
   * gets back the original body.
   */
  lemma OffloadedSendThenFetch(config: ClientConfiguration, request: Option<SendMessageRequest>, key: string,
                               calls: seq<Call>, result: Result<SendMessageResponse, Error>,
                               objects: map<ObjectId, seq<Utf8.byte>>, m: Message)
    requires SendBehaviour(config, request, key, calls, result)
    requires |calls| == 2
    requires var sent := OffloadedRequest(request.value, config.largePayloadSupport.s3BucketName, key);
      m.body == sent.messageBody.value && m.messageAttributes == sent.messageAttributes
    ensures var id := ObjectId(config.largePayloadSupport.s3BucketName, key);
      && FetchOf(m) == Some(id)
      && id in ApplyPuts(objects, calls)
      && ApplyPuts(objects, calls)[id] == Utf8.Encode(request.value.messageBody.value)
      && TextFromObject(Some(ApplyPuts(objects, calls)[id])) == Success(request.value.messageBody.value)
  {
    var req := request.value;
    var bucket := config.largePayloadSupport.s3BucketName;
    OffloadedRequestRewrite(req, bucket, key);
    ApplyPutsAppend(objects, [], calls[0]);
    assert [calls[0]] + [calls[1]] == calls;
    ApplyPutsAppend(objects, [calls[0]], calls[1]);
    TextFromStoredBody(req.messageBody.value);
  }
}
