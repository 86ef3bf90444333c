/**
 * The older, send-only copy of the extended client. Validation, the offload
 * decision and the size accounting are the same as in the current client
 * (and shared with it here); the rewrite differs: no reserved attribute is
 * added, and the body is put under bucket = the minted key and key = a
 * second minted UUID, while the pointer sent names (configured bucket,
 * minted key).
 */
module LegacySqsClient {

  import opened Outcomes
  import opened SqsModel
  import opened Backends
  import opened Configuration
  import opened S3Pointer
  import opened Offload
  import Utf8
  import MessageSize
  import ExtendedSqsClient

  /** The request the legacy client sends for an offloaded message: only the body changes. */
  function LegacyOffloadedRequest(request: SendMessageRequest, bucket: string, key: string): (r: SendMessageRequest)
    requires request.messageBody.Some?
    ensures r.(messageBody := request.messageBody) == request
    ensures r.messageBody.Some? && r.messageAttributes == request.messageAttributes
  {
    request.(messageBody := Some(ToJson(MessageS3Pointer(bucket, key))))
  }

  /** The legacy rewrite keeps every field but the body, which reads back as the pointer. */
  lemma LegacyOffloadedRequestRewrite(request: SendMessageRequest, bucket: string, key: string)
    requires request.messageBody.Some?
    ensures var r := LegacyOffloadedRequest(request, bucket, key);
      && r.(messageBody := request.messageBody) == request
      && r.messageAttributes == request.messageAttributes
      && r.messageBody.Some? && FromJson(r.messageBody.value) == Some(MessageS3Pointer(bucket, key))
  {
    FromJsonToJson(MessageS3Pointer(bucket, key));
  }

  /**
   * What a call of the legacy sendMessage does. `s3Key` is the key named in
   * the pointer, `objectKey` the second key minted for the put.
   */
  ghost predicate LegacySendBehaviour(config: ClientConfiguration, request: Option<SendMessageRequest>,
                                      s3Key: string, objectKey: string,
                                      calls: seq<Call>, result: Result<SendMessageResponse, Error>)
  {
    match CheckSendRequest(request)
    case Some(e) => calls == [] && result == Failure(e)
    case None =>
      var req := request.value;
      if !config.IsLargePayloadSupportEnabled() || !ShouldOffload(config, req) then
        calls == [SqsSendMessage(req, result)]
      else
        var id := ObjectId(s3Key, objectKey);
        var content := Utf8.Encode(req.messageBody.value);
        && IsUuid(s3Key) && IsUuid(objectKey)
        && ((calls == [S3PutObject(id, content, false)] && result == Failure(SdkClientException(StoreFailed)))
            || calls == [S3PutObject(id, content, true),
                         SqsSendMessage(LegacyOffloadedRequest(req, config.largePayloadSupport.s3BucketName, s3Key),
                                        result)])
  }

  lemma LegacyForwardedSend(config: ClientConfiguration, request: Option<SendMessageRequest>, s3Key: string,
                            objectKey: string, result: Result<SendMessageResponse, Error>,
                            objects: map<ObjectId, seq<Utf8.byte>>)
    requires CheckSendRequest(request).None?
    requires !config.IsLargePayloadSupportEnabled() || !ShouldOffload(config, request.value)
    ensures LegacySendBehaviour(config, request, s3Key, objectKey, [SqsSendMessage(request.value, result)], result)
    ensures ApplyPuts(objects, [SqsSendMessage(request.value, result)]) == objects
  {
    ApplyPutsAppend(objects, [], SqsSendMessage(request.value, result));
  }

  lemma LegacyOffloadedSend(config: ClientConfiguration, request: Option<SendMessageRequest>, s3Key: string,
                            objectKey: string, calls: seq<Call>, result: Result<SendMessageResponse, Error>,
                            objects: map<ObjectId, seq<Utf8.byte>>)
    requires CheckSendRequest(request).None?
    requires config.IsLargePayloadSupportEnabled() && ShouldOffload(config, request.value)
    requires IsUuid(s3Key) && IsUuid(objectKey)
    requires var id := ObjectId(s3Key, objectKey);
      var content := Utf8.Encode(request.value.messageBody.value);
      || (calls == [S3PutObject(id, content, false)] && result == Failure(SdkClientException(StoreFailed)))
      || calls == [S3PutObject(id, content, true),
                   SqsSendMessage(LegacyOffloadedRequest(request.value, config.largePayloadSupport.s3BucketName, s3Key),
                                  result)]
    ensures LegacySendBehaviour(config, request, s3Key, objectKey, calls, result)
    ensures ApplyPuts(objects, calls) ==
      if |calls| == 2 then objects[calls[0].id := calls[0].content] else objects
  {
    ApplyPutsAppend(objects, [], calls[0]);
    if |calls| == 2 {
      assert calls == [calls[0]] + [calls[1]];
      ApplyPutsAppend(objects, [calls[0]], calls[1]);
    } else {
      assert calls == [] + [calls[0]];
    }
  }

  /**
   * The legacy client writes the body somewhere its pointer does not name:
   * for any configured bucket that is not itself a UUID, the object named
   * in the sent S3 pointer is not the object that was put.
   */
  lemma LegacyPointerTargetNotWritten(config: ClientConfiguration, request: Option<SendMessageRequest>,
                                      s3Key: string, objectKey: string,
                                      calls: seq<Call>, result: Result<SendMessageResponse, Error>)
    requires LegacySendBehaviour(config, request, s3Key, objectKey, calls, result)
    requires |calls| == 2
    requires config.IsLargePayloadSupportEnabled() && !IsUuid(config.largePayloadSupport.s3BucketName)
    ensures calls[0].S3PutObject? && calls[0].succeeded && calls[1].SqsSendMessage?
    ensures var sent := calls[1].sendRequest;
      && sent.messageBody.Some?
      && FromJson(sent.messageBody.value) == Some(MessageS3Pointer(config.largePayloadSupport.s3BucketName, s3Key))
      && calls[0].id != ObjectId(config.largePayloadSupport.s3BucketName, s3Key)
  {
    LegacyOffloadedRequestRewrite(request.value, config.largePayloadSupport.s3BucketName, s3Key);
  }

  /** The bucket name the client's tests configure is not UUID-shaped, so the lemma above applies to it. */
  lemma TestBucketIsNotUuid()
    ensures !IsUuid("test-bucket-name")
  {
    assert |"test-bucket-name"| == 16;
  }

  class LegacyExtendedSqsClient {
    const sqsClient: SqsClient
    const clientConfiguration: ClientConfiguration

    ghost predicate Valid()
    {
      clientConfiguration.IsLargePayloadSupportEnabled() ==>
        clientConfiguration.largePayloadSupport.s3.log == sqsClient.log
    }

    function StoreFrame(): set<object>
    {
      if clientConfiguration.IsLargePayloadSupportEnabled() then {clientConfiguration.largePayloadSupport.s3} else {}
    }

    constructor (sqsClient: SqsClient, extendedClientConfig: ClientConfiguration)
      requires extendedClientConfig.IsLargePayloadSupportEnabled() ==>
        extendedClientConfig.largePayloadSupport.s3.log == sqsClient.log
      ensures this.sqsClient == sqsClient && clientConfiguration == extendedClientConfig
      ensures Valid()
    {
      this.sqsClient := sqsClient;
      this.clientConfiguration := extendedClientConfig;
    }

    method SendMessage(sendMessageRequest: Option<SendMessageRequest>)
      returns (result: Result<SendMessageResponse, Error>, ghost s3Key: string, ghost objectKey: string)
      requires Valid()
      modifies sqsClient.log, StoreFrame()
      ensures |old(sqsClient.log.calls)| <= |sqsClient.log.calls|
      ensures sqsClient.log.calls[..|old(sqsClient.log.calls)|] == old(sqsClient.log.calls)
      ensures LegacySendBehaviour(clientConfiguration, sendMessageRequest, s3Key, objectKey,
                                  sqsClient.log.calls[|old(sqsClient.log.calls)|..], result)
      ensures clientConfiguration.IsLargePayloadSupportEnabled() ==>
        var s3 := clientConfiguration.largePayloadSupport.s3;
        s3.objects == ApplyPuts(old(s3.objects), sqsClient.log.calls[|old(sqsClient.log.calls)|..])
    {
      s3Key, objectKey := "", "";
      ghost var before := sqsClient.log.calls;
      if sendMessageRequest.None? {
        result := Failure(SdkClientException(NullSendRequest));
        assert sqsClient.log.calls[|before|..] == [];
        return;
      }
      var request := sendMessageRequest.value;
      if request.messageBody.None? || request.messageBody.value == "" {
        result := Failure(SdkClientException(EmptyBody));
        assert sqsClient.log.calls[|before|..] == [];
        return;
      }

      if !clientConfiguration.IsLargePayloadSupportEnabled() {
        result := sqsClient.SendMessage(request);
        assert sqsClient.log.calls[|before|..] == [SqsSendMessage(request, result)];
        LegacyForwardedSend(clientConfiguration, sendMessageRequest, s3Key, objectKey, result, map[]);
        return;
      }

      ghost var s3 := clientConfiguration.largePayloadSupport.s3;
      var large := clientConfiguration.alwaysThroughS3;
      if !large {
        large := MessageSize.IsLarge(request, clientConfiguration.messageSizeThreshold);
      }
      if !large {
        result := sqsClient.SendMessage(request);
        assert sqsClient.log.calls[|before|..] == [SqsSendMessage(request, result)];
        LegacyForwardedSend(clientConfiguration, sendMessageRequest, s3Key, objectKey, result, old(s3.objects));
        return;
      }

      var stored;
      stored, s3Key, objectKey := StoreMessageInS3(request);
      ghost var put := sqsClient.log.calls[|before|];
      if stored.Failure? {
        result := Failure(stored.error);
        assert sqsClient.log.calls[|before|..] == [put];
        LegacyOffloadedSend(clientConfiguration, sendMessageRequest, s3Key, objectKey, [put], result, old(s3.objects));
        return;
      }
      result := sqsClient.SendMessage(stored.value);
      assert sqsClient.log.calls[|before|..] == [put, SqsSendMessage(stored.value, result)];
      LegacyOffloadedSend(clientConfiguration, sendMessageRequest, s3Key, objectKey,
                          [put, SqsSendMessage(stored.value, result)], result, old(s3.objects));
    }

    /**
     * Mints the pointer's key, stores the body, and returns the request
     * with only its body replaced by the pointer. `objectKey` is the key
     * the put actually used.
     */
    method StoreMessageInS3(sendMessageRequest: SendMessageRequest)
      returns (result: Result<SendMessageRequest, Error>, ghost s3Key: string, ghost objectKey: string)
      requires Valid() && clientConfiguration.IsLargePayloadSupportEnabled()
      requires sendMessageRequest.messageBody.Some?
      modifies sqsClient.log, StoreFrame()
      ensures IsUuid(s3Key) && IsUuid(objectKey)
      ensures var s3 := clientConfiguration.largePayloadSupport.s3;
        var bucket := clientConfiguration.largePayloadSupport.s3BucketName;
        var id := ObjectId(s3Key, objectKey);
        var content := Utf8.Encode(sendMessageRequest.messageBody.value);
        || (&& sqsClient.log.calls == old(sqsClient.log.calls) + [S3PutObject(id, content, true)]
            && s3.objects == old(s3.objects)[id := content]
            && result == Success(LegacyOffloadedRequest(sendMessageRequest, bucket, s3Key)))
        || (&& sqsClient.log.calls == old(sqsClient.log.calls) + [S3PutObject(id, content, false)]
            && s3.objects == old(s3.objects)
            && result == Failure(SdkClientException(StoreFailed)))
    {
      var key := ExtendedSqsClient.RandomUuid();
      s3Key := key;
      var messageContentStr := sendMessageRequest.messageBody.value;

      var failure;
      failure, objectKey := StoreTextInS3(key, messageContentStr);
      if failure.Some? {
        return Failure(failure.value), s3Key, objectKey;
      }

      var s3Pointer := MessageS3Pointer(clientConfiguration.largePayloadSupport.s3BucketName, key);
      var s3PointerStr := ToJson(s3Pointer);
      result := Success(sendMessageRequest.(messageBody := Some(s3PointerStr)));
    }

    /**
     * Puts the text's UTF-8 bytes under bucket = s3Key and a freshly minted
     * key (`objectKey`), not under the configured bucket.
     */
    method StoreTextInS3(s3Key: string, messageContentStr: string)
      returns (failure: Option<Error>, ghost objectKey: string)
      requires Valid() && clientConfiguration.IsLargePayloadSupportEnabled()
      modifies sqsClient.log, StoreFrame()
      ensures IsUuid(objectKey)
      ensures var s3 := clientConfiguration.largePayloadSupport.s3;
        var id := ObjectId(s3Key, objectKey);
        var content := Utf8.Encode(messageContentStr);
        && sqsClient.log.calls == old(sqsClient.log.calls) + [S3PutObject(id, content, failure.None?)]
        && s3.objects == (if failure.None? then old(s3.objects)[id := content] else old(s3.objects))
        && (failure.Some? ==> failure.value == SdkClientException(StoreFailed))
    {
      var amazonS3Client := clientConfiguration.largePayloadSupport.s3;
      var key := ExtendedSqsClient.RandomUuid();
      objectKey := key;
      var succeeded := amazonS3Client.PutObject(ObjectId(s3Key, key), Utf8.Encode(messageContentStr));
      if succeeded {
        failure := None;
      } else {
        failure := Some(SdkClientException(StoreFailed));
      }
    }
  }
}
