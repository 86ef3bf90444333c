/**
 * The extended queue client: it wraps a plain queue client and, when
 * large-payload support is enabled, moves large bodies to the object store
 * on send and brings them back on receive. Each method is proved to behave
 * as the definitions of module Offload say.
 */
module ExtendedSqsClient {

  import opened Outcomes
  import opened SqsModel
  import opened Backends
  import opened Configuration
  import opened S3Pointer
  import opened Offload
  import Utf8
  import Decimal
  import MessageSize

  /**
   * A freshly minted object key. The client asks for a random UUID; the
   * model lets it be any string in the UUID text form.
   */
  method RandomUuid() returns (key: string)
    ensures IsUuid(key)
  {
    assert IsUuid("2ede0e0f-50cc-4464-800e-72d6497ec063");
    key :| IsUuid(key);
  }

  class ExtendedSqsClient {
    const sqsClient: SqsClient
    const clientConfiguration: ClientConfiguration

    /** Both backends write to one log, so that their relative order can be stated. */
    ghost predicate Valid()
    {
      clientConfiguration.IsLargePayloadSupportEnabled() ==>
        clientConfiguration.largePayloadSupport.s3.log == sqsClient.log
    }

    /** The object store the client may write to: none when support is disabled. */
    function StoreFrame(): set<object>
    {
      if clientConfiguration.IsLargePayloadSupportEnabled() then {clientConfiguration.largePayloadSupport.s3} else {}
    }

    /** Keeps its own copy of the configuration (a value here, so the copy is the value). */
    constructor (sqsClient: SqsClient, extendedClientConfig: ClientConfiguration)
      requires extendedClientConfig.IsLargePayloadSupportEnabled() ==>
        extendedClientConfig.largePayloadSupport.s3.log == sqsClient.log
      ensures this.sqsClient == sqsClient && clientConfiguration == extendedClientConfig
      ensures Valid()
    {
      this.sqsClient := sqsClient;
      this.clientConfiguration := extendedClientConfig;
    }

    /**
     * Validates the request, then either forwards it or offloads its body
     * and sends the rewritten request. `s3Key` is the key minted on offload.
     */
    method SendMessage(sendMessageRequest: Option<SendMessageRequest>)
      returns (result: Result<SendMessageResponse, Error>, ghost s3Key: string)
      requires Valid()
      modifies sqsClient.log, StoreFrame()
      ensures |old(sqsClient.log.calls)| <= |sqsClient.log.calls|
      ensures sqsClient.log.calls[..|old(sqsClient.log.calls)|] == old(sqsClient.log.calls)
      ensures SendBehaviour(clientConfiguration, sendMessageRequest, s3Key,
                            sqsClient.log.calls[|old(sqsClient.log.calls)|..], result)
      ensures clientConfiguration.IsLargePayloadSupportEnabled() ==>
        var s3 := clientConfiguration.largePayloadSupport.s3;
        s3.objects == ApplyPuts(old(s3.objects), sqsClient.log.calls[|old(sqsClient.log.calls)|..])
    {
      s3Key := "";
      ghost var before := sqsClient.log.calls;
      if sendMessageRequest.None? {
        result := Failure(SdkClientException(NullSendRequest));
        assert sqsClient.log.calls[|before|..] == [];
        return;
      }
      var request := sendMessageRequest.value;
      if request.messageBody.None? || request.messageBody.value == "" {
        result := Failure(SdkClientException(EmptyBody));
        assert sqsClient.log.calls[|before|..] == [];
        return;
      }

      if !clientConfiguration.IsLargePayloadSupportEnabled() {
        result := sqsClient.SendMessage(request);
        assert sqsClient.log.calls[|before|..] == [SqsSendMessage(request, result)];
        ForwardedSend(clientConfiguration, sendMessageRequest, s3Key, result, map[]);
        return;
      }

      ghost var s3 := clientConfiguration.largePayloadSupport.s3;
      var large := clientConfiguration.alwaysThroughS3;
      if !large {
        large := MessageSize.IsLarge(request, clientConfiguration.messageSizeThreshold);
      }
      if !large {
        result := sqsClient.SendMessage(request);
        assert sqsClient.log.calls[|before|..] == [SqsSendMessage(request, result)];
        ForwardedSend(clientConfiguration, sendMessageRequest, s3Key, result, old(s3.objects));
        return;
      }

      var stored;
      stored, s3Key := StoreMessageInS3(request);
      ghost var put := sqsClient.log.calls[|before|];
      if stored.Failure? {
        result := Failure(stored.error);
        assert sqsClient.log.calls[|before|..] == [put];
        OffloadedSend(clientConfiguration, sendMessageRequest, s3Key, [put], result, old(s3.objects));
        return;
      }
      result := sqsClient.SendMessage(stored.value);
      assert sqsClient.log.calls[|before|..] == [put, SqsSendMessage(stored.value, result)];
      OffloadedSend(clientConfiguration, sendMessageRequest, s3Key, [put, SqsSendMessage(stored.value, result)],
                    result, old(s3.objects));
    }

    /**
     * Mints a key, stores the body there, and returns the request with the
     * reserved size attribute added and the body replaced by the pointer.
     */
    method StoreMessageInS3(sendMessageRequest: SendMessageRequest)
      returns (result: Result<SendMessageRequest, Error>, ghost s3Key: string)
      requires Valid() && clientConfiguration.IsLargePayloadSupportEnabled()
      requires sendMessageRequest.messageBody.Some?
      modifies sqsClient.log, StoreFrame()
      ensures IsUuid(s3Key)
      ensures var s3 := clientConfiguration.largePayloadSupport.s3;
        var bucket := clientConfiguration.largePayloadSupport.s3BucketName;
        var id := ObjectId(bucket, s3Key);
        var content := Utf8.Encode(sendMessageRequest.messageBody.value);
        || (&& sqsClient.log.calls == old(sqsClient.log.calls) + [S3PutObject(id, content, true)]
            && s3.objects == old(s3.objects)[id := content]
            && result == Success(OffloadedRequest(sendMessageRequest, bucket, s3Key)))
        || (&& sqsClient.log.calls == old(sqsClient.log.calls) + [S3PutObject(id, content, false)]
            && s3.objects == old(s3.objects)
            && result == Failure(SdkClientException(StoreFailed)))
    {
      var key := RandomUuid();
      s3Key := key;
      var messageContentStr := sendMessageRequest.messageBody.value;
      var messageContentSize := Utf8.ByteLength(messageContentStr);

      var messageAttributeValue := MessageAttributeValue(Some("Number"), Some(Decimal.NatToString(messageContentSize)), None);
      var messageAttributes := sendMessageRequest.messageAttributes[ReservedAttributeName := messageAttributeValue];

      var failure := StoreTextInS3(key, messageContentStr);
      if failure.Some? {
        return Failure(failure.value), s3Key;
      }

      var s3Pointer := MessageS3Pointer(clientConfiguration.largePayloadSupport.s3BucketName, key);
      var s3PointerStr := ToJson(s3Pointer);
      result := Success(sendMessageRequest.(messageBody := Some(s3PointerStr), messageAttributes := messageAttributes));
    }

    /**
     * Puts the UTF-8 bytes of the text under (configured bucket, s3Key); a
     * failed put becomes a client error.
     */
    method StoreTextInS3(s3Key: string, messageContentStr: string) returns (failure: Option<Error>)
      requires Valid() && clientConfiguration.IsLargePayloadSupportEnabled()
      modifies sqsClient.log, StoreFrame()
      ensures var s3 := clientConfiguration.largePayloadSupport.s3;
        var id := ObjectId(clientConfiguration.largePayloadSupport.s3BucketName, s3Key);
        var content := Utf8.Encode(messageContentStr);
        && sqsClient.log.calls == old(sqsClient.log.calls) + [S3PutObject(id, content, failure.None?)]
        && s3.objects == (if failure.None? then old(s3.objects)[id := content] else old(s3.objects))
        && (failure.Some? ==> failure.value == SdkClientException(StoreFailed))
    {
      var amazonS3Client := clientConfiguration.largePayloadSupport.s3;
      var id := ObjectId(clientConfiguration.largePayloadSupport.s3BucketName, s3Key);
      var succeeded := amazonS3Client.PutObject(id, Utf8.Encode(messageContentStr));
      if succeeded {
        failure := None;
      } else {
        failure := Some(SdkClientException(StoreFailed));
      }
    }

    /**
     * Fetches an object and reads it as UTF-8 text. `fetched` is what the
     * store answered.
     */
    method GetTextFromS3(s3BucketName: string, s3Key: string)
      returns (text: Result<string, Error>, ghost fetched: Option<seq<Utf8.byte>>)
      requires Valid() && clientConfiguration.IsLargePayloadSupportEnabled()
      modifies sqsClient.log
      ensures var id := ObjectId(s3BucketName, s3Key);
        var s3 := clientConfiguration.largePayloadSupport.s3;
        && sqsClient.log.calls == old(sqsClient.log.calls) + [S3GetObject(id, fetched)]
        && (fetched.Some? ==> id in s3.objects && fetched.value == s3.objects[id])
      ensures text == TextFromObject(fetched)
    {
      var s3Object := clientConfiguration.largePayloadSupport.s3.GetObject(ObjectId(s3BucketName, s3Key));
      fetched := s3Object;
      if s3Object.None? {
        return Failure(SdkException(GetFailed)), fetched;
      }
      var embeddedText := Utf8.Decode(s3Object.value);
      if embeddedText.None? {
        return Failure(SdkClientException(TextUnreadable)), fetched;
      }
      text := Success(embeddedText.value);
    }

    /**
     * One received message: a marked one is restored from the store, any
     * other is kept. `fetched` is what the store answered, if it was asked.
     */
    method ProcessReceivedMessage(message: Message)
      returns (processed: Result<Message, Error>, ghost fetched: Option<seq<Utf8.byte>>)
      requires Valid() && clientConfiguration.IsLargePayloadSupportEnabled()
      modifies sqsClient.log
      ensures processed == ProcessMessage(message, fetched)
      ensures sqsClient.log.calls == old(sqsClient.log.calls) + FetchCall(message, fetched)
      ensures var s3 := clientConfiguration.largePayloadSupport.s3;
        fetched.Some? ==> FetchOf(message).Some? && FetchOf(message).value in s3.objects
                          && fetched.value == s3.objects[FetchOf(message).value]
    {
      fetched := None;
      if ReservedAttributeName !in message.messageAttributes {
        return Success(message), fetched;
      }
      var s3Pointer := ReadMessageS3PointerFromJson(message.body);
      if s3Pointer.Failure? {
        return Failure(s3Pointer.error), fetched;
      }
      var p := s3Pointer.value;
      var textFromS3;
      textFromS3, fetched := GetTextFromS3(p.s3BucketName, p.s3Key);
      if textFromS3.Failure? {
        return Failure(textFromS3.error), fetched;
      }
      processed := Success(message.(body := textFromS3.value,
                                    messageAttributes := message.messageAttributes - {ReservedAttributeName},
                                    receiptHandle := EmbedS3PointerInReceiptHandle(message.receiptHandle,
                                                                                   p.s3BucketName, p.s3Key)));
    }

    /**
     * The loop over the received messages: each marked one is restored from
     * the store, the others are kept, in order; the first failure ends it.
     * `fetched` is what the store answered for each message.
     */
    method RestoreMessages(messages: seq<Message>)
      returns (result: Result<seq<Message>, Error>, ghost fetched: seq<Option<seq<Utf8.byte>>>)
      requires Valid() && clientConfiguration.IsLargePayloadSupportEnabled()
      modifies sqsClient.log
      ensures |fetched| == |messages|
      ensures result == ProcessAll(messages, fetched)
      ensures sqsClient.log.calls == old(sqsClient.log.calls) + FetchTrace(messages, fetched)
      ensures FetchedFromStore(messages, fetched, clientConfiguration.largePayloadSupport.s3.objects)
    {
      ghost var before := sqsClient.log.calls;
      ghost var objects := clientConfiguration.largePayloadSupport.s3.objects;
      fetched := [];
      var alteredMessages: seq<Message> := [];
      var failure: Option<Error> := None;
      var i := 0;
      while i < |messages| && failure.None?
        invariant 0 <= i <= |messages| && |fetched| == i
        invariant ProcessAll(messages[..i], fetched) ==
          if failure.None? then Success(alteredMessages) else Failure(failure.value)
        invariant sqsClient.log.calls == before + FetchTrace(messages[..i], fetched)
        invariant clientConfiguration.largePayloadSupport.s3.objects == objects
        invariant FetchedFromStore(messages[..i], fetched, objects)
      {
        ghost var trace := FetchTrace(messages[..i], fetched);
        var processed;
        ghost var fetchedNow;
        processed, fetchedNow := ProcessReceivedMessage(messages[i]);
        RestoreStep(messages, fetched, fetchedNow, alteredMessages, processed);
        FetchedFromStoreExtend(messages, fetched, fetchedNow, objects);
        assert sqsClient.log.calls == before + (trace + FetchCall(messages[i], fetchedNow));
        if processed.Failure? {
          failure := Some(processed.error);
        } else {
          alteredMessages := alteredMessages + [processed.value];
        }
        fetched := fetched + [fetchedNow];
        i := i + 1;
      }

      if failure.Some? {
        FailedBatch(messages, fetched, objects);
        fetched := fetched + seq(|messages| - i, _ => None);
        result := Failure(failure.value);
      } else {
        assert messages[..i] == messages;
        result := Success(alteredMessages);
      }
    }

    /**
     * Validates the request, then either forwards it or asks for the
     * reserved attribute too and restores every marked message it gets.
     * `backendResult` is what the queue returned and `fetched` what the
     * store answered for each message.
     */
    method ReceiveMessage(receiveMessageRequest: Option<ReceiveMessageRequest>)
      returns (result: Result<ReceiveMessageResponse, Error>,
               ghost backendResult: Result<ReceiveMessageResponse, Error>,
               ghost fetched: seq<Option<seq<Utf8.byte>>>)
      requires Valid()
      modifies sqsClient.log
      ensures receiveMessageRequest.None? ==>
        result == Failure(SdkClientException(NullReceiveRequest)) && sqsClient.log.calls == old(sqsClient.log.calls)
      ensures receiveMessageRequest.Some? && !clientConfiguration.IsLargePayloadSupportEnabled() ==>
        sqsClient.log.calls == old(sqsClient.log.calls) + [SqsReceiveMessage(receiveMessageRequest.value, result)]
      ensures receiveMessageRequest.Some? && clientConfiguration.IsLargePayloadSupportEnabled() ==>
        && |old(sqsClient.log.calls)| <= |sqsClient.log.calls|
        && sqsClient.log.calls[..|old(sqsClient.log.calls)|] == old(sqsClient.log.calls)
        && ReceiveBehaviour(receiveMessageRequest.value, backendResult, fetched,
                            sqsClient.log.calls[|old(sqsClient.log.calls)|..], result)
        && (backendResult.Success? ==>
              FetchedFromStore(backendResult.value.messages, fetched, clientConfiguration.largePayloadSupport.s3.objects))
    {
      backendResult := Failure(SqsException(""));
      fetched := [];
      if receiveMessageRequest.None? {
        return Failure(SdkClientException(NullReceiveRequest)), backendResult, fetched;
      }
      var request := receiveMessageRequest.value;
      if !clientConfiguration.IsLargePayloadSupportEnabled() {
        result := sqsClient.ReceiveMessage(request);
        return;
      }

      ghost var start := sqsClient.log.calls;
      var messageAttributeNames := request.messageAttributeNames;
      if ReservedAttributeName !in messageAttributeNames {
        messageAttributeNames := messageAttributeNames + [ReservedAttributeName];
      }
      var response := sqsClient.ReceiveMessage(request.(messageAttributeNames := messageAttributeNames));
      backendResult := response;
      ghost var receive := SqsReceiveMessage(ExtendedReceiveRequest(request), response);
      if response.Failure? {
        result := response;
        assert sqsClient.log.calls[|start|..] == [receive];
        return;
      }

      var alteredMessages;
      alteredMessages, fetched := RestoreMessages(response.value.messages);
      if alteredMessages.Failure? {
        result := Failure(alteredMessages.error);
      } else {
        result := Success(response.value.(messages := alteredMessages.value));
      }
      assert sqsClient.log.calls[|start|..] == [receive] + FetchTrace(response.value.messages, fetched);
    }
  }
}
