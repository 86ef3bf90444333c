/**
 * The two backends the extended client talks to: the object store and the
 * plain queue client. Both are outside the core; the model gives each a
 * method per call the core makes, lets the outcome of every call be
 * anything the backend could answer, and appends the call with its outcome
 * to one shared ghost log so that the order of backend traffic can be stated.
 */
module Backends {

  import opened Outcomes
  import opened SqsModel
  import Utf8

  /** Where an object lives in the store. */
  datatype ObjectId = ObjectId(bucket: string, key: string)

  /** One backend call and what it answered. */
  datatype Call =
    | S3PutObject(id: ObjectId, content: seq<Utf8.byte>, succeeded: bool)
    | S3GetObject(id: ObjectId, fetched: Option<seq<Utf8.byte>>)
    | SqsSendMessage(sendRequest: SendMessageRequest, sendResult: Result<SendMessageResponse, Error>)
    | SqsReceiveMessage(receiveRequest: ReceiveMessageRequest, receiveResult: Result<ReceiveMessageResponse, Error>)

  /** Backend traffic, oldest first. */
  class CallLog {
    ghost var calls: seq<Call>

    constructor ()
      ensures calls == []
    {
      calls := [];
    }
  }

  /** The object store: a map from object ids to their bytes. */
  class S3Client {
    const log: CallLog
    var objects: map<ObjectId, seq<Utf8.byte>>

    constructor (log: CallLog, objects: map<ObjectId, seq<Utf8.byte>>)
      ensures this.log == log && this.objects == objects
    {
      this.log := log;
      this.objects := objects;
    }

    /**
     * Stores `content` under `id`, or fails (the source's SdkException); a
     * failed put leaves the store as it was.
     */
    method PutObject(id: ObjectId, content: seq<Utf8.byte>) returns (succeeded: bool)
      modifies this, log
      ensures objects == if succeeded then old(objects)[id := content] else old(objects)
      ensures log.calls == old(log.calls) + [S3PutObject(id, content, succeeded)]
    {
      succeeded := *;
      if succeeded {
        objects := objects[id := content];
      }
      log.calls := log.calls + [S3PutObject(id, content, succeeded)];
    }

    /**
     * Reads the object under `id`. It may fail (None) even when the object
     * exists; when it answers, the answer is what the store holds.
     */
    method GetObject(id: ObjectId) returns (fetched: Option<seq<Utf8.byte>>)
      modifies log
      ensures fetched.Some? ==> id in objects && fetched.value == objects[id]
      ensures log.calls == old(log.calls) + [S3GetObject(id, fetched)]
    {
      var answered: bool := *;
      if answered && id in objects {
        fetched := Some(objects[id]);
      } else {
        fetched := None;
      }
      log.calls := log.calls + [S3GetObject(id, fetched)];
    }
  }

  /** The plain queue client the extended client wraps. */
  class SqsClient {
    const log: CallLog

    constructor (log: CallLog)
      ensures this.log == log
    {
      this.log := log;
    }

    /** Sends `request` as given; the service's answer or exception is arbitrary. */
    method SendMessage(request: SendMessageRequest) returns (result: Result<SendMessageResponse, Error>)
      modifies log
      ensures log.calls == old(log.calls) + [SqsSendMessage(request, result)]
    {
      result := *;
      log.calls := log.calls + [SqsSendMessage(request, result)];
    }

    /** Receives with `request` as given; the messages returned are arbitrary. */
    method ReceiveMessage(request: ReceiveMessageRequest) returns (result: Result<ReceiveMessageResponse, Error>)
      modifies log
      ensures log.calls == old(log.calls) + [SqsReceiveMessage(request, result)]
    {
      result := *;
      log.calls := log.calls + [SqsReceiveMessage(request, result)];
    }
  }
}
