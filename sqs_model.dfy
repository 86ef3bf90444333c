/**
 * The queue service's request, response and message shapes as the extended
 * client sees them, the exceptions it throws, and the constants that are part
 * of the offload wire contract.
 */
module SqsModel {

  import opened Outcomes
  import Utf8

  /**
   * A binary attribute value. `rendering` is the text its toString() gives,
   * which the size accounting measures; the model treats it as opaque.
   */
  datatype SdkBytes = SdkBytes(bytes: seq<Utf8.byte>, rendering: string)

  /** One message attribute: every part is optional (null in the source). */
  datatype MessageAttributeValue = MessageAttributeValue(
    dataType: Option<string>,
    stringValue: Option<string>,
    binaryValue: Option<SdkBytes>)

  type MessageAttributes = map<string, MessageAttributeValue>

  /** A send request; the body may be null. */
  datatype SendMessageRequest = SendMessageRequest(
    queueUrl: string,
    messageBody: Option<string>,
    messageAttributes: MessageAttributes,
    delaySeconds: Option<int>,
    messageDeduplicationId: Option<string>,
    messageGroupId: Option<string>)

  datatype SendMessageResponse = SendMessageResponse(messageId: string, md5OfMessageBody: string)

  /** A receive request; `messageAttributeNames` is the list of attributes asked for. */
  datatype ReceiveMessageRequest = ReceiveMessageRequest(
    queueUrl: string,
    messageAttributeNames: seq<string>,
    maxNumberOfMessages: Option<int>,
    visibilityTimeout: Option<int>,
    waitTimeSeconds: Option<int>)

  datatype Message = Message(
    messageId: string,
    receiptHandle: string,
    md5OfBody: string,
    body: string,
    messageAttributes: MessageAttributes)

  datatype ReceiveMessageResponse = ReceiveMessageResponse(messages: seq<Message>)

  /**
   * The exceptions of the core: client-side validation and conversion
   * failures, object-store failures as rethrown on receive, and whatever the
   * queue backend throws (propagated unchanged).
   */
  datatype Error =
    | SdkClientException(message: ClientMessage)
    | SdkException(message: ClientMessage)
    | SqsException(reason: string)

  /** The fixed messages of the exceptions the extended client throws itself. */
  datatype ClientMessage =
    | NullSendRequest
    | EmptyBody
    | NullReceiveRequest
    | StoreFailed
    | PointerUnreadable
    | GetFailed
    | TextUnreadable

  /**
   * The wording the client gives each of its messages. Documentation only:
   * errors carry the ClientMessage value, and no contract depends on the text.
   */
  function Wording(m: ClientMessage): string
  {
    match m
    case NullSendRequest => "sendMessageRequest cannot be null."
    case EmptyBody => "messageBody cannot be null or empty."
    case NullReceiveRequest => "receiveMessageRequest cannot be null."
    case StoreFailed => "Failed to store the message content in an S3 object. SQS message was not sent."
    case PointerUnreadable => "Failed to read the S3 object pointer from an SQS message. Message was not received."
    case GetFailed => "Failed to get the S3 object which contains the message payload. Message was not received."
    case TextUnreadable => "Failure when handling the message which was read from S3 object. Message was not received."
  }

  /** Name of the message attribute that marks an offloaded message. */
  const ReservedAttributeName: string := "SQSLargePayloadSize"

  /** Delimiters of the extended receipt handle. */
  const S3BucketNameMarker: string := "-..s3BucketName..-"
  const S3KeyMarker: string := "-..s3Key..-"

  /** The queue's per-message limit, used as the default offload threshold. */
  const DefaultMessageSizeThreshold: int := 262144
}
