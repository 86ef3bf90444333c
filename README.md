# Extended SQS client: large-payload offload protocol

This project models the core of the Amazon SQS extended client library. It
is a wrapper around a plain queue client. When large-payload support is
enabled, it moves a message body that is too large for the queue into an S3
object and sends a small JSON pointer in its place. On receive, it follows
the pointer and restores the body.

The model covers four things.

- **Size accounting.** A request's size is the UTF-8 byte length of its body
  plus, for every message attribute:
  - the byte length of its name;
  - the byte length of its data type, when present;
  - the byte length of its string value, when present;
  - the byte length of its binary value's text rendering, when present.
- **The offload decision.** A message is offloaded when `alwaysThroughS3` is
  set, or when its size is strictly greater than `messageSizeThreshold`.
- **The send-side rewrite.**
  - The reserved attribute `SQSLargePayloadSize` is added, carrying the body's
    byte size as a decimal `Number`.
  - The body is put in S3 under the configured bucket and a fresh UUID key.
  - The body is replaced by the pointer JSON `{"s3BucketName":…,"s3Key":…}`.
- **The receive-side rewrite.**
  - The reserved attribute is added to the names asked for.
  - Every marked message is restored from S3, and the reserved attribute is
    removed from it.
  - Its receipt handle becomes
    `-..s3BucketName..-` bucket `-..s3BucketName..-` `-..s3Key..-` key `-..s3Key..-` original handle.

The older send-only copy under `src/` is modelled as well.

The files are:

- `outcomes.dfy`: `Option` and `Result`.
- `utf8.dfy`: UTF-8 as in section 3 of RFC 3629.
  - `ByteLength` is the client's byte counter.
  - `Encode` and `Decode` convert between text and the bytes stored in S3.
  - Both round trips are proved.
- `sqs_model.dfy`: request, response and message shapes, the exceptions, and
  the wire constants. The client's own exception messages are an
  enumeration, and `Wording` gives each one's exact text.
- `decimal.dfy`: the decimal numeral of the size attribute, and its inverse.
- `s3_pointer.dfy`:
  - the pointer, with its JSON writer and reader and their round trip;
  - the extended receipt handle;
  - the UUID key form.
- `message_size.dfy`:
  - the attribute-size sum, proved independent of iteration order;
  - the accumulation loop;
  - `IsLarge`.
- `backends.dfy`: the S3 and queue clients. Their answers are arbitrary. Every
  call and its answer is appended to one shared ghost log.
- `configuration.dfy`: the client configuration, as a value.
- `offload.dfy`: the protocol as pure definitions, and the lemmas about them:
  - `SendBehaviour`, `ShouldOffload` and `OffloadedRequest`;
  - `ProcessMessage`, `ProcessAll`, `FetchTrace` and `ReceiveBehaviour`.
- `extended_sqs_client.dfy`: the current client, as a class. Each method is
  proved to behave as `offload.dfy` says.
- `legacy_sqs_client.dfy`: the older client's send path.

I/O and randomness are modelled as follows.

- The queue service and S3 are parameters, namely the classes in `backends.dfy`.
  - A put may fail.
  - A get may fail, and otherwise returns what the store holds.
  - Queue answers are arbitrary.
- `UUID.randomUUID()` becomes `RandomUuid`. It may return any string in the
  UUID text form `[0-9a-f]{8}(-[0-9a-f]{4}){3}-[0-9a-f]{12}`, the pattern the
  tests check keys against.

Two things come from the tests rather than the code.

- **Reserved attribute name.** `SQSExtendedClientConstants` is not part of
  this model. The name `SQSLargePayloadSize` comes from the commented test at
  `lib/src/test/java/software/amazon/awssdk/services/sqs/ExtendedSqsClientTest.java:182-191`.
- **Markers and default threshold.** The two markers come from the receipt
  handle fixture at line 51 of the same file. The default threshold 262144
  comes from its boundary tests at lines 53-55 and 72-86.

## Model

| member | source | states |
|---|---|---|
| Utf8.ByteLength | lib/src/main/java/software/amazon/awssdk/services/sqs/ExtendedSqsClient.java:2709-2722 | The UTF-8 byte size of a string: between 1 and 4 bytes per character, and 0 exactly for the empty string |
| Utf8.ByteLengthIsEncodedLength | lib/src/main/java/software/amazon/awssdk/services/sqs/ExtendedSqsClient.java:2709-2722 | The counted size equals the length of the UTF-8 encoding that the writer produces |
| Utf8.ByteLengthAppend | lib/src/main/java/software/amazon/awssdk/services/sqs/ExtendedSqsClient.java:2709-2722 | The byte size of a concatenation is the sum of the byte sizes |
| Utf8.AsciiByteLength | lib/src/test/java/software/amazon/awssdk/services/sqs/ExtendedSqsClientTest.java:72-86 | For ASCII text, as the tests generate, byte size equals character count |
| Utf8.DecodeEncode | lib/src/main/java/software/amazon/awssdk/services/sqs/ExtendedSqsClient.java:2620-2644 | Text put to S3 as UTF-8 reads back as the same text |
| Utf8.EncodeDecode | lib/src/main/java/software/amazon/awssdk/services/sqs/ExtendedSqsClient.java:2620-2644 | Bytes that decode re-encode to the same bytes, so the decoder accepts only well-formed UTF-8 |
| Decimal.NatToStringIsNumeral | lib/src/main/java/software/amazon/awssdk/services/sqs/ExtendedSqsClient.java:2551-2555 | The size attribute's value is a decimal numeral with no leading zero |
| Decimal.StringToNatNatToString | lib/src/main/java/software/amazon/awssdk/services/sqs/ExtendedSqsClient.java:2551-2555 | The size attribute's numeral reads back as the size it was written from |
| S3Pointer.ReadStringBodyEscape | lib/src/main/java/software/amazon/awssdk/services/sqs/ExtendedSqsClient.java:2607-2618 | A JSON string literal written for any text reads back as that text, followed by the rest of the input |
| S3Pointer.FromJsonToJson | lib/src/main/java/software/amazon/awssdk/services/sqs/ExtendedSqsClient.java:2607-2618 | Every pointer written as a message body is read back as the same bucket and key |
| S3Pointer.ToJsonInjective | lib/src/main/java/software/amazon/awssdk/services/sqs/ExtendedSqsClient.java:2565-2567 | Distinct pointers give distinct message bodies |
| S3Pointer.EmbedS3PointerInReceiptHandle | lib/src/main/java/software/amazon/awssdk/services/sqs/ExtendedSqsClient.java:2600-2605 | The extended handle's length is the sum of the two marker pairs, bucket, key and original handle |
| S3Pointer.ExtendedHandleLayout | lib/src/main/java/software/amazon/awssdk/services/sqs/ExtendedSqsClient.java:2600-2605 | The extended handle is bucket marker, bucket, bucket marker, key marker, key, key marker, and then the original handle unchanged as its suffix |
| S3Pointer.UuidHasNoMarker | lib/src/main/java/software/amazon/awssdk/services/sqs/ExtendedSqsClient.java:2549 | A UUID key contains neither marker at any position, so the key field of the extended handle is delimited unambiguously |
| S3Pointer.UuidEscapesToItself | lib/src/main/java/software/amazon/awssdk/services/sqs/ExtendedSqsClient.java:2549 | A UUID key appears verbatim in the pointer JSON |
| MessageSize.AttributesSizeRemove | lib/src/main/java/software/amazon/awssdk/services/sqs/ExtendedSqsClient.java:2653-2674 | The attribute-size sum does not depend on iteration order: any entry can be counted first |
| MessageSize.AttributesSizeAdd | lib/src/main/java/software/amazon/awssdk/services/sqs/ExtendedSqsClient.java:2653-2674 | Adding an attribute under a new name adds exactly that entry's size |
| MessageSize.GetMsgAttributesSize | lib/src/main/java/software/amazon/awssdk/services/sqs/ExtendedSqsClient.java:2653-2674 | The loop over the entries returns the order-independent sum of name, optional data type, optional string value and optional binary rendering sizes (0 for no attributes) |
| MessageSize.IsLarge | lib/src/main/java/software/amazon/awssdk/services/sqs/ExtendedSqsClient.java:2646-2651 | True exactly when attribute size plus body byte size is strictly greater than the threshold |
| Configuration.EnabledConfiguration | lib/src/main/java/software/amazon/awssdk/services/sqs/ExtendedSqsClient.java:146-148 | The configuration `defaultClient` builds: support enabled with the given store client and bucket, not forced through the store, and the queue's 262144-byte limit as threshold |
| Offload.ShouldOffload | lib/src/main/java/software/amazon/awssdk/services/sqs/ExtendedSqsClient.java:2034 | Forced offload always offloads; otherwise a request is offloaded exactly when its attributes' and its body's UTF-8 byte sizes together are strictly greater than the threshold |
| Offload.CheckSendRequest | lib/src/main/java/software/amazon/awssdk/services/sqs/ExtendedSqsClient.java:2018-2028 | A request passes exactly when it is present and has a non-empty body; otherwise the error is an SdkClientException |
| Offload.OffloadDecisionAscii | lib/src/main/java/software/amazon/awssdk/services/sqs/ExtendedSqsClient.java:2034 | With no attributes and an ASCII body, offload happens if and only if it is forced or the body is longer than the threshold |
| Offload.OffloadBoundaries | lib/src/test/java/software/amazon/awssdk/services/sqs/ExtendedSqsClientTest.java:72-129 | 262144 bytes stay inline and 262145 are offloaded at the default threshold; at threshold 500, 1000 bytes are offloaded and 500 are not; forced offload takes 3 bytes |
| Offload.OffloadedRequest | lib/src/main/java/software/amazon/awssdk/services/sqs/ExtendedSqsClient.java:2550-2569 | The offloaded request keeps every field but the body and the attributes; its attribute names are the old ones plus the reserved name, and every other attribute keeps its value |
| Offload.OffloadedRequestRewrite | lib/src/main/java/software/amazon/awssdk/services/sqs/ExtendedSqsClient.java:2546-2570 | An offloaded request keeps every other field, and every attribute except the reserved one. The reserved one is a Number whose numeral reads back as the body's byte size. The body reads back as the pointer (bucket, key) |
| Offload.SendCallShape | lib/src/main/java/software/amazon/awssdk/services/sqs/ExtendedSqsClient.java:2017-2039 | Every send matches the behaviour spec. A validation error makes no backend call. With support disabled, the request goes to the queue unchanged. There is at most one put, it comes first and targets the configured bucket, and the queue send, if any, comes last and its answer is the result |
| Offload.OffloadedObjectIsPointerTarget | lib/src/main/java/software/amazon/awssdk/services/sqs/ExtendedSqsClient.java:2546-2570 | After an offloaded send, the pointer in the sent body names exactly the object that was put, and that object decodes to the original body |
| Offload.WithReservedAttributeName | lib/src/main/java/software/amazon/awssdk/services/sqs/ExtendedSqsClient.java:1741-1745 | A name list that already holds the reserved name comes back unchanged; any other list comes back with the reserved name appended at the end. Existing names keep their order, and the set of names is the old set plus the reserved name |
| Offload.ExtendedReceiveRequest | lib/src/main/java/software/amazon/awssdk/services/sqs/ExtendedSqsClient.java:1740-1745 | The receive request sent to the queue is the caller's with only the attribute names changed: they include the reserved name, and are exactly the old names plus that one |
| Offload.ReadMessageS3PointerFromJson | lib/src/main/java/software/amazon/awssdk/services/sqs/ExtendedSqsClient.java:2607-2618 | A body the pointer reader rejects is the SdkClientException "Failed to read the S3 object pointer"; a body it accepts yields the pointer it reads |
| Offload.TextFromObject | lib/src/main/java/software/amazon/awssdk/services/sqs/ExtendedSqsClient.java:2635-2641 | A failed get is an SdkException; fetched bytes that are not UTF-8 are an SdkClientException; text that is returned re-encodes to exactly the fetched bytes |
| Offload.TextFromStoredBody | lib/src/main/java/software/amazon/awssdk/services/sqs/ExtendedSqsClient.java:2635-2641 | The bytes stored for a body read back as that body |
| Offload.ProcessMessage | lib/src/main/java/software/amazon/awssdk/services/sqs/ExtendedSqsClient.java:1756-1781 | An unmarked message passes unchanged. A marked one succeeds exactly when its pointer reads and its text is fetched; it then gets the fetched text as body, loses only the reserved attribute and gets the handle extended with the pointer. A failure is one of the three client errors |
| Offload.WithReservedAttributeNameIdempotent | lib/src/main/java/software/amazon/awssdk/services/sqs/ExtendedSqsClient.java:1740-1744 | Adding the reserved name twice is the same as adding it once |
| Offload.ProcessAllOutcome | lib/src/main/java/software/amazon/awssdk/services/sqs/ExtendedSqsClient.java:1750-1785 | The batch succeeds if and only if every message does. It then returns one result per message, in order. Otherwise it fails with the error of the first failing message |
| Offload.ProcessAllSuccess | lib/src/main/java/software/amazon/awssdk/services/sqs/ExtendedSqsClient.java:1750-1785 | A successful batch holds, at every position, the successful result of that message |
| Offload.ProcessAllFailure | lib/src/main/java/software/amazon/awssdk/services/sqs/ExtendedSqsClient.java:1750-1785 | A failed batch fails with the error of some message, and every message before that one succeeded |
| Offload.ProcessAllPrefixFailure | lib/src/main/java/software/amazon/awssdk/services/sqs/ExtendedSqsClient.java:1750-1785 | Once a prefix of the batch has failed, the batch result is that failure, whatever follows |
| Offload.FetchTracePrefixFailure | lib/src/main/java/software/amazon/awssdk/services/sqs/ExtendedSqsClient.java:1750-1785 | Once a prefix of the batch has failed, no later message causes a get |
| Offload.ReceivedMessages | lib/src/main/java/software/amazon/awssdk/services/sqs/ExtendedSqsClient.java:1750-1785 | A successful receive returns the queue's messages in the same count and order. Unmarked messages are unchanged. A marked message gets the stored text as its body, loses only the reserved attribute, and gets the extended handle, which ends with the original handle; nothing else changes |
| Offload.SendThenReceive | lib/src/main/java/software/amazon/awssdk/services/sqs/ExtendedSqsClient.java:1757-1778 | A message received with the body and attributes of an offloaded request, given the stored bytes, comes back with the original body and attributes, and with a handle naming the object |
| Offload.SendThenReceiveDropsReservedAttribute | lib/src/main/java/software/amazon/awssdk/services/sqs/ExtendedSqsClient.java:2546-2570 | A request that already carries the reserved attribute is accepted (the attribute check is commented out), but its own value is lost: the send overwrites it with the size and the receive removes it, so the message comes back with every other attribute only |
| Offload.OffloadedSendThenFetch | lib/src/main/java/software/amazon/awssdk/services/sqs/ExtendedSqsClient.java:1757-1762 | After an offloaded send whose put succeeded, a message carrying what was sent names the object the put wrote; in the store as the send left it, that object holds the body's UTF-8 bytes, and reading them gives back the body |
| ExtendedSqsClient.RandomUuid | lib/src/main/java/software/amazon/awssdk/services/sqs/ExtendedSqsClient.java:2549 | The minted key has the UUID text form |
| ExtendedSqsClient.ExtendedSqsClient.constructor | lib/src/main/java/software/amazon/awssdk/services/sqs/ExtendedSqsClient.java:141-144 | The client keeps the given queue client and its own copy of the configuration |
| ExtendedSqsClient.ExtendedSqsClient.SendMessage | lib/src/main/java/software/amazon/awssdk/services/sqs/ExtendedSqsClient.java:2017-2039 | The backend calls made and the result are those of SendBehaviour: validate; forward; or put and then send the rewritten request. The store changes only by the successful put |
| ExtendedSqsClient.ExtendedSqsClient.StoreMessageInS3 | lib/src/main/java/software/amazon/awssdk/services/sqs/ExtendedSqsClient.java:2546-2570 | It mints a UUID key and puts the body's UTF-8 bytes at (configured bucket, key). It returns the offloaded request, or an SdkClientException if the put fails, in which case the store is unchanged |
| ExtendedSqsClient.ExtendedSqsClient.StoreTextInS3 | lib/src/main/java/software/amazon/awssdk/services/sqs/ExtendedSqsClient.java:2688-2707 | It makes exactly one put, at (configured bucket, key). A failed put becomes the SdkClientException "message was not sent" |
| ExtendedSqsClient.ExtendedSqsClient.GetTextFromS3 | lib/src/main/java/software/amazon/awssdk/services/sqs/ExtendedSqsClient.java:2620-2644 | It makes exactly one get. A failed get is an SdkException and unreadable bytes are an SdkClientException. Otherwise it returns the text of what the store holds |
| ExtendedSqsClient.ExtendedSqsClient.ProcessReceivedMessage | lib/src/main/java/software/amazon/awssdk/services/sqs/ExtendedSqsClient.java:1757-1778 | One message of the loop: the result is ProcessMessage of it and the store's answer. It makes exactly the get FetchCall names (none for an unmarked message or an unreadable pointer), and an answer it uses is what the store holds at that message's pointer |
| ExtendedSqsClient.ExtendedSqsClient.RestoreMessages | lib/src/main/java/software/amazon/awssdk/services/sqs/ExtendedSqsClient.java:1750-1785 | The loop's result is ProcessAll of the messages, and its calls are FetchTrace. Every answer it used is the store's content at that message's pointer |
| ExtendedSqsClient.ExtendedSqsClient.ReceiveMessage | lib/src/main/java/software/amazon/awssdk/services/sqs/ExtendedSqsClient.java:1729-1785 | A null request is an SdkClientException and makes no call. With support disabled, the request is forwarded unchanged and only the queue is called. Otherwise the behaviour is ReceiveBehaviour: one receive asking for the reserved name, then the gets, then the processed batch |
| LegacySqsClient.LegacyOffloadedRequest | src/main/java/software/amazon/awssdk/services/sqs/ExtendedSqsClient.java:213-235 | The legacy offloaded request differs from the caller's only in its body: the attributes are unchanged and no reserved attribute is added |
| LegacySqsClient.LegacyOffloadedRequestRewrite | src/main/java/software/amazon/awssdk/services/sqs/ExtendedSqsClient.java:213-235 | The legacy rewrite changes only the body, which reads back as the pointer; the attributes are unchanged and no reserved attribute is added |
| LegacySqsClient.LegacyPointerTargetNotWritten | src/main/java/software/amazon/awssdk/services/sqs/ExtendedSqsClient.java:307-327 | When the configured bucket is not UUID-shaped, a successful legacy offload puts the body at an object other than the one its pointer names |
| LegacySqsClient.TestBucketIsNotUuid | src/test/java/software/amazon/awssdk/services/sqs/ExtendedSqsClientTest.java:42 | The bucket the tests configure is not UUID-shaped |
| LegacySqsClient.LegacyExtendedSqsClient.constructor | src/main/java/software/amazon/awssdk/services/sqs/ExtendedSqsClient.java:82-85 | The client keeps the given queue client and configuration |
| LegacySqsClient.LegacyExtendedSqsClient.SendMessage | src/main/java/software/amazon/awssdk/services/sqs/ExtendedSqsClient.java:145-167 | The calls and result are those of LegacySendBehaviour. It validates exactly as the current client does, and forwards unchanged when support is disabled or the message is small. Otherwise it makes one put, and after a successful put the queue send. The store changes only by that put |
| LegacySqsClient.LegacyExtendedSqsClient.StoreMessageInS3 | src/main/java/software/amazon/awssdk/services/sqs/ExtendedSqsClient.java:213-235 | It mints the pointer key, puts the body, and returns the request with only the body replaced by the pointer. A failed put is an SdkClientException |
| LegacySqsClient.LegacyExtendedSqsClient.StoreTextInS3 | src/main/java/software/amazon/awssdk/services/sqs/ExtendedSqsClient.java:307-327 | It makes one put, at bucket = the given key and key = a second minted UUID. A failed put is an SdkClientException |

The legacy client's `isLarge` and `getMsgAttributesSize`
(`src/main/java/software/amazon/awssdk/services/sqs/ExtendedSqsClient.java:265-293`)
are the same code as the current client's. The legacy class therefore calls
`MessageSize.IsLarge` and `MessageSize.GetMsgAttributesSize`.

## Left out

- MessageSize.GetMsgAttributesSize: sizes are unbounded integers. The source
  accumulates into an `int` and adds `long` values, so the total narrows (wraps
  around) past 2^31 - 1 bytes of attributes. The model's sum is exact, so it
  matches the source only below that total. The bound is
  `MessageSize.JavaIntMax`, next to the loop.
- Pointer JSON:
  - The serializer (`JsonDataConverter`) is not part of this model. The pointer
    is written in one canonical form, compact with the fields in declaration
    order. Inside its strings, the quote, the backslash and `\b`, `\t`, `\n`,
    `\f`, `\r` are written in short form, as Jackson writes them, and any other
    control character as `\u00XX`; bucket names and UUID keys contain no
    control characters in practice. The reader expects that layout of fields, and inside the two
    string values it accepts the usual JSON escapes (`\"`, `\\`, `\/`, `\b`,
    `\f`, `\n`, `\r`, `\t` and any non-surrogate `\uXXXX`). The round trip is
    proved for the writer's canonical form.
  - A Jackson reader would also accept whitespace, reordered fields and
    unknown fields. Those bodies fail here with the client's "Failed to read
    the S3 object pointer" error.
  - The serialisation-failure branch (`getJSONFromS3Pointer`'s catch) cannot
    occur for a two-string record, and is left out.
- Strings are sequences of Unicode scalar values. Java's unpaired UTF-16
  surrogates, which the writer would replace with `?`, cannot occur.
- Binary attribute values are sized by their `toString()` text. That text is
  an opaque `rendering` field, as in the source; its relation to the bytes is
  not modelled.
- RandomUuid: any UUID-shaped key may be returned. Freshness (no two sends
  share a key) is not claimed, since it rests on randomness.
- The unused `messageContentSize` argument of `storeTextInS3` is dropped.
- Logging (`LOG.*`) is left out.
- The backend ghost log requires the S3 client and the queue client to share
  one log. This lets the put-before-send order be stated; it is a modelling
  device, not something the source requires.
- `deleteMessage` and `deleteMessageBatch` are plain forwards in the source,
  with no receipt-handle parsing. They, and the other pass-through operations
  (permissions, visibility, queues, tags, batches, the `Consumer` overloads),
  carry no offload logic and are left out. So are `getQueueUrl` and
  `listDeadLetterSourceQueues`, which call themselves.
- ExtendedClientConfiguration.java, MessageS3Pointer.java,
  SQSExtendedClientConstants.java and the builder are not part of this model.
  - The configuration is a value: support enabled (with S3 client and bucket)
    or disabled, `alwaysThroughS3`, and the threshold.
  - The copy the constructor makes therefore cannot alias the caller's.
- The commented-out `checkMessageAttributes` validation is not active code,
  and is not modelled.
- Message fields beyond id, receipt handle, MD5, body and attributes, and
  request fields beyond those in `SqsModel`, are left out. The rewrites copy
  requests and messages with `toBuilder()`, so they would be carried through
  unchanged, as the modelled fields are.

## Findings

| source | as written | input that shows it | evidently intended | confidence | as-written member | corrected member |
|---|---|---|---|---|---|---|
| src/main/java/software/amazon/awssdk/services/sqs/ExtendedSqsClient.java:316-318 | The legacy `storeTextInS3` builds the put with `bucket(s3Key)` and `key(UUID.randomUUID())`. The S3 pointer sent in the body holds (configured bucket, s3Key) (line 232), so the body is never stored at the object named in the S3 pointer | Enable support with bucket "test-bucket-name" and send a body of 262145 bytes. The put goes to (s3Key, another UUID), while the S3 pointer in the sent body holds ("test-bucket-name", s3Key) | Put at (configured bucket, s3Key), as the current client does (lib/src/main/java/software/amazon/awssdk/services/sqs/ExtendedSqsClient.java:2696-2699) | not executed; the statement is proved for every bucket that is not UUID-shaped | LegacySqsClient.LegacyPointerTargetNotWritten | Offload.OffloadedObjectIsPointerTarget |
