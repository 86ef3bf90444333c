/**
 * The pointer to an offloaded payload and its two wire forms: the JSON text
 * that replaces a message body, and the extended receipt handle that carries
 * the pointer in front of the queue's own handle.
 *
 * The JSON writer and reader stand for the client's JSON converter (not part
 * of this model): they use the canonical form
 * {"s3BucketName":"<bucket>","s3Key":"<key>"} with JSON string escaping.
 */
module S3Pointer {

  import opened Outcomes
  import opened SqsModel

  /** The (bucket, key) location of an offloaded payload. */
  datatype MessageS3Pointer = MessageS3Pointer(s3BucketName: string, s3Key: string)

  // ---------------------------------------------------------------- JSON

  function HexDigit(d: nat): (c: char)
    requires d < 16
    ensures IsHexDigit(c) && HexValue(c) == d
  {
    "0123456789ABCDEF"[d]
  }

  predicate IsHexDigit(c: char)
  {
    '0' <= c <= '9' || 'a' <= c <= 'f' || 'A' <= c <= 'F'
  }

  function HexValue(c: char): (d: nat)
    requires IsHexDigit(c)
    ensures d < 16
  {
    if '0' <= c <= '9' then (c as int) - ('0' as int)
    else if 'a' <= c <= 'f' then (c as int) - ('a' as int) + 10
    else (c as int) - ('A' as int) + 10
  }

  /**
   * One character inside a JSON string literal, as Jackson writes it: the
   * quote, the backslash and five control characters in their short form,
   * every other control character as a \u00XX escape.
   */
  function EscapeChar(c: char): string
  {
    if c == '"' then "\\\""
    else if c == '\\' then "\\\\"
    else if c == 8 as char then "\\b"
    else if c == '\t' then "\\t"
    else if c == '\n' then "\\n"
    else if c == 12 as char then "\\f"
    else if c == '\r' then "\\r"
    else if (c as int) < 0x20 then "\\u00" + [HexDigit((c as int) / 16), HexDigit((c as int) % 16)]
    else [c]
  }

  /** The contents of a JSON string literal for s (without the quotes). */
  function Escape(s: string): string
  {
    if s == [] then [] else EscapeChar(s[0]) + Escape(s[1..])
  }

  /**
   * Reads the escape sequence at the head of s (s[0] is the backslash): the
   * character it stands for and how many characters it took.
   */
  function ReadEscape(s: string): (r: Option<(char, nat)>)
    requires |s| > 0 && s[0] == '\\'
    ensures r.Some? ==> 2 <= r.value.1 <= |s|
  {
    if |s| < 2 then None
    else
      var e := s[1];
      if e == '"' || e == '\\' || e == '/' then Some((e, 2))
      else if e == 'b' then Some((8 as char, 2))
      else if e == 'f' then Some((12 as char, 2))
      else if e == 'n' then Some(('\n', 2))
      else if e == 'r' then Some(('\r', 2))
      else if e == 't' then Some(('\t', 2))
      else if e == 'u' && |s| >= 6
              && IsHexDigit(s[2]) && IsHexDigit(s[3]) && IsHexDigit(s[4]) && IsHexDigit(s[5]) then
        var v := HexValue(s[2]) * 4096 + HexValue(s[3]) * 256 + HexValue(s[4]) * 16 + HexValue(s[5]);
        if 0xD800 <= v < 0xE000 then None else Some((v as char, 6))
      else None
  }

  /**
   * Reads the rest of a JSON string literal whose opening quote has been
   * consumed: the decoded contents and the text after the closing quote.
   */
  function ReadStringBody(s: string): Option<(string, string)>
    decreases |s|
  {
    if s == [] then None
    else if s[0] == '"' then Some(([], s[1..]))
    else if s[0] == '\\' then
      match ReadEscape(s)
      case None => None
      case Some((c, k)) =>
        match ReadStringBody(s[k..])
        case None => None
        case Some((body, rest)) => Some(([c] + body, rest))
    else if (s[0] as int) < 0x20 then None
    else
      match ReadStringBody(s[1..])
      case None => None
      case Some((body, rest)) => Some(([s[0]] + body, rest))
  }

  const JsonOpen: string := "{\"s3BucketName\":\""
  const JsonBetween: string := ",\"s3Key\":\""
  const JsonClose: string := "}"

  /** The pointer as the JSON text that becomes the queue message body. */
  function ToJson(p: MessageS3Pointer): string
  {
    JsonOpen + Escape(p.s3BucketName) + "\"" + JsonBetween + Escape(p.s3Key) + "\"" + JsonClose
  }

  /** What follows `prefix` in s, if s starts with it. */
  function StripPrefix(prefix: string, s: string): (r: Option<string>)
    ensures r.Some? ==> s == prefix + r.value
  {
    if |prefix| <= |s| && s[..|prefix|] == prefix then Some(s[|prefix|..]) else None
  }

  lemma StripPrefixOf(prefix: string, rest: string)
    ensures StripPrefix(prefix, prefix + rest) == Some(rest)
  {
    assert (prefix + rest)[..|prefix|] == prefix;
    assert (prefix + rest)[|prefix|..] == rest;
  }

  /** Reads a pointer back from a message body; None if the text is not one. */
  function FromJson(s: string): Option<MessageS3Pointer>
  {
    match StripPrefix(JsonOpen, s)
    case None => None
    case Some(afterOpen) =>
      match ReadStringBody(afterOpen)
      case None => None
      case Some((bucket, afterBucket)) =>
        match StripPrefix(JsonBetween, afterBucket)
        case None => None
        case Some(afterBetween) =>
          match ReadStringBody(afterBetween)
          case None => None
          case Some((key, afterKey)) =>
            if afterKey == JsonClose then Some(MessageS3Pointer(bucket, key)) else None
  }

  lemma ReadEscapedChar(c: char, rest: string)
    requires c == '"' || c == '\\' || (c as int) < 0x20
    ensures ReadStringBody(EscapeChar(c) + rest) == match ReadStringBody(rest)
      case None => None
      case Some((body, after)) => Some(([c] + body, after))
  {
    var s := EscapeChar(c) + rest;
    if c == '"' || c == '\\' || c == 8 as char || c == '\t' || c == '\n' || c == 12 as char || c == '\r' {
      assert s[0] == '\\' && s[2..] == rest;
      assert ReadEscape(s) == Some((c, 2));
    } else {
      var n := c as int;
      assert s[0] == '\\' && s[1] == 'u' && s[2] == '0' && s[3] == '0';
      assert s[4] == HexDigit(n / 16) && s[5] == HexDigit(n % 16);
      assert s[6..] == rest;
      assert ReadEscape(s) == Some((c, 6));
    }
  }

  lemma ReadPlainChar(c: char, rest: string)
    requires !(c == '"' || c == '\\' || (c as int) < 0x20)
    ensures ReadStringBody(EscapeChar(c) + rest) == match ReadStringBody(rest)
      case None => None
      case Some((body, after)) => Some(([c] + body, after))
  {
    var s := EscapeChar(c) + rest;
    assert s[0] == c && s[1..] == rest;
  }

  /** Reading an escaped string literal gives back the string and the text after it. */
  lemma {:induction false} ReadStringBodyEscape(x: string, rest: string)
    ensures ReadStringBody(Escape(x) + "\"" + rest) == Some((x, rest))
    decreases |x|
  {
    if x == [] {
      assert Escape(x) + "\"" + rest == "\"" + rest;
    } else {
      var tail := Escape(x[1..]) + "\"" + rest;
      assert Escape(x) + "\"" + rest == EscapeChar(x[0]) + tail;
      ReadStringBodyEscape(x[1..], rest);
      if x[0] == '"' || x[0] == '\\' || (x[0] as int) < 0x20 {
        ReadEscapedChar(x[0], tail);
      } else {
        ReadPlainChar(x[0], tail);
      }
      assert [x[0]] + x[1..] == x;
    }
  }

  /** Round trip: every pointer written as JSON reads back as itself. */
  lemma FromJsonToJson(p: MessageS3Pointer)
    ensures FromJson(ToJson(p)) == Some(p)
  {
    var keyPart := Escape(p.s3Key) + "\"" + JsonClose;
    var bucketPart := Escape(p.s3BucketName) + "\"" + (JsonBetween + keyPart);
    assert ToJson(p) == JsonOpen + bucketPart;
    StripPrefixOf(JsonOpen, bucketPart);
    ReadStringBodyEscape(p.s3BucketName, JsonBetween + keyPart);
    StripPrefixOf(JsonBetween, keyPart);
    ReadStringBodyEscape(p.s3Key, JsonClose);
  }

  /** Distinct pointers have distinct JSON texts. */
  lemma ToJsonInjective(p: MessageS3Pointer, q: MessageS3Pointer)
    requires ToJson(p) == ToJson(q)
    ensures p == q
  {
    FromJsonToJson(p);
    FromJsonToJson(q);
  }

  // ------------------------------------------------------ receipt handle

  /**
   * The extended receipt handle: the pointer wrapped in the two markers,
   * followed by the queue's own handle.
   */
  function EmbedS3PointerInReceiptHandle(receiptHandle: string, s3MsgBucketName: string, s3MsgKey: string): (r: string)
    ensures |r| == 2 * |S3BucketNameMarker| + |s3MsgBucketName| + 2 * |S3KeyMarker| + |s3MsgKey| + |receiptHandle|
  {
    S3BucketNameMarker + s3MsgBucketName + S3BucketNameMarker + S3KeyMarker + s3MsgKey + S3KeyMarker + receiptHandle
  }

  /**
   * The extended handle starts with the bucket marker, carries the bucket
   * and the key each between its pair of markers, and ends with the
   * original handle, unchanged.
   */
  lemma {:induction false} ExtendedHandleLayout(h: string, bucket: string, key: string)
    ensures var r := EmbedS3PointerInReceiptHandle(h, bucket, key);
      var b0 := |S3BucketNameMarker|;
      var b1 := b0 + |bucket|;
      var k0 := b1 + |S3BucketNameMarker| + |S3KeyMarker|;
      var k1 := k0 + |key|;
      && r[..b0] == S3BucketNameMarker
      && r[b0..b1] == bucket
      && r[b1..b1 + |S3BucketNameMarker|] == S3BucketNameMarker
      && r[b1 + |S3BucketNameMarker|..k0] == S3KeyMarker
      && r[k0..k1] == key
      && r[k1..k1 + |S3KeyMarker|] == S3KeyMarker
      && r[|r| - |h|..] == h
  {
    var r := EmbedS3PointerInReceiptHandle(h, bucket, key);
    var front := S3BucketNameMarker + bucket + S3BucketNameMarker + S3KeyMarker + key + S3KeyMarker;
    assert r == front + h;
    var b0 := |S3BucketNameMarker|;
    var b1 := b0 + |bucket|;
    var k0 := b1 + |S3BucketNameMarker| + |S3KeyMarker|;
    var k1 := k0 + |key|;
    assert r[..b0] == S3BucketNameMarker;
    assert r[b0..b1] == bucket;
    assert r[b1..b1 + |S3BucketNameMarker|] == S3BucketNameMarker;
    assert r[b1 + |S3BucketNameMarker|..k0] == S3KeyMarker;
    assert r[k0..k1] == key;
    assert r[k1..k1 + |S3KeyMarker|] == S3KeyMarker;
    assert r[|front|..] == h;
  }

  // --------------------------------------------------------------- UUID

  predicate IsLowerHexDigit(c: char)
  {
    '0' <= c <= '9' || 'a' <= c <= 'f'
  }

  /** The text shape of a random UUID: 8-4-4-4-12 lower-case hex digits. */
  predicate IsUuid(s: string)
  {
    && |s| == 36
    && forall i :: 0 <= i < 36 ==>
         if i == 8 || i == 13 || i == 18 || i == 23 then s[i] == '-' else IsLowerHexDigit(s[i])
  }

  predicate OccursAt(s: string, t: string, i: nat)
  {
    i + |t| <= |s| && s[i..i + |t|] == t
  }

  /** A UUID key never contains either receipt-handle marker. */
  lemma UuidHasNoMarker(key: string, i: nat)
    requires IsUuid(key)
    ensures !OccursAt(key, S3KeyMarker, i) && !OccursAt(key, S3BucketNameMarker, i)
  {
    assert |S3KeyMarker| == 11 && S3KeyMarker[1] == '.';
    assert |S3BucketNameMarker| == 18 && S3BucketNameMarker[1] == '.';
    if i + 11 <= |key| {
      assert key[i + 1] != '.';
      assert key[i..i + 11][1] == key[i + 1];
    }
    if i + 18 <= |key| {
      assert key[i + 1] != '.';
      assert key[i..i + 18][1] == key[i + 1];
    }
  }

  /** A UUID key needs no JSON escaping. */
  lemma {:induction false} UuidEscapesToItself(key: string)
    requires forall i :: 0 <= i < |key| ==> key[i] == '-' || IsLowerHexDigit(key[i])
    ensures Escape(key) == key
  {
    if key != [] {
      UuidEscapesToItself(key[1..]);
      assert [key[0]] + key[1..] == key;
    }
  }
}
