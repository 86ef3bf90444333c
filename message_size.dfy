/**
 * Size accounting: how many bytes a send request occupies on the wire, as
 * the client measures it to decide whether to offload.
 *
 * An attribute contributes the UTF-8 length of its name, of its data type
 * and of its string value when present, and of the text rendering of its
 * binary value when present. The client sums these over the map in the
 * map's own iteration order; AttributesSize is that sum defined without an
 * order, and AttributesSizeRemove shows the order cannot matter.
 */
module MessageSize {

  import opened Outcomes
  import opened SqsModel
  import Utf8

  function OptionalSize(s: Option<string>): nat
  {
    if s.Some? then Utf8.ByteLength(s.value) else 0
  }

  /** Bytes one attribute entry contributes. */
  function EntrySize(name: string, v: MessageAttributeValue): nat
  {
    Utf8.ByteLength(name) + OptionalSize(v.dataType) + OptionalSize(v.stringValue)
    + (if v.binaryValue.Some? then Utf8.ByteLength(v.binaryValue.value.rendering) else 0)
  }

  /** The total over all entries, taken in an arbitrary order. */
  ghost function AttributesSize(m: MessageAttributes): nat
    decreases |m|
  {
    if m == map[] then 0
    else
      var name :| name in m;
      EntrySize(name, m[name]) + AttributesSize(m - {name})
  }

  /** Any entry can be counted first: the sum does not depend on iteration order. */
  lemma {:induction false} AttributesSizeRemove(m: MessageAttributes, name: string)
    requires name in m
    ensures AttributesSize(m) == EntrySize(name, m[name]) + AttributesSize(m - {name})
    decreases |m|
  {
    var first :| first in m && AttributesSize(m) == EntrySize(first, m[first]) + AttributesSize(m - {first});
    if first != name {
      assert m - {first} - {name} == m - {name} - {first};
      AttributesSizeRemove(m - {first}, name);
      AttributesSizeRemove(m - {name}, first);
    }
  }

  /** Adding an attribute under a new name adds exactly that entry's size. */
  lemma AttributesSizeAdd(m: MessageAttributes, name: string, v: MessageAttributeValue)
    requires name !in m
    ensures AttributesSize(m[name := v]) == EntrySize(name, v) + AttributesSize(m)
  {
    AttributesSizeRemove(m[name := v], name);
    assert m[name := v] - {name} == m;
  }

  /**
   * Largest value of the Java `int` the source accumulates into. The model's
   * total is an unbounded integer, so it agrees with the source only while
   * the attribute size stays at or below this bound; past it, the source's
   * total wraps around. Documentation only: no contract requires the bound,
   * and the wrapped total is not modelled.
   */
  const JavaIntMax: int := 0x7FFF_FFFF

  /**
   * The client's accumulation loop: visits every entry once, in whatever
   * order the map yields them, adding each part that is present. The
   * result is exact; it equals the source's `int` total only when
   * AttributesSize(msgAttributes) <= JavaIntMax.
   */
  method GetMsgAttributesSize(msgAttributes: MessageAttributes) returns (total: int)
    ensures total == AttributesSize(msgAttributes)
  {
    total := 0;
    var remaining := msgAttributes;
    while remaining != map[]
      invariant total + AttributesSize(remaining) == AttributesSize(msgAttributes)
      decreases |remaining|
    {
      var name :| name in remaining;
      var entryVal := remaining[name];
      AttributesSizeRemove(remaining, name);
      total := total + Utf8.ByteLength(name);
      if entryVal.dataType.Some? {
        total := total + Utf8.ByteLength(entryVal.dataType.value);
      }
      if entryVal.stringValue.Some? {
        total := total + Utf8.ByteLength(entryVal.stringValue.value);
      }
      if entryVal.binaryValue.Some? {
        total := total + Utf8.ByteLength(entryVal.binaryValue.value.rendering);
      }
      remaining := remaining - {name};
    }
  }

  /** Wire size of a request with a body: its attributes plus its body. */
  ghost function MessageSize(request: SendMessageRequest): nat
    requires request.messageBody.Some?
  {
    AttributesSize(request.messageAttributes) + Utf8.ByteLength(request.messageBody.value)
  }

  /** Whether the request is over the threshold; strictly greater counts as large. */
  method IsLarge(request: SendMessageRequest, messageSizeThreshold: int) returns (large: bool)
    requires request.messageBody.Some?
    ensures large <==> MessageSize(request) > messageSizeThreshold
  {
    var msgAttributesSize := GetMsgAttributesSize(request.messageAttributes);
    var msgBodySize := Utf8.ByteLength(request.messageBody.value);
    var totalMsgSize := msgAttributesSize + msgBodySize;
    large := totalMsgSize > messageSizeThreshold;
  }
}
