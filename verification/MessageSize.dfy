/** `modules/sqs/src/util/message-size.util.ts`: the byte accounting of the batcher. */
module MessageSize {
  import opened Sequences

  /** One UTF-16 code unit; JavaScript strings may hold unpaired surrogates. */
  type CodeUnit = n: nat | n < 0x1_0000

  type JsString = seq<CodeUnit>

  type Octet = n: nat | n < 0x100

  predicate IsHighSurrogate(u: CodeUnit) {
    0xD800 <= u < 0xDC00
  }

  predicate IsLowSurrogate(u: CodeUnit) {
    0xDC00 <= u < 0xE000
  }

  predicate StartsWithPair(s: JsString) {
    |s| >= 2 && IsHighSurrogate(s[0]) && IsLowSurrogate(s[1])
  }

  function PairedCodePoint(high: nat, low: nat): nat
    requires 0xD800 <= high && 0xDC00 <= low
  {
    0x1_0000 + (high - 0xD800) * 0x400 + (low - 0xDC00)
  }

  /** The code points of a string, an unpaired surrogate read as U+FFFD. */
  function CodePoints(s: JsString): seq<nat> {
    if s == [] then
      []
    else if StartsWithPair(s) then
      [PairedCodePoint(s[0], s[1])] + CodePoints(s[2..])
    else if IsHighSurrogate(s[0]) || IsLowSurrogate(s[0]) then
      [0xFFFD] + CodePoints(s[1..])
    else
      [s[0]] + CodePoints(s[1..])
  }

  /** The octets of one code point, section 3 of RFC 3629. */
  function Utf8(c: nat): seq<Octet> {
    if c < 0x80 then
      [c]
    else if c < 0x800 then
      [0xC0 + c / 0x40, 0x80 + c % 0x40]
    else if c < 0x1_0000 then
      [0xE0 + c / 0x1000, 0x80 + c / 0x40 % 0x40, 0x80 + c % 0x40]
    else
      [0xF0 + c / 0x4_0000 % 8, 0x80 + c / 0x1000 % 0x40, 0x80 + c / 0x40 % 0x40, 0x80 + c % 0x40]
  }

  function EncodeAll(cs: seq<nat>): seq<Octet> {
    if cs == [] then [] else Utf8(cs[0]) + EncodeAll(cs[1..])
  }

  /** The octets of a code unit outside a surrogate pair: a lone surrogate becomes U+FFFD, three octets. */
  function UnpairedSize(u: CodeUnit): nat {
    if u < 0x80 then 1 else if u < 0x800 then 2 else 3
  }

  /** `byteSize` of a string. */
  function ByteSize(s: JsString): nat {
    if s == [] then 0
    else if StartsWithPair(s) then 4 + ByteSize(s[2..])
    else UnpairedSize(s[0]) + ByteSize(s[1..])
  }

  /** `ByteSize` is the length of the UTF-8 encoding. */
  lemma {:induction false} ByteSizeIsEncodedLength(s: JsString)
    ensures ByteSize(s) == |EncodeAll(CodePoints(s))|
  {
    if s != [] {
      var rest := if StartsWithPair(s) then s[2..] else s[1..];
      ByteSizeIsEncodedLength(rest);
      assert CodePoints(s)[1..] == CodePoints(rest);
    }
  }

  /** A string of n code units takes between n and 3n bytes, whatever surrogates it holds. */
  lemma {:induction false} ByteSizeBounds(s: JsString)
    ensures |s| <= ByteSize(s) <= 3 * |s|
  {
    if s != [] {
      if StartsWithPair(s) {
        ByteSizeBounds(s[2..]);
      } else {
        ByteSizeBounds(s[1..]);
      }
    }
  }

  /**
   * One octet up to U+007F, two up to U+07FF, three for any other single code unit, lone surrogates included, and four
   * for a surrogate pair.
   */
  lemma ByteSizeOfOne(u: CodeUnit, high: CodeUnit, low: CodeUnit)
    ensures ByteSize([]) == 0
    ensures ByteSize([u]) == if u <= 0x7F then 1 else if u <= 0x7FF then 2 else 3
    ensures 0xD800 <= high <= 0xDBFF && 0xDC00 <= low <= 0xDFFF ==> ByteSize([high, low]) == 4
  {
    assert [u][1..] == [] && [high, low][2..] == [];
  }

  /** The cut between a and b falls inside a surrogate pair. */
  predicate SplitsPair(a: JsString, b: JsString) {
    a != [] && b != [] && IsHighSurrogate(a[|a| - 1]) && IsLowSurrogate(b[0])
  }

  /** Cutting a string keeps its size, except that a cut inside a surrogate pair costs exactly two bytes. */
  lemma {:induction false} ByteSizeOfConcat(a: JsString, b: JsString)
    ensures ByteSize(a) + ByteSize(b) == ByteSize(a + b) + if SplitsPair(a, b) then 2 else 0
  {
    if a == [] {
      assert a + b == b;
    } else {
      if StartsWithPair(a) {
        assert (a + b)[2..] == a[2..] + b;
        ByteSizeOfConcat(a[2..], b);
      } else if |a| == 1 && SplitsPair(a, b) {
        assert (a + b)[2..] == b[1..];
      } else {
        assert (a + b)[1..] == a[1..] + b;
        ByteSizeOfConcat(a[1..], b);
      }
    }
  }

  /** `byteSize(a + b) <= byteSize(a) + byteSize(b)`, with equality exactly when no pair is cut. */
  lemma ByteSizeIsSubadditive(a: JsString, b: JsString)
    ensures ByteSize(a + b) <= ByteSize(a) + ByteSize(b)
    ensures ByteSize(a + b) == ByteSize(a) + ByteSize(b) <==> !SplitsPair(a, b)
  {
    ByteSizeOfConcat(a, b);
  }

  datatype AttributeValue = AttributeValue(
    dataType: Option<JsString>, stringValue: Option<JsString>, binaryValue: Option<seq<Octet>>)

  /** One `name: value` pair of `MessageAttributes`. */
  datatype Attribute = Attribute(name: JsString, value: AttributeValue)

  /** `SqsMessageEntry`; attributes are listed in the order in which `for ... in` visits them. */
  datatype MessageEntry = MessageEntry(
    body: Option<JsString>, attributes: Option<seq<Attribute>>, groupId: Option<JsString>, delaySeconds: Option<int>)

  function TextSize(text: Option<JsString>): nat {
    match text
    case None => 0
    case Some(s) => ByteSize(s)
  }

  /** An empty `StringValue` is falsy, so a `BinaryValue` beside it is counted. */
  function ValueSize(value: AttributeValue): nat {
    if value.stringValue.Some? && value.stringValue.value != [] then
      ByteSize(value.stringValue.value)
    else if value.binaryValue.Some? then
      |value.binaryValue.value|
    else
      0
  }

  function AttributeSize(a: Attribute): nat {
    ByteSize(a.name) + TextSize(a.value.dataType) + ValueSize(a.value)
  }

  /** The size of a message: its body and every part of every attribute. */
  function SizeOf(message: MessageEntry): nat {
    TextSize(message.body)
    + match message.attributes
      case None => 0
      case Some(attributes) => SumBy(AttributeSize, attributes)
  }

  /**
   * In octets: the encoded body, and for every attribute its encoded name, its encoded type if there is one, and its
   * encoded value, or else the length of its binary value; nothing else is counted.
   */
  lemma SizeInOctets(message: MessageEntry, attributes: seq<Attribute>, a: Attribute)
    ensures message.attributes == None || message.attributes == Some([]) ==>
              SizeOf(message) == if message.body.Some? then |EncodeAll(CodePoints(message.body.value))| else 0
    ensures SizeOf(message.(attributes := Some(attributes + [a])))
            == SizeOf(message.(attributes := Some(attributes)))
               + |EncodeAll(CodePoints(a.name))|
               + (if a.value.dataType.Some? then |EncodeAll(CodePoints(a.value.dataType.value))| else 0)
               + (if a.value.stringValue.Some? && |a.value.stringValue.value| > 0
                  then |EncodeAll(CodePoints(a.value.stringValue.value))|
                  else if a.value.binaryValue.Some? then |a.value.binaryValue.value| else 0)
  {
    SumBySnoc(AttributeSize, attributes, a);
    forall s: JsString
      ensures ByteSize(s) == |EncodeAll(CodePoints(s))|
    {
      ByteSizeIsEncodedLength(s);
    }
  }

  method SizeOfMessage(message: MessageEntry) returns (messageSize: nat)
    ensures messageSize == SizeOf(message)
  {
    messageSize := if message.body.Some? then ByteSize(message.body.value) else 0;
    if message.attributes == None {
      return;
    }
    var attributes := message.attributes.value;
    for i := 0 to |attributes|
      invariant messageSize == TextSize(message.body) + SumBy(AttributeSize, attributes[..i])
    {
      var Attribute(attributeName, attributeValue) := attributes[i];
      messageSize := messageSize + ByteSize(attributeName);
      if attributeValue.dataType.Some? && attributeValue.dataType.value != [] {
        messageSize := messageSize + ByteSize(attributeValue.dataType.value);
      }
      if attributeValue.stringValue.Some? && attributeValue.stringValue.value != [] {
        messageSize := messageSize + ByteSize(attributeValue.stringValue.value);
      } else if attributeValue.binaryValue.Some? {
        messageSize := messageSize + |attributeValue.binaryValue.value|;
      }
      SumBySnoc(AttributeSize, attributes[..i], attributes[i]);
      assert attributes[..i + 1] == attributes[..i] + [attributes[i]];
    }
    assert attributes[..|attributes|] == attributes;
  }

  /** The size of a message does not depend on the order in which its attributes are visited. */
  lemma SizeIgnoresAttributeOrder(message: MessageEntry, reordered: seq<Attribute>)
    requires message.attributes.Some? && multiset(reordered) == multiset(message.attributes.value)
    ensures SizeOf(message.(attributes := Some(reordered))) == SizeOf(message)
  {
    SumByPermutation(AttributeSize, reordered, message.attributes.value);
  }
}
