/** The messages a Cast link carries: fields of a protocol buffer behind a length, written and
    read back, and put together again from however many bytes arrive at once. */
module Frames {
  import opened Wrappers
  import opened Octets

  const LENGTH_BYTES: nat := 4
  const MESSAGE_BYTES_AT_MOST: nat := 65536
  const CASTV2_1_0: nat := 0
  const PAYLOAD_TEXT: nat := 0
  const PAYLOAD_BINARY: nat := 1
  const VARINT: nat := 0
  const FIXED_EIGHT: nat := 1
  const DELIMITED: nat := 2
  const FIXED_FOUR: nat := 5
  const PROTOCOL_VERSION: nat := 1
  const SOURCE_ID: nat := 2
  const DESTINATION_ID: nat := 3
  const NAMESPACE: nat := 4
  const PAYLOAD_TYPE: nat := 5
  const PAYLOAD_UTF8: nat := 6
  const PAYLOAD_BINARY_FIELD: nat := 7
  const VARINT_BYTES_AT_MOST: nat := 10
  const U64_VALUES: nat := 0x1_0000_0000_0000_0000
  const U32_VALUES: nat := 0x1_0000_0000

  // ---------------------------------------------------------------- varints

  /** A value in groups of seven bits, the least first, every group but the last marked. */
  function Varint(value: nat): (bytes: Bytes)
    ensures |bytes| > 0
  {
    if value < 128 then [value as byte] else [(value % 128 + 128) as byte] + Varint(value / 128)
  }

  method PutVarint(body: Bytes, value: nat) returns (longer: Bytes)
    ensures longer == body + Varint(value)
  {
    longer := body;
    var left := value;
    while left >= 128
      invariant longer + Varint(left) == body + Varint(value)
    {
      longer := longer + [(left % 128 + 128) as byte];
      left := left / 128;
    }
    longer := longer + [left as byte];
  }

  /** The value of groups read to their end, before it is cut to sixty-four bits, and where
      they end. */
  function Groups(body: Bytes, at: nat, most: nat): (read: Option<(nat, nat)>)
    ensures read.Some? ==> at < read.value.1 <= |body|
    decreases if at <= |body| then |body| - at else 0
  {
    if most == 0 || at >= |body| then None
    else
      var byte := body[at] as nat;
      if byte < 128 then Some((byte, at + 1))
      else
        var rest := Groups(body, at + 1, most - 1);
        if rest.None? then None else Some((byte - 128 + 128 * rest.value.0, rest.value.1))
  }

  function ReadVarint(body: Bytes, at: nat): (read: Option<(nat, nat)>)
    ensures read.Some? ==> at < read.value.1 <= |body|
  {
    var groups := Groups(body, at, VARINT_BYTES_AT_MOST);
    if groups.None? then None else Some((groups.value.0 % U64_VALUES, groups.value.1))
  }

  function Power(groups: nat): (power: nat)
    ensures power > 0
  {
    if groups == 0 then 1 else 128 * Power(groups - 1)
  }

  /** What the groups read so far come to with those still to be read. */
  ghost function Onward(value: nat, power: nat, rest: Option<(nat, nat)>): (read: Option<(nat, nat)>) {
    if rest.None? then None else Some(((value + power * rest.value.0) % U64_VALUES, rest.value.1))
  }

  method TakeVarint(body: Bytes, from: nat) returns (read: Option<(nat, nat)>)
    ensures read == ReadVarint(body, from)
  {
    var value: nat, at: nat, power: nat := 0, from, 1;
    for group := 0 to VARINT_BYTES_AT_MOST
      invariant power == Power(group) && from <= at
      invariant ReadVarint(body, from) == Onward(value, power, Groups(body, at, VARINT_BYTES_AT_MOST - group))
    {
      if at >= |body| {
        return None;
      }
      var byte := body[at] as nat;
      OneGroupOn(value, power, byte, Groups(body, at + 1, VARINT_BYTES_AT_MOST - group - 1));
      at := at + 1;
      value := (value + power * (byte % 128)) % U64_VALUES;
      if byte < 128 {
        return Some((value, at));
      }
      power := power * 128;
    }
    read := None;
  }

  lemma OneGroupOn(value: nat, power: nat, byte: nat, rest: Option<(nat, nat)>)
    requires byte < 256
    ensures byte < 128 ==> byte % 128 == byte
    ensures byte >= 128 && rest.Some? ==>
      Onward(value, power, Some((byte - 128 + 128 * rest.value.0, rest.value.1)))
        == Onward((value + power * (byte % 128)) % U64_VALUES, power * 128, rest)
  {
    if byte >= 128 && rest.Some? {
      var group, more := byte - 128, rest.value.0;
      assert byte % 128 == group;
      assert power * (group + 128 * more) == power * group + power * 128 * more;
      CutFirst(value + power * group, power * 128 * more);
    }
  }

  lemma CutFirst(one: nat, other: nat)
    ensures (one + other) % U64_VALUES == (one % U64_VALUES + other) % U64_VALUES
  {
  }

  /** Reading stops where the groups do, whatever is before or after them. */
  lemma {:induction false} GroupsElsewhere(before: Bytes, body: Bytes, after: Bytes, at: nat, most: nat)
    requires Groups(body, at, most).Some?
    ensures Groups(before + body + after, |before| + at, most)
      == Some((Groups(body, at, most).value.0, |before| + Groups(body, at, most).value.1))
    decreases most
  {
    assert (before + body + after)[|before| + at] == body[at];
    if body[at] >= 128 {
      GroupsElsewhere(before, body, after, at + 1, most - 1);
    }
  }

  lemma {:induction false} GroupsUndo(value: nat, most: nat)
    requires most > 0 && value < Power(most)
    ensures Groups(Varint(value), 0, most) == Some((value, |Varint(value)|))
  {
    if value >= 128 {
      var rest := Varint(value / 128);
      assert value / 128 < Power(most - 1);
      assert most > 1;
      GroupsUndo(value / 128, most - 1);
      GroupsElsewhere([(value % 128 + 128) as byte], rest, [], 0, most - 1);
      assert [(value % 128 + 128) as byte] + rest + [] == Varint(value);
    }
  }

  /** Every value of sixty-four bits reads back as itself from wherever it was put. */
  lemma VarintReads(before: Bytes, value: nat, after: Bytes)
    requires value < U64_VALUES
    ensures ReadVarint(before + Varint(value) + after, |before|) == Some((value, |before| + |Varint(value)|))
  {
    assert Power(10) >= U64_VALUES by {
      assert Power(5) == 0x8_0000_0000;
    }
    GroupsUndo(value, VARINT_BYTES_AT_MOST);
    GroupsElsewhere(before, Varint(value), after, 0, VARINT_BYTES_AT_MOST);
  }

  // ---------------------------------------------------------------- fields

  datatype Payload = Text(text: Bytes) | Binary(bytes: Bytes)

  datatype Message = Message(source: Bytes, destination: Bytes, namespace: Bytes, payload: Payload) {
    predicate Encoded(utf8: Utf8) {
      utf8(source) && utf8(destination) && utf8(namespace) && (payload.Text? ==> utf8(payload.text))
    }
  }

  function VarintField(field: nat, value: nat): (bytes: Bytes) {
    Varint(field * 8 + VARINT) + Varint(value)
  }

  function DelimitedField(field: nat, bytes: Bytes): (put: Bytes) {
    Varint(field * 8 + DELIMITED) + Varint(|bytes|) + bytes
  }

  /** What has been read of a message so far: of each field the last there was. */
  datatype Fields = Fields(
    source: Option<Bytes>, destination: Option<Bytes>, namespace: Option<Bytes>, text: Option<Bytes>,
    binary: Option<Bytes>, binaryNamed: bool)

  const NO_FIELDS: Fields := Fields(None, None, None, None, None, false)

  /** What a field is: its number, how it is written, what it holds, and where it ends. */
  datatype Field =
    Number(field: nat, value: nat, end: nat) | Stretch(field: nat, from: nat, end: nat) | Skipped(end: nat)

  /** Numbers read from wherever they start, with where they end. */
  type Numbers = nat -> Option<(nat, nat)>

  ghost predicate EndWithin(numbers: Numbers, size: nat) {
    forall at: nat {:trigger numbers(at)} | numbers(at).Some? :: at < numbers(at).value.1 <= size
  }

  function NumbersIn(body: Bytes): (numbers: Numbers)
    ensures EndWithin(numbers, |body|)
  {
    (at: nat) => ReadVarint(body, at)
  }

  /** One field from where it starts; nothing where it is cut short or written in no way known. */
  function FieldAt(numbers: Numbers, size: nat, at: nat): (read: Option<Field>)
    requires EndWithin(numbers, size)
    ensures read.Some? ==> at < read.value.end <= size
    ensures read.Some? && read.value.Stretch? ==> read.value.from <= read.value.end
  {
    var key := numbers(at);
    if key.None? then None
    else
      var field, wire, next := key.value.0 / 8, key.value.0 % 8, key.value.1;
      if wire == VARINT then
        var value := numbers(next);
        if value.None? then None else Some(Number(field, value.value.0, value.value.1))
      else if wire == DELIMITED then
        var length := numbers(next);
        if length.None? || length.value.1 + length.value.0 > size then None
        else Some(Stretch(field, length.value.1, length.value.1 + length.value.0))
      else if wire == FIXED_EIGHT || wire == FIXED_FOUR then
        var width := if wire == FIXED_EIGHT then 8 else 4;
        if next + width > size then None else Some(Skipped(next + width))
      else None
  }

  /** A field read from where it starts, however that is done. */
  type Reader = (Bytes, nat) -> Option<Field>

  ghost predicate Reads(reader: Reader) {
    forall body: Bytes, at: nat {:trigger reader(body, at)} | reader(body, at).Some? ::
      && at < reader(body, at).value.end <= |body|
      && (reader(body, at).value.Stretch? ==> reader(body, at).value.from <= reader(body, at).value.end)
  }

  function ReadField(): (reader: Reader)
    ensures Reads(reader)
  {
    (body: Bytes, at: nat) => FieldAt(NumbersIn(body), |body|, at)
  }

  /** What a field makes of those before it; nothing where its text is not well encoded. */
  function Taken(utf8: Utf8, fields: Fields, number: nat, bytes: Bytes): (next: Option<Fields>) {
    if number == SOURCE_ID then if utf8(bytes) then Some(fields.(source := Some(bytes))) else None
    else if number == DESTINATION_ID then if utf8(bytes) then Some(fields.(destination := Some(bytes))) else None
    else if number == NAMESPACE then if utf8(bytes) then Some(fields.(namespace := Some(bytes))) else None
    else if number == PAYLOAD_UTF8 then if utf8(bytes) then Some(fields.(text := Some(bytes))) else None
    else if number == PAYLOAD_BINARY_FIELD then Some(fields.(binary := Some(bytes)))
    else Some(fields)
  }

  function WithField(utf8: Utf8, body: Bytes, fields: Fields, field: Field): (next: Option<Fields>)
    requires field.end <= |body| && (field.Stretch? ==> field.from <= field.end)
  {
    match field
    case Number(number, value, _) =>
      Some(if number == PAYLOAD_TYPE then fields.(binaryNamed := value == PAYLOAD_BINARY) else fields)
    case Stretch(number, from, end) => Taken(utf8, fields, number, body[from..end])
    case Skipped(_) => Some(fields)
  }

  /** Every field from one place to the end. */
  function ReadFields(utf8: Utf8, reader: Reader, body: Bytes, at: nat, fields: Fields): (read: Option<Fields>)
    requires Reads(reader) && at <= |body|
    decreases |body| - at
  {
    if at == |body| then Some(fields)
    else
      var field := reader(body, at);
      if field.None? then None
      else
        var next := WithField(utf8, body, fields, field.value);
        if next.None? then None else ReadFields(utf8, reader, body, field.value.end, next.value)
  }

  /** The message the fields make, where there are enough of them. */
  function MessageOf(fields: Fields): (message: Option<Message>) {
    if fields.source.None? || fields.destination.None? || fields.namespace.None? then None
    else if fields.binaryNamed then
      if fields.binary.None? then None
      else
        Some(Message(fields.source.value, fields.destination.value,
          fields.namespace.value, Binary(fields.binary.value)))
    else if fields.text.None? then None
    else Some(Message(fields.source.value, fields.destination.value, fields.namespace.value, Text(fields.text.value)))
  }

  function MessageIn(utf8: Utf8, body: Bytes): (message: Option<Message>) {
    var fields := ReadFields(utf8, ReadField(), body, 0, NO_FIELDS);
    if fields.None? then None else MessageOf(fields.value)
  }

  /** A body read field after field with a cursor. */
  method Read(utf8: Utf8, body: Bytes) returns (message: Option<Message>)
    ensures message == MessageIn(utf8, body)
  {
    ghost var reader := ReadField();
    var fields, at: nat := NO_FIELDS, 0;
    while at < |body|
      invariant at <= |body|
      invariant ReadFields(utf8, reader, body, 0, NO_FIELDS) == ReadFields(utf8, reader, body, at, fields)
      decreases |body| - at
    {
      var field := TakeField(body, at);
      if field.None? {
        return None;
      }
      var next := WithField(utf8, body, fields, field.value);
      if next.None? {
        return None;
      }
      fields, at := next.value, field.value.end;
    }
    message := MessageOf(fields);
  }

  method TakeField(body: Bytes, from: nat) returns (field: Option<Field>)
    ensures field == ReadField()(body, from)
  {
    var key := TakeVarint(body, from);
    if key.None? {
      return None;
    }
    var (tag, at) := key.value;
    var number, wire := tag / 8, tag % 8;
    if wire == VARINT {
      var value := TakeVarint(body, at);
      field := if value.None? then None else Some(Number(number, value.value.0, value.value.1));
    } else if wire == DELIMITED {
      var length := TakeVarint(body, at);
      field :=
        if length.None? || length.value.1 + length.value.0 > |body| then None
        else Some(Stretch(number, length.value.1, length.value.1 + length.value.0));
    } else if wire == FIXED_EIGHT || wire == FIXED_FOUR {
      var width := if wire == FIXED_EIGHT then 8 else 4;
      field := if at + width > |body| then None else Some(Skipped(at + width));
    } else {
      field := None;
    }
  }

  /** A message's fields one after another. */
  function FieldsOf(message: Message): (fields: seq<Bytes>) {
    [ VarintField(PROTOCOL_VERSION, CASTV2_1_0), DelimitedField(SOURCE_ID, message.source),
      DelimitedField(DESTINATION_ID, message.destination), DelimitedField(NAMESPACE, message.namespace)
    ] + match message.payload
        case Text(text) => [VarintField(PAYLOAD_TYPE, PAYLOAD_TEXT), DelimitedField(PAYLOAD_UTF8, text)]
        case Binary(bytes) => [VarintField(PAYLOAD_TYPE, PAYLOAD_BINARY), DelimitedField(PAYLOAD_BINARY_FIELD, bytes)]
  }

  function Strung(fields: seq<Bytes>): (strung: Bytes) {
    if fields == [] then [] else fields[0] + Strung(fields[1..])
  }

  function Body(message: Message): Bytes {
    Strung(FieldsOf(message))
  }

  // ---------------------------------------------------------------- reading fields anywhere

  function Moved(field: Field, past: nat): Field {
    match field
    case Number(number, value, end) => Number(number, value, end + past)
    case Stretch(number, from, end) => Stretch(number, from + past, end + past)
    case Skipped(end) => Skipped(end + past)
  }

  lemma VarintElsewhere(before: Bytes, body: Bytes, after: Bytes, at: nat)
    requires ReadVarint(body, at).Some?
    ensures ReadVarint(before + body + after, |before| + at)
      == Some((ReadVarint(body, at).value.0, |before| + ReadVarint(body, at).value.1))
  {
    GroupsElsewhere(before, body, after, at, VARINT_BYTES_AT_MOST);
  }

  /** Wherever one reads a number so does the other, so much further on. */
  ghost predicate MovedNumbers(numbers: Numbers, others: Numbers, past: nat) {
    forall at: nat {:trigger numbers(at)} | numbers(at).Some? ::
      others(past + at) == Some((numbers(at).value.0, past + numbers(at).value.1))
  }

  lemma FieldMoved(numbers: Numbers, size: nat, others: Numbers, longer: nat, past: nat, at: nat)
    requires EndWithin(numbers, size) && EndWithin(others, longer) && past + size <= longer
    requires MovedNumbers(numbers, others, past) && FieldAt(numbers, size, at).Some?
    ensures FieldAt(others, longer, past + at) == Some(Moved(FieldAt(numbers, size, at).value, past))
  {
    var key := numbers(at).value;
    assert others(past + at) == Some((key.0, past + key.1));
    if key.0 % 8 == VARINT || key.0 % 8 == DELIMITED {
      assert others(past + key.1) == Some((numbers(key.1).value.0, past + numbers(key.1).value.1));
    }
  }

  /** A field that is whole reads the same whatever is before or after it. */
  ghost predicate Local(reader: Reader) {
    forall before: Bytes, bytes: Bytes, after: Bytes {:trigger before + bytes + after, reader(bytes, 0)}
      | reader(bytes, 0).Some? ::
      reader(before + bytes + after, |before|) == Some(Moved(reader(bytes, 0).value, |before|))
  }

  lemma FieldsAreLocal()
    ensures Local(ReadField())
  {
    forall before: Bytes, bytes: Bytes, after: Bytes | ReadField()(bytes, 0).Some?
      ensures ReadField()(before + bytes + after, |before|) == Some(Moved(ReadField()(bytes, 0).value, |before|))
    {
      FieldElsewhere(before, bytes, after);
    }
  }

  lemma FieldElsewhere(before: Bytes, bytes: Bytes, after: Bytes)
    requires ReadField()(bytes, 0).Some?
    ensures ReadField()(before + bytes + after, |before|) == Some(Moved(ReadField()(bytes, 0).value, |before|))
  {
    NumbersMove(before, bytes, after);
    FieldMoved(NumbersIn(bytes), |bytes|, NumbersIn(before + bytes + after), |before + bytes + after|, |before|, 0);
  }

  lemma NumbersMove(before: Bytes, bytes: Bytes, after: Bytes)
    ensures MovedNumbers(NumbersIn(bytes), NumbersIn(before + bytes + after), |before|)
  {
    var numbers, others := NumbersIn(bytes), NumbersIn(before + bytes + after);
    forall at: nat | numbers(at).Some?
      ensures others(|before| + at) == Some((numbers(at).value.0, |before| + numbers(at).value.1))
    {
      VarintElsewhere(before, bytes, after, at);
      assert numbers(at) == ReadVarint(bytes, at);
      assert others(|before| + at) == ReadVarint(before + bytes + after, |before| + at);
    }
  }

  /** One whole field and no more. */
  ghost predicate IsField(reader: Reader, bytes: Bytes) {
    reader(bytes, 0).Some? && reader(bytes, 0).value.end == |bytes|
  }

  /** A field whose number is none a message has, or that is skipped whatever its number. */
  ghost predicate Unknown(reader: Reader, bytes: Bytes) {
    && IsField(reader, bytes)
    && match reader(bytes, 0).value
       case Number(number, _, _) => number != PAYLOAD_TYPE
       case Stretch(number, _, _) =>
         !(SOURCE_ID <= number <= NAMESPACE) && !(PAYLOAD_UTF8 <= number <= PAYLOAD_BINARY_FIELD)
       case Skipped(_) => true
  }

  ghost predicate AreFields(reader: Reader, fields: seq<Bytes>) {
    forall k | 0 <= k < |fields| :: IsField(reader, fields[k])
  }

  ghost function WithNext(utf8: Utf8, reader: Reader, bytes: Bytes, fields: Fields): (next: Option<Fields>)
    requires Reads(reader) && IsField(reader, bytes)
  {
    WithField(utf8, bytes, fields, reader(bytes, 0).value)
  }

  /** What whole fields one after another make of those before them. */
  ghost function Folded(utf8: Utf8, reader: Reader, listed: seq<Bytes>, fields: Fields): (folded: Option<Fields>)
    requires Reads(reader) && AreFields(reader, listed)
  {
    if listed == [] then Some(fields)
    else
      var next := WithNext(utf8, reader, listed[0], fields);
      if next.None? then None else Folded(utf8, reader, listed[1..], next.value)
  }

  lemma WithFieldElsewhere(utf8: Utf8, reader: Reader, before: Bytes, bytes: Bytes, after: Bytes, fields: Fields)
    requires Reads(reader) && Local(reader) && IsField(reader, bytes)
    ensures reader(before + bytes + after, |before|) == Some(Moved(reader(bytes, 0).value, |before|))
    ensures WithField(utf8, before + bytes + after, fields, Moved(reader(bytes, 0).value, |before|))
      == WithNext(utf8, reader, bytes, fields)
  {
    var field := reader(bytes, 0).value;
    if field.Stretch? {
      StretchElsewhere(before, bytes, after, field.from, field.end);
    }
  }

  lemma StretchElsewhere(before: Bytes, bytes: Bytes, after: Bytes, from: nat, end: nat)
    requires from <= end <= |bytes|
    ensures (before + bytes + after)[|before| + from..|before| + end] == bytes[from..end]
  {
  }

  /** Reading fields strung together is folding them one by one. */
  lemma {:induction false} ReadIsFolded(utf8: Utf8, reader: Reader, before: Bytes, listed: seq<Bytes>, fields: Fields)
    requires Reads(reader) && Local(reader) && AreFields(reader, listed)
    ensures ReadFields(utf8, reader, before + Strung(listed), |before|, fields) == Folded(utf8, reader, listed, fields)
    decreases |listed|
  {
    if listed == [] {
      assert before + Strung(listed) == before;
    } else {
      var first, rest := listed[0], Strung(listed[1..]);
      assert IsField(reader, first);
      WithFieldElsewhere(utf8, reader, before, first, rest, fields);
      assert before + Strung(listed) == before + first + rest;
      var next := WithNext(utf8, reader, first, fields);
      if next.Some? {
        ReadIsFolded(utf8, reader, before + first, listed[1..], next.value);
      }
    }
  }

  lemma {:induction false} FoldedJoined(utf8: Utf8, reader: Reader, one: seq<Bytes>, other: seq<Bytes>, fields: Fields)
    requires Reads(reader) && AreFields(reader, one) && AreFields(reader, other)
    ensures AreFields(reader, one + other)
    ensures Folded(utf8, reader, one + other, fields)
      == if Folded(utf8, reader, one, fields).None? then None
         else Folded(utf8, reader, other, Folded(utf8, reader, one, fields).value)
    decreases |one|
  {
    if one == [] {
      assert one + other == other;
    } else {
      assert (one + other)[1..] == one[1..] + other;
      var next := WithNext(utf8, reader, one[0], fields);
      FoldedJoined(utf8, reader, one[1..], other, if next.Some? then next.value else fields);
    }
  }

  /** A field no message has changes nothing, wherever among the others it is. */
  lemma UnknownFieldsChangeNothing(utf8: Utf8, one: seq<Bytes>, unknown: Bytes, other: seq<Bytes>)
    requires AreFields(ReadField(), one) && AreFields(ReadField(), other) && Unknown(ReadField(), unknown)
    ensures MessageIn(utf8, Strung(one + [unknown] + other)) == MessageIn(utf8, Strung(one + other))
  {
    FieldsAreLocal();
    UnknownFolds(utf8, ReadField(), one, unknown, other);
    MessageFolds(utf8, ReadField(), one + [unknown] + other);
    MessageFolds(utf8, ReadField(), one + other);
  }

  lemma MessageFolds(utf8: Utf8, reader: Reader, listed: seq<Bytes>)
    requires Reads(reader) && Local(reader) && AreFields(reader, listed)
    ensures ReadFields(utf8, reader, Strung(listed), 0, NO_FIELDS) == Folded(utf8, reader, listed, NO_FIELDS)
  {
    ReadIsFolded(utf8, reader, [], listed, NO_FIELDS);
    assert [] + Strung(listed) == Strung(listed);
  }

  lemma UnknownFolds(utf8: Utf8, reader: Reader, one: seq<Bytes>, unknown: Bytes, other: seq<Bytes>)
    requires Reads(reader) && AreFields(reader, one) && AreFields(reader, other) && Unknown(reader, unknown)
    ensures AreFields(reader, one + [unknown] + other) && AreFields(reader, one + other)
    ensures Folded(utf8, reader, one + [unknown] + other, NO_FIELDS) == Folded(utf8, reader, one + other, NO_FIELDS)
  {
    FoldedJoined(utf8, reader, one, [unknown], NO_FIELDS);
    FoldedJoined(utf8, reader, one + [unknown], other, NO_FIELDS);
    FoldedJoined(utf8, reader, one, other, NO_FIELDS);
    if Folded(utf8, reader, one, NO_FIELDS).Some? {
      UnknownFolded(utf8, reader, unknown, Folded(utf8, reader, one, NO_FIELDS).value);
    }
  }

  lemma UnknownFolded(utf8: Utf8, reader: Reader, unknown: Bytes, fields: Fields)
    requires Reads(reader) && Unknown(reader, unknown)
    ensures Folded(utf8, reader, [unknown], fields) == Some(fields)
  {
    assert [unknown][1..] == [];
  }

  // ---------------------------------------------------------------- what is written reading back

  lemma NumberReads(field: nat, value: nat)
    requires field * 8 < U64_VALUES && value < U64_VALUES
    ensures ReadField()(VarintField(field, value), 0) == Some(Number(field, value, |VarintField(field, value)|))
  {
    var key, put := Varint(field * 8 + VARINT), Varint(value);
    VarintReads([], field * 8 + VARINT, put);
    VarintReads(key, value, []);
    assert [] + key + put == VarintField(field, value) == key + put + [];
    NumberAt(NumbersIn(VarintField(field, value)), |key + put|, field, value, |key|);
  }

  lemma NumberAt(numbers: Numbers, size: nat, field: nat, value: nat, next: nat)
    requires EndWithin(numbers, size) && numbers(0) == Some((field * 8 + VARINT, next))
    requires numbers(next) == Some((value, size))
    ensures FieldAt(numbers, size, 0) == Some(Number(field, value, size))
  {
  }

  lemma StretchAt(numbers: Numbers, size: nat, field: nat, length: nat, next: nat)
    requires EndWithin(numbers, size) && length <= size && numbers(0) == Some((field * 8 + DELIMITED, next))
    requires numbers(next) == Some((length, size - length))
    ensures FieldAt(numbers, size, 0) == Some(Stretch(field, size - length, size))
  {
  }

  lemma StretchReads(field: nat, bytes: Bytes)
    requires field * 8 + DELIMITED < U64_VALUES && |bytes| < U64_VALUES
    ensures
      var put := DelimitedField(field, bytes);
      && ReadField()(put, 0) == Some(Stretch(field, |put| - |bytes|, |put|)) && put[|put| - |bytes|..|put|] == bytes
  {
    var key, length := Varint(field * 8 + DELIMITED), Varint(|bytes|);
    var put := DelimitedField(field, bytes);
    VarintReads([], field * 8 + DELIMITED, length + bytes);
    VarintReads(key, |bytes|, bytes);
    assert [] + key + (length + bytes) == put;
    StretchAt(NumbersIn(put), |put|, field, |bytes|, |key|);
  }

  lemma FoldedNumber(utf8: Utf8, field: nat, value: nat, rest: seq<Bytes>, fields: Fields)
    requires field * 8 < U64_VALUES && value < U64_VALUES && AreFields(ReadField(), rest)
    ensures AreFields(ReadField(), [VarintField(field, value)] + rest)
    ensures Folded(utf8, ReadField(), [VarintField(field, value)] + rest, fields)
      == Folded(utf8, ReadField(), rest,
           if field == PAYLOAD_TYPE then fields.(binaryNamed := value == PAYLOAD_BINARY) else fields)
  {
    NumberReads(field, value);
    assert ([VarintField(field, value)] + rest)[1..] == rest;
  }

  lemma FoldedStretch(utf8: Utf8, field: nat, bytes: Bytes, rest: seq<Bytes>, fields: Fields)
    requires field * 8 + DELIMITED < U64_VALUES && |bytes| < U64_VALUES && AreFields(ReadField(), rest)
    requires Taken(utf8, fields, field, bytes).Some?
    ensures AreFields(ReadField(), [DelimitedField(field, bytes)] + rest)
    ensures Folded(utf8, ReadField(), [DelimitedField(field, bytes)] + rest, fields)
      == Folded(utf8, ReadField(), rest, Taken(utf8, fields, field, bytes).value)
  {
    StretchReads(field, bytes);
    assert ([DelimitedField(field, bytes)] + rest)[1..] == rest;
  }

  ghost predicate Fits(message: Message) {
    |message.source| < U64_VALUES && |message.destination| < U64_VALUES && |message.namespace| < U64_VALUES
    && match message.payload
       case Text(text) => |text| < U64_VALUES
       case Binary(bytes) => |bytes| < U64_VALUES
  }

  /** A message's body reading back as the message. */
  lemma BodyReadsBack(utf8: Utf8, message: Message)
    requires message.Encoded(utf8) && Fits(message)
    ensures MessageIn(utf8, Body(message)) == Some(message)
  {
    FieldsAreLocal();
    PayloadFolds(utf8, message);
    NamesFold(utf8, message);
    MessageFolds(utf8, ReadField(), FieldsOf(message));
  }

  function Named(message: Message): Fields {
    NO_FIELDS.(source := Some(message.source), destination := Some(message.destination),
      namespace := Some(message.namespace))
  }

  function PayloadFields(message: Message): seq<Bytes> {
    match message.payload
    case Text(text) => [VarintField(PAYLOAD_TYPE, PAYLOAD_TEXT), DelimitedField(PAYLOAD_UTF8, text)]
    case Binary(bytes) => [VarintField(PAYLOAD_TYPE, PAYLOAD_BINARY), DelimitedField(PAYLOAD_BINARY_FIELD, bytes)]
  }

  lemma PayloadFolds(utf8: Utf8, message: Message)
    requires message.Encoded(utf8) && Fits(message)
    ensures AreFields(ReadField(), PayloadFields(message))
    ensures Folded(utf8, ReadField(), PayloadFields(message), Named(message)).Some?
    ensures MessageOf(Folded(utf8, ReadField(), PayloadFields(message), Named(message)).value) == Some(message)
  {
    match message.payload
    case Text(text) =>
      var last := [DelimitedField(PAYLOAD_UTF8, text)];
      var named := Named(message).(binaryNamed := false);
      FoldedStretch(utf8, PAYLOAD_UTF8, text, [], named);
      assert last == last + [];
      FoldedNumber(utf8, PAYLOAD_TYPE, PAYLOAD_TEXT, last, Named(message));
      assert PayloadFields(message) == [VarintField(PAYLOAD_TYPE, PAYLOAD_TEXT)] + last;
    case Binary(bytes) =>
      var last := [DelimitedField(PAYLOAD_BINARY_FIELD, bytes)];
      var named := Named(message).(binaryNamed := true);
      FoldedStretch(utf8, PAYLOAD_BINARY_FIELD, bytes, [], named);
      assert last == last + [];
      FoldedNumber(utf8, PAYLOAD_TYPE, PAYLOAD_BINARY, last, Named(message));
      assert PayloadFields(message) == [VarintField(PAYLOAD_TYPE, PAYLOAD_BINARY)] + last;
  }

  lemma NamesFold(utf8: Utf8, message: Message)
    requires message.Encoded(utf8) && Fits(message) && AreFields(ReadField(), PayloadFields(message))
    ensures AreFields(ReadField(), FieldsOf(message))
    ensures Folded(utf8, ReadField(), FieldsOf(message), NO_FIELDS)
      == Folded(utf8, ReadField(), PayloadFields(message), Named(message))
  {
    var payload := PayloadFields(message);
    var namespace := [DelimitedField(NAMESPACE, message.namespace)] + payload;
    var destination := [DelimitedField(DESTINATION_ID, message.destination)] + namespace;
    var source := [DelimitedField(SOURCE_ID, message.source)] + destination;
    var sourced := NO_FIELDS.(source := Some(message.source));
    var destined := sourced.(destination := Some(message.destination));
    FoldedStretch(utf8, NAMESPACE, message.namespace, payload, destined);
    FoldedStretch(utf8, DESTINATION_ID, message.destination, namespace, sourced);
    FoldedStretch(utf8, SOURCE_ID, message.source, destination, NO_FIELDS);
    FoldedNumber(utf8, PROTOCOL_VERSION, CASTV2_1_0, source, NO_FIELDS);
    assert FieldsOf(message) == [VarintField(PROTOCOL_VERSION, CASTV2_1_0)] + source;
  }

  // ---------------------------------------------------------------- frames

  function BigEndian(value: nat): (bytes: Bytes)
    requires value < U32_VALUES
    ensures |bytes| == LENGTH_BYTES
  {
    var lower, upper := value % 0x1_0000, value / 0x1_0000;
    [(upper / 256) as byte, (upper % 256) as byte, (lower / 256) as byte, (lower % 256) as byte]
  }

  function FromBigEndian(bytes: Bytes): (value: nat)
    requires |bytes| == LENGTH_BYTES
  {
    (bytes[0] as nat * 256 + bytes[1] as nat) * 0x1_0000 + (bytes[2] as nat * 256 + bytes[3] as nat)
  }

  lemma BigEndianReads(value: nat)
    requires value < U32_VALUES
    ensures FromBigEndian(BigEndian(value)) == value
  {
  }

  function Framed(message: Message): (framed: Bytes) {
    var length := |Body(message)|;
    BigEndian(if length < U32_VALUES then length else U32_VALUES - 1) + Body(message)
  }

  method PutVarintField(body: Bytes, field: nat, value: nat) returns (longer: Bytes)
    ensures longer == body + VarintField(field, value)
  {
    longer := PutVarint(body, field * 8 + VARINT);
    longer := PutVarint(longer, value);
  }

  method PutDelimitedField(body: Bytes, field: nat, bytes: Bytes) returns (longer: Bytes)
    ensures longer == body + DelimitedField(field, bytes)
  {
    longer := PutVarint(body, field * 8 + DELIMITED);
    longer := PutVarint(longer, |bytes|);
    longer := longer + bytes;
  }

  /** A message's fields put one after another behind their length. */
  method Frame(message: Message) returns (framed: Bytes)
    ensures framed == Framed(message)
  {
    var body := PutNames(message);
    body := PutPayload(body, message);
    StrungSix(FieldsOf(message));
    var length := |body|;
    framed := BigEndian(if length < U32_VALUES then length else U32_VALUES - 1) + body;
  }

  method PutNames(message: Message) returns (body: Bytes)
    ensures body == FieldsOf(message)[0] + FieldsOf(message)[1] + FieldsOf(message)[2] + FieldsOf(message)[3]
  {
    body := PutVarintField([], PROTOCOL_VERSION, CASTV2_1_0);
    assert body == FieldsOf(message)[0];
    body := PutDelimitedField(body, SOURCE_ID, message.source);
    body := PutDelimitedField(body, DESTINATION_ID, message.destination);
    body := PutDelimitedField(body, NAMESPACE, message.namespace);
  }

  method PutPayload(body: Bytes, message: Message) returns (longer: Bytes)
    ensures longer == body + FieldsOf(message)[4] + FieldsOf(message)[5]
  {
    match message.payload {
      case Text(text) =>
        longer := PutVarintField(body, PAYLOAD_TYPE, PAYLOAD_TEXT);
        longer := PutDelimitedField(longer, PAYLOAD_UTF8, text);
      case Binary(bytes) =>
        longer := PutVarintField(body, PAYLOAD_TYPE, PAYLOAD_BINARY);
        longer := PutDelimitedField(longer, PAYLOAD_BINARY_FIELD, bytes);
    }
  }

  lemma StrungSix(fields: seq<Bytes>)
    requires |fields| == 6
    ensures Strung(fields) == fields[0] + fields[1] + fields[2] + fields[3] + fields[4] + fields[5]
  {
    var one, two, three, four, five := fields[1..], fields[2..], fields[3..], fields[4..], fields[5..];
    assert one[1..] == two && two[1..] == three && three[1..] == four && four[1..] == five && five[1..] == [];
    assert Strung(five) == fields[5];
    assert Strung(four) == fields[4] + Strung(five);
    assert Strung(three) == fields[3] + Strung(four);
    assert Strung(two) == fields[2] + Strung(three);
    assert Strung(one) == fields[1] + Strung(two);
  }

  datatype Whole = Partly | Wholly(length: nat) | TooLong(bytes: nat)

  function WholeIn(held: Bytes): (whole: Whole)
    ensures whole.Wholly? ==> LENGTH_BYTES + whole.length <= |held| && whole.length <= MESSAGE_BYTES_AT_MOST
  {
    if |held| < LENGTH_BYTES then Partly
    else
      var length := FromBigEndian(held[..LENGTH_BYTES]);
      if length > MESSAGE_BYTES_AT_MOST then TooLong(length)
      else if |held| >= LENGTH_BYTES + length then Wholly(length)
      else Partly
  }

  /** What is made of bytes arriving: the messages that are whole, up to one that ends the link,
      what is left of the bytes, and whether the link goes on. */
  datatype Arrived = Arrived(messages: seq<Message>, left: Bytes, on: bool)

  type Ending = Message -> bool

  /** How a body is read as a message. */
  type BodyReader = Bytes -> Option<Message>

  function ReaderOf(utf8: Utf8): BodyReader {
    (body: Bytes) => MessageIn(utf8, body)
  }

  function Arriving(reading: BodyReader, ending: Ending, held: Bytes): (arrived: Arrived)
    decreases |held|
  {
    match WholeIn(held)
    case Partly => Arrived([], held, true)
    case TooLong(_) => Arrived([], held, false)
    case Wholly(length) =>
      var message := reading(held[LENGTH_BYTES..LENGTH_BYTES + length]);
      var left := held[LENGTH_BYTES + length..];
      if message.None? then Arriving(reading, ending, left)
      else if ending(message.value) then Arrived([message.value], left, false)
      else
        var rest := Arriving(reading, ending, left);
        rest.(messages := [message.value] + rest.messages)
  }

  /** The whole messages taken from the front of what is held. */
  method TakeWhole(reading: BodyReader, ending: Ending, bytes: Bytes) returns (arrived: Arrived)
    ensures arrived == Arriving(reading, ending, bytes)
  {
    var held, messages := bytes, [];
    JustMore(Arriving(reading, ending, bytes));
    while true
      invariant Arriving(reading, ending, bytes) == After(messages, Arriving(reading, ending, held))
      decreases |held|
    {
      var whole := WholeIn(held);
      if !whole.Wholly? {
        return Arrived(messages, held, whole.Partly?);
      }
      var end := LENGTH_BYTES + whole.length;
      var message, left := reading(held[LENGTH_BYTES..end]), held[end..];
      StepsAlike(reading, ending, held, whole.length);
      AfterThen(messages, message, ending, left, Arriving(reading, ending, left));
      held := left;
      if message.Some? {
        messages := messages + [message.value];
        if ending(message.value) {
          return Arrived(messages, held, false);
        }
      }
    }
  }

  /** Messages taken before what arrives. */
  function After(messages: seq<Message>, arrived: Arrived): Arrived {
    arrived.(messages := messages + arrived.messages)
  }

  lemma AfterThen(messages: seq<Message>, message: Option<Message>, ending: Ending, left: Bytes, rest: Arrived)
    ensures After(messages, Then(message, ending, left, rest))
      == if message.None? then After(messages, rest)
         else if ending(message.value) then Arrived(messages + [message.value], left, false)
         else After(messages + [message.value], rest)
  {
    if message.Some? {
      assert messages + ([message.value] + rest.messages) == messages + [message.value] + rest.messages;
    }
  }

  /** What has arrived does not depend on how much of it arrived at once. */
  lemma {:induction false} ArrivesOn(reading: BodyReader, ending: Ending, held: Bytes, more: Bytes)
    requires Arriving(reading, ending, held).on
    ensures
      var first := Arriving(reading, ending, held);
      Arriving(reading, ending, held + more) == After(first.messages, Arriving(reading, ending, first.left + more))
    decreases |held|
  {
    var whole := WholeIn(held);
    if whole.Wholly? {
      var end := LENGTH_BYTES + whole.length;
      var message, left := reading(held[LENGTH_BYTES..end]), held[end..];
      FrontAlike(held, more, end);
      StepsAlike(reading, ending, held, whole.length);
      StepsAlike(reading, ending, held + more, whole.length);
      ArrivesOn(reading, ending, left, more);
      var first := Arriving(reading, ending, left);
      ThenAfter(message, ending, left + more, left, first, Arriving(reading, ending, first.left + more));
    } else {
      JustMore(Arriving(reading, ending, held + more));
    }
  }

  lemma ThenAfter(message: Option<Message>, ending: Ending, longer: Bytes, left: Bytes, first: Arrived, rest: Arrived)
    requires message.Some? ==> !ending(message.value)
    ensures Then(message, ending, longer, After(first.messages, rest))
      == After(Then(message, ending, left, first).messages, rest)
  {
    if message.Some? {
      assert [message.value] + (first.messages + rest.messages) == [message.value] + first.messages + rest.messages;
    }
  }

  lemma JustMore(arrived: Arrived)
    ensures After([], arrived) == arrived
  {
  }

  /** What one body adds in front of what arrives after it. */
  function Then(message: Option<Message>, ending: Ending, left: Bytes, rest: Arrived): (arrived: Arrived) {
    if message.None? then rest
    else if ending(message.value) then Arrived([message.value], left, false)
    else rest.(messages := [message.value] + rest.messages)
  }

  lemma StepsAlike(reading: BodyReader, ending: Ending, held: Bytes, length: nat)
    requires WholeIn(held) == Wholly(length)
    ensures
      var left := held[LENGTH_BYTES + length..];
      Arriving(reading, ending, held)
        == Then(reading(held[LENGTH_BYTES..LENGTH_BYTES + length]), ending, left, Arriving(reading, ending, left))
  {
  }

  lemma FrontAlike(held: Bytes, more: Bytes, end: nat)
    requires LENGTH_BYTES <= end <= |held|
    ensures (held + more)[..LENGTH_BYTES] == held[..LENGTH_BYTES]
    ensures (held + more)[LENGTH_BYTES..end] == held[LENGTH_BYTES..end]
    ensures (held + more)[end..] == held[end..] + more
  {
  }

  function FramedEach(messages: seq<Message>): (framed: Bytes) {
    if messages == [] then [] else Framed(messages[0]) + FramedEach(messages[1..])
  }

  /** Messages framed one after another arrive as themselves, with what is left of a frame that
      is not whole yet. */
  lemma {:induction false} FramesArrive(utf8: Utf8, ending: Ending, messages: seq<Message>, left: Bytes)
    requires forall k | 0 <= k < |messages| ::
      messages[k].Encoded(utf8) && |Body(messages[k])| <= MESSAGE_BYTES_AT_MOST && !ending(messages[k])
    requires WholeIn(left).Partly?
    ensures Arriving(ReaderOf(utf8), ending, FramedEach(messages) + left) == Arrived(messages, left, true)
  {
    if messages == [] {
      assert FramedEach(messages) + left == left;
    } else {
      var message, rest := messages[0], FramedEach(messages[1..]) + left;
      assert FramedEach(messages) + left == Framed(message) + rest;
      FrameArrives(utf8, ending, message, rest);
      FramesArrive(utf8, ending, messages[1..], left);
    }
  }

  /** Part of one frame is no whole message. */
  lemma PartIsPartly(message: Message, cut: nat)
    requires |Body(message)| <= MESSAGE_BYTES_AT_MOST && cut < |Framed(message)|
    ensures WholeIn(Framed(message)[..cut]).Partly?
  {
    var body := Body(message);
    BodyHolds(message);
    BigEndianReads(|body|);
    if cut >= LENGTH_BYTES {
      assert Framed(message)[..cut][..LENGTH_BYTES] == BigEndian(|body|);
    }
  }

  /** Frames cut off anywhere are some whole frames and less than one more. */
  lemma {:induction false} CutAnywhere(messages: seq<Message>, cut: nat) returns (whole: nat, left: Bytes)
    requires forall k | 0 <= k < |messages| :: |Body(messages[k])| <= MESSAGE_BYTES_AT_MOST
    requires cut <= |FramedEach(messages)|
    ensures whole <= |messages| && FramedEach(messages)[..cut] == FramedEach(messages[..whole]) + left
    ensures WholeIn(left).Partly?
    ensures left != [] ==> whole < |messages| && left <= Framed(messages[whole])
    decreases |messages|
  {
    if messages == [] {
      whole, left := 0, [];
    } else if cut < |Framed(messages[0])| {
      whole, left := 0, Framed(messages[0])[..cut];
      PartIsPartly(messages[0], cut);
      assert messages[..0] == [];
    } else {
      var rest: nat := cut - |Framed(messages[0])|;
      var more;
      more, left := CutAnywhere(messages[1..], rest);
      whole := more + 1;
      assert messages[..whole][0] == messages[0] && messages[..whole][1..] == messages[1..][..more];
      CutPast(Framed(messages[0]), FramedEach(messages[1..]), rest, FramedEach(messages[1..][..more]), left);
    }
  }

  lemma CutPast(first: Bytes, others: Bytes, rest: nat, whole: Bytes, left: Bytes)
    requires rest <= |others| && others[..rest] == whole + left
    ensures (first + others)[..|first| + rest] == first + whole + left
  {
    assert (first + others)[..|first| + rest] == first + others[..rest];
  }

  lemma FrameArrives(utf8: Utf8, ending: Ending, message: Message, rest: Bytes)
    requires message.Encoded(utf8) && |Body(message)| <= MESSAGE_BYTES_AT_MOST && !ending(message)
    ensures Arriving(ReaderOf(utf8), ending, Framed(message) + rest)
      == Arriving(ReaderOf(utf8), ending, rest).(
         messages := [message] + Arriving(ReaderOf(utf8), ending, rest).messages)
  {
    var held, body := Framed(message) + rest, Body(message);
    BodyHolds(message);
    BodyReadsBack(utf8, message);
    BigEndianReads(|body|);
    assert held[..LENGTH_BYTES] == BigEndian(|body|);
    assert held[LENGTH_BYTES..LENGTH_BYTES + |body|] == body;
    assert held[LENGTH_BYTES + |body|..] == rest;
    OneArrives(ReaderOf(utf8), ending, held, |body|, message);
  }

  lemma OneArrives(reading: BodyReader, ending: Ending, held: Bytes, length: nat, message: Message)
    requires WholeIn(held) == Wholly(length) && !ending(message)
    requires reading(held[LENGTH_BYTES..LENGTH_BYTES + length]) == Some(message)
    ensures
      var rest := Arriving(reading, ending, held[LENGTH_BYTES + length..]);
      Arriving(reading, ending, held) == rest.(messages := [message] + rest.messages)
  {
  }

  lemma {:induction false} StrungHolds(fields: seq<Bytes>, k: nat)
    requires k < |fields|
    ensures |fields[k]| <= |Strung(fields)|
  {
    if k > 0 {
      StrungHolds(fields[1..], k - 1);
    }
  }

  lemma BodyHolds(message: Message)
    requires |Body(message)| < U64_VALUES
    ensures Fits(message)
  {
    forall k | 0 <= k < |FieldsOf(message)| ensures |FieldsOf(message)[k]| <= |Body(message)| {
      StrungHolds(FieldsOf(message), k);
    }
    assert FieldsOf(message)[1] == DelimitedField(SOURCE_ID, message.source);
    assert FieldsOf(message)[2] == DelimitedField(DESTINATION_ID, message.destination);
    assert FieldsOf(message)[3] == DelimitedField(NAMESPACE, message.namespace);
    assert FieldsOf(message)[5] == PayloadFields(message)[1];
  }

  // ---------------------------------------------------------------- the carrier's buffer

  class Carried {
    const reading: BodyReader
    const ending: Ending
    var held: Bytes
    var taken: seq<Message>
    var on: bool
    ghost var heard: Bytes

    /** What is held and what was taken is what everything heard comes to. */
    ghost predicate Valid()
      reads this
    {
      on ==> Arriving(reading, ending, heard) == Arrived(taken, held, true)
    }

    constructor (utf8: Utf8, ending: Ending)
      ensures Valid() && heard == [] && taken == [] && on && this.reading == ReaderOf(utf8) && this.ending == ending
    {
      this.reading, this.ending := ReaderOf(utf8), ending;
      this.held, this.taken, this.on, this.heard := [], [], true, [];
    }

    /** However many bytes are read at once, the messages taken are those that are whole. */
    method Hear(bytes: Bytes)
      requires Valid() && on
      modifies this
      ensures Valid() && heard == old(heard) + bytes
      ensures Arriving(reading, ending, heard) == Arrived(taken, held, on)
    {
      ArrivesOn(reading, ending, heard, bytes);
      var arrived := TakeWhole(reading, ending, held + bytes);
      held, taken, on := arrived.left, taken + arrived.messages, arrived.on;
      heard := heard + bytes;
    }
  }

  /** Bytes read at one time after another. */
  function AllOf(pieces: seq<Bytes>): (bytes: Bytes)
    decreases |pieces|
  {
    if pieces == [] then [] else AllOf(pieces[..|pieces| - 1]) + pieces[|pieces| - 1]
  }

  lemma {:induction false} SomeOf(pieces: seq<Bytes>, n: nat)
    requires n <= |pieces|
    ensures AllOf(pieces[..n]) <= AllOf(pieces)
    decreases |pieces|
  {
    if n == |pieces| {
      assert pieces[..n] == pieces;
    } else {
      SomeOf(pieces[..|pieces| - 1], n);
      assert pieces[..|pieces| - 1][..n] == pieces[..n];
    }
  }

  lemma OneMoreOf(pieces: seq<Bytes>, n: nat)
    requires n < |pieces|
    ensures AllOf(pieces[..n + 1]) == AllOf(pieces[..n]) + pieces[n] <= AllOf(pieces)
  {
    assert pieces[..n + 1][..n] == pieces[..n];
    SomeOf(pieces, n + 1);
  }

  ghost predicate Carries(utf8: Utf8, ending: Ending, messages: seq<Message>) {
    forall k | 0 <= k < |messages| ::
      messages[k].Encoded(utf8) && |Body(messages[k])| <= MESSAGE_BYTES_AT_MOST && !ending(messages[k])
  }

  /** A stream of frames that has come so far has delivered its whole messages, and is still on. */
  lemma FramesSoFar(utf8: Utf8, ending: Ending, messages: seq<Message>, cut: nat) returns (whole: nat, left: Bytes)
    requires Carries(utf8, ending, messages) && cut <= |FramedEach(messages)|
    ensures whole <= |messages| && FramedEach(messages)[..cut] == FramedEach(messages[..whole]) + left
    ensures WholeIn(left).Partly? && (left != [] ==> whole < |messages| && left <= Framed(messages[whole]))
    ensures Arriving(ReaderOf(utf8), ending, FramedEach(messages)[..cut]) == Arrived(messages[..whole], left, true)
  {
    whole, left := CutAnywhere(messages, cut);
    FramesArrive(utf8, ending, messages[..whole], left);
  }

  /** What so much of a stream of frames delivers: its whole messages, and the start of the next. */
  ghost predicate Delivers(messages: seq<Message>, heard: Bytes, arrived: Arrived) {
    && arrived.on && arrived.messages <= messages
    && heard == FramedEach(arrived.messages) + arrived.left && WholeIn(arrived.left).Partly?
    && (arrived.left != [] ==>
          |arrived.messages| < |messages| && arrived.left <= Framed(messages[|arrived.messages|]))
  }

  lemma HeardDelivers(utf8: Utf8, ending: Ending, messages: seq<Message>, heard: Bytes, arrived: Arrived)
    requires Carries(utf8, ending, messages) && heard <= FramedEach(messages)
    requires arrived == Arriving(ReaderOf(utf8), ending, heard)
    ensures Delivers(messages, heard, arrived)
  {
    var whole, left := FramesSoFar(utf8, ending, messages, |heard|);
    assert heard == FramedEach(messages)[..|heard|];
  }

  /** However much of a stream of frames has come, and in whatever pieces it was read, the
      messages taken are those whose frames have come whole, in order, and what is held is the
      start of the next. */
  method HearInPieces(
    utf8: Utf8, ending: Ending, pieces: seq<Bytes>, ghost messages: seq<Message>) returns (carried: Carried)
    requires Carries(utf8, ending, messages) && AllOf(pieces) <= FramedEach(messages)
    ensures Delivers(messages, AllOf(pieces), Arrived(carried.taken, carried.held, carried.on))
  {
    carried := new Carried(utf8, ending);
    for k := 0 to |pieces|
      invariant carried.Valid() && fresh(carried)
      invariant carried.reading == ReaderOf(utf8) && carried.ending == ending
      invariant carried.heard == AllOf(pieces[..k])
      invariant Delivers(messages, carried.heard, Arrived(carried.taken, carried.held, carried.on))
    {
      carried.Hear(pieces[k]);
      OneMoreOf(pieces, k);
      HeardDelivers(utf8, ending, messages, carried.heard, Arrived(carried.taken, carried.held, carried.on));
    }
    assert pieces[..|pieces|] == pieces;
  }
}
