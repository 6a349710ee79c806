/** What is kept of an analysis, field after field, and read back again: nothing short of all of it
    reads back, and the oldest of those kept go first where they are too many. */
module Keeping {
  import opened Octets
  import opened Places
  import opened Wrappers

  const U32_BYTES: nat := 4
  const U32_VALUES: nat := 0x1_0000_0000

  /** How a part of a kept form is laid out: bytes that are always the same, a number of so many
      bytes, a byte that is nothing or not, bytes after their number, something that may not be
      there, so many of the same after their number, one thing after another, or something given
      up where it means nothing. */
  datatype Shape =
    | Fixed(bytes: Bytes)
    | Number(width: nat)
    | Flag
    | Counted
    | Maybe(shape: Shape)
    | Each(width: nat, least: nat, item: Shape)
    | Both(one: Shape, other: Shape)
    | Checked(shape: Shape, accepts: Value -> bool)

  datatype Value =
    | Nothing
    | Figure(figure: nat)
    | Octets(octets: Bytes)
    | There(value: Value)
    | Items(items: seq<Value>)
    | Pair(one: Value, other: Value)

  // ---------------------------------------------------------------- numbers

  function Values(width: nat): (values: nat)
    ensures values > 0
  {
    if width == 0 then 1 else 256 * Values(width - 1)
  }

  /** A number in so many bytes, its lowest first. */
  function LittleEndian(width: nat, figure: nat): (bytes: Bytes)
    ensures |bytes| == width
  {
    if width == 0 then [] else [(figure % 256) as byte] + LittleEndian(width - 1, figure / 256)
  }

  function FromLittleEndian(bytes: Bytes): (figure: nat) {
    Worth(bytes)
  }

  function Worth(bytes: Bytes): (worth: nat) {
    if bytes == [] then 0 else bytes[0] as nat + 256 * Worth(bytes[1..])
  }

  lemma {:induction false} NumberReadsBack(width: nat, figure: nat)
    requires figure < Values(width)
    ensures FromLittleEndian(LittleEndian(width, figure)) == figure
    decreases width
  {
    if width > 0 {
      NumberReadsBack(width - 1, figure / 256);
      assert LittleEndian(width, figure)[1..] == LittleEndian(width - 1, figure / 256);
    }
  }

  // ---------------------------------------------------------------- writing

  /** A value that a shape can hold: of its own kind, and no longer than can be counted. */
  ghost predicate Holds(shape: Shape, value: Value)
    decreases shape, 0
  {
    match shape
    case Fixed(_) => value == Nothing
    case Number(width) => value.Figure? && value.figure < Values(width)
    case Flag => value.Figure? && value.figure < 2
    case Counted => value.Octets? && |value.octets| < U32_VALUES
    case Maybe(inner) => value == Nothing || (value.There? && Holds(inner, value.value))
    case Each(width, least, item) =>
      && value.Items? && |value.items| < Values(width) && HoldsEach(item, value.items)
      && |value.items| * least <= |WrittenEach(item, value.items)|
    case Both(one, other) => value.Pair? && Holds(one, value.one) && Holds(other, value.other)
    case Checked(inner, accepts) => Holds(inner, value) && accepts(value)
  }

  ghost predicate HoldsEach(item: Shape, items: seq<Value>)
    decreases item, |items| + 1
  {
    items == [] || (Holds(item, items[0]) && HoldsEach(item, items[1..]))
  }

  function Written(shape: Shape, value: Value): (written: Bytes)
    decreases shape, 0
  {
    match shape
    case Fixed(bytes) => bytes
    case Number(width) => LittleEndian(width, if value.Figure? then value.figure else 0)
    case Flag => LittleEndian(1, if value.Figure? then value.figure else 0)
    case Counted =>
      var octets := if value.Octets? then value.octets else [];
      LittleEndian(U32_BYTES, |octets|) + octets
    case Maybe(inner) => if value.There? then [1] + Written(inner, value.value) else [0]
    case Each(width, _, item) =>
      var items := if value.Items? then value.items else [];
      LittleEndian(width, |items|) + WrittenEach(item, items)
    case Both(one, other) =>
      if value.Pair? then Written(one, value.one) + Written(other, value.other) else []
    case Checked(inner, _) => Written(inner, value)
  }

  function WrittenEach(item: Shape, items: seq<Value>): (written: Bytes)
    decreases item, |items| + 1
  {
    if items == [] then [] else Written(item, items[0]) + WrittenEach(item, items[1..])
  }

  // ---------------------------------------------------------------- reading

  /** What was read and what is left to read. */
  type Taken<T> = Option<(T, Bytes)>

  function TakenOf(bytes: Bytes, count: nat): (taken: Taken<Bytes>)
    ensures taken.Some? ==> bytes == taken.value.0 + taken.value.1 && |taken.value.0| == count
  {
    if count > |bytes| then None else Some((bytes[..count], bytes[count..]))
  }

  function Read(shape: Shape, bytes: Bytes): (read: Taken<Value>)
    ensures read.Some? ==> |read.value.1| <= |bytes|
    decreases shape, 0
  {
    match shape
    case Fixed(expected) =>
      var taken := TakenOf(bytes, |expected|);
      if taken.None? || taken.value.0 != expected then None else Some((Nothing, taken.value.1))
    case Number(width) =>
      var taken := TakenOf(bytes, width);
      if taken.None? then None else Some((Figure(FromLittleEndian(taken.value.0)), taken.value.1))
    case Flag =>
      if bytes == [] then None else Some((Figure(if bytes[0] == 0 then 0 else 1), bytes[1..]))
    case Counted =>
      var count := TakenOf(bytes, U32_BYTES);
      if count.None? then None
      else
        var octets := TakenOf(count.value.1, FromLittleEndian(count.value.0));
        if octets.None? then None else Some((Octets(octets.value.0), octets.value.1))
    case Maybe(inner) =>
      if bytes == [] || bytes[0] > 1 then None
      else if bytes[0] == 0 then Some((Nothing, bytes[1..]))
      else
        var there := Read(inner, bytes[1..]);
        if there.None? then None else Some((There(there.value.0), there.value.1))
    case Each(width, least, item) =>
      var count := TakenOf(bytes, width);
      if count.None? || FromLittleEndian(count.value.0) * least > |count.value.1| then None
      else
        var items := ReadEach(item, FromLittleEndian(count.value.0), count.value.1);
        if items.None? then None else Some((Items(items.value.0), items.value.1))
    case Both(one, other) =>
      var first := Read(one, bytes);
      if first.None? then None
      else
        var second := Read(other, first.value.1);
        if second.None? then None else Some((Pair(first.value.0, second.value.0), second.value.1))
    case Checked(inner, accepts) =>
      var held := Read(inner, bytes);
      if held.None? || !accepts(held.value.0) then None else held
  }

  function ReadEach(item: Shape, many: nat, bytes: Bytes): (read: Taken<seq<Value>>)
    ensures read.Some? ==> |read.value.1| <= |bytes| && |read.value.0| == many
    decreases item, many + 1
  {
    if many == 0 then Some(([], bytes))
    else
      var first := Read(item, bytes);
      if first.None? then None
      else
        var rest := ReadEach(item, many - 1, first.value.1);
        if rest.None? then None else Some(([first.value.0] + rest.value.0, rest.value.1))
  }

  /** All of it, and nothing after it. */
  function ReadWhole(shape: Shape, bytes: Bytes): (value: Option<Value>) {
    var read := Read(shape, bytes);
    if read.Some? && read.value.1 == [] then Some(read.value.0) else None
  }

  // ---------------------------------------------------------------- there and back

  lemma TakenFromFront(front: Bytes, rest: Bytes)
    ensures TakenOf(front + rest, |front|) == Some((front, rest))
  {
  }

  /** Whatever is laid out as a shape says reads back, with whatever is after it left. */
  lemma {:induction false} ReadsBack(shape: Shape, value: Value, rest: Bytes)
    requires Holds(shape, value)
    ensures Read(shape, Written(shape, value) + rest) == Some((value, rest))
    decreases shape, 0
  {
    match shape
    case Fixed(expected) =>
      TakenFromFront(expected, rest);
    case Number(width) =>
      TakenFromFront(LittleEndian(width, value.figure), rest);
      NumberReadsBack(width, value.figure);
    case Flag =>
      assert ([value.figure as byte] + rest)[1..] == rest;
    case Counted =>
      CountedReadsBack(value.octets, rest);
    case Maybe(inner) =>
      if value.There? {
        assert ([1] + Written(inner, value.value) + rest)[1..] == Written(inner, value.value) + rest;
        ReadsBack(inner, value.value, rest);
      } else {
        assert ([0] + rest)[1..] == rest;
      }
    case Each(width, least, item) =>
      var count, written := LittleEndian(width, |value.items|), WrittenEach(item, value.items);
      assert count + written + rest == count + (written + rest);
      TakenFromFront(count, written + rest);
      NumberReadsBack(width, |value.items|);
      EachReadsBack(item, value.items, rest);
    case Both(one, other) =>
      var first, second := Written(one, value.one), Written(other, value.other);
      assert first + second + rest == first + (second + rest);
      ReadsBack(one, value.one, second + rest);
      ReadsBack(other, value.other, rest);
    case Checked(inner, _) => ReadsBack(inner, value, rest);
  }

  lemma CountedReadsBack(octets: Bytes, rest: Bytes)
    requires |octets| < U32_VALUES
    ensures Read(Counted, Written(Counted, Octets(octets)) + rest) == Some((Octets(octets), rest))
  {
    var count := LittleEndian(U32_BYTES, |octets|);
    assert count + octets + rest == count + (octets + rest);
    TakenFromFront(count, octets + rest);
    FourBytes();
    NumberReadsBack(U32_BYTES, |octets|);
    TakenFromFront(octets, rest);
  }

  lemma FourBytes()
    ensures Values(U32_BYTES) == U32_VALUES
  {
    assert Values(1) == 256 && Values(2) == 256 * Values(1) && Values(3) == 256 * Values(2);
  }

  lemma {:induction false} EachReadsBack(item: Shape, items: seq<Value>, rest: Bytes)
    requires HoldsEach(item, items)
    ensures ReadEach(item, |items|, WrittenEach(item, items) + rest) == Some((items, rest))
    decreases item, |items| + 1
  {
    if items == [] {
      assert WrittenEach(item, items) + rest == rest;
    } else {
      var first, others := Written(item, items[0]), WrittenEach(item, items[1..]);
      assert first + others + rest == first + (others + rest);
      ReadsBack(item, items[0], others + rest);
      EachReadsBack(item, items[1..], rest);
      OneReads(item, items, WrittenEach(item, items) + rest, others + rest, rest);
    }
  }

  lemma OneReads(item: Shape, items: seq<Value>, bytes: Bytes, left: Bytes, rest: Bytes)
    requires items != [] && Read(item, bytes) == Some((items[0], left))
    requires ReadEach(item, |items| - 1, left) == Some((items[1..], rest))
    ensures ReadEach(item, |items|, bytes) == Some((items, rest))
  {
    assert [items[0]] + items[1..] == items;
  }

  /** What reads does not look at what is after it. */
  lemma {:induction false} MoreIsLeft(shape: Shape, bytes: Bytes, more: Bytes)
    requires Read(shape, bytes).Some?
    ensures var read := Read(shape, bytes).value; Read(shape, bytes + more) == Some((read.0, read.1 + more))
    decreases shape, 0
  {
    match shape
    case Fixed(expected) => TakenWithMore(bytes, more, |expected|);
    case Number(width) => TakenWithMore(bytes, more, width);
    case Flag => assert (bytes + more)[1..] == bytes[1..] + more;
    case Counted => MoreIsLeftCounted(bytes, more);
    case Maybe(inner) =>
      assert (bytes + more)[1..] == bytes[1..] + more;
      if bytes[0] == 1 {
        MoreIsLeft(inner, bytes[1..], more);
      }
    case Each(width, least, item) =>
      var count := TakenOf(bytes, width).value;
      MoreIsLeftOfEach(item, FromLittleEndian(count.0), count.1, more);
      EachWithMore(width, least, item, bytes, more);
    case Both(one, other) =>
      var first := Read(one, bytes).value;
      var second := Read(other, first.1).value;
      MoreIsLeft(one, bytes, more);
      MoreIsLeft(other, first.1, more);
      BothRead(one, other, bytes + more, (first.0, first.1 + more), (second.0, second.1 + more));
    case Checked(inner, _) => MoreIsLeft(inner, bytes, more);
  }

  lemma EachWithMore(width: nat, least: nat, item: Shape, bytes: Bytes, more: Bytes)
    requires Read(Each(width, least, item), bytes).Some?
    requires var count := TakenOf(bytes, width).value;
      var many := FromLittleEndian(count.0);
      && ReadEach(item, many, count.1).Some?
      && ReadEach(item, many, count.1 + more)
         == Some((ReadEach(item, many, count.1).value.0, ReadEach(item, many, count.1).value.1 + more))
    ensures var read := Read(Each(width, least, item), bytes).value;
      Read(Each(width, least, item), bytes + more) == Some((read.0, read.1 + more))
  {
    TakenWithMore(bytes, more, width);
  }

  lemma BothRead(one: Shape, other: Shape, bytes: Bytes, first: (Value, Bytes), second: (Value, Bytes))
    requires Read(one, bytes) == Some(first) && Read(other, first.1) == Some(second)
    ensures Read(Both(one, other), bytes) == Some((Pair(first.0, second.0), second.1))
  {
  }

  lemma MoreIsLeftCounted(bytes: Bytes, more: Bytes)
    requires Read(Counted, bytes).Some?
    ensures var read := Read(Counted, bytes).value; Read(Counted, bytes + more) == Some((read.0, read.1 + more))
  {
    TakenWithMore(bytes, more, U32_BYTES);
    var count := TakenOf(bytes, U32_BYTES).value;
    TakenWithMore(count.1, more, FromLittleEndian(count.0));
  }

  lemma TakenWithMore(bytes: Bytes, more: Bytes, count: nat)
    requires count <= |bytes|
    ensures TakenOf(bytes + more, count) == Some((bytes[..count], bytes[count..] + more))
  {
    assert (bytes + more)[..count] == bytes[..count];
    assert (bytes + more)[count..] == bytes[count..] + more;
  }

  lemma {:induction false} MoreIsLeftOfEach(item: Shape, many: nat, bytes: Bytes, more: Bytes)
    requires ReadEach(item, many, bytes).Some?
    ensures var read := ReadEach(item, many, bytes).value;
      ReadEach(item, many, bytes + more) == Some((read.0, read.1 + more))
    decreases item, many + 1
  {
    if many > 0 {
      MoreIsLeft(item, bytes, more);
      MoreIsLeftOfEach(item, many - 1, Read(item, bytes).value.1, more);
    }
  }

  /** All that was written reads back as itself, and nothing short of it reads back at all. */
  lemma OnlyTheWholeReadsBack(shape: Shape, value: Value, cut: nat)
    requires Holds(shape, value) && cut <= |Written(shape, value)|
    ensures ReadWhole(shape, Written(shape, value)[..cut])
      == if cut == |Written(shape, value)| then Some(value) else None
  {
    var written := Written(shape, value);
    ReadsBack(shape, value, []);
    assert written + [] == written;
    if cut == |written| {
      assert written[..cut] == written;
    } else {
      var front, back := written[..cut], written[cut..];
      assert front + back == written;
      if Read(shape, front).Some? {
        MoreIsLeft(shape, front, back);
      }
    }
  }

  // ---------------------------------------------------------------- field by field

  /** The fewest bytes a shape is written in. */
  function LeastOf(shape: Shape): (least: nat) {
    match shape
    case Fixed(bytes) => |bytes|
    case Number(width) => width
    case Flag => 1
    case Counted => U32_BYTES
    case Maybe(_) => 1
    case Each(width, _, _) => width
    case Both(one, other) => LeastOf(one) + LeastOf(other)
    case Checked(inner, _) => LeastOf(inner)
  }

  lemma {:induction false} WrittenAtLeast(shape: Shape, value: Value)
    requires Fits(shape, value)
    ensures |Written(shape, value)| >= LeastOf(shape)
    decreases shape
  {
    match shape
    case Both(one, other) =>
      WrittenAtLeast(one, value.one);
      WrittenAtLeast(other, value.other);
    case Checked(inner, _) => WrittenAtLeast(inner, value);
    case _ =>
  }

  /** Each field of its own kind, and no longer than can be counted. */
  ghost predicate Fits(shape: Shape, value: Value)
    decreases shape, 0
  {
    match shape
    case Maybe(inner) => value == Nothing || (value.There? && Fits(inner, value.value))
    case Each(width, _, item) => value.Items? && |value.items| < Values(width) && FitsEach(item, value.items)
    case Both(one, other) => value.Pair? && Fits(one, value.one) && Fits(other, value.other)
    case Checked(inner, accepts) => Fits(inner, value) && accepts(value)
    case _ => Holds(shape, value)
  }

  ghost predicate FitsEach(item: Shape, items: seq<Value>)
    decreases item, |items| + 1
  {
    items == [] || (Fits(item, items[0]) && FitsEach(item, items[1..]))
  }

  /** No count is held to more bytes than its items take at least. */
  predicate WellLaid(shape: Shape) {
    match shape
    case Maybe(inner) => WellLaid(inner)
    case Each(_, least, item) => least <= LeastOf(item) && WellLaid(item)
    case Both(one, other) => WellLaid(one) && WellLaid(other)
    case Checked(inner, _) => WellLaid(inner)
    case _ => true
  }

  /** Whatever fits field by field is held where no count is held to more than it should be. */
  lemma {:induction false} FitsHolds(shape: Shape, value: Value)
    requires WellLaid(shape) && Fits(shape, value)
    ensures Holds(shape, value)
    decreases shape, 0
  {
    match shape
    case Maybe(inner) =>
      if value.There? {
        FitsHolds(inner, value.value);
      }
    case Each(_, least, item) => FitsHoldsEach(item, value.items, least);
    case Both(one, other) =>
      FitsHolds(one, value.one);
      FitsHolds(other, value.other);
    case Checked(inner, _) => FitsHolds(inner, value);
    case _ =>
  }

  lemma {:induction false} FitsHoldsEach(item: Shape, items: seq<Value>, least: nat)
    requires WellLaid(item) && FitsEach(item, items) && least <= LeastOf(item)
    ensures HoldsEach(item, items) && |items| * least <= |WrittenEach(item, items)|
    decreases item, |items| + 1
  {
    if items != [] {
      FitsHolds(item, items[0]);
      WrittenAtLeast(item, items[0]);
      FitsHoldsEach(item, items[1..], least);
      Distributes(|items| - 1, 1, least);
    }
  }

  /** What is read fits, and is written in as many bytes as it was read from. */
  lemma {:induction false} ReadFits(shape: Shape, bytes: Bytes)
    requires Read(shape, bytes).Some?
    ensures var read := Read(shape, bytes).value;
      Fits(shape, read.0) && |Written(shape, read.0)| + |read.1| == |bytes|
    decreases shape, 0
  {
    match shape
    case Fixed(_) =>
    case Number(width) => FigureInside(bytes[..width]);
    case Flag =>
    case Counted =>
      FourBytes();
      FigureInside(bytes[..U32_BYTES]);
    case Maybe(inner) =>
      if bytes[0] == 1 {
        ReadFits(inner, bytes[1..]);
      }
    case Each(width, _, item) =>
      FigureInside(bytes[..width]);
      ReadFitsEach(item, FromLittleEndian(bytes[..width]), bytes[width..]);
    case Both(one, other) =>
      ReadFits(one, bytes);
      ReadFits(other, Read(one, bytes).value.1);
    case Checked(inner, _) => ReadFits(inner, bytes);
  }

  lemma {:induction false} ReadFitsEach(item: Shape, many: nat, bytes: Bytes)
    requires ReadEach(item, many, bytes).Some?
    ensures var read := ReadEach(item, many, bytes).value;
      FitsEach(item, read.0) && |WrittenEach(item, read.0)| + |read.1| == |bytes|
    decreases item, many + 1
  {
    if many > 0 {
      ReadFits(item, bytes);
      var first := Read(item, bytes).value;
      ReadFitsEach(item, many - 1, first.1);
      var rest := ReadEach(item, many - 1, first.1).value;
      assert ([first.0] + rest.0)[1..] == rest.0;
    }
  }

  lemma {:induction false} FigureInside(bytes: Bytes)
    ensures FromLittleEndian(bytes) < Values(|bytes|)
    decreases |bytes|
  {
    if bytes != [] {
      FigureInside(bytes[1..]);
    }
  }

  /** Under a layout whose counts are held to no more than they should be, what fits reads back and
      nothing short of it does; and what reads at all, from any bytes, is just what fits. */
  lemma WhatFitsReadsBack(shape: Shape, value: Value)
    requires WellLaid(shape)
    ensures Fits(shape, value) ==> forall cut | 0 <= cut <= |Written(shape, value)| ::
      ReadWhole(shape, Written(shape, value)[..cut])
      == if cut == |Written(shape, value)| then Some(value) else None
    ensures Fits(shape, value) <==> exists bytes :: ReadWhole(shape, bytes) == Some(value)
  {
    var written := Written(shape, value);
    if Fits(shape, value) {
      FitsHolds(shape, value);
      forall cut | 0 <= cut <= |written|
        ensures ReadWhole(shape, written[..cut]) == if cut == |written| then Some(value) else None
      {
        OnlyTheWholeReadsBack(shape, value, cut);
      }
      assert written[..|written|] == written;
      assert ReadWhole(shape, written) == Some(value);
    }
    if bytes :| ReadWhole(shape, bytes) == Some(value) {
      ReadFits(shape, bytes);
    }
  }

  // ---------------------------------------------------------------- an analysis

  function InOrder(shapes: seq<Shape>): (shape: Shape)
    requires shapes != []
  {
    if |shapes| == 1 then shapes[0] else Both(shapes[0], InOrder(shapes[1..]))
  }

  /** One of so many fields in order. */
  function Field(value: Value, nth: nat, fields: nat): (field: Value)
    requires nth < fields
    decreases fields
  {
    if fields == 1 then value
    else if !value.Pair? then Nothing
    else if nth == 0 then value.one
    else Field(value.other, nth - 1, fields - 1)
  }

  function FigureOf(value: Value): (figure: nat) {
    if value.Figure? then value.figure else 0
  }

  const MAGIC: Bytes := [82, 83, 65, 78]
  const WRITTEN_AS: Bytes := [7]
  const JUDGED_UNDER: nat := 7
  const ENVELOPE_LANES: nat := 8
  const REACH_BYTES: nat := 12
  const SPECTROGRAM_ROWS: nat := 256
  const MIN_HZ: nat := 8_000
  const MAX_HZ: nat := 768_000
  const FORMATS: set<nat> := {16, 24, 32, 0xf3}

  /** What is known outside what is kept: the names of codecs, codings and tells, the bytes that are
      peaks of bands, and whether a spectrum of so many levels, so far apart, is one that a rate
      reaches. */
  datatype Known = Known(
    codecs: set<Bytes>, codings: set<Bytes>, tells: set<Bytes>, bandPeaks: Bytes -> bool,
    reached: (nat, nat, nat) -> bool)

  function Named(names: set<Bytes>): (shape: Shape) {
    Checked(Counted, (value: Value) => value.Octets? && value.octets in names)
  }

  predicate UrlSafe(letter: byte) {
    || 'a' as int <= letter as int <= 'z' as int || 'A' as int <= letter as int <= 'Z' as int
    || '0' as int <= letter as int <= '9' as int || letter as int == '-' as int || letter as int == '_' as int
  }

  /** A fingerprint is some text that could stand in an address. */
  predicate IsPrint(value: Value) {
    var encoded := Field(value, 0, 2);
    encoded.Octets? && encoded.octets != [] && forall k | 0 <= k < |encoded.octets| :: UrlSafe(encoded.octets[k])
  }

  /** There are lanes, no more than there can be, and frames only where a column is of some. */
  predicate CouldBeDrawn(value: Value) {
    var lanes, framesPerColumn, frames :=
      FigureOf(Field(value, 0, 3)), FigureOf(Field(value, 1, 3)), FigureOf(Field(value, 2, 3));
    1 <= lanes <= ENVELOPE_LANES && (framesPerColumn == 0 ==> frames == 0)
  }

  predicate IsWhole(value: Value) {
    var columns, levels := FigureOf(Field(value, 0, 5)), Field(value, 4, 5);
    levels.Octets? && |levels.octets| == columns * SPECTROGRAM_ROWS
  }

  /** A spectrum goes no further than the rate it was heard at. */
  predicate Reached(known: Known, value: Value) {
    var rate, spectrum := FigureOf(Field(Field(value, 0, 5), 1, 6)), Field(value, 3, 5);
    var levels := Field(spectrum, 1, 4);
    known.reached(FigureOf(Field(spectrum, 0, 4)), if levels.Items? then |levels.items| else 0, rate)
  }

  function Examined(known: Known): (fields: seq<Shape>) {
    [Named(known.codecs), Checked(Number(4), value => MIN_HZ <= FigureOf(value) <= MAX_HZ), Number(1),
     Checked(Number(1), value => FigureOf(value) in FORMATS), Maybe(Number(1)), Number(8)]
  }

  const LEVELS: seq<Shape> :=
    [Number(4), Number(4), Number(4), Number(8), Number(8), Maybe(Number(1)), Maybe(Both(Flag, Maybe(Number(4))))]

  const LOUDNESS: seq<Shape> :=
    [Maybe(Number(4)), Maybe(Number(4)), Maybe(Number(4)), Maybe(Number(4)), Maybe(Number(1)), Number(4)]

  const SPECTRUM: seq<Shape> := [Number(4), Each(4, 4, Number(4)), Each(4, 4, Number(4)), Number(8)]

  function Steps(known: Known): (fields: seq<Shape>) {
    [Named(known.codings), Named(known.tells), Number(4), Number(4), Number(4), Number(8)]
  }

  function Five(one: Shape, two: Shape, three: Shape, four: Shape, five: Shape): (fields: seq<Shape>) {
    [one, two, three, four, five]
  }

  function Study(known: Known): (fields: seq<Shape>) {
    Five(InOrder(Examined(known)), InOrder(LEVELS), InOrder(LOUDNESS), InOrder(SPECTRUM),
         Each(1, 0, InOrder(Steps(known))))
  }

  const DRAWN: seq<Shape> := [Number(1), Number(8), Number(8)]

  const REACH: seq<Shape> := [Number(4), Number(4), Number(4)]

  function Reaches(lanes: nat): (fields: seq<Shape>)
    ensures |fields| == lanes
  {
    seq(lanes, _ => InOrder(REACH))
  }

  const COLUMN: Shape := InOrder(Reaches(ENVELOPE_LANES))

  const SPECTROGRAM: seq<Shape> := [Number(4), Number(4), Number(8), Number(8), Counted]

  /** What comes before everything else, so that nothing else and nothing older is read. */
  function Stamped(shape: Shape): (stamped: Shape) {
    Both(Fixed(MAGIC), Both(Fixed(WRITTEN_AS), Both(Fixed(LittleEndian(4, JUDGED_UNDER)), shape)))
  }

  function Printed(): (shape: Shape) {
    Maybe(Checked(Both(Counted, Number(8)), IsPrint))
  }

  function Peaked(known: Known): (shape: Shape) {
    Checked(Counted, (value: Value) => value.Octets? && known.bandPeaks(value.octets))
  }

  /** An envelope's head and then its columns, before a spectrogram. */
  function Pictured(): (shape: Shape) {
    Both(Checked(InOrder(DRAWN), CouldBeDrawn),
         Both(Each(4, ENVELOPE_LANES * REACH_BYTES, COLUMN), Checked(InOrder(SPECTROGRAM), IsWhole)))
  }

  /** How an analysis is laid out, and what in it is given up. */
  function AnalysisShape(known: Known): (shape: Shape) {
    Stamped(Both(Checked(InOrder(Study(known)), value => Reached(known, value)),
                 Both(Printed(), Both(Peaked(known), Pictured()))))
  }

  lemma {:induction false} WellLaidInOrder(shapes: seq<Shape>)
    requires shapes != [] && forall k | 0 <= k < |shapes| :: WellLaid(shapes[k])
    ensures WellLaid(InOrder(shapes))
    decreases |shapes|
  {
    if |shapes| > 1 {
      WellLaidInOrder(shapes[1..]);
    }
  }

  lemma {:induction false} LeastInOrder(shapes: seq<Shape>, least: nat)
    requires shapes != [] && forall k | 0 <= k < |shapes| :: LeastOf(shapes[k]) >= least
    ensures |shapes| * least <= LeastOf(InOrder(shapes))
    decreases |shapes|
  {
    if |shapes| > 1 {
      LeastInOrder(shapes[1..], least);
      Distributes(|shapes| - 1, 1, least);
    }
  }

  lemma ColumnWellLaid()
    ensures WellLaid(COLUMN) && LeastOf(COLUMN) >= ENVELOPE_LANES * REACH_BYTES
  {
    WellLaidInOrder(REACH);
    LeastInOrder(REACH, 4);
    WellLaidInOrder(Reaches(ENVELOPE_LANES));
    LeastInOrder(Reaches(ENVELOPE_LANES), REACH_BYTES);
  }

  lemma HeardWellLaid()
    ensures WellLaid(InOrder(LEVELS)) && WellLaid(InOrder(LOUDNESS)) && WellLaid(InOrder(SPECTRUM))
  {
    assert WellLaid(Both(Flag, Maybe(Number(4))));
    WellLaidInOrder(LEVELS);
    WellLaidInOrder(LOUDNESS);
    WellLaidInOrder(SPECTRUM);
  }

  lemma NamesWellLaid(known: Known)
    ensures WellLaid(InOrder(Examined(known))) && WellLaid(InOrder(Steps(known)))
  {
    WellLaidInOrder(Examined(known));
    WellLaidInOrder(Steps(known));
  }

  lemma FiveWellLaid(one: Shape, two: Shape, three: Shape, four: Shape, five: Shape)
    requires WellLaid(one) && WellLaid(two) && WellLaid(three) && WellLaid(four) && WellLaid(five)
    ensures WellLaid(InOrder(Five(one, two, three, four, five)))
  {
    WellLaidInOrder(Five(one, two, three, four, five));
  }

  lemma StudyWellLaid(known: Known)
    ensures WellLaid(InOrder(Study(known)))
  {
    HeardWellLaid();
    NamesWellLaid(known);
    FiveWellLaid(InOrder(Examined(known)), InOrder(LEVELS), InOrder(LOUDNESS), InOrder(SPECTRUM),
      Each(1, 0, InOrder(Steps(known))));
  }

  lemma PicturedWellLaid()
    ensures WellLaid(Pictured())
  {
    ColumnWellLaid();
    WellLaidInOrder(DRAWN);
    WellLaidInOrder(SPECTROGRAM);
    BothWellLaid(Each(4, ENVELOPE_LANES * REACH_BYTES, COLUMN), Checked(InOrder(SPECTROGRAM), IsWhole));
  }

  lemma BothWellLaid(one: Shape, other: Shape)
    requires WellLaid(one) && WellLaid(other)
    ensures WellLaid(Both(one, other))
  {
  }

  lemma StampedWellLaid(shape: Shape)
    requires WellLaid(shape)
    ensures WellLaid(Stamped(shape))
  {
    BothWellLaid(Fixed(LittleEndian(4, JUDGED_UNDER)), shape);
    BothWellLaid(Fixed(WRITTEN_AS), Both(Fixed(LittleEndian(4, JUDGED_UNDER)), shape));
  }

  lemma PrintedWellLaid()
    ensures WellLaid(Printed())
  {
    BothWellLaid(Counted, Number(8));
    assert WellLaid(Checked(Both(Counted, Number(8)), IsPrint));
  }

  lemma AnalysisWellLaid(known: Known)
    ensures WellLaid(AnalysisShape(known))
  {
    var study := Checked(InOrder(Study(known)), value => Reached(known, value));
    StudyWellLaid(known);
    PicturedWellLaid();
    PrintedWellLaid();
    BothWellLaid(Peaked(known), Pictured());
    BothWellLaid(Printed(), Both(Peaked(known), Pictured()));
    BothWellLaid(study, Both(Printed(), Both(Peaked(known), Pictured())));
    StampedWellLaid(Both(study, Both(Printed(), Both(Peaked(known), Pictured()))));
  }

  /** An analysis whose every field is of its own kind and means something reads back as it was
      written, and nothing short of it does; whatever else is read is no analysis at all. */
  lemma AnalysisReadsBack(known: Known, value: Value)
    ensures var shape := AnalysisShape(known);
      && (Fits(shape, value) ==> forall cut | 0 <= cut <= |Written(shape, value)| ::
            ReadWhole(shape, Written(shape, value)[..cut])
            == if cut == |Written(shape, value)| then Some(value) else None)
      && (Fits(shape, value) <==> exists bytes :: ReadWhole(shape, bytes) == Some(value))
  {
    AnalysisWellLaid(known);
    WhatFitsReadsBack(AnalysisShape(known), value);
  }

  // ---------------------------------------------------------------- reading as it goes

  /** A slice of what is left to read, shrunk as it is read. */
  class Reader {
    var left: Bytes

    constructor (bytes: Bytes)
      ensures left == bytes
    {
      left := bytes;
    }

    method Take(count: nat) returns (taken: Option<Bytes>)
      modifies this
      ensures Reads(TakenOf(old(left), count), taken, left)
    {
      if count > |left| {
        return None;
      }
      taken := Some(left[..count]);
      left := left[count..];
    }

    method Value(shape: Shape) returns (value: Option<Value>)
      modifies this
      ensures Reads(Read(shape, old(left)), value, left)
      decreases shape, 0
    {
      match shape {
        case Fixed(expected) =>
          var taken := Take(|expected|);
          value := if taken == Some(expected) then Some(Nothing) else None;
        case Number(width) =>
          var taken := Take(width);
          value := if taken.None? then None else Some(Figure(FromLittleEndian(taken.value)));
        case Flag =>
          var taken := Take(1);
          value := if taken.None? then None else Some(Figure(if taken.value[0] == 0 then 0 else 1));
        case Counted =>
          var count := Take(U32_BYTES);
          if count.None? {
            return None;
          }
          var octets := Take(FromLittleEndian(count.value));
          value := if octets.None? then None else Some(Octets(octets.value));
        case Maybe(inner) =>
          var there := Take(1);
          if there.None? || there.value[0] > 1 {
            return None;
          }
          if there.value[0] == 0 {
            return Some(Nothing);
          }
          var held := Value(inner);
          value := if held.None? then None else Some(There(held.value));
        case Each(width, least, item) =>
          var count := Take(width);
          if count.None? || FromLittleEndian(count.value) * least > |left| {
            return None;
          }
          var items := Many(item, FromLittleEndian(count.value));
          value := if items.None? then None else Some(Items(items.value));
        case Both(one, other) =>
          var first := Value(one);
          if first.None? {
            return None;
          }
          var second := Value(other);
          value := if second.None? then None else Some(Pair(first.value, second.value));
        case Checked(inner, accepts) =>
          var held := Value(inner);
          value := if held.None? || !accepts(held.value) then None else held;
      }
    }

    method Many(item: Shape, many: nat) returns (items: Option<seq<Value>>)
      modifies this
      ensures Reads(ReadEach(item, many, old(left)), items, left)
      decreases item, 1
    {
      var read: seq<Value> := [];
      ghost var from := left;
      OntoNothing(ReadEach(item, many, left));
      while |read| < many
        invariant |read| <= many
        invariant ReadEach(item, many, from) == After(read, ReadEach(item, many - |read|, left))
      {
        var one := Value(item);
        if one.None? {
          return None;
        }
        OneOnto(read, one.value, ReadEach(item, many - |read| - 1, left));
        read := read + [one.value];
      }
      assert read + [] == read;
      items := Some(read);
    }
  }

  /** What was read, where it reads, and what is left then. */
  ghost predicate Reads<T>(taken: Taken<T>, value: Option<T>, left: Bytes) {
    if taken.None? then value.None? else value == Some(taken.value.0) && left == taken.value.1
  }

  function After<T>(read: seq<T>, rest: Taken<seq<T>>): (after: Taken<seq<T>>) {
    if rest.None? then None else Some((read + rest.value.0, rest.value.1))
  }

  lemma OntoNothing<T>(rest: Taken<seq<T>>)
    ensures After([], rest) == rest
  {
    if rest.Some? {
      assert [] + rest.value.0 == rest.value.0;
    }
  }

  lemma OneOnto<T>(read: seq<T>, one: T, rest: Taken<seq<T>>)
    ensures After(read, After([one], rest)) == After(read + [one], rest)
  {
    if rest.Some? {
      assert read + ([one] + rest.value.0) == read + [one] + rest.value.0;
    }
  }

  // ---------------------------------------------------------------- trimming

  /** One analysis kept: when it was last read or written, how many bytes it is, and whether it can
      be removed. */
  datatype Kept = Kept(modified: int, size: nat, removable: bool)

  function SizeOf(kept: seq<Kept>): (size: nat) {
    if kept == [] then 0 else kept[0].size + SizeOf(kept[1..])
  }

  /** What is left of the first so many once those of them that can be removed are. */
  function LeftOf(kept: seq<Kept>, tried: nat): (size: nat)
    requires tried <= |kept|
  {
    if tried == 0 then SizeOf(kept)
    else if kept[0].removable then LeftOf(kept[1..], tried - 1)
    else kept[0].size + LeftOf(kept[1..], tried - 1)
  }

  lemma {:induction false} OneMoreTried(kept: seq<Kept>, tried: nat)
    requires tried < |kept|
    ensures LeftOf(kept, tried + 1) + (if kept[tried].removable then kept[tried].size else 0) == LeftOf(kept, tried)
    decreases tried
  {
    if tried > 0 {
      OneMoreTried(kept[1..], tried - 1);
    }
  }

  ghost predicate InAge(kept: seq<Kept>) {
    forall i, j | 0 <= i < j < |kept| :: kept[i].modified <= kept[j].modified
  }

  /** Those kept from the oldest to the newest. */
  method Sorted(kept: seq<Kept>) returns (sorted: seq<Kept>)
    ensures InAge(sorted) && multiset(sorted) == multiset(kept) && |sorted| == |kept|
  {
    sorted := [];
    for k := 0 to |kept|
      invariant InAge(sorted) && multiset(sorted) == multiset(kept[..k]) && |sorted| == k
    {
      assert kept[..k + 1] == kept[..k] + [kept[k]];
      sorted := Inserted(sorted, kept[k]);
    }
    assert kept[..|kept|] == kept;
  }

  method Inserted(sorted: seq<Kept>, one: Kept) returns (more: seq<Kept>)
    requires InAge(sorted)
    ensures InAge(more) && multiset(more) == multiset(sorted) + multiset{one} && |more| == |sorted| + 1
  {
    var at: nat := |sorted|;
    while at > 0 && sorted[at - 1].modified > one.modified
      invariant 0 <= at <= |sorted|
      invariant at < |sorted| ==> one.modified < sorted[at].modified
    {
      at := at - 1;
    }
    more := Between(sorted, one, at);
    OneBetween(sorted, one, at);
    AgesBetween(sorted, one, at);
  }

  function Between(sorted: seq<Kept>, one: Kept, at: nat): (more: seq<Kept>)
    requires at <= |sorted|
    ensures |more| == |sorted| + 1
    ensures forall k {:trigger more[k]} | 0 <= k < |more| ::
      more[k] == if k < at then sorted[k] else if k == at then one else sorted[k - 1]
  {
    sorted[..at] + [one] + sorted[at..]
  }

  lemma AgesBetween(sorted: seq<Kept>, one: Kept, at: nat)
    requires InAge(sorted) && at <= |sorted|
    requires at > 0 ==> sorted[at - 1].modified <= one.modified
    requires at < |sorted| ==> one.modified <= sorted[at].modified
    ensures InAge(Between(sorted, one, at))
  {
    var more := Between(sorted, one, at);
    forall k | 0 <= k < |more| - 1
      ensures more[k].modified <= more[k + 1].modified
    {
      assert k + 1 < at ==> sorted[k].modified <= sorted[k + 1].modified;
      assert k > at ==> sorted[k - 1].modified <= sorted[k].modified;
    }
    StepByStep(more);
  }

  lemma {:induction false} StepByStep(kept: seq<Kept>)
    requires forall k | 0 <= k < |kept| - 1 :: kept[k].modified <= kept[k + 1].modified
    ensures InAge(kept)
    decreases |kept|
  {
    if |kept| > 1 {
      var before := kept[..|kept| - 1];
      assert forall k | 0 <= k < |before| :: before[k] == kept[k];
      StepByStep(before);
      forall i, j | 0 <= i < j < |kept|
        ensures kept[i].modified <= kept[j].modified
      {
        if j == |kept| - 1 {
          assert kept[j - 1].modified <= kept[j - 1 + 1].modified;
          assert i < j - 1 ==> before[i].modified <= before[j - 1].modified;
        } else {
          assert before[i].modified <= before[j].modified;
        }
      }
    }
  }

  lemma OneBetween(sorted: seq<Kept>, one: Kept, at: nat)
    requires at <= |sorted|
    ensures multiset(Between(sorted, one, at)) == multiset(sorted) + multiset{one}
  {
    assert sorted == sorted[..at] + sorted[at..];
    assert multiset(sorted) == multiset(sorted[..at]) + multiset(sorted[at..]);
    assert multiset([one]) == multiset{one};
  }

  /** The oldest removed, one after another, for as long as too much is kept: no more of them than
      it takes, and too much is left only where every one was tried. */
  method Trim(kept: seq<Kept>, staged: nat, atMost: nat) returns (sorted: seq<Kept>, tried: nat, total: nat)
    ensures InAge(sorted) && multiset(sorted) == multiset(kept)
    ensures tried <= |sorted| && total == LeftOf(sorted, tried) + staged
    ensures total <= atMost || tried == |sorted|
    ensures forall fewer | 0 <= fewer < tried :: LeftOf(sorted, fewer) + staged > atMost
  {
    sorted := Sorted(kept);
    tried, total := 0, SizeOf(sorted) + staged;
    while tried < |sorted| && total > atMost
      invariant tried <= |sorted| && total == LeftOf(sorted, tried) + staged
      invariant forall fewer | 0 <= fewer < tried :: LeftOf(sorted, fewer) + staged > atMost
    {
      OneMoreTried(sorted, tried);
      if sorted[tried].removable {
        total := total - sorted[tried].size;
      }
      tried := tried + 1;
    }
  }
}
