/** JSON written out and read back: values nested so deep and no deeper, text with its escapes,
    and numbers spelled however a library spells them. */
module Jsons {
  import opened Wrappers
  import opened Octets
  import opened Folding

  const DEPTH_AT_MOST: nat := 32

  const QUOTE: byte := 34
  const BACKSLASH: byte := 92
  const COMMA: byte := 44
  const COLON: byte := 58
  const OPENS_LIST: byte := 91
  const CLOSES_LIST: byte := 93
  const OPENS_OBJECT: byte := 123
  const CLOSES_OBJECT: byte := 125

  /** A number that is not finite is kept apart from the numbers that are. */
  datatype Json<N> =
    | Null
    | Bool(truth: bool)
    | Number(number: N)
    | NotFinite
    | Text(text: Bytes)
    | List(items: seq<Json<N>>)
    | Object(members: seq<(Bytes, Json<N>)>)

  /** How finite numbers are spelled, and what spellings are read as. */
  datatype Spelling<!N(!new)> = Spelling(spell: N -> Bytes, parse: Bytes -> Option<N>) {
    ghost predicate Lawful() {
      forall number: N {:trigger spell(number)} ::
        && parse(spell(number)) == Some(number) && |spell(number)| > 0
        && forall k | 0 <= k < |spell(number)| :: OfNumber(spell(number)[k])
    }
  }

  /** A digit, a sign, a point or an exponent's letter. */
  predicate OfNumber(letter: byte) {
    48 <= letter <= 57 || letter == 45 || letter == 43 || letter == 46 || letter == 101 || letter == 69
  }

  predicate IsBlank(letter: byte) {
    letter == 32 || letter == 10 || letter == 13 || letter == 9
  }

  const NULL: Bytes := [110, 117, 108, 108]
  const TRUE: Bytes := [116, 114, 117, 101]
  const FALSE: Bytes := [102, 97, 108, 115, 101]

  // ---------------------------------------------------------------- writing

  function Hex(digit: nat): (letter: byte)
    requires digit < 16
  {
    if digit < 10 then (48 + digit) as byte else (87 + digit) as byte
  }

  /** One letter of a text as it is written. Letters of more than one byte have none of their
      bytes among those escaped. */
  function Escaped(letter: byte): (escaped: Bytes)
    ensures |escaped| > 0
  {
    if letter == QUOTE then [BACKSLASH, QUOTE]
    else if letter == BACKSLASH then [BACKSLASH, BACKSLASH]
    else if letter == 10 then [BACKSLASH, 110]
    else if letter == 13 then [BACKSLASH, 114]
    else if letter == 9 then [BACKSLASH, 116]
    else if letter < 32 then [BACKSLASH, 117, 48, 48, Hex(letter as nat / 16), Hex(letter as nat % 16)]
    else [letter]
  }

  function EscapedAll(escape: byte -> Bytes, text: Bytes): (escaped: Bytes) {
    if text == [] then [] else escape(text[0]) + EscapedAll(escape, text[1..])
  }

  function Quoted(text: Bytes): (quoted: Bytes) {
    [QUOTE] + EscapedAll(EscapeOf(), text) + [QUOTE]
  }

  function Written<N(!new)>(spelling: Spelling<N>, json: Json<N>): (written: Bytes) {
    match json
    case Null => NULL
    case Bool(truth) => if truth then TRUE else FALSE
    case Number(number) => spelling.spell(number)
    case NotFinite => NULL
    case Text(text) => Quoted(text)
    case List(items) => [OPENS_LIST] + WrittenItems(spelling, items) + [CLOSES_LIST]
    case Object(members) => [OPENS_OBJECT] + WrittenMembers(spelling, members) + [CLOSES_OBJECT]
  }

  function WrittenItems<N(!new)>(spelling: Spelling<N>, items: seq<Json<N>>): (written: Bytes) {
    if items == [] then []
    else if |items| == 1 then Written(spelling, items[0])
    else Written(spelling, items[0]) + [COMMA] + WrittenItems(spelling, items[1..])
  }

  function WrittenMember<N(!new)>(spelling: Spelling<N>, member: (Bytes, Json<N>)): (written: Bytes) {
    Quoted(member.0) + [COLON] + Written(spelling, member.1)
  }

  function WrittenMembers<N(!new)>(spelling: Spelling<N>, members: seq<(Bytes, Json<N>)>): (written: Bytes) {
    if members == [] then []
    else if |members| == 1 then WrittenMember(spelling, members[0])
    else WrittenMember(spelling, members[0]) + [COMMA] + WrittenMembers(spelling, members[1..])
  }

  // ---------------------------------------------------------------- reading

  function Blank(bytes: Bytes, at: nat): (past: nat)
    ensures at <= past && (at <= |bytes| ==> past <= |bytes|)
    decreases if at <= |bytes| then |bytes| - at else 0
  {
    if at < |bytes| && IsBlank(bytes[at]) then Blank(bytes, at + 1) else at
  }

  predicate Eats(bytes: Bytes, at: nat, expected: Bytes) {
    at + |expected| <= |bytes| && bytes[at..at + |expected|] == expected
  }

  predicate EatsOne(bytes: Bytes, at: nat, expected: byte) {
    at < |bytes| && bytes[at] == expected
  }

  function HexValue(letter: byte): (value: Option<nat>)
    ensures value.Some? ==> value.value < 16
  {
    if 48 <= letter <= 57 then Some(letter as nat - 48)
    else if 97 <= letter <= 102 then Some(letter as nat - 87)
    else if 65 <= letter <= 70 then Some(letter as nat - 55)
    else None
  }

  function HexDigits(digits: Bytes): (value: Option<nat>) {
    if digits == [] then Some(0)
    else
      var before, last := HexDigits(digits[..|digits| - 1]), HexValue(digits[|digits| - 1]);
      if before.None? || last.None? then None else Some(before.value * 16 + last.value)
  }

  /** Four hexadecimal digits, or a plus sign and three. */
  function FourHex(bytes: Bytes, at: nat): (value: Option<nat>)
    ensures value.Some? ==> at + 4 <= |bytes|
  {
    if at + 4 > |bytes| then None
    else if bytes[at] == 43 then HexDigits(bytes[at + 1..at + 4])
    else HexDigits(bytes[at..at + 4])
  }

  /** A code point encoded, as section 3 of RFC 3629 lays down; nothing for half of a pair or
      past the last. */
  function Encoded(code: nat): (encoded: Option<Bytes>) {
    if code < 0x80 then Some([code as byte])
    else if code < 0x800 then Some([(0xC0 + code / 64) as byte, (0x80 + code % 64) as byte])
    else if 0xD800 <= code < 0xE000 then None
    else if code < 0x1_0000 then
      Some([(0xE0 + code / 4096) as byte, (0x80 + code / 64 % 64) as byte, (0x80 + code % 64) as byte])
    else if code < 0x11_0000 then
      Some([(0xF0 + code / 0x4_0000) as byte, (0x80 + code / 4096 % 64) as byte, (0x80 + code / 64 % 64) as byte,
        (0x80 + code % 64) as byte])
    else None
  }

  /** A code point spelled by its number, or by the two halves of its pair. */
  function Unicode(bytes: Bytes, at: nat): (read: Option<(Bytes, nat)>)
    ensures read.Some? ==> at < read.value.1 <= |bytes|
  {
    var high := FourHex(bytes, at);
    if high.None? then None
    else if !(0xD800 <= high.value < 0xDC00) then
      var encoded := Encoded(high.value);
      if encoded.None? then None else Some((encoded.value, at + 4))
    else if !Eats(bytes, at + 4, [BACKSLASH, 117]) then None
    else
      var low := FourHex(bytes, at + 6);
      if low.None? || !(0xDC00 <= low.value < 0xE000) then None
      else
        var encoded := Encoded(0x1_0000 + (high.value - 0xD800) * 1024 + (low.value - 0xDC00));
        if encoded.None? then None else Some((encoded.value, at + 10))
  }

  function EscapeRead(escaped: byte): (letter: Option<byte>) {
    if escaped == QUOTE || escaped == BACKSLASH || escaped == 47 then Some(escaped)
    else if escaped == 98 then Some(8)
    else if escaped == 102 then Some(12)
    else if escaped == 110 then Some(10)
    else if escaped == 114 then Some(13)
    else if escaped == 116 then Some(9)
    else None
  }

  /** One letter of a text, and where the next starts. */
  function Letter(bytes: Bytes, at: nat): (read: Option<(Bytes, nat)>)
    ensures read.Some? ==> at < read.value.1 <= |bytes|
  {
    if at >= |bytes| || bytes[at] == QUOTE then None
    else if bytes[at] == BACKSLASH then
      if at + 1 >= |bytes| then None
      else if bytes[at + 1] == 117 then Unicode(bytes, at + 2)
      else
        var letter := EscapeRead(bytes[at + 1]);
        if letter.None? then None else Some(([letter.value], at + 2))
    else if bytes[at] < 32 then None
    else Some(([bytes[at]], at + 1))
  }

  /** How one letter is read, however that is done. */
  type LetterReader = (Bytes, nat) -> Option<(Bytes, nat)>

  ghost predicate AdvancesByLetter(letter: LetterReader) {
    forall bytes: Bytes, at: nat {:trigger letter(bytes, at)} | letter(bytes, at).Some? ::
      at < letter(bytes, at).value.1 <= |bytes|
  }

  function LetterOf(): (letter: LetterReader)
    ensures AdvancesByLetter(letter)
  {
    (bytes: Bytes, at: nat) => Letter(bytes, at)
  }

  /** Letters up to the quote that ends them, and what is past it. */
  function Letters(letter: LetterReader, bytes: Bytes, at: nat): (read: Option<(Bytes, nat)>)
    requires AdvancesByLetter(letter)
    ensures read.Some? ==> at < read.value.1 <= |bytes|
    decreases if at <= |bytes| then |bytes| - at else 0
  {
    if at < |bytes| && bytes[at] == QUOTE then Some(([], at + 1))
    else
      var first := letter(bytes, at);
      if first.None? then None
      else
        var rest := Letters(letter, bytes, first.value.1);
        if rest.None? then None else Some((first.value.0 + rest.value.0, rest.value.1))
  }

  function ReadText(utf8: Utf8, bytes: Bytes, at: nat): (read: Option<(Bytes, nat)>)
    ensures read.Some? ==> at < read.value.1 <= |bytes|
  {
    if !EatsOne(bytes, at, QUOTE) then None
    else
      var letters := Letters(LetterOf(), bytes, at + 1);
      if letters.None? || !utf8(letters.value.0) then None else letters
  }

  function NumberEnd(bytes: Bytes, at: nat): (end: nat)
    ensures at <= end && (at <= |bytes| ==> end <= |bytes|)
    decreases if at <= |bytes| then |bytes| - at else 0
  {
    if at < |bytes| && OfNumber(bytes[at]) then NumberEnd(bytes, at + 1) else at
  }

  /** Where reading stands: what is read, and where the rest starts. */
  type Taken<T> = Option<(T, nat)>

  datatype Formats<!N(!new)> = Formats(spelling: Spelling<N>, utf8: Utf8)

  function ReadWord<N(!new)>(bytes: Bytes, at: nat, word: Bytes, json: Json<N>): (read: Taken<Json<N>>)
    requires |word| > 0
    ensures read.Some? ==> at < read.value.1 <= |bytes|
  {
    if Eats(bytes, at, word) then Some((json, at + |word|)) else None
  }

  function ReadNumber<N(!new)>(spelling: Spelling<N>, bytes: Bytes, at: nat): (read: Taken<Json<N>>)
    ensures read.Some? ==> at < read.value.1 <= |bytes|
  {
    var end := NumberEnd(bytes, at);
    if at > |bytes| || end == at then None
    else
      var number := spelling.parse(bytes[at..end]);
      if number.None? then None else Some((Number(number.value), end))
  }

  /** A word, a text or a number. */
  function ReadScalar<N(!new)>(formats: Formats<N>, bytes: Bytes, at: nat): (read: Taken<Json<N>>)
    ensures read.Some? ==> at < read.value.1 <= |bytes|
  {
    if at >= |bytes| then None
    else if bytes[at] == 110 then ReadWord(bytes, at, NULL, Null)
    else if bytes[at] == 116 then ReadWord(bytes, at, TRUE, Bool(true))
    else if bytes[at] == 102 then ReadWord(bytes, at, FALSE, Bool(false))
    else if bytes[at] == QUOTE then
      var text := ReadText(formats.utf8, bytes, at);
      if text.None? then None else Some((Text(text.value.0), text.value.1))
    else ReadNumber(formats.spelling, bytes, at)
  }

  /** A key with the colon after it. */
  function ReadKey<N(!new)>(formats: Formats<N>, bytes: Bytes, at: nat): (read: Taken<Bytes>)
    ensures read.Some? ==> at < read.value.1 <= |bytes|
  {
    var key := ReadText(formats.utf8, bytes, Blank(bytes, at));
    if key.None? then None
    else
      var past := Blank(bytes, key.value.1);
      if EatsOne(bytes, past, COLON) then Some((key.value.0, past + 1)) else None
  }

  /** How the parts of a value that hold no other value are read, however that is done. */
  datatype Parts<!N(!new)> = Parts(
    scalar: (Bytes, nat) -> Taken<Json<N>>, key: (Bytes, nat) -> Taken<Bytes>, blank: (Bytes, nat) -> nat)
  {
    ghost predicate Advance() {
      && (forall bytes: Bytes, at: nat {:trigger scalar(bytes, at)} | scalar(bytes, at).Some? ::
            at < scalar(bytes, at).value.1 <= |bytes|)
      && (forall bytes: Bytes, at: nat {:trigger key(bytes, at)} | key(bytes, at).Some? ::
            at < key(bytes, at).value.1 <= |bytes|)
      && (forall bytes: Bytes, at: nat {:trigger blank(bytes, at)} ::
            at <= blank(bytes, at) && (at <= |bytes| ==> blank(bytes, at) <= |bytes|))
    }
  }

  function PartsOf<N(!new)>(formats: Formats<N>): (parts: Parts<N>)
    ensures parts.Advance()
  {
    Parts(
      (bytes: Bytes, at: nat) => ReadScalar(formats, bytes, at),
      (bytes: Bytes, at: nat) => ReadKey(formats, bytes, at),
      (bytes: Bytes, at: nat) => Blank(bytes, at))
  }

  /** A value, nested so deep already. */
  function ReadValue<N(!new)>(parts: Parts<N>, bytes: Bytes, from: nat, depth: nat): (read: Taken<Json<N>>)
    requires parts.Advance()
    ensures read.Some? ==> from < read.value.1 <= |bytes|
    decreases if from <= |bytes| then |bytes| - from else 0, 2
  {
    var at := parts.blank(bytes, from);
    if depth > DEPTH_AT_MOST || at >= |bytes| then None
    else if bytes[at] == OPENS_LIST then ReadList(parts, bytes, at, depth)
    else if bytes[at] == OPENS_OBJECT then ReadObject(parts, bytes, at, depth)
    else parts.scalar(bytes, at)
  }

  function ReadList<N(!new)>(parts: Parts<N>, bytes: Bytes, at: nat, depth: nat): (read: Taken<Json<N>>)
    requires parts.Advance() && at < |bytes|
    ensures read.Some? ==> at < read.value.1 <= |bytes|
    decreases |bytes| - at, 1
  {
    var first := parts.blank(bytes, at + 1);
    if EatsOne(bytes, first, CLOSES_LIST) then Some((List([]), first + 1))
    else
      var items := ReadItems(parts, bytes, first, depth);
      if items.None? then None else Some((List(items.value.0), items.value.1))
  }

  /** Items up to the bracket that ends them. */
  function ReadItems<N(!new)>(parts: Parts<N>, bytes: Bytes, at: nat, depth: nat): (read: Taken<seq<Json<N>>>)
    requires parts.Advance()
    ensures read.Some? ==> at < read.value.1 <= |bytes|
    decreases if at <= |bytes| then |bytes| - at else 0, 3
  {
    var item := ReadValue(parts, bytes, at, depth + 1);
    if item.None? then None
    else
      var past := parts.blank(bytes, item.value.1);
      if EatsOne(bytes, past, COMMA) then
        var rest := ReadItems(parts, bytes, past + 1, depth);
        if rest.None? then None else Some(([item.value.0] + rest.value.0, rest.value.1))
      else if EatsOne(bytes, past, CLOSES_LIST) then Some(([item.value.0], past + 1))
      else None
  }

  function ReadObject<N(!new)>(parts: Parts<N>, bytes: Bytes, at: nat, depth: nat): (read: Taken<Json<N>>)
    requires parts.Advance() && at < |bytes|
    ensures read.Some? ==> at < read.value.1 <= |bytes|
    decreases |bytes| - at, 1
  {
    var first := parts.blank(bytes, at + 1);
    if EatsOne(bytes, first, CLOSES_OBJECT) then Some((Object([]), first + 1))
    else
      var members := ReadMembers(parts, bytes, first, depth);
      if members.None? then None else Some((Object(members.value.0), members.value.1))
  }

  function ReadMembers<N(
    !new)>(parts: Parts<N>, bytes: Bytes, at: nat, depth: nat): (read: Taken<seq<(Bytes, Json<N>)>>)
    requires parts.Advance()
    ensures read.Some? ==> at < read.value.1 <= |bytes|
    decreases if at <= |bytes| then |bytes| - at else 0, 3
  {
    var member := ReadMember(parts, bytes, at, depth);
    if member.None? then None
    else
      var past := parts.blank(bytes, member.value.1);
      if EatsOne(bytes, past, COMMA) then
        var rest := ReadMembers(parts, bytes, past + 1, depth);
        if rest.None? then None else Some(([member.value.0] + rest.value.0, rest.value.1))
      else if EatsOne(bytes, past, CLOSES_OBJECT) then Some(([member.value.0], past + 1))
      else None
  }

  function ReadMember<N(!new)>(
    parts: Parts<N>, bytes: Bytes, at: nat, depth: nat): (read: Taken<(Bytes, Json<N>)>)
    requires parts.Advance()
    ensures read.Some? ==> at < read.value.1 <= |bytes|
    decreases if at <= |bytes| then |bytes| - at else 0, 2
  {
    var key := parts.key(bytes, at);
    if key.None? then None
    else
      var value := ReadValue(parts, bytes, key.value.1, depth + 1);
      if value.None? then None else Some(((key.value.0, value.value.0), value.value.1))
  }

  /** The whole of a text as one value, with nothing but blanks after it. */
  function JsonIn<N(!new)>(formats: Formats<N>, bytes: Bytes): (json: Option<Json<N>>) {
    var value := ReadValue(PartsOf(formats), bytes, 0, 0);
    if value.Some? && Blank(bytes, value.value.1) == |bytes| then Some(value.value.0) else None
  }

  // ---------------------------------------------------------------- what is written stands where it is read

  /** A piece that stands at a place. */
  ghost predicate Stands(bytes: Bytes, at: nat, piece: Bytes) {
    at + |piece| <= |bytes| && forall k {:trigger piece[k]} | 0 <= k < |piece| :: bytes[at + k] == piece[k]
  }

  lemma StandsApart(bytes: Bytes, at: nat, one: Bytes, other: Bytes)
    requires Stands(bytes, at, one + other)
    ensures Stands(bytes, at, one) && Stands(bytes, at + |one|, other)
  {
    forall k | 0 <= k < |one| ensures bytes[at + k] == one[k] {
      assert (one + other)[k] == one[k];
    }
    forall k | 0 <= k < |other| ensures bytes[at + |one| + k] == other[k] {
      assert (one + other)[|one| + k] == other[k];
    }
  }

  lemma StandsEats(bytes: Bytes, at: nat, piece: Bytes)
    requires Stands(bytes, at, piece)
    ensures Eats(bytes, at, piece)
  {
    assert bytes[at..at + |piece|] == piece;
  }

  /** Each letter reads back from how it is written. */
  lemma EscapedReads(bytes: Bytes, at: nat, letter: byte)
    requires Stands(bytes, at, Escaped(letter))
    ensures Letter(bytes, at) == Some(([letter], at + |Escaped(letter)|)) && bytes[at] != QUOTE
  {
    var escaped := Escaped(letter);
    assert bytes[at] == escaped[0];
    if |escaped| > 1 {
      assert bytes[at + 1] == escaped[1];
    }
    if |escaped| == 6 {
      HexReads(bytes, at + 2, letter as nat, escaped);
    }
  }

  lemma HexReads(bytes: Bytes, at: nat, code: nat, escaped: Bytes)
    requires code < 32 && at >= 2 && Stands(bytes, at - 2, escaped)
    requires escaped == [BACKSLASH, 117, 48, 48, Hex(code / 16), Hex(code % 16)]
    ensures FourHex(bytes, at) == Some(code) && Encoded(code) == Some([code as byte])
  {
    assert bytes[at] == escaped[2] && bytes[at + 1] == escaped[3]
      && bytes[at + 2] == escaped[4] && bytes[at + 3] == escaped[5];
    var digits := bytes[at..at + 4];
    assert digits == [48, 48, Hex(code / 16), Hex(code % 16)];
    FourDigits(48, 48, Hex(code / 16), Hex(code % 16));
  }

  lemma FourDigits(one: byte, two: byte, three: byte, four: byte)
    requires HexValue(one).Some? && HexValue(two).Some? && HexValue(three).Some? && HexValue(four).Some?
    ensures HexDigits([one, two, three, four])
      == Some(((HexValue(one).value * 16 + HexValue(two).value) * 16 + HexValue(three).value) * 16
           + HexValue(four).value)
  {
    OneDigit([], one);
    assert [] + [one] == [one];
    OneDigit([one], two);
    assert [one] + [two] == [one, two];
    OneDigit([one, two], three);
    assert [one, two] + [three] == [one, two, three];
    OneDigit([one, two, three], four);
    assert [one, two, three] + [four] == [one, two, three, four];
  }

  lemma OneDigit(digits: Bytes, digit: byte)
    requires HexDigits(digits).Some? && HexValue(digit).Some?
    ensures HexDigits(digits + [digit]) == Some(HexDigits(digits).value * 16 + HexValue(digit).value)
  {
    assert (digits + [digit])[..|digits|] == digits;
  }

  /** Every letter is read back from how it is written, and none is written starting with a
      quote. */
  ghost predicate ReadsLetters(letter: LetterReader, escape: byte -> Bytes) {
    && AdvancesByLetter(letter)
    && forall at: nat {:trigger Look(TheLetters, at)} | Look(TheLetters, at) :: ReadsEach(letter, escape)
  }

  ghost predicate ReadsEach(letter: LetterReader, escape: byte -> Bytes) {
    forall bytes: Bytes, at: nat, one: byte {:trigger letter(bytes, at), escape(one)}
      | Stands(bytes, at, escape(one)) ::
         at < |bytes| && bytes[at] != QUOTE && letter(bytes, at) == Some(([one], at + |escape(one)|))
  }

  function EscapeOf(): byte -> Bytes {
    (letter: byte) => Escaped(letter)
  }

  lemma LettersRead()
    ensures ReadsLetters(LetterOf(), EscapeOf())
  {
    EachLetterReads();
  }

  lemma EachLetterReads()
    ensures ReadsEach(LetterOf(), EscapeOf())
  {
    forall bytes: Bytes, at: nat, one: byte | Stands(bytes, at, EscapeOf()(one))
      ensures at < |bytes| && bytes[at] != QUOTE && LetterOf()(bytes, at) == Some(([one], at + |EscapeOf()(one)|))
    {
      EscapedReads(bytes, at, one);
    }
  }

  lemma {:induction false} TextReads(letter: LetterReader, escape: byte -> Bytes, bytes: Bytes, at: nat, text: Bytes)
    requires ReadsLetters(letter, escape) && Stands(bytes, at, EscapedAll(escape, text) + [QUOTE])
    ensures Letters(letter, bytes, at) == Some((text, at + |EscapedAll(escape, text)| + 1))
    decreases |text|
  {
    if text == [] {
      assert EscapedAll(escape, text) + [QUOTE] == [QUOTE];
      LetterStands(bytes, at, QUOTE);
    } else {
      var first, rest := escape(text[0]), EscapedAll(escape, text[1..]);
      Regrouped(first, rest, [QUOTE]);
      StandsApart(bytes, at, first, rest + [QUOTE]);
      LetterReads(letter, escape, bytes, at, text[0]);
      TextReads(letter, escape, bytes, at + |first|, text[1..]);
      LettersGoOn(letter, bytes, at, text, at + |first|, at + |first| + |rest| + 1);
    }
  }

  lemma LetterReads(letter: LetterReader, escape: byte -> Bytes, bytes: Bytes, at: nat, one: byte)
    requires ReadsLetters(letter, escape) && Stands(bytes, at, escape(one))
    ensures at < |bytes| && bytes[at] != QUOTE && letter(bytes, at) == Some(([one], at + |escape(one)|))
  {
    assert Look(TheLetters, 0);
    assert letter(bytes, at) == letter(bytes, at);
  }

  lemma LettersGoOn(letter: LetterReader, bytes: Bytes, at: nat, text: Bytes, next: nat, end: nat)
    requires AdvancesByLetter(letter) && text != [] && at < |bytes| && bytes[at] != QUOTE
    requires letter(bytes, at) == Some(([text[0]], next)) && Letters(letter, bytes, next) == Some((text[1..], end))
    ensures Letters(letter, bytes, at) == Some((text, end))
  {
    assert [text[0]] + text[1..] == text;
  }

  lemma QuotedReads(utf8: Utf8, bytes: Bytes, at: nat, text: Bytes)
    requires Stands(bytes, at, Quoted(text)) && utf8(text)
    ensures ReadText(utf8, bytes, at) == Some((text, at + |Quoted(text)|))
    ensures bytes[at] == QUOTE
  {
    QuotedStands(bytes, at, text, at + |Quoted(text)|);
    TextIs(utf8, bytes, at, text, at + |Quoted(text)|);
  }

  lemma QuotedStands(bytes: Bytes, at: nat, text: Bytes, end: nat)
    requires Stands(bytes, at, Quoted(text)) && end == at + |Quoted(text)|
    ensures EatsOne(bytes, at, QUOTE) && Letters(LetterOf(), bytes, at + 1) == Some((text, end))
  {
    LettersRead();
    QuotedWith(LetterOf(), EscapeOf(), bytes, at, text);
  }

  lemma QuotedWith(letter: LetterReader, escape: byte -> Bytes, bytes: Bytes, at: nat, text: Bytes)
    requires ReadsLetters(letter, escape) && Stands(bytes, at, [QUOTE] + EscapedAll(escape, text) + [QUOTE])
    ensures EatsOne(bytes, at, QUOTE)
    ensures Letters(letter, bytes, at + 1) == Some((text, at + |[QUOTE] + EscapedAll(escape, text) + [QUOTE]|))
  {
    var escaped := EscapedAll(escape, text);
    Regrouped([QUOTE], escaped, [QUOTE]);
    StandsApart(bytes, at, [QUOTE], escaped + [QUOTE]);
    LetterStands(bytes, at, QUOTE);
    TextReads(letter, escape, bytes, at + 1, text);
  }

  lemma TextIs(utf8: Utf8, bytes: Bytes, at: nat, text: Bytes, end: nat)
    requires EatsOne(bytes, at, QUOTE) && Letters(LetterOf(), bytes, at + 1) == Some((text, end)) && utf8(text)
    ensures ReadText(utf8, bytes, at) == Some((text, end))
  {
  }

  lemma {:induction false} NumberEnds(bytes: Bytes, at: nat, spelled: Bytes)
    requires Stands(bytes, at, spelled) && forall k | 0 <= k < |spelled| :: OfNumber(spelled[k])
    requires at + |spelled| < |bytes| ==> !OfNumber(bytes[at + |spelled|])
    ensures NumberEnd(bytes, at) == at + |spelled|
    decreases |spelled|
  {
    if spelled != [] {
      assert bytes[at] == spelled[0];
      StandsApart(bytes, at, [spelled[0]], spelled[1..]) by {
        assert [spelled[0]] + spelled[1..] == spelled;
      }
      NumberEnds(bytes, at + 1, spelled[1..]);
    }
  }

  // ---------------------------------------------------------------- values read back

  function Depth<N(!new)>(json: Json<N>): (depth: nat) {
    match json
    case List(items) => DepthOfItems(items)
    case Object(members) => DepthOfMembers(members)
    case _ => 0
  }

  function Deeper(one: nat, other: nat): nat {
    if one < other then other else one
  }

  /** One more than the deepest of them, and nothing where there are none. */
  function DepthOfItems<N(!new)>(items: seq<Json<N>>): (depth: nat) {
    if items == [] then 0 else Deeper(1 + Depth(items[0]), DepthOfItems(items[1..]))
  }

  function DepthOfMembers<N(!new)>(members: seq<(Bytes, Json<N>)>): (depth: nat) {
    if members == [] then 0 else Deeper(1 + DepthOfMember(members[0]), DepthOfMembers(members[1..]))
  }

  function DepthOfMember<N(!new)>(member: (Bytes, Json<N>)): (depth: nat) {
    Depth(member.1)
  }

  /** Every text in a value is well encoded. */
  predicate WellEncoded<N(!new)>(utf8: Utf8, json: Json<N>) {
    match json
    case Text(text) => utf8(text)
    case List(items) => ItemsEncoded(utf8, items)
    case Object(members) => MembersEncoded(utf8, members)
    case _ => true
  }

  predicate ItemsEncoded<N(!new)>(utf8: Utf8, items: seq<Json<N>>) {
    items == [] || (WellEncoded(utf8, items[0]) && ItemsEncoded(utf8, items[1..]))
  }

  predicate MembersEncoded<N(!new)>(utf8: Utf8, members: seq<(Bytes, Json<N>)>) {
    members == [] || (MemberEncoded(utf8, members[0]) && MembersEncoded(utf8, members[1..]))
  }

  predicate MemberEncoded<N(!new)>(utf8: Utf8, member: (Bytes, Json<N>)) {
    utf8(member.0) && WellEncoded(utf8, member.1)
  }

  /** What a value is once a number that is not finite has become nothing. */
  function Settled<N(!new)>(json: Json<N>): (settled: Json<N>) {
    match json
    case NotFinite => Null
    case List(items) => List(ItemsSettled(items))
    case Object(members) => Object(MembersSettled(members))
    case _ => json
  }

  function ItemsSettled<N(!new)>(items: seq<Json<N>>): (settled: seq<Json<N>>) {
    if items == [] then [] else [Settled(items[0])] + ItemsSettled(items[1..])
  }

  function MembersSettled<N(!new)>(members: seq<(Bytes, Json<N>)>): (settled: seq<(Bytes, Json<N>)>) {
    if members == [] then [] else [MemberSettled(members[0])] + MembersSettled(members[1..])
  }

  function MemberSettled<N(!new)>(member: (Bytes, Json<N>)): (settled: (Bytes, Json<N>)) {
    (member.0, Settled(member.1))
  }

  /** What follows a value cannot be taken for more of a number. */
  ghost predicate Ends(bytes: Bytes, at: nat) {
    at <= |bytes| && (at < |bytes| ==> !OfNumber(bytes[at]))
  }

  lemma NotBlank(bytes: Bytes, at: nat)
    requires at < |bytes| && !IsBlank(bytes[at])
    ensures Blank(bytes, at) == at
  {
  }

  predicate Scalar<N(!new)>(json: Json<N>) {
    !json.List? && !json.Object?
  }

  /** The parts read back what is written of them, and read past nothing that is not blank. */
  ghost predicate Faithful<N(!new)>(parts: Parts<N>, formats: Formats<N>) {
    forall at: nat {:trigger Look(TheParts, at)} | Look(TheParts, at) ::
      formats.spelling.Lawful() && ScalarsRead(parts, formats) && KeysRead(parts, formats) && BlanksStop(parts)
  }

  ghost predicate ScalarsRead<N(!new)>(parts: Parts<N>, formats: Formats<N>) {
    forall bytes: Bytes, at: nat, json: Json<N> {:trigger parts.scalar(bytes, at), Written(formats.spelling, json)}
      | Scalar(json) && WellEncoded(formats.utf8, json) && StandsToEnd(bytes, at, Written(formats.spelling, json)) ::
      parts.scalar(bytes, at) == Some((Settled(json), at + |Written(formats.spelling, json)|))
  }

  ghost predicate KeysRead<N(!new)>(parts: Parts<N>, formats: Formats<N>) {
    forall bytes: Bytes, at: nat, key: Bytes {:trigger parts.key(bytes, at), Quoted(key)}
      | formats.utf8(key) && Stands(bytes, at, Quoted(key) + [COLON]) ::
      parts.key(bytes, at) == Some((key, at + |Quoted(key)| + 1))
  }

  ghost predicate BlanksStop<N(!new)>(parts: Parts<N>) {
    forall bytes: Bytes, at: nat {:trigger parts.blank(bytes, at)} | at < |bytes| && !IsBlank(bytes[at]) ::
      parts.blank(bytes, at) == at
  }

  ghost predicate StandsToEnd(bytes: Bytes, at: nat, written: Bytes) {
    Stands(bytes, at, written) && Ends(bytes, at + |written|)
  }

  lemma PartsFaithful<N(!new)>(formats: Formats<N>)
    requires formats.spelling.Lawful()
    ensures Faithful(PartsOf(formats), formats)
  {
    ScalarsFaithful(formats);
    KeysFaithful(formats);
    BlanksFaithful(formats);
  }

  lemma ScalarsFaithful<N(!new)>(formats: Formats<N>)
    requires formats.spelling.Lawful()
    ensures ScalarsRead(PartsOf(formats), formats)
  {
    forall bytes: Bytes, at: nat, json: Json<N>
      | Scalar(json) && WellEncoded(formats.utf8, json) && StandsToEnd(bytes, at, Written(formats.spelling, json))
      ensures PartsOf(formats).scalar(bytes, at) == Some((Settled(json), at + |Written(formats.spelling, json)|))
    {
      ScalarReads(formats, bytes, at, json);
    }
  }

  lemma KeysFaithful<N(!new)>(formats: Formats<N>)
    requires formats.spelling.Lawful()
    ensures KeysRead(PartsOf(formats), formats)
  {
    forall bytes: Bytes, at: nat, key: Bytes | formats.utf8(key) && Stands(bytes, at, Quoted(key) + [COLON])
      ensures PartsOf(formats).key(bytes, at) == Some((key, at + |Quoted(key)| + 1))
    {
      KeyReads(formats, bytes, at, key);
      KeyIsPart(formats, bytes, at);
    }
  }

  lemma KeyIsPart<N(!new)>(formats: Formats<N>, bytes: Bytes, at: nat)
    ensures PartsOf(formats).key(bytes, at) == ReadKey(formats, bytes, at)
  {
  }

  lemma BlanksFaithful<N(!new)>(formats: Formats<N>)
    ensures BlanksStop(PartsOf(formats))
  {
    forall bytes: Bytes, at: nat | at < |bytes| && !IsBlank(bytes[at]) ensures PartsOf(formats).blank(bytes, at) == at {
      NotBlank(bytes, at);
    }
  }

  lemma ScalarReads<N(!new)>(formats: Formats<N>, bytes: Bytes, at: nat, json: Json<N>)
    requires formats.spelling.Lawful() && Scalar(json) && WellEncoded(formats.utf8, json)
    requires StandsToEnd(bytes, at, Written(formats.spelling, json))
    ensures ReadScalar(formats, bytes, at) == Some((Settled(json), at + |Written(formats.spelling, json)|))
  {
    match json
    case Null => WordReads(bytes, at, NULL);
    case Bool(truth) => WordReads(bytes, at, if truth then TRUE else FALSE);
    case Number(number) => NumberReads(formats, bytes, at, number);
    case NotFinite => WordReads(bytes, at, NULL);
    case Text(text) => QuotedReads(formats.utf8, bytes, at, text);
  }

  lemma WordReads(bytes: Bytes, at: nat, word: Bytes)
    requires Stands(bytes, at, word) && |word| > 0
    ensures Eats(bytes, at, word) && bytes[at] == word[0]
  {
    StandsEats(bytes, at, word);
  }

  lemma LetterStands(bytes: Bytes, at: nat, letter: byte)
    requires Stands(bytes, at, [letter])
    ensures EatsOne(bytes, at, letter)
  {
    assert bytes[at] == [letter][0];
  }

  lemma NumberReads<N(!new)>(formats: Formats<N>, bytes: Bytes, at: nat, number: N)
    requires formats.spelling.Lawful()
    requires Stands(bytes, at, formats.spelling.spell(number)) && Ends(bytes, at + |formats.spelling.spell(number)|)
    ensures ReadScalar(formats, bytes, at) == Some((Number(number), at + |formats.spelling.spell(number)|))
  {
    var spelled := formats.spelling.spell(number);
    assert bytes[at] == spelled[0];
    NumberEnds(bytes, at, spelled);
    assert bytes[at..at + |spelled|] == spelled;
  }

  lemma KeyReads<N(!new)>(formats: Formats<N>, bytes: Bytes, at: nat, key: Bytes)
    requires formats.utf8(key) && Stands(bytes, at, Quoted(key) + [COLON])
    ensures ReadKey(formats, bytes, at) == Some((key, at + |Quoted(key)| + 1))
  {
    StandsApart(bytes, at, Quoted(key), [COLON]);
    QuotedReads(formats.utf8, bytes, at, key);
    NotBlank(bytes, at);
    LetterStands(bytes, at + |Quoted(key)|, COLON);
    NotBlank(bytes, at + |Quoted(key)|);
  }

  /** What every value starts with is no blank and closes nothing. */
  lemma StartsValue<N(!new)>(spelling: Spelling<N>, bytes: Bytes, at: nat, json: Json<N>)
    requires spelling.Lawful() && Stands(bytes, at, Written(spelling, json))
    ensures at < |bytes| && !IsBlank(bytes[at]) && bytes[at] != CLOSES_LIST && bytes[at] != CLOSES_OBJECT
    ensures Scalar(json) ==> bytes[at] != OPENS_LIST && bytes[at] != OPENS_OBJECT
    ensures json.List? ==> bytes[at] == OPENS_LIST
    ensures json.Object? ==> bytes[at] == OPENS_OBJECT
  {
    var written := Written(spelling, json);
    assert |written| > 0 && bytes[at] == written[0];
    if json.Number? {
      assert OfNumber(spelling.spell(json.number)[0]);
    }
  }

  /** Items read on past a comma, or ended by the bracket. */
  lemma ItemsEnd<N(!new)>(parts: Parts<N>, bytes: Bytes, at: nat, depth: nat, item: Json<N>, past: nat)
    requires parts.Advance() && parts.blank(bytes, past) == past && EatsOne(bytes, past, CLOSES_LIST)
    requires ReadValue(parts, bytes, at, depth + 1) == Some((item, past))
    ensures ReadItems(parts, bytes, at, depth) == Some(([item], past + 1))
  {
  }

  lemma ItemsGoOn<N(!new)>(
    parts: Parts<N>, bytes: Bytes, at: nat, depth: nat, item: Json<N>, past: nat, rest: seq<Json<N>>, end: nat)
    requires parts.Advance() && parts.blank(bytes, past) == past && EatsOne(bytes, past, COMMA)
    requires ReadValue(parts, bytes, at, depth + 1) == Some((item, past))
    requires ReadItems(parts, bytes, past + 1, depth) == Some((rest, end))
    ensures ReadItems(parts, bytes, at, depth) == Some(([item] + rest, end))
  {
  }

  lemma MembersEnd<N(!new)>(
    parts: Parts<N>, bytes: Bytes, at: nat, depth: nat, key: Bytes, from: nat, json: Json<N>, past: nat)
    requires parts.Advance() && parts.blank(bytes, past) == past && EatsOne(bytes, past, CLOSES_OBJECT)
    requires parts.key(bytes, at) == Some((key, from)) && ReadValue(parts, bytes, from, depth + 1) == Some((json, past))
    ensures ReadMembers(parts, bytes, at, depth) == Some(([(key, json)], past + 1))
  {
  }

  lemma MembersGoOn<N(!new)>(
    parts: Parts<N>, bytes: Bytes, at: nat, depth: nat, key: Bytes, from: nat, json: Json<N>, past: nat,
    rest: seq<(Bytes, Json<N>)>, end: nat)
    requires parts.Advance() && parts.blank(bytes, past) == past && EatsOne(bytes, past, COMMA)
    requires parts.key(bytes, at) == Some((key, from)) && ReadValue(parts, bytes, from, depth + 1) == Some((json, past))
    requires ReadMembers(parts, bytes, past + 1, depth) == Some((rest, end))
    ensures ReadMembers(parts, bytes, at, depth) == Some(([(key, json)] + rest, end))
  {
  }

  lemma SettledItems<N(!new)>(items: seq<Json<N>>)
    requires items != []
    ensures |items| == 1 ==> ItemsSettled(items) == [Settled(items[0])]
    ensures ItemsSettled(items) == [Settled(items[0])] + ItemsSettled(items[1..])
  {
    assert |items| == 1 ==> items[1..] == [];
  }

  lemma SettledMembers<N(!new)>(members: seq<(Bytes, Json<N>)>)
    requires members != []
    ensures |members| == 1 ==> MembersSettled(members) == [(members[0].0, Settled(members[0].1))]
    ensures MembersSettled(members) == [(members[0].0, Settled(members[0].1))] + MembersSettled(members[1..])
  {
    assert |members| == 1 ==> members[1..] == [];
  }

  /** Every value reads back from where it is written, however deep it is already, as far as
      values may be nested. */
  lemma {:induction false} ValueReads<N(!new)>(
    parts: Parts<N>, formats: Formats<N>, bytes: Bytes, at: nat, json: Json<N>, depth: nat)
    requires parts.Advance() && Faithful(parts, formats)
    requires WellEncoded(formats.utf8, json) && depth + Depth(json) <= DEPTH_AT_MOST
    requires StandsToEnd(bytes, at, Written(formats.spelling, json))
    ensures ReadValue(parts, bytes, at, depth) == Some((Settled(json), at + |Written(formats.spelling, json)|))
    decreases json, 1
  {
    assert Look(TheParts, 0);
    StartsValue(formats.spelling, bytes, at, json);
    if json.List? {
      ListReads(parts, formats, bytes, at, json.items, depth);
    } else if json.Object? {
      ObjectReads(parts, formats, bytes, at, json.members, depth);
    }
  }

  lemma {:induction false} ListReads<N(!new)>(
    parts: Parts<N>, formats: Formats<N>, bytes: Bytes, at: nat, items: seq<Json<N>>, depth: nat)
    requires parts.Advance() && Faithful(parts, formats)
    requires ItemsEncoded(formats.utf8, items) && depth + DepthOfItems(items) <= DEPTH_AT_MOST
    requires Stands(bytes, at, [OPENS_LIST] + WrittenItems(formats.spelling, items) + [CLOSES_LIST])
    ensures at < |bytes|
    ensures ReadList(parts, bytes, at, depth)
      == Some((List(ItemsSettled(items)), at + |WrittenItems(formats.spelling, items)| + 2))
    decreases items, 2
  {
    var inside := WrittenItems(formats.spelling, items);
    InsideStands(bytes, at, OPENS_LIST, inside, CLOSES_LIST);
    if items != [] {
      FirstItemStarts(parts, formats, bytes, at + 1, items);
      ItemsRead(parts, formats, bytes, at + 1, items, depth, at + |inside| + 2);
    }
    ListIs(parts, formats, bytes, at, items, depth, at + |inside| + 2);
  }

  lemma InsideStands(bytes: Bytes, at: nat, opens: byte, inside: Bytes, closes: byte)
    requires Stands(bytes, at, [opens] + inside + [closes])
    ensures EatsOne(bytes, at, opens) && Stands(bytes, at + 1, inside + [closes])
    ensures inside == [] ==> EatsOne(bytes, at + 1, closes)
  {
    Regrouped([opens], inside, [closes]);
    StandsApart(bytes, at, [opens], inside + [closes]);
    LetterStands(bytes, at, opens);
    StandsApart(bytes, at + 1, inside, [closes]);
    LetterStands(bytes, at + 1 + |inside|, closes);
  }

  lemma FirstItemStarts<N(!new)>(parts: Parts<N>, formats: Formats<N>, bytes: Bytes, at: nat, items: seq<Json<N>>)
    requires parts.Advance() && Faithful(parts, formats)
    requires items != [] && Stands(bytes, at, WrittenItems(formats.spelling, items) + [CLOSES_LIST])
    ensures at < |bytes| && bytes[at] != CLOSES_LIST && !IsBlank(bytes[at])
  {
    assert Look(TheParts, 0);
    ItemsStand(formats.spelling, bytes, at, items, at + |Written(formats.spelling, items[0])|);
    StartsValue(formats.spelling, bytes, at, items[0]);
  }

  lemma ListIs<N(!new)>(
    parts: Parts<N>, formats: Formats<N>, bytes: Bytes, at: nat, items: seq<Json<N>>, depth: nat, end: nat)
    requires parts.Advance() && Faithful(parts, formats) && at < |bytes|
    requires items == [] ==> EatsOne(bytes, at + 1, CLOSES_LIST) && end == at + 2
    requires items != [] ==>
      && at + 1 < |bytes| && bytes[at + 1] != CLOSES_LIST && !IsBlank(bytes[at + 1])
      && ReadItems(parts, bytes, at + 1, depth) == Some((ItemsSettled(items), end))
    ensures ReadList(parts, bytes, at, depth) == Some((List(ItemsSettled(items)), end))
  {
    assert Look(TheParts, 0);
    assert parts.blank(bytes, at + 1) == at + 1;
  }

  lemma {:induction false} ItemsRead<N(!new)>(
    parts: Parts<N>, formats: Formats<N>, bytes: Bytes, at: nat, items: seq<Json<N>>, depth: nat, end: nat)
    requires parts.Advance() && Faithful(parts, formats)
    requires ItemsEncoded(formats.utf8, items) && depth + DepthOfItems(items) <= DEPTH_AT_MOST
    requires items != [] && Stands(bytes, at, WrittenItems(formats.spelling, items) + [CLOSES_LIST])
    requires end == at + |WrittenItems(formats.spelling, items)| + 1
    ensures ReadItems(parts, bytes, at, depth) == Some((ItemsSettled(items), end))
    decreases items, 1
  {
    var past := at + |Written(formats.spelling, items[0])|;
    ItemsStand(formats.spelling, bytes, at, items, past);
    ValueReads(parts, formats, bytes, at, items[0], depth + 1);
    if |items| > 1 {
      ItemsRead(parts, formats, bytes, past + 1, items[1..], depth, end);
    }
    ItemsAre(parts, formats, bytes, at, items, depth, past, end);
  }

  lemma ItemsAre<N(!new)>(
    parts: Parts<N>, formats: Formats<N>, bytes: Bytes, at: nat, items: seq<Json<N>>, depth: nat, past: nat, end: nat)
    requires parts.Advance() && Faithful(parts, formats) && items != []
    requires ReadValue(parts, bytes, at, depth + 1) == Some((Settled(items[0]), past))
    requires |items| == 1 ==> EatsOne(bytes, past, CLOSES_LIST) && end == past + 1
    requires |items| > 1 ==>
      EatsOne(bytes, past, COMMA) && ReadItems(parts, bytes, past + 1, depth) == Some((ItemsSettled(items[1..]), end))
    ensures ReadItems(parts, bytes, at, depth) == Some((ItemsSettled(items), end))
  {
    assert Look(TheParts, 0);
    SettledItems(items);
    if |items| == 1 {
      ItemsEnd(parts, bytes, at, depth, Settled(items[0]), past);
    } else {
      ItemsGoOn(parts, bytes, at, depth, Settled(items[0]), past, ItemsSettled(items[1..]), end);
    }
  }

  lemma Around(one: Bytes, comma: Bytes, other: Bytes, end: Bytes)
    ensures one + comma + other + end == one + (comma + (other + end))
  {
  }

  lemma Regrouped(one: Bytes, other: Bytes, more: Bytes)
    ensures one + other + more == one + (other + more)
  {
  }

  /** The first item stands first, then a comma and the rest, or the bracket. */
  lemma ItemsStand<N(!new)>(spelling: Spelling<N>, bytes: Bytes, at: nat, items: seq<Json<N>>, past: nat)
    requires items != [] && Stands(bytes, at, WrittenItems(spelling, items) + [CLOSES_LIST])
    requires past == at + |Written(spelling, items[0])|
    ensures Stands(bytes, at, Written(spelling, items[0])) && Ends(bytes, past)
    ensures |items| == 1 ==> EatsOne(bytes, past, CLOSES_LIST) && at + |WrittenItems(spelling, items)| == past
    ensures |items| > 1 ==>
      && EatsOne(bytes, past, COMMA) && Stands(bytes, past + 1, WrittenItems(spelling, items[1..]) + [CLOSES_LIST])
      && at + |WrittenItems(spelling, items)| == past + 1 + |WrittenItems(spelling, items[1..])|
  {
    var first := Written(spelling, items[0]);
    if |items| == 1 {
      StandsApart(bytes, at, first, [CLOSES_LIST]);
      LetterStands(bytes, past, CLOSES_LIST);
    } else {
      var rest := WrittenItems(spelling, items[1..]);
      Around(first, [COMMA], rest, [CLOSES_LIST]);
      StandsApart(bytes, at, first, [COMMA] + (rest + [CLOSES_LIST]));
      StandsApart(bytes, past, [COMMA], rest + [CLOSES_LIST]);
      LetterStands(bytes, past, COMMA);
    }
  }

  lemma {:induction false} ObjectReads<N(!new)>(
    parts: Parts<N>, formats: Formats<N>, bytes: Bytes, at: nat, members: seq<(Bytes, Json<N>)>, depth: nat)
    requires parts.Advance() && Faithful(parts, formats)
    requires MembersEncoded(formats.utf8, members) && depth + DepthOfMembers(members) <= DEPTH_AT_MOST
    requires Stands(bytes, at, [OPENS_OBJECT] + WrittenMembers(formats.spelling, members) + [CLOSES_OBJECT])
    ensures at < |bytes|
    ensures ReadObject(parts, bytes, at, depth)
      == Some((Object(MembersSettled(members)), at + |WrittenMembers(formats.spelling, members)| + 2))
    decreases members, 2
  {
    var inside := WrittenMembers(formats.spelling, members);
    InsideStands(bytes, at, OPENS_OBJECT, inside, CLOSES_OBJECT);
    if members != [] {
      StartsMember(formats.spelling, bytes, at + 1, members);
      MembersRead(parts, formats, bytes, at + 1, members, depth, at + |inside| + 2);
    }
    ObjectIs(parts, formats, bytes, at, members, depth, at + |inside| + 2);
  }

  lemma ObjectIs<N(!new)>(
    parts: Parts<N>, formats: Formats<N>, bytes: Bytes, at: nat, members: seq<(Bytes, Json<N>)>, depth: nat, end: nat)
    requires parts.Advance() && Faithful(parts, formats) && at < |bytes|
    requires members == [] ==> EatsOne(bytes, at + 1, CLOSES_OBJECT) && end == at + 2
    requires members != [] ==>
      && EatsOne(bytes, at + 1, QUOTE)
      && ReadMembers(parts, bytes, at + 1, depth) == Some((MembersSettled(members), end))
    ensures ReadObject(parts, bytes, at, depth) == Some((Object(MembersSettled(members)), end))
  {
    assert Look(TheParts, 0);
    assert parts.blank(bytes, at + 1) == at + 1;
  }

  lemma StartsMember<N(!new)>(spelling: Spelling<N>, bytes: Bytes, at: nat, members: seq<(Bytes, Json<N>)>)
    requires members != [] && Stands(bytes, at, WrittenMembers(spelling, members) + [CLOSES_OBJECT])
    ensures at < |bytes| && bytes[at] == QUOTE
  {
    assert (WrittenMembers(spelling, members) + [CLOSES_OBJECT])[0] == Quoted(members[0].0)[0];
  }

  lemma {:induction false} MembersRead<N(!new)>(
    parts: Parts<N>, formats: Formats<N>, bytes: Bytes, at: nat, members: seq<(Bytes, Json<N>)>, depth: nat, end: nat)
    requires parts.Advance() && Faithful(parts, formats)
    requires MembersEncoded(formats.utf8, members) && depth + DepthOfMembers(members) <= DEPTH_AT_MOST
    requires members != [] && Stands(bytes, at, WrittenMembers(formats.spelling, members) + [CLOSES_OBJECT])
    requires end == at + |WrittenMembers(formats.spelling, members)| + 1
    ensures ReadMembers(parts, bytes, at, depth) == Some((MembersSettled(members), end))
    decreases members, 1
  {
    var member := members[0];
    var from: nat := at + |Quoted(member.0)| + 1;
    var past: nat := from + |Written(formats.spelling, member.1)|;
    FirstReads(parts, formats, bytes, at, members, from, past, depth, end);
    if |members| > 1 {
      MembersRead(parts, formats, bytes, past + 1, members[1..], depth, end);
    }
    MembersAre(parts, formats, bytes, at, members, depth, from, past, end);
  }

  /** The first member reads back, and what is after it stands there still. */
  lemma {:induction false} FirstReads<N(!new)>(
    parts: Parts<N>, formats: Formats<N>, bytes: Bytes, at: nat, members: seq<(Bytes, Json<N>)>, from: nat, past: nat,
    depth: nat, end: nat)
    requires parts.Advance() && Faithful(parts, formats)
    requires MembersEncoded(formats.utf8, members) && depth + DepthOfMembers(members) <= DEPTH_AT_MOST
    requires members != [] && Stands(bytes, at, WrittenMembers(formats.spelling, members) + [CLOSES_OBJECT])
    requires end == at + |WrittenMembers(formats.spelling, members)| + 1
    requires from == at + |Quoted(members[0].0)| + 1 && past == from + |Written(formats.spelling, members[0].1)|
    ensures parts.key(bytes, at) == Some((members[0].0, from))
    ensures ReadValue(parts, bytes, from, depth + 1) == Some((Settled(members[0].1), past))
    ensures |members| == 1 ==> EatsOne(bytes, past, CLOSES_OBJECT) && end == past + 1
    ensures |members| > 1 ==>
      && EatsOne(bytes, past, COMMA)
      && Stands(bytes, past + 1, WrittenMembers(formats.spelling, members[1..]) + [CLOSES_OBJECT])
      && end == past + 1 + |WrittenMembers(formats.spelling, members[1..])| + 1
      && MembersEncoded(formats.utf8, members[1..]) && depth + DepthOfMembers(members[1..]) <= DEPTH_AT_MOST
    decreases members, 0
  {
    MembersStand(formats.spelling, bytes, at, members, from, past);
    MemberReads(parts, formats, bytes, at, members[0], from, past, depth);
  }

  lemma MembersAre<N(!new)>(
    parts: Parts<N>, formats: Formats<N>, bytes: Bytes, at: nat, members: seq<(Bytes, Json<N>)>, depth: nat, from: nat,
    past: nat, end: nat)
    requires parts.Advance() && Faithful(parts, formats) && members != []
    requires parts.key(bytes, at) == Some((members[0].0, from))
    requires ReadValue(parts, bytes, from, depth + 1) == Some((Settled(members[0].1), past))
    requires |members| == 1 ==> EatsOne(bytes, past, CLOSES_OBJECT) && end == past + 1
    requires |members| > 1 ==>
      EatsOne(bytes, past, COMMA)
      && ReadMembers(parts, bytes, past + 1, depth) == Some((MembersSettled(members[1..]), end))
    ensures ReadMembers(parts, bytes, at, depth) == Some((MembersSettled(members), end))
  {
    assert Look(TheParts, 0);
    SettledMembers(members);
    if |members| == 1 {
      MembersEnd(parts, bytes, at, depth, members[0].0, from, Settled(members[0].1), past);
    } else {
      MembersGoOn(parts, bytes, at, depth, members[0].0, from, Settled(members[0].1),
        past, MembersSettled(members[1..]), end);
    }
  }

  lemma {:induction false} MemberReads<N(!new)>(
    parts: Parts<N>, formats: Formats<N>, bytes: Bytes, at: nat, member: (Bytes, Json<N>), from: nat, past: nat,
    depth: nat)
    requires parts.Advance() && Faithful(parts, formats) && MemberEncoded(formats.utf8, member)
    requires depth + 1 + DepthOfMember(member) <= DEPTH_AT_MOST
    requires from == at + |Quoted(member.0)| + 1 && past == from + |Written(formats.spelling, member.1)|
    requires Stands(bytes, at, Quoted(member.0) + [COLON])
    requires Stands(bytes, from, Written(formats.spelling, member.1)) && Ends(bytes, past)
    ensures parts.key(bytes, at) == Some((member.0, from))
    ensures ReadValue(parts, bytes, from, depth + 1) == Some((Settled(member.1), past))
    decreases member, 2
  {
    assert Look(TheParts, 0);
    ValueReads(parts, formats, bytes, from, member.1, depth + 1);
  }

  /** The first member's key stands first, then its value, then a comma and the rest, or the
      brace. */
  lemma MembersStand<N(!new)>(
    spelling: Spelling<N>, bytes: Bytes, at: nat, members: seq<(Bytes, Json<N>)>, from: nat, past: nat)
    requires members != [] && Stands(bytes, at, WrittenMembers(spelling, members) + [CLOSES_OBJECT])
    requires from == at + |Quoted(members[0].0)| + 1 && past == from + |Written(spelling, members[0].1)|
    ensures Stands(bytes, at, Quoted(members[0].0) + [COLON])
    ensures Stands(bytes, from, Written(spelling, members[0].1)) && Ends(bytes, past)
    ensures |members| == 1 ==> EatsOne(bytes, past, CLOSES_OBJECT) && at + |WrittenMembers(spelling, members)| == past
    ensures |members| > 1 ==>
      && EatsOne(bytes, past, COMMA)
      && Stands(bytes, past + 1, WrittenMembers(spelling, members[1..]) + [CLOSES_OBJECT])
      && at + |WrittenMembers(spelling, members)| == past + 1 + |WrittenMembers(spelling, members[1..])|
  {
    MembersWritten(spelling, members);
    ApartStand(bytes, at, Quoted(members[0].0) + [COLON], Written(spelling, members[0].1),
      if |members| == 1 then None else Some(WrittenMembers(spelling, members[1..])), WrittenMembers(spelling, members),
      from, past);
  }

  lemma ApartStand(
    bytes: Bytes, at: nat, named: Bytes, value: Bytes, rest: Option<Bytes>, all: Bytes, from: nat, past: nat)
    requires all == if rest.None? then named + value else named + value + [COMMA] + rest.value
    requires from == at + |named| && past == from + |value| && Stands(bytes, at, all + [CLOSES_OBJECT])
    ensures Stands(bytes, at, named) && Stands(bytes, from, value) && Ends(bytes, past)
    ensures rest.None? ==> EatsOne(bytes, past, CLOSES_OBJECT) && at + |all| == past
    ensures rest.Some? ==>
      && EatsOne(bytes, past, COMMA) && Stands(bytes, past + 1, rest.value + [CLOSES_OBJECT])
      && at + |all| == past + 1 + |rest.value|
  {
    if rest.None? {
      LastStands(bytes, at, named, value, all);
    } else {
      OthersStand(bytes, at, named, value, rest.value, all);
    }
  }

  lemma MembersWritten<N(!new)>(spelling: Spelling<N>, members: seq<(Bytes, Json<N>)>)
    requires members != []
    ensures var named, value := Quoted(members[0].0) + [COLON], Written(spelling, members[0].1);
      WrittenMembers(spelling, members)
      == if |members| == 1 then named + value else named + value + [COMMA] + WrittenMembers(spelling, members[1..])
  {
  }

  lemma LastStands(bytes: Bytes, at: nat, named: Bytes, value: Bytes, all: Bytes)
    requires all == named + value && Stands(bytes, at, all + [CLOSES_OBJECT])
    ensures Stands(bytes, at, named) && Stands(bytes, at + |named|, value)
    ensures EatsOne(bytes, at + |all|, CLOSES_OBJECT)
  {
    Regrouped(named, value, [CLOSES_OBJECT]);
    StandsApart(bytes, at, named, value + [CLOSES_OBJECT]);
    StandsApart(bytes, at + |named|, value, [CLOSES_OBJECT]);
    LetterStands(bytes, at + |all|, CLOSES_OBJECT);
  }

  lemma OthersStand(bytes: Bytes, at: nat, named: Bytes, value: Bytes, rest: Bytes, all: Bytes)
    requires all == named + value + [COMMA] + rest && Stands(bytes, at, all + [CLOSES_OBJECT])
    ensures Stands(bytes, at, named) && Stands(bytes, at + |named|, value)
    ensures var past := at + |named| + |value|;
      EatsOne(bytes, past, COMMA) && Stands(bytes, past + 1, rest + [CLOSES_OBJECT])
  {
    var past, after := at + |named| + |value|, [COMMA] + (rest + [CLOSES_OBJECT]);
    Around(named + value, [COMMA], rest, [CLOSES_OBJECT]);
    Regrouped(named, value, after);
    StandsApart(bytes, at, named, value + after);
    StandsApart(bytes, at + |named|, value, after);
    StandsApart(bytes, past, [COMMA], rest + [CLOSES_OBJECT]);
    LetterStands(bytes, past, COMMA);
  }

  /** No other value is read where a part is. */
  ghost predicate Flat<N(!new)>(parts: Parts<N>) {
    forall bytes: Bytes, at: nat {:trigger parts.scalar(bytes, at)} | parts.scalar(bytes, at).Some? ::
      Scalar(parts.scalar(bytes, at).value.0)
  }

  /** Whatever is read, nothing nested deeper than may be is read. */
  lemma {:induction false} NothingDeeperIsRead<N(!new)>(parts: Parts<N>, bytes: Bytes, from: nat, depth: nat)
    requires parts.Advance() && Flat(parts)
    ensures var read := ReadValue(parts, bytes, from, depth);
      read.Some? ==> depth + Depth(read.value.0) <= DEPTH_AT_MOST
    decreases if from <= |bytes| then |bytes| - from else 0, 2
  {
    var at := parts.blank(bytes, from);
    if depth <= DEPTH_AT_MOST && at < |bytes| {
      var first := parts.blank(bytes, at + 1);
      if bytes[at] == OPENS_LIST {
        NoItemDeeperIsRead(parts, bytes, first, depth);
      } else if bytes[at] == OPENS_OBJECT {
        NoMemberDeeperIsRead(parts, bytes, first, depth);
      }
    }
  }

  lemma {:induction false} NoItemDeeperIsRead<N(!new)>(parts: Parts<N>, bytes: Bytes, at: nat, depth: nat)
    requires parts.Advance() && Flat(parts) && depth <= DEPTH_AT_MOST
    ensures var read := ReadItems(parts, bytes, at, depth);
      read.Some? ==> depth + DepthOfItems(read.value.0) <= DEPTH_AT_MOST
    decreases if at <= |bytes| then |bytes| - at else 0, 3
  {
    var item := ReadValue(parts, bytes, at, depth + 1);
    if item.Some? {
      NothingDeeperIsRead(parts, bytes, at, depth + 1);
      var past := parts.blank(bytes, item.value.1);
      if EatsOne(bytes, past, COMMA) {
        NoItemDeeperIsRead(parts, bytes, past + 1, depth);
        var rest := ReadItems(parts, bytes, past + 1, depth);
        if rest.Some? {
          assert ([item.value.0] + rest.value.0)[1..] == rest.value.0;
        }
      }
    }
  }

  lemma {:induction false} NoMemberDeeperIsRead<N(!new)>(parts: Parts<N>, bytes: Bytes, at: nat, depth: nat)
    requires parts.Advance() && Flat(parts) && depth <= DEPTH_AT_MOST
    ensures var read := ReadMembers(parts, bytes, at, depth);
      read.Some? ==> depth + DepthOfMembers(read.value.0) <= DEPTH_AT_MOST
    decreases if at <= |bytes| then |bytes| - at else 0, 3
  {
    var key := parts.key(bytes, at);
    if key.Some? {
      var json := ReadValue(parts, bytes, key.value.1, depth + 1);
      if json.Some? {
        NothingDeeperIsRead(parts, bytes, key.value.1, depth + 1);
        var past := parts.blank(bytes, json.value.1);
        if EatsOne(bytes, past, COMMA) {
          NoMemberDeeperIsRead(parts, bytes, past + 1, depth);
          var rest := ReadMembers(parts, bytes, past + 1, depth);
          if rest.Some? {
            assert ([(key.value.0, json.value.0)] + rest.value.0)[1..] == rest.value.0;
          }
        }
      }
    }
  }

  lemma {:induction false} SettledAsDeep<N(!new)>(json: Json<N>)
    ensures Depth(Settled(json)) == Depth(json)
    decreases json, 1
  {
    if json.List? {
      ItemsSettledAsDeep(json.items);
    } else if json.Object? {
      MembersSettledAsDeep(json.members);
    }
  }

  lemma {:induction false} ItemsSettledAsDeep<N(!new)>(items: seq<Json<N>>)
    ensures DepthOfItems(ItemsSettled(items)) == DepthOfItems(items)
    decreases items
  {
    if items != [] {
      SettledAsDeep(items[0]);
      ItemsSettledAsDeep(items[1..]);
      assert ItemsSettled(items)[1..] == ItemsSettled(items[1..]);
    }
  }

  lemma {:induction false} MembersSettledAsDeep<N(!new)>(members: seq<(Bytes, Json<N>)>)
    ensures DepthOfMembers(MembersSettled(members)) == DepthOfMembers(members)
    decreases members
  {
    if members != [] {
      MemberSettledAsDeep(members[0]);
      MembersSettledAsDeep(members[1..]);
      assert MembersSettled(members)[1..] == MembersSettled(members[1..]);
    }
  }

  lemma {:induction false} MemberSettledAsDeep<N(!new)>(member: (Bytes, Json<N>))
    ensures DepthOfMember(MemberSettled(member)) == DepthOfMember(member)
    decreases member
  {
    SettledAsDeep(member.1);
  }

  /** A value reads back as itself once settled exactly if it is nested no deeper than may be
      read. */
  lemma WrittenReadsBack<N(!new)>(formats: Formats<N>, json: Json<N>)
    requires formats.spelling.Lawful() && WellEncoded(formats.utf8, json)
    ensures JsonIn(formats, Written(formats.spelling, json)) == Some(Settled(json)) <==> Depth(json) <= DEPTH_AT_MOST
  {
    var written := Written(formats.spelling, json);
    if Depth(json) <= DEPTH_AT_MOST {
      assert Stands(written, 0, written);
      PartsFaithful(formats);
      ValueReads(PartsOf(formats), formats, written, 0, json, 0);
    } else {
      NothingDeeper(formats, written);
      SettledAsDeep(json);
    }
  }

  lemma NothingDeeper<N(!new)>(formats: Formats<N>, bytes: Bytes)
    ensures JsonIn(formats, bytes).Some? ==> Depth(JsonIn(formats, bytes).value) <= DEPTH_AT_MOST
  {
    NothingDeeperIsRead(PartsOf(formats), bytes, 0, 0);
  }

  /** Every code point past those of two bytes is read from the two halves of its pair. */
  lemma PairReads(bytes: Bytes, at: nat, code: nat)
    requires 0x1_0000 <= code < 0x11_0000
    requires FourHex(bytes, at) == Some(0xD800 + (code - 0x1_0000) / 1024) && Eats(bytes, at + 4, [BACKSLASH, 117])
    requires FourHex(bytes, at + 6) == Some(0xDC00 + (code - 0x1_0000) % 1024)
    ensures Encoded(code).Some? && Unicode(bytes, at) == Some((Encoded(code).value, at + 10))
  {
    var above := code - 0x1_0000;
    assert above / 1024 * 1024 + above % 1024 == above;
  }

  // ---------------------------------------------------------------- writing and reading with a cursor

  method WriteText(out: Bytes, text: Bytes) returns (longer: Bytes)
    ensures longer == out + Quoted(text)
  {
    longer := out + [QUOTE];
    for k := 0 to |text|
      invariant longer + EscapedAll(EscapeOf(), text[k..]) == out + [QUOTE] + EscapedAll(EscapeOf(), text)
    {
      assert text[k..][1..] == text[k + 1..];
      Regrouped(longer, Escaped(text[k]), EscapedAll(EscapeOf(), text[k + 1..]));
      longer := longer + Escaped(text[k]);
    }
    assert longer == out + [QUOTE] + EscapedAll(EscapeOf(), text);
    longer := longer + [QUOTE];
    assert longer == out + Quoted(text);
  }

  method Write<N(!new)>(spelling: Spelling<N>, json: Json<N>, out: Bytes) returns (longer: Bytes)
    ensures longer == out + Written(spelling, json)
    decreases json
  {
    match json {
      case Null =>
        longer := out + NULL;
      case Bool(truth) =>
        longer := out + if truth then TRUE else FALSE;
      case Number(number) =>
        longer := out + spelling.spell(number);
      case NotFinite =>
        longer := out + NULL;
      case Text(text) =>
        longer := WriteText(out, text);
      case List(items) =>
        longer := WriteItems(spelling, items, out + [OPENS_LIST]);
        Regrouped(out, [OPENS_LIST], WrittenItems(spelling, items));
        Regrouped(out, [OPENS_LIST] + WrittenItems(spelling, items), [CLOSES_LIST]);
        longer := longer + [CLOSES_LIST];
      case Object(members) =>
        longer := WriteMembers(spelling, members, out + [OPENS_OBJECT]);
        Regrouped(out, [OPENS_OBJECT], WrittenMembers(spelling, members));
        Regrouped(out, [OPENS_OBJECT] + WrittenMembers(spelling, members), [CLOSES_OBJECT]);
        longer := longer + [CLOSES_OBJECT];
    }
  }

  /** What is still to be written of the items once the first are. */
  ghost function LeftOfItems<N(!new)>(spelling: Spelling<N>, items: seq<Json<N>>, at: nat): (left: Bytes)
    requires at <= |items|
  {
    if at == 0 then WrittenItems(spelling, items)
    else if at == |items| then []
    else [COMMA] + WrittenItems(spelling, items[at..])
  }

  lemma OneItemLess<N(!new)>(spelling: Spelling<N>, items: seq<Json<N>>, at: nat)
    requires at < |items|
    ensures LeftOfItems(spelling, items, at)
      == (if at > 0 then [COMMA] else []) + (Written(spelling, items[at]) + LeftOfItems(spelling, items, at + 1))
  {
    var rest := items[at..];
    assert rest[0] == items[at] && rest[1..] == items[at + 1..] && items[0..] == items;
    if |rest| > 1 {
      Regrouped(Written(spelling, items[at]), [COMMA], WrittenItems(spelling, rest[1..]));
    }
  }

  method WriteItems<N(!new)>(spelling: Spelling<N>, items: seq<Json<N>>, out: Bytes) returns (longer: Bytes)
    ensures longer == out + WrittenItems(spelling, items)
    decreases items
  {
    longer := out;
    for at := 0 to |items|
      invariant longer + LeftOfItems(spelling, items, at) == out + WrittenItems(spelling, items)
    {
      OneItemLess(spelling, items, at);
      var comma := if at > 0 then [COMMA] else [];
      Regrouped(longer, comma, Written(spelling, items[at]) + LeftOfItems(spelling, items, at + 1));
      longer := longer + comma;
      Regrouped(longer, Written(spelling, items[at]), LeftOfItems(spelling, items, at + 1));
      longer := Write(spelling, items[at], longer);
    }
  }

  ghost function LeftOfMembers<N(!new)>(spelling: Spelling<N>, members: seq<(Bytes, Json<N>)>, at: nat): (left: Bytes)
    requires at <= |members|
  {
    if at == 0 then WrittenMembers(spelling, members)
    else if at == |members| then []
    else [COMMA] + WrittenMembers(spelling, members[at..])
  }

  lemma OneMemberLess<N(!new)>(spelling: Spelling<N>, members: seq<(Bytes, Json<N>)>, at: nat)
    requires at < |members|
    ensures LeftOfMembers(spelling, members, at)
      == (if at > 0 then [COMMA] else [])
         + (WrittenMember(spelling, members[at]) + LeftOfMembers(spelling, members, at + 1))
  {
    var rest := members[at..];
    assert rest[0] == members[at] && rest[1..] == members[at + 1..] && members[0..] == members;
    if |rest| > 1 {
      Regrouped(WrittenMember(spelling, members[at]), [COMMA], WrittenMembers(spelling, rest[1..]));
    }
  }

  method WriteMember<N(!new)>(spelling: Spelling<N>, member: (Bytes, Json<N>), out: Bytes) returns (longer: Bytes)
    ensures longer == out + WrittenMember(spelling, member)
    decreases member
  {
    longer := WriteText(out, member.0);
    longer := longer + [COLON];
    longer := Write(spelling, member.1, longer);
  }

  method WriteMembers<N(!new)>(spelling: Spelling<N>, members: seq<(Bytes, Json<N>)>, out: Bytes)
      returns (longer: Bytes)
    ensures longer == out + WrittenMembers(spelling, members)
    decreases members
  {
    longer := out;
    for at := 0 to |members|
      invariant longer + LeftOfMembers(spelling, members, at) == out + WrittenMembers(spelling, members)
    {
      OneMemberLess(spelling, members, at);
      var comma := if at > 0 then [COMMA] else [];
      Regrouped(longer, comma, WrittenMember(spelling, members[at]) + LeftOfMembers(spelling, members, at + 1));
      longer := longer + comma;
      Regrouped(longer, WrittenMember(spelling, members[at]), LeftOfMembers(spelling, members, at + 1));
      longer := WriteMember(spelling, members[at], longer);
    }
  }

  /** What was read is what reading from where it stood gives, and it stands past that now. */
  ghost predicate Stood<T>(read: Taken<T>, json: Option<T>, at: nat) {
    json == (if read.None? then None else Some(read.value.0)) && (read.Some? ==> at == read.value.1)
  }

  /** Reads on from where it stands, until something cannot be read. */
  class Reader<N(!new)> {
    const formats: Formats<N>
    const parts: Parts<N>
    const bytes: Bytes
    var at: nat

    /** That its parts are those of its formats is looked at only where a part is read. */
    ghost predicate Valid()
      reads this
    {
      && parts.Advance() && at <= |bytes|
      && forall fold: nat {:trigger Look(ThePieces, fold)} | Look(ThePieces, fold) :: parts == PartsOf(formats)
    }

    constructor (formats: Formats<N>, bytes: Bytes)
      ensures Valid() && parts == PartsOf(formats) && this.formats == formats && this.bytes == bytes && at == 0
    {
      this.formats, this.parts, this.bytes, this.at := formats, PartsOf(formats), bytes, 0;
    }

    method SkipBlank()
      requires Valid()
      modifies this
      ensures Valid() && at == parts.blank(bytes, old(at))
    {
      assert Look(ThePieces, 0);
      while at < |bytes| && IsBlank(bytes[at])
        invariant at <= |bytes| && Blank(bytes, at) == Blank(bytes, old(at))
        decreases |bytes| - at
      {
        at := at + 1;
      }
    }

    method EatOne(expected: byte) returns (eaten: bool)
      requires Valid()
      modifies this
      ensures Valid() && eaten == EatsOne(bytes, old(at), expected)
      ensures at == if eaten then old(at) + 1 else old(at)
    {
      eaten := EatsOne(bytes, at, expected);
      if eaten {
        at := at + 1;
      }
    }

    method Word(word: Bytes, json: Json<N>) returns (read: Option<Json<N>>)
      requires Valid() && |word| > 0
      modifies this
      ensures Valid() && old(at) <= at && Stood(ReadWord(bytes, old(at), word, json), read, at)
    {
      if !Eats(bytes, at, word) {
        return None;
      }
      at := at + |word|;
      read := Some(json);
    }

    method Numeral() returns (json: Option<Json<N>>)
      requires Valid()
      modifies this
      ensures Valid() && old(at) <= at && Stood(ReadNumber(formats.spelling, bytes, old(at)), json, at)
    {
      ghost var end := NumberEnd(bytes, at);
      var from := at;
      while at < |bytes| && OfNumber(bytes[at])
        invariant from <= at <= |bytes| && NumberEnd(bytes, at) == end
        decreases |bytes| - at
      {
        at := at + 1;
      }
      if at == from {
        return None;
      }
      var number := formats.spelling.parse(bytes[from..at]);
      json := if number.None? then None else Some(Number(number.value));
    }

    method ReadLetters() returns (text: Option<Bytes>)
      requires Valid()
      modifies this
      ensures Valid() && old(at) <= at && Stood(Letters(LetterOf(), bytes, old(at)), text, at)
    {
      var read: Bytes := [];
      ghost var from := at;
      OntoNothing(Letters(LetterOf(), bytes, at));
      while !EatsOne(bytes, at, QUOTE)
        invariant from <= at <= |bytes|
        invariant Letters(LetterOf(), bytes, from) == Onto(read, Letters(LetterOf(), bytes, at))
        decreases |bytes| - at
      {
        var letter := Letter(bytes, at);
        if letter.None? {
          return None;
        }
        OntoMore(read, letter.value.0, Letters(LetterOf(), bytes, letter.value.1));
        read := read + letter.value.0;
        at := letter.value.1;
      }
      assert Letters(LetterOf(), bytes, from) == Some((read + [], at + 1));
      assert read + [] == read;
      at := at + 1;
      text := Some(read);
    }

    method Text() returns (text: Option<Bytes>)
      requires Valid()
      modifies this
      ensures Valid() && old(at) <= at && Stood(ReadText(formats.utf8, bytes, old(at)), text, at)
    {
      var quoted := EatOne(QUOTE);
      if !quoted {
        return None;
      }
      text := ReadLetters();
      if text.Some? && !formats.utf8(text.value) {
        text := None;
      }
    }

    method Scalar() returns (json: Option<Json<N>>)
      requires Valid() && at < |bytes|
      modifies this
      ensures Valid() && old(at) <= at && Stood(parts.scalar(bytes, old(at)), json, at)
    {
      assert Look(ThePieces, 0);
      assert parts.scalar(bytes, at) == ReadScalar(formats, bytes, at);
      if bytes[at] == 110 {
        json := Word(NULL, Null);
      } else if bytes[at] == 116 {
        json := Word(TRUE, Bool(true));
      } else if bytes[at] == 102 {
        json := Word(FALSE, Bool(false));
      } else if bytes[at] == QUOTE {
        var text := Text();
        json := if text.None? then None else Some(Json.Text(text.value));
      } else {
        json := Numeral();
      }
    }

    method Key() returns (key: Option<Bytes>)
      requires Valid()
      modifies this
      ensures Valid() && old(at) <= at && Stood(parts.key(bytes, old(at)), key, at)
    {
      assert Look(ThePieces, 0);
      assert parts.key(bytes, at) == ReadKey(formats, bytes, at);
      SkipBlank();
      key := Text();
      if key.None? {
        return None;
      }
      SkipBlank();
      var colon := EatOne(COLON);
      if !colon {
        key := None;
      }
    }

    method Value(depth: nat) returns (json: Option<Json<N>>)
      requires Valid()
      modifies this
      ensures Valid() && old(at) <= at
      ensures Stood(ReadValue(parts, bytes, old(at), depth), json, at)
      decreases |bytes| - at, 2
    {
      ghost var from := at;
      SkipBlank();
      if depth > DEPTH_AT_MOST || at >= |bytes| {
        return None;
      }
      if bytes[at] == OPENS_LIST {
        json := ListOfItems(depth);
      } else if bytes[at] == OPENS_OBJECT {
        json := ObjectOfMembers(depth);
      } else {
        json := Scalar();
      }
    }

    method ListOfItems(depth: nat) returns (json: Option<Json<N>>)
      requires Valid() && at < |bytes|
      modifies this
      ensures Valid() && old(at) < at
      ensures Stood(ReadList(parts, bytes, old(at), depth), json, at)
      decreases |bytes| - at, 1
    {
      at := at + 1;
      SkipBlank();
      if EatsOne(bytes, at, CLOSES_LIST) {
        at := at + 1;
        return Some(List([]));
      }
      var items := Items(depth);
      json := if items.None? then None else Some(List(items.value));
    }

    /** Items until the bracket, with a comma between each and the next. */
    method Items(depth: nat) returns (items: Option<seq<Json<N>>>)
      requires Valid()
      modifies this
      ensures Valid() && old(at) <= at
      ensures Stood(ReadItems(parts, bytes, old(at), depth), items, at)
      decreases |bytes| - at, 3
    {
      var read: seq<Json<N>> := [];
      ghost var all := ReadItems(parts, bytes, at, depth);
      OntoNone(all);
      while true
        invariant Valid() && old(at) <= at
        invariant all == OntoItems(read, ReadItems(parts, bytes, at, depth))
        decreases |bytes| - at
      {
        ghost var start := at;
        var item := Value(depth + 1);
        if item.None? {
          return None;
        }
        ghost var past := at;
        SkipBlank();
        ItemsTurn(parts, bytes, start, depth, read, item.value, past, at);
        read := read + [item.value];
        var more := EatOne(COMMA);
        if !more {
          var closed := EatOne(CLOSES_LIST);
          return if closed then Some(read) else None;
        }
      }
    }

    method ObjectOfMembers(depth: nat) returns (json: Option<Json<N>>)
      requires Valid() && at < |bytes|
      modifies this
      ensures Valid() && old(at) < at
      ensures Stood(ReadObject(parts, bytes, old(at), depth), json, at)
      decreases |bytes| - at, 1
    {
      at := at + 1;
      SkipBlank();
      if EatsOne(bytes, at, CLOSES_OBJECT) {
        at := at + 1;
        return Some(Object([]));
      }
      var members := Members(depth);
      json := if members.None? then None else Some(Object(members.value));
    }

    /** Members until the brace, with a comma between each and the next. */
    method Members(depth: nat) returns (members: Option<seq<(Bytes, Json<N>)>>)
      requires Valid()
      modifies this
      ensures Valid() && old(at) <= at
      ensures Stood(ReadMembers(parts, bytes, old(at), depth), members, at)
      decreases |bytes| - at, 4
    {
      var read: seq<(Bytes, Json<N>)> := [];
      ghost var all := ReadMembers(parts, bytes, at, depth);
      OntoNone(all);
      while true
        invariant Valid() && old(at) <= at
        invariant all == OntoItems(read, ReadMembers(parts, bytes, at, depth))
        decreases |bytes| - at
      {
        ghost var start := at;
        var member := Member(depth);
        if member.None? {
          return None;
        }
        ghost var past := at;
        SkipBlank();
        MembersTurn(parts, bytes, start, depth, read, member.value, past, at);
        read := read + [member.value];
        var more := EatOne(COMMA);
        if !more {
          var closed := EatOne(CLOSES_OBJECT);
          return if closed then Some(read) else None;
        }
      }
    }

    method Member(depth: nat) returns (member: Option<(Bytes, Json<N>)>)
      requires Valid()
      modifies this
      ensures Valid() && old(at) <= at
      ensures Stood(ReadMember(parts, bytes, old(at), depth), member, at)
      decreases |bytes| - at, 3
    {
      var key := Key();
      if key.None? {
        return None;
      }
      var json := Value(depth + 1);
      member := if json.None? then None else Some((key.value, json.value));
    }
  }

  method Read<N(!new)>(formats: Formats<N>, bytes: Bytes) returns (json: Option<Json<N>>)
    ensures json == JsonIn(formats, bytes)
  {
    var reader := new Reader(formats, bytes);
    json := reader.Value(0);
    if json.Some? {
      reader.SkipBlank();
      if reader.at != |bytes| {
        json := None;
      }
    }
  }

  /** What the writer writes the reader reads back. */
  method WriteAndRead<N(!new)>(formats: Formats<N>, json: Json<N>) returns (back: Option<Json<N>>)
    requires formats.spelling.Lawful() && WellEncoded(formats.utf8, json)
    ensures back == Some(Settled(json)) <==> Depth(json) <= DEPTH_AT_MOST
  {
    var written := Write(formats.spelling, json, []);
    assert written == Written(formats.spelling, json);
    back := Read(formats, written);
    WrittenReadsBack(formats, json);
  }

  lemma OntoNone<T>(rest: Taken<seq<T>>)
    ensures OntoItems([], rest) == rest
  {
    if rest.Some? {
      assert [] + rest.value.0 == rest.value.0;
    }
  }

  lemma OntoOne<T>(read: seq<T>, item: T, rest: Taken<seq<T>>)
    ensures OntoItems(read, OntoItems([item], rest)) == OntoItems(read + [item], rest)
  {
    if rest.Some? {
      assert read + ([item] + rest.value.0) == read + [item] + rest.value.0;
    }
  }

  /** What is read once one more item is, by what stands after it. */
  lemma ItemsTurn<N(!new)>(
    parts: Parts<N>, bytes: Bytes, at: nat, depth: nat, read: seq<Json<N>>, item: Json<N>, past: nat, after: nat)
    requires parts.Advance() && ReadValue(parts, bytes, at, depth + 1) == Some((item, past))
    requires parts.blank(bytes, past) == after
    ensures OntoItems(read, ReadItems(parts, bytes, at, depth))
      == if EatsOne(bytes, after, COMMA) then OntoItems(read + [item], ReadItems(parts, bytes, after + 1, depth))
         else if EatsOne(bytes, after, CLOSES_LIST) then Some((read + [item], after + 1))
         else None
  {
    OntoOne(read, item, ReadItems(parts, bytes, after + 1, depth));
  }

  lemma MembersTurn<N(!new)>(
    parts: Parts<N>, bytes: Bytes, at: nat, depth: nat, read: seq<(Bytes, Json<N>)>, member: (Bytes, Json<N>),
    past: nat, after: nat)
    requires parts.Advance() && ReadMember(parts, bytes, at, depth) == Some((member, past))
    requires parts.blank(bytes, past) == after
    ensures OntoItems(read, ReadMembers(parts, bytes, at, depth))
      == if EatsOne(bytes, after, COMMA) then OntoItems(read + [member], ReadMembers(parts, bytes, after + 1, depth))
         else if EatsOne(bytes, after, CLOSES_OBJECT) then Some((read + [member], after + 1))
         else None
  {
    OntoOne(read, member, ReadMembers(parts, bytes, after + 1, depth));
  }

  function OntoItems<T>(items: seq<T>, rest: Taken<seq<T>>): Taken<seq<T>> {
    if rest.None? then None else Some((items + rest.value.0, rest.value.1))
  }

  function Onto(read: Bytes, rest: Option<(Bytes, nat)>): Option<(Bytes, nat)> {
    if rest.None? then None else Some((read + rest.value.0, rest.value.1))
  }

  lemma OntoNothing(rest: Option<(Bytes, nat)>)
    ensures Onto([], rest) == rest
  {
    if rest.Some? {
      assert [] + rest.value.0 == rest.value.0;
    }
  }

  lemma OntoMore(read: Bytes, letter: Bytes, rest: Option<(Bytes, nat)>)
    ensures Onto(read, Onto(letter, rest)) == Onto(read + letter, rest)
  {
    if rest.Some? {
      Regrouped(read, letter, rest.value.0);
    }
  }
}
