/** The DNS wire format of sections 4.1.1-4.1.4 and 3.3.14 of RFC 1035: an encoder of
    messages, and the query builder and TXT answer parser of the health probe. */
module Dns {
  import opened Wrappers

  type Byte = x: int | 0 <= x < 256
  type Bytes = seq<Byte>

  // ---- Messages and how they are written ----

  /** An owner name: labels that end at the root or in a compression pointer. */
  datatype Name = Root | Pointer(hi: Byte, lo: Byte) | Label(text: Bytes, rest: Name)

  datatype Question = Question(name: Name, kind: Bytes)

  /** The data of a TXT/IN record is a list of character strings, of any other record just bytes. */
  datatype Data = Texts(strings: seq<Bytes>) | Raw(bytes: Bytes)

  datatype Record = Record(name: Name, typ: nat, cls: nat, ttl: Bytes, data: Data)

  datatype Message = Message(header: Bytes, questions: seq<Question>, answers: seq<Record>, rest: Bytes)

  const HEADER: nat := 12
  const TXT: nat := 16
  const IN: nat := 1

  function Word(n: nat): (b: Bytes)
    requires n < 0x1_0000
    ensures |b| == 2
  {
    [n / 256, n % 256]
  }

  function Read(b: Bytes, at: nat): (n: nat)
    requires at + 2 <= |b|
    ensures n < 0x1_0000
  {
    var hi: int := b[at];
    hi * 256 + b[at + 1]
  }

  predicate WellFormedName(n: Name) {
    match n
    case Root => true
    case Pointer(hi, _) => hi >= 192
    case Label(text, rest) => 0 < |text| < 64 && WellFormedName(rest)
  }

  function EncodeName(n: Name): Bytes
    requires WellFormedName(n)
  {
    match n
    case Root => [0]
    case Pointer(hi, lo) => [hi, lo]
    case Label(text, rest) => [|text|] + text + EncodeName(rest)
  }

  predicate WellFormedTexts(strings: seq<Bytes>) {
    forall s :: s in strings ==> |s| < 256
  }

  function EncodeTexts(strings: seq<Bytes>): Bytes
    requires WellFormedTexts(strings)
  {
    if strings == [] then [] else [|strings[0]|] + strings[0] + EncodeTexts(strings[1..])
  }

  function EncodeData(d: Data): Bytes
    requires d.Texts? ==> WellFormedTexts(d.strings)
  {
    match d
    case Texts(strings) => EncodeTexts(strings)
    case Raw(bytes) => bytes
  }

  predicate WellFormedQuestion(q: Question) {
    WellFormedName(q.name) && |q.kind| == 4
  }

  function EncodeQuestion(q: Question): Bytes
    requires WellFormedQuestion(q)
  {
    EncodeName(q.name) + q.kind
  }

  predicate WellFormedRecord(r: Record) {
    && WellFormedName(r.name)
    && r.typ < 0x1_0000 && r.cls < 0x1_0000 && |r.ttl| == 4
    && (r.data.Texts? <==> r.typ == TXT && r.cls == IN)
    && (r.data.Texts? ==> WellFormedTexts(r.data.strings))
    && |EncodeData(r.data)| < 0x1_0000
  }

  function EncodeFixed(r: Record): Bytes
    requires WellFormedRecord(r)
  {
    Word(r.typ) + Word(r.cls) + r.ttl + Word(|EncodeData(r.data)|)
  }

  function EncodeRecord(r: Record): Bytes
    requires WellFormedRecord(r)
  {
    EncodeName(r.name) + EncodeFixed(r) + EncodeData(r.data)
  }

  predicate WellFormedQuestions(qs: seq<Question>) {
    forall q :: q in qs ==> WellFormedQuestion(q)
  }

  function EncodeQuestions(qs: seq<Question>): Bytes
    requires WellFormedQuestions(qs)
  {
    if qs == [] then [] else EncodeQuestion(qs[0]) + EncodeQuestions(qs[1..])
  }

  predicate WellFormedRecords(rs: seq<Record>) {
    forall r :: r in rs ==> WellFormedRecord(r)
  }

  function EncodeRecords(rs: seq<Record>): Bytes
    requires WellFormedRecords(rs)
  {
    if rs == [] then [] else EncodeRecord(rs[0]) + EncodeRecords(rs[1..])
  }

  predicate WellFormed(m: Message) {
    && |m.header| == HEADER
    && WellFormedQuestions(m.questions) && Read(m.header, 4) == |m.questions|
    && WellFormedRecords(m.answers) && Read(m.header, 6) == |m.answers|
  }

  function Encode(m: Message): Bytes
    requires WellFormed(m)
  {
    m.header + EncodeQuestions(m.questions) + EncodeRecords(m.answers) + m.rest
  }

  function Flatten(strings: seq<Bytes>): Bytes {
    if strings == [] then [] else strings[0] + Flatten(strings[1..])
  }

  /** What the TXT records among `rs` say, in order. */
  function Answers(rs: seq<Record>): seq<Bytes> {
    if rs == [] then []
    else (if rs[0].data.Texts? then [Flatten(rs[0].data.strings)] else []) + Answers(rs[1..])
  }

  // ---- Reading a message back ----

  datatype Parse<T> = Failed | Parsed(value: T, next: nat)

  /** `part` is what `msg` holds at `off`. */
  predicate At(msg: Bytes, off: nat, part: Bytes) {
    off + |part| <= |msg| && msg[off..off + |part|] == part
  }

  function ParseName(msg: Bytes, off: nat): (p: Parse<Name>)
    requires off <= |msg|
    ensures p.Parsed? ==> off < p.next <= |msg|
    decreases |msg| - off
  {
    if off >= |msg| then Failed
    else if msg[off] == 0 then Parsed(Root, off + 1)
    else if msg[off] >= 192 then
      if off + 1 >= |msg| then Failed else Parsed(Pointer(msg[off], msg[off + 1]), off + 2)
    else if msg[off] >= 64 || off + 1 + msg[off] > |msg| then Failed
    else
      var p := ParseName(msg, off + 1 + msg[off]);
      if p.Failed? then Failed else Parsed(Label(msg[off + 1..off + 1 + msg[off]], p.value), p.next)
  }

  function ParseTexts(msg: Bytes, pos: nat, end: nat): Option<seq<Bytes>>
    requires pos <= end <= |msg|
    decreases end - pos
  {
    if pos == end then Some([])
    else if pos + 1 + msg[pos] > end then None
    else
      var p := ParseTexts(msg, pos + 1 + msg[pos], end);
      if p.None? then None else Some([msg[pos + 1..pos + 1 + msg[pos]]] + p.value)
  }

  function ParseQuestion(msg: Bytes, off: nat): (p: Parse<Question>)
    requires off <= |msg|
    ensures p.Parsed? ==> off < p.next <= |msg|
  {
    var n := ParseName(msg, off);
    if n.Failed? || n.next + 4 > |msg| then Failed
    else Parsed(Question(n.value, msg[n.next..n.next + 4]), n.next + 4)
  }

  function ParseData(msg: Bytes, typ: nat, cls: nat, off: nat, end: nat): Option<Data>
    requires off <= end <= |msg|
  {
    if typ == TXT && cls == IN then
      var p := ParseTexts(msg, off, end);
      if p.None? then None else Some(Texts(p.value))
    else Some(Raw(msg[off..end]))
  }

  function ParseRecord(msg: Bytes, off: nat): (p: Parse<Record>)
    requires off <= |msg|
    ensures p.Parsed? ==> off < p.next <= |msg|
  {
    var n := ParseName(msg, off);
    if n.Failed? || n.next + 10 > |msg| then Failed
    else
      var typ, cls, body := Read(msg, n.next), Read(msg, n.next + 2), n.next + 10;
      var end := body + Read(msg, n.next + 8);
      if end > |msg| then Failed
      else
        var d := ParseData(msg, typ, cls, body, end);
        if d.None? then Failed
        else Parsed(Record(n.value, typ, cls, msg[n.next + 4..n.next + 8], d.value), end)
  }

  function ParseQuestions(msg: Bytes, off: nat, count: nat): (p: Parse<seq<Question>>)
    requires off <= |msg|
    ensures p.Parsed? ==> off <= p.next <= |msg| && |p.value| == count
    decreases count
  {
    if count == 0 then Parsed([], off)
    else
      var q := ParseQuestion(msg, off);
      if q.Failed? then Failed
      else
        var p := ParseQuestions(msg, q.next, count - 1);
        if p.Failed? then Failed else Parsed([q.value] + p.value, p.next)
  }

  function ParseRecords(msg: Bytes, off: nat, count: nat): (p: Parse<seq<Record>>)
    requires off <= |msg|
    ensures p.Parsed? ==> off <= p.next <= |msg| && |p.value| == count
    decreases count
  {
    if count == 0 then Parsed([], off)
    else
      var r := ParseRecord(msg, off);
      if r.Failed? then Failed
      else
        var p := ParseRecords(msg, r.next, count - 1);
        if p.Failed? then Failed else Parsed([r.value] + p.value, p.next)
  }

  function ParseMessage(msg: Bytes): Option<Message> {
    if |msg| < HEADER then None
    else
      var qs := ParseQuestions(msg, HEADER, Read(msg, 4));
      if qs.Failed? then None
      else
        var rs := ParseRecords(msg, qs.next, Read(msg, 6));
        if rs.Failed? then None
        else Some(Message(msg[..HEADER], qs.value, rs.value, msg[rs.next..]))
  }

  // ---- Reading is the exact inverse of writing ----

  lemma AtConcat(msg: Bytes, off: nat, a: Bytes, b: Bytes)
    ensures At(msg, off, a + b) <==> At(msg, off, a) && At(msg, off + |a|, b)
  {
    if off + |a| + |b| <= |msg| {
      var whole := msg[off..off + |a + b|];
      assert whole[..|a|] == msg[off..off + |a|] && whole[|a|..] == msg[off + |a|..off + |a| + |b|];
      assert (a + b)[..|a|] == a && (a + b)[|a|..] == b;
      assert whole == whole[..|a|] + whole[|a|..];
    }
  }

  lemma AtByte(msg: Bytes, off: nat, x: Byte)
    ensures At(msg, off, [x]) <==> off < |msg| && msg[off] == x
  {
    if off < |msg| {
      assert msg[off..off + 1] == [msg[off]];
    }
  }

  lemma AtPair(msg: Bytes, off: nat, x: Byte, y: Byte)
    ensures At(msg, off, [x, y]) <==> off + 2 <= |msg| && msg[off] == x && msg[off + 1] == y
  {
    if off + 2 <= |msg| {
      assert msg[off..off + 2] == [msg[off], msg[off + 1]];
    }
  }

  lemma AtWord(msg: Bytes, off: nat, n: nat)
    requires n < 0x1_0000
    ensures At(msg, off, Word(n)) <==> off + 2 <= |msg| && Read(msg, off) == n
  {
    AtPair(msg, off, n / 256, n % 256);
  }

  /** A length byte, that many bytes, and what follows. */
  lemma AtCounted(msg: Bytes, off: nat, text: Bytes, rest: Bytes)
    requires |text| < 256
    ensures At(msg, off, [|text|] + text + rest) <==>
              && off + 1 + |text| <= |msg| && msg[off] == |text| && msg[off + 1..off + 1 + |text|] == text
              && At(msg, off + 1 + |text|, rest)
  {
    AtConcat(msg, off, [|text|] + text, rest);
    AtConcat(msg, off, [|text|], text);
    AtByte(msg, off, |text|);
  }

  lemma {:induction false} NameReadsBack(msg: Bytes, off: nat)
    requires off <= |msg| && ParseName(msg, off).Parsed?
    ensures var p := ParseName(msg, off);
            WellFormedName(p.value) && At(msg, off, EncodeName(p.value)) && p.next == off + |EncodeName(p.value)|
    decreases |msg| - off
  {
    hide At;
    if msg[off] == 0 {
      AtByte(msg, off, 0);
    }
    if msg[off] >= 192 {
      AtPair(msg, off, msg[off], msg[off + 1]);
    } else if msg[off] > 0 {
      var text, rest := msg[off + 1..off + 1 + msg[off]], off + 1 + msg[off];
      NameReadsBack(msg, rest);
      AtCounted(msg, off, text, EncodeName(ParseName(msg, rest).value));
    }
  }

  lemma {:induction false} NameWritten(msg: Bytes, off: nat, n: Name)
    requires WellFormedName(n) && At(msg, off, EncodeName(n))
    ensures ParseName(msg, off) == Parsed(n, off + |EncodeName(n)|)
    decreases n
  {
    match n
    case Root =>
      AtByte(msg, off, 0);
    case Pointer(hi, lo) =>
      AtPair(msg, off, hi, lo);
    case Label(text, rest) =>
      hide At;
      AtCounted(msg, off, text, EncodeName(rest));
      NameWritten(msg, off + 1 + |text|, rest);
  }

  lemma {:induction false} TextsReadBack(msg: Bytes, pos: nat, end: nat)
    requires pos <= end <= |msg| && ParseTexts(msg, pos, end).Some?
    ensures var strings := ParseTexts(msg, pos, end).value;
            WellFormedTexts(strings) && At(msg, pos, EncodeTexts(strings)) && pos + |EncodeTexts(strings)| == end
    decreases end - pos
  {
    if pos < end {
      hide At;
      var text, next := msg[pos + 1..pos + 1 + msg[pos]], pos + 1 + msg[pos];
      TextsReadBack(msg, next, end);
      AtCounted(msg, pos, text, EncodeTexts(ParseTexts(msg, next, end).value));
    }
  }

  lemma {:induction false} TextsWritten(msg: Bytes, pos: nat, strings: seq<Bytes>)
    requires WellFormedTexts(strings) && At(msg, pos, EncodeTexts(strings))
    ensures ParseTexts(msg, pos, pos + |EncodeTexts(strings)|) == Some(strings)
    decreases |strings|
  {
    if strings != [] {
      var text := strings[0];
      AtCounted(msg, pos, text, EncodeTexts(strings[1..]));
      TextsWritten(msg, pos + 1 + |text|, strings[1..]);
      assert strings == [strings[0]] + strings[1..];
    }
  }

  lemma FixedAt(msg: Bytes, off: nat, r: Record)
    requires WellFormedRecord(r)
    ensures At(msg, off, EncodeFixed(r)) <==>
              && off + 10 <= |msg| && Read(msg, off) == r.typ && Read(msg, off + 2) == r.cls
              && msg[off + 4..off + 8] == r.ttl && Read(msg, off + 8) == |EncodeData(r.data)|
  {
    hide EncodeData, Read, Word;
    var a, b, d := Word(r.typ), Word(r.cls), Word(|EncodeData(r.data)|);
    AtConcat(msg, off, a + b + r.ttl, d);
    AtConcat(msg, off, a + b, r.ttl);
    AtConcat(msg, off, a, b);
    AtWord(msg, off, r.typ);
    AtWord(msg, off + 2, r.cls);
    AtWord(msg, off + 8, |EncodeData(r.data)|);
  }

  lemma RecordAt(msg: Bytes, off: nat, r: Record)
    requires WellFormedRecord(r)
    ensures At(msg, off, EncodeRecord(r)) <==>
              && At(msg, off, EncodeName(r.name))
              && At(msg, off + |EncodeName(r.name)|, EncodeFixed(r))
              && At(msg, off + |EncodeName(r.name)| + 10, EncodeData(r.data))
  {
    hide EncodeData, EncodeName, At;
    AtConcat(msg, off, EncodeName(r.name) + EncodeFixed(r), EncodeData(r.data));
    AtConcat(msg, off, EncodeName(r.name), EncodeFixed(r));
  }

  lemma RecordReadsBack(msg: Bytes, off: nat)
    requires off <= |msg| && ParseRecord(msg, off).Parsed?
    ensures var p := ParseRecord(msg, off);
            WellFormedRecord(p.value) && At(msg, off, EncodeRecord(p.value)) && p.next == off + |EncodeRecord(p.value)|
  {
    hide ParseName, ParseTexts, EncodeName, EncodeTexts, Read;
    var r, body := ParseRecord(msg, off).value, ParseName(msg, off).next + 10;
    NameReadsBack(msg, off);
    if r.data.Texts? {
      TextsReadBack(msg, body, ParseRecord(msg, off).next);
    }
    FixedAt(msg, body - 10, r);
    RecordAt(msg, off, r);
  }

  lemma RecordWritten(msg: Bytes, off: nat, r: Record)
    requires WellFormedRecord(r) && At(msg, off, EncodeRecord(r))
    ensures ParseRecord(msg, off) == Parsed(r, off + |EncodeRecord(r)|)
  {
    hide ParseName, ParseTexts, EncodeName, EncodeTexts, Read;
    RecordAt(msg, off, r);
    NameWritten(msg, off, r.name);
    var body := off + |EncodeName(r.name)| + 10;
    FixedAt(msg, body - 10, r);
    if r.data.Texts? {
      TextsWritten(msg, body, r.data.strings);
    }
  }

  lemma QuestionReadsBack(msg: Bytes, off: nat)
    requires off <= |msg| && ParseQuestion(msg, off).Parsed?
    ensures var p := ParseQuestion(msg, off);
            WellFormedQuestion(p.value) && At(msg, off, EncodeQuestion(p.value)) && p.next == off + |EncodeQuestion(p.value)|
  {
    hide ParseName, EncodeName;
    NameReadsBack(msg, off);
    var q := ParseQuestion(msg, off).value;
    AtConcat(msg, off, EncodeName(q.name), q.kind);
  }

  lemma QuestionWritten(msg: Bytes, off: nat, q: Question)
    requires WellFormedQuestion(q) && At(msg, off, EncodeQuestion(q))
    ensures ParseQuestion(msg, off) == Parsed(q, off + |EncodeQuestion(q)|)
  {
    hide ParseName, EncodeName;
    AtConcat(msg, off, EncodeName(q.name), q.kind);
    NameWritten(msg, off, q.name);
  }

  lemma {:induction false} QuestionsReadBack(msg: Bytes, off: nat, count: nat)
    requires off <= |msg| && ParseQuestions(msg, off, count).Parsed?
    ensures var p := ParseQuestions(msg, off, count);
            WellFormedQuestions(p.value) && At(msg, off, EncodeQuestions(p.value)) && p.next == off + |EncodeQuestions(p.value)|
    decreases count
  {
    hide ParseQuestion, EncodeQuestion, WellFormedQuestion;
    if count > 0 {
      hide At;
      QuestionReadsBack(msg, off);
      var q := ParseQuestion(msg, off);
      QuestionsReadBack(msg, q.next, count - 1);
      AtConcat(msg, off, EncodeQuestion(q.value), EncodeQuestions(ParseQuestions(msg, q.next, count - 1).value));
    }
  }

  lemma {:induction false} QuestionsWritten(msg: Bytes, off: nat, qs: seq<Question>)
    requires WellFormedQuestions(qs) && At(msg, off, EncodeQuestions(qs))
    ensures ParseQuestions(msg, off, |qs|) == Parsed(qs, off + |EncodeQuestions(qs)|)
    decreases |qs|
  {
    hide ParseQuestion, EncodeQuestion, WellFormedQuestion;
    if qs != [] {
      AtConcat(msg, off, EncodeQuestion(qs[0]), EncodeQuestions(qs[1..]));
      QuestionWritten(msg, off, qs[0]);
      QuestionsWritten(msg, off + |EncodeQuestion(qs[0])|, qs[1..]);
      assert qs == [qs[0]] + qs[1..];
    }
  }

  lemma {:induction false} RecordsReadBack(msg: Bytes, off: nat, count: nat)
    requires off <= |msg| && ParseRecords(msg, off, count).Parsed?
    ensures var p := ParseRecords(msg, off, count);
            WellFormedRecords(p.value) && At(msg, off, EncodeRecords(p.value)) && p.next == off + |EncodeRecords(p.value)|
    decreases count
  {
    hide ParseRecord, EncodeRecord, WellFormedRecord;
    if count > 0 {
      hide At;
      RecordReadsBack(msg, off);
      var r := ParseRecord(msg, off);
      RecordsReadBack(msg, r.next, count - 1);
      AtConcat(msg, off, EncodeRecord(r.value), EncodeRecords(ParseRecords(msg, r.next, count - 1).value));
    }
  }

  lemma {:induction false} RecordsWritten(msg: Bytes, off: nat, rs: seq<Record>)
    requires WellFormedRecords(rs) && At(msg, off, EncodeRecords(rs))
    ensures ParseRecords(msg, off, |rs|) == Parsed(rs, off + |EncodeRecords(rs)|)
    decreases |rs|
  {
    hide ParseRecord, EncodeRecord, WellFormedRecord;
    if rs != [] {
      AtConcat(msg, off, EncodeRecord(rs[0]), EncodeRecords(rs[1..]));
      RecordWritten(msg, off, rs[0]);
      RecordsWritten(msg, off + |EncodeRecord(rs[0])|, rs[1..]);
      assert rs == [rs[0]] + rs[1..];
    }
  }

  lemma ParsedIsEncoded(msg: Bytes)
    requires ParseMessage(msg).Some?
    ensures WellFormed(ParseMessage(msg).value) && Encode(ParseMessage(msg).value) == msg
  {
    hide ParseQuestions, ParseRecords, EncodeQuestions, EncodeRecords, WellFormedQuestions, WellFormedRecords;
    var qs := ParseQuestions(msg, HEADER, Read(msg, 4));
    var rs := ParseRecords(msg, qs.next, Read(msg, 6));
    QuestionsReadBack(msg, HEADER, Read(msg, 4));
    RecordsReadBack(msg, qs.next, Read(msg, 6));
    assert msg == msg[..HEADER] + msg[HEADER..qs.next] + msg[qs.next..rs.next] + msg[rs.next..];
  }

  lemma EncodedIsParsed(m: Message)
    requires WellFormed(m)
    ensures ParseMessage(Encode(m)) == Some(m)
  {
    hide ParseQuestions, ParseRecords, EncodeQuestions, EncodeRecords, WellFormedQuestions, WellFormedRecords;
    var msg, body, records := Encode(m), EncodeQuestions(m.questions), EncodeRecords(m.answers);
    assert msg[..HEADER] == m.header;
    assert msg[HEADER..HEADER + |body|] == body;
    assert msg[HEADER + |body|..HEADER + |body| + |records|] == records;
    assert msg[HEADER + |body| + |records|..] == m.rest;
    QuestionsWritten(msg, HEADER, m.questions);
    RecordsWritten(msg, HEADER + |body|, m.answers);
  }

  /** Reading is the exact inverse of writing: `msg` reads as `m` just when `m` is well formed
      and written as `msg`. So no message has two readings. */
  lemma ParsingInvertsEncoding(msg: Bytes, m: Message)
    ensures ParseMessage(msg) == Some(m) <==> WellFormed(m) && Encode(m) == msg
  {
    if ParseMessage(msg) == Some(m) {
      ParsedIsEncoded(msg);
    }
    if WellFormed(m) {
      EncodedIsParsed(m);
    }
  }

  /** Whatever follows the records changes nothing of what they say. */
  lemma TrailingBytesSayNothing(msg: Bytes, extra: Bytes)
    requires Said(msg).Some?
    ensures Said(msg + extra) == Said(msg)
  {
    hide WellFormed, ParseMessage;
    var m := ParseMessage(msg).value;
    ParsingInvertsEncoding(msg, m);
    var m' := m.(rest := m.rest + extra);
    assert WellFormed(m') by { SameParts(m, m'); }
    assert Encode(m') == Encode(m) + extra;
    ParsingInvertsEncoding(msg + extra, m');
  }

  lemma SameParts(m: Message, m': Message)
    requires WellFormed(m) && m' == m.(rest := m'.rest)
    ensures WellFormed(m')
  {
  }

  // ---- What the code does not check ----

  /** Where a compression pointer leads. */
  function Offset(hi: Byte, lo: Byte): nat {
    hi % 64 * 256 + lo
  }

  /** The octets of the name written at `start` with its pointers followed, if each of
      them leads to a name that begins before the one it ends. */
  function Octets(msg: Bytes, n: Name, start: nat): Option<nat>
    requires start <= |msg|
    decreases start, n
  {
    match n
    case Root => Some(1)
    case Pointer(hi, lo) =>
      var t := Offset(hi, lo);
      if t < HEADER || t >= start then None
      else
        var p := ParseName(msg, t);
        if p.Failed? then None else Octets(msg, p.value, t)
    case Label(text, rest) =>
      var k := Octets(msg, rest, start);
      if k.None? then None else Some(1 + |text| + k.value)
  }

  const NAME_OCTETS: nat := 255

  predicate StrictName(msg: Bytes, n: Name, start: nat)
    requires start <= |msg|
  {
    Octets(msg, n, start).Some? && Octets(msg, n, start).value <= NAME_OCTETS
  }

  predicate StrictQuestions(msg: Bytes, qs: seq<Question>, off: nat)
    requires WellFormedQuestions(qs) && off + |EncodeQuestions(qs)| <= |msg|
  {
    qs == [] || (StrictName(msg, qs[0].name, off) && StrictQuestions(msg, qs[1..], off + |EncodeQuestion(qs[0])|))
  }

  predicate StrictRecords(msg: Bytes, rs: seq<Record>, off: nat)
    requires WellFormedRecords(rs) && off + |EncodeRecords(rs)| <= |msg|
  {
    rs == [] ||
    (&& StrictName(msg, rs[0].name, off) && (rs[0].data.Texts? ==> rs[0].data.strings != [])
     && StrictRecords(msg, rs[1..], off + |EncodeRecord(rs[0])|))
  }

  /** Every name of the message is within the limit of section 2.3.4 of RFC 1035, every
      pointer leads to a prior name, as section 4.1.4 asks, and TXT data has at least one
      character string, as section 3.3.14 does. */
  predicate Strict(m: Message) {
    && WellFormed(m)
    && StrictQuestions(Encode(m), m.questions, HEADER)
    && StrictRecords(Encode(m), m.answers, HEADER + |EncodeQuestions(m.questions)|)
  }

  // ---- Its flaws, found in the bytes ----

  /** What makes an accepted message less than strict: the name at `name` has a pointer, at
      `at`, that does not lead to a name before it; the name at `name` is too long; the TXT
      record whose data would begin at `data` has none. */
  datatype Flaw = StrayPointer(name: nat, at: nat) | LongName(name: nat) | EmptyText(data: nat)

  datatype Walk = Ends(octets: nat) | Strays(at: nat)

  /** Walks a name, its current segment begun at `start`, through its pointers. */
  function WalkName(msg: Bytes, start: nat, off: nat): Walk
    requires start <= |msg| && off <= |msg|
    decreases start, |msg| - off
  {
    if off >= |msg| then Strays(off)
    else if msg[off] == 0 then Ends(1)
    else if msg[off] >= 192 then
      if off + 1 >= |msg| then Strays(off)
      else
        var t := Offset(msg[off], msg[off + 1]);
        if t < HEADER || t >= start || ParseName(msg, t).Failed? then Strays(off) else WalkName(msg, t, t)
    else if msg[off] >= 64 || off + 1 + msg[off] > |msg| then Strays(off)
    else
      var w := WalkName(msg, start, off + 1 + msg[off]);
      if w.Ends? then Ends(1 + msg[off] + w.octets) else w
  }

  function NameFlaw(msg: Bytes, off: nat): Option<Flaw>
    requires off <= |msg|
  {
    match WalkName(msg, off, off)
    case Strays(at) => Some(StrayPointer(off, at))
    case Ends(octets) => if octets > NAME_OCTETS then Some(LongName(off)) else None
  }

  function QuestionsFlaw(msg: Bytes, off: nat, count: nat): Option<Flaw>
    requires off <= |msg| && ParseQuestions(msg, off, count).Parsed?
    decreases count
  {
    if count == 0 then None
    else if NameFlaw(msg, off).Some? then NameFlaw(msg, off)
    else QuestionsFlaw(msg, ParseName(msg, off).next + 4, count - 1)
  }

  function RecordFlaw(msg: Bytes, off: nat): Option<Flaw>
    requires off <= |msg| && ParseRecord(msg, off).Parsed?
  {
    var fixed := ParseName(msg, off).next;
    if NameFlaw(msg, off).Some? then NameFlaw(msg, off)
    else if Read(msg, fixed) == TXT && Read(msg, fixed + 2) == IN && Read(msg, fixed + 8) == 0 then Some(EmptyText(fixed + 10))
    else None
  }

  function RecordsFlaw(msg: Bytes, off: nat, count: nat): Option<Flaw>
    requires off <= |msg| && ParseRecords(msg, off, count).Parsed?
    decreases count
  {
    if count == 0 then None
    else if RecordFlaw(msg, off).Some? then RecordFlaw(msg, off)
    else RecordsFlaw(msg, ParseRecord(msg, off).next, count - 1)
  }

  /** The first flaw of an accepted message, in the order of its bytes. */
  function FirstFlaw(msg: Bytes): Option<Flaw>
    requires ParseMessage(msg).Some?
  {
    var qs := ParseQuestions(msg, HEADER, Read(msg, 4));
    var flaw := QuestionsFlaw(msg, HEADER, Read(msg, 4));
    if flaw.Some? then flaw else RecordsFlaw(msg, qs.next, Read(msg, 6))
  }

  lemma {:induction false} WalkCountsOctets(msg: Bytes, start: nat, off: nat)
    requires start <= |msg| && off <= |msg| && ParseName(msg, off).Parsed?
    ensures var k := Octets(msg, ParseName(msg, off).value, start);
            if k.Some? then WalkName(msg, start, off) == Ends(k.value) else WalkName(msg, start, off).Strays?
    decreases start, |msg| - off
  {
    if msg[off] >= 192 {
      var t := Offset(msg[off], msg[off + 1]);
      if HEADER <= t < start && ParseName(msg, t).Parsed? {
        WalkCountsOctets(msg, t, t);
      }
    } else if msg[off] > 0 {
      WalkCountsOctets(msg, start, off + 1 + msg[off]);
    }
  }

  lemma NameFlawIff(msg: Bytes, off: nat)
    requires off <= |msg| && ParseName(msg, off).Parsed?
    ensures NameFlaw(msg, off).None? <==> StrictName(msg, ParseName(msg, off).value, off)
  {
    WalkCountsOctets(msg, off, off);
  }

  lemma {:induction false} QuestionsFlawIff(msg: Bytes, off: nat, count: nat)
    requires off <= |msg| && ParseQuestions(msg, off, count).Parsed?
    ensures var p := ParseQuestions(msg, off, count);
            && WellFormedQuestions(p.value) && p.next == off + |EncodeQuestions(p.value)|
            && (QuestionsFlaw(msg, off, count).None? <==> StrictQuestions(msg, p.value, off))
    decreases count
  {
    hide StrictName, NameFlaw, EncodeName, ParseName;
    QuestionsReadBack(msg, off, count);
    if count > 0 {
      var q := ParseQuestion(msg, off);
      NameFlawIff(msg, off);
      QuestionReadsBack(msg, off);
      QuestionsFlawIff(msg, q.next, count - 1);
      assert ParseQuestions(msg, off, count).value[1..] == ParseQuestions(msg, q.next, count - 1).value;
    }
  }

  lemma RecordFlawIff(msg: Bytes, off: nat)
    requires off <= |msg| && ParseRecord(msg, off).Parsed?
    ensures var r := ParseRecord(msg, off).value;
            RecordFlaw(msg, off).None? <==> StrictName(msg, r.name, off) && (r.data.Texts? ==> r.data.strings != [])
  {
    hide StrictName, NameFlaw, ParseName, Read;
    NameFlawIff(msg, off);
  }

  lemma {:induction false} RecordsFlawIff(msg: Bytes, off: nat, count: nat)
    requires off <= |msg| && ParseRecords(msg, off, count).Parsed?
    ensures var p := ParseRecords(msg, off, count);
            && WellFormedRecords(p.value) && p.next == off + |EncodeRecords(p.value)|
            && (RecordsFlaw(msg, off, count).None? <==> StrictRecords(msg, p.value, off))
    decreases count
  {
    hide StrictName, RecordFlaw, EncodeRecord, ParseRecord, WellFormedRecord;
    RecordsReadBack(msg, off, count);
    if count > 0 {
      var r := ParseRecord(msg, off);
      RecordFlawIff(msg, off);
      RecordReadsBack(msg, off);
      RecordsFlawIff(msg, r.next, count - 1);
      assert ParseRecords(msg, off, count).value[1..] == ParseRecords(msg, r.next, count - 1).value;
    }
  }

  /** Exactly which bytes are accepted though they are not those of a strict message: those
      in which there is a first flaw. */
  lemma AcceptedUnlessFlawless(msg: Bytes)
    requires Said(msg).Some?
    ensures (exists m :: Strict(m) && Encode(m) == msg) <==> FirstFlaw(msg).None?
  {
    hide ParseQuestions, ParseRecords, StrictQuestions, StrictRecords, QuestionsFlaw, RecordsFlaw, EncodeQuestions, EncodeRecords,
         WellFormedQuestions, WellFormedRecords;
    var m := ParseMessage(msg).value;
    ParsedIsEncoded(msg);
    QuestionsFlawIff(msg, HEADER, Read(msg, 4));
    RecordsFlawIff(msg, ParseQuestions(msg, HEADER, Read(msg, 4)).next, Read(msg, 6));
    assert Strict(m) <==> FirstFlaw(msg).None?;
    if m' :| Strict(m') && Encode(m') == msg {
      ParsingInvertsEncoding(msg, m');
    }
  }

  // ---- Accepted messages that are not strict ----

  /** A question whose name is a pointer to itself. */
  const SELF_POINTER := Message([0, 0, 1, 0, 0, 1, 0, 0, 0, 0, 0, 0], [Question(Pointer(192, 12), [0, 16, 0, 1])], [], [])

  /** An answer of the root with no TXT data at all. */
  const NO_TEXT := Message([0, 0, 129, 128, 0, 0, 0, 1, 0, 0, 0, 0], [], [Record(Root, TXT, IN, [0, 0, 0, 0], Texts([]))], [])

  lemma SelfPointerIsAccepted()
    ensures WellFormed(SELF_POINTER) && Said(Encode(SELF_POINTER)) == Some([])
    ensures FirstFlaw(Encode(SELF_POINTER)) == Some(StrayPointer(12, 12))
  {
    var m := SELF_POINTER;
    assert WellFormed(m);
    EncodedIsParsed(m);
    var msg := Encode(m);
    assert EncodeQuestions(m.questions) == EncodeQuestion(m.questions[0]) + EncodeQuestions([]);
    assert msg[12] == 192 && msg[13] == 12 && Read(msg, 4) == 1;
    assert Offset(192, 12) == HEADER;
  }

  /** A record without text is taken for one that says the empty string. */
  lemma NoTextIsAccepted()
    ensures WellFormed(NO_TEXT) && Said(Encode(NO_TEXT)) == Some([[]])
    ensures FirstFlaw(Encode(NO_TEXT)) == Some(EmptyText(23))
  {
    var m := NO_TEXT;
    assert WellFormed(m);
    EncodedIsParsed(m);
    var msg, r := Encode(m), m.answers[0];
    assert EncodeRecords(m.answers) == EncodeRecord(r) + EncodeRecords([]);
    var none: seq<Record>, nothing: Bytes := m.answers[1..], [];
    assert none == [] && Answers(none) == [] && Flatten(r.data.strings) == nothing;
    assert Answers(m.answers) == [nothing];
    assert msg[12] == 0 && Read(msg, 4) == 0 && Read(msg, 6) == 1;
    assert Read(msg, 13) == TXT && Read(msg, 15) == IN && Read(msg, 21) == 0;
  }

  /** How a record is laid out, and which records are answered: type 16 in class 1. */
  lemma RecordBytes(r: Record)
    requires WellFormedRecord(r)
    ensures var n := |EncodeData(r.data)|;
            EncodeRecord(r) == EncodeName(r.name) + [r.typ / 256, r.typ % 256, r.cls / 256, r.cls % 256] + r.ttl + [n / 256, n % 256] + EncodeData(r.data)
    ensures |Answers([r])| == if r.typ == 16 && r.cls == 1 then 1 else 0
  {
    var n := |EncodeData(r.data)|;
    assert Word(r.typ) + Word(r.cls) + r.ttl + Word(n) == [r.typ / 256, r.typ % 256, r.cls / 256, r.cls % 256] + r.ttl + [n / 256, n % 256];
    hide EncodeData, EncodeName;
    assert [r][1..] == [] && Answers([]) == [];
  }

  // ---- The code ----

  /** The two high bits of a length byte say how to read it. */
  lemma HighBits(n: Byte)
    ensures (n as bv8) & 0xc0 == 0xc0 <==> n >= 192
    ensures (n as bv8) & 0xc0 != 0 <==> n >= 64
  {
  }

  /** The offset after the name at `start`, or nothing when no name is written there. */
  method SkipDNSName(msg: Bytes, start: nat) returns (next: Option<nat>)
    requires start <= |msg|
    ensures next == NameEnd(msg, start)
  {
    var off := start;
    while true
      invariant start <= off <= |msg|
      invariant NameEnd(msg, start) == NameEnd(msg, off)
      decreases |msg| - off
    {
      if off >= |msg| {
        return None;
      }
      var n := msg[off];
      var high := (n as bv8) & 0xc0;
      HighBits(n);
      if n == 0 {
        return Some(off + 1);
      } else if high == 0xc0 {
        if off + 1 >= |msg| {
          return None;
        }
        return Some(off + 2);
      } else if high != 0 {
        return None;
      } else {
        off := off + 1;
        if off + n > |msg| {
          return None;
        }
        off := off + n;
      }
    }
  }

  function NameEnd(msg: Bytes, off: nat): Option<nat>
    requires off <= |msg|
  {
    var p := ParseName(msg, off);
    if p.Failed? then None else Some(p.next)
  }

  function Text(msg: Bytes, pos: nat, end: nat): Option<Bytes>
    requires pos <= end <= |msg|
  {
    var p := ParseTexts(msg, pos, end);
    if p.None? then None else Some(Flatten(p.value))
  }

  function Before<T>(prefix: seq<T>, rest: Option<seq<T>>): Option<seq<T>> {
    if rest.None? then None else Some(prefix + rest.value)
  }

  lemma BeforeChains<T>(a: seq<T>, b: seq<T>, rest: Option<seq<T>>)
    ensures Before([], rest) == rest
    ensures Before(a, Before(b, rest)) == Before(a + b, rest)
  {
    if rest.Some? {
      assert [] + rest.value == rest.value;
      assert a + (b + rest.value) == a + b + rest.value;
    }
  }

  /** The character strings from `off` to `end`, run together. */
  method ReadText(msg: Bytes, off: nat, end: nat) returns (text: Option<Bytes>)
    requires off <= end <= |msg|
    ensures text == Text(msg, off, end)
  {
    var value, pos: nat := [], off;
    BeforeChains([], [], Text(msg, off, end));
    while pos < end
      invariant off <= pos <= end
      invariant Text(msg, off, end) == Before(value, Text(msg, pos, end))
    {
      var length := msg[pos];
      pos := pos + 1;
      if pos + length > end {
        return None;
      }
      BeforeChains(value, msg[pos..pos + length], Text(msg, pos + length, end));
      value := value + msg[pos..pos + length];
      pos := pos + length;
    }
    assert value + [] == value;
    text := Some(value);
  }

  function QuestionsEnd(msg: Bytes, off: nat, count: nat): (next: Option<nat>)
    requires off <= |msg|
    ensures next.Some? ==> next.value <= |msg|
  {
    var p := ParseQuestions(msg, off, count);
    if p.Failed? then None else Some(p.next)
  }

  function AnswersFrom(msg: Bytes, off: nat, count: nat): Option<seq<Bytes>>
    requires off <= |msg|
  {
    var p := ParseRecords(msg, off, count);
    if p.Failed? then None else Some(Answers(p.value))
  }

  /** How one record bears on the answers read from `off`. */
  lemma AnswersStep(msg: Bytes, off: nat, count: nat)
    requires off <= |msg| && count > 0
    ensures var n := NameEnd(msg, off);
            if n.None? || n.value + 10 > |msg| || n.value + 10 + Read(msg, n.value + 8) > |msg| then
              AnswersFrom(msg, off, count) == None
            else
              var body, end := n.value + 10, n.value + 10 + Read(msg, n.value + 8);
              var rest := AnswersFrom(msg, end, count - 1);
              if Read(msg, n.value) != TXT || Read(msg, n.value + 2) != IN then
                AnswersFrom(msg, off, count) == Before([], rest)
              else
                var text := Text(msg, body, end);
                AnswersFrom(msg, off, count) == if text.None? then None else Before([text.value], rest)
  {
    hide ParseName, ParseTexts, Read;
    var r := ParseRecord(msg, off);
    if r.Parsed? {
      var p := ParseRecords(msg, r.next, count - 1);
      if p.Parsed? {
        assert ([r.value] + p.value)[1..] == p.value;
      }
    }
  }

  function Said(msg: Bytes): Option<seq<Bytes>> {
    var m := ParseMessage(msg);
    if m.None? then None else Some(Answers(m.value.answers))
  }

  lemma SaidInParts(msg: Bytes)
    ensures |msg| < HEADER ==> Said(msg) == None
    ensures |msg| >= HEADER ==>
              var start := QuestionsEnd(msg, HEADER, Read(msg, 4));
              Said(msg) == if start.None? then None else AnswersFrom(msg, start.value, Read(msg, 6))
  {
  }

  lemma NoMoreAnswers(msg: Bytes, off: nat, said: seq<Bytes>)
    requires off <= |msg|
    ensures Before(said, AnswersFrom(msg, off, 0)) == Some(said)
  {
    assert said + [] == said;
  }

  lemma SaidIsExact(msg: Bytes)
    ensures Said(msg).Some? <==> exists m :: WellFormed(m) && Encode(m) == msg
    ensures forall m :: WellFormed(m) && Encode(m) == msg ==> Said(msg) == Some(Answers(m.answers))
  {
    hide WellFormed, Encode, ParseMessage;
    if ParseMessage(msg).Some? {
      ParsingInvertsEncoding(msg, ParseMessage(msg).value);
    }
    forall m | WellFormed(m) && Encode(m) == msg ensures Said(msg) == Some(Answers(m.answers)) {
      ParsingInvertsEncoding(msg, m);
    }
  }

  /** The TXT strings of a response. It succeeds exactly on a message with a well-formed
      encoding as a prefix, and returns what the TXT records of that encoding say. */
  method ParseTXTAnswers(msg: Bytes) returns (values: Option<seq<Bytes>>)
    ensures values.Some? <==> exists m :: WellFormed(m) && Encode(m) == msg
    ensures forall m :: WellFormed(m) && Encode(m) == msg ==> values == Some(Answers(m.answers))
  {
    SaidIsExact(msg);
    values := ReadAnswers(msg);
  }

  method ReadAnswers(msg: Bytes) returns (values: Option<seq<Bytes>>)
    ensures values == Said(msg)
  {
    hide Text, NameEnd, ParseMessage, QuestionsEnd, AnswersFrom, Read;
    SaidInParts(msg);
    if |msg| < HEADER {
      return None;
    }
    var qdcount, ancount := Read(msg, 4), Read(msg, 6);
    var start := SkipQuestions(msg, HEADER, qdcount);
    if start.None? {
      return None;
    }
    var off: nat, said := start.value, [];
    BeforeChains([], [], AnswersFrom(msg, off, ancount));
    for i := 0 to ancount
      invariant off <= |msg|
      invariant AnswersFrom(msg, start.value, ancount) == Before(said, AnswersFrom(msg, off, ancount - i))
    {
      AnswersStep(msg, off, ancount - i);
      var next := SkipDNSName(msg, off);
      if next.None? || next.value + 10 > |msg| {
        return None;
      }
      var typ, cls, rdlen := Read(msg, next.value), Read(msg, next.value + 2), Read(msg, next.value + 8);
      var body := next.value + 10;
      if body + rdlen > |msg| {
        return None;
      }
      ghost var before, rest := said, AnswersFrom(msg, body + rdlen, ancount - i - 1);
      if typ == TXT && cls == IN {
        var text := ReadText(msg, body, body + rdlen);
        if text.None? {
          return None;
        }
        said := said + [text.value];
        BeforeChains(before, [text.value], rest);
      } else {
        BeforeChains(before, [], rest);
        BeforeChains([], [], rest);
      }
      off := body + rdlen;
    }
    NoMoreAnswers(msg, off, said);
    values := Some(said);
  }

  method SkipQuestions(msg: Bytes, start: nat, qdcount: nat) returns (next: Option<nat>)
    requires start <= |msg|
    ensures next == QuestionsEnd(msg, start, qdcount)
  {
    hide ParseName;
    var off: nat := start;
    for i := 0 to qdcount
      invariant off <= |msg|
      invariant QuestionsEnd(msg, start, qdcount) == QuestionsEnd(msg, off, qdcount - i)
    {
      var end := SkipDNSName(msg, off);
      if end.None? || end.value + 4 > |msg| {
        return None;
      }
      off := end.value + 4;
    }
    next := Some(off);
  }

  // ---- Queries ----

  const DOT: Byte := 46

  /** The pieces of a name between its dots: always at least one. */
  function Split(name: Bytes): (labels: seq<Bytes>)
    ensures |labels| > 0
  {
    if name == [] then [[]]
    else
      var rest := Split(name[1..]);
      if name[0] == DOT then [[]] + rest else [[name[0]] + rest[0]] + rest[1..]
  }

  function Join(labels: seq<Bytes>): Bytes
    requires |labels| > 0
  {
    if |labels| == 1 then labels[0] else labels[0] + [DOT] + Join(labels[1..])
  }

  lemma {:induction false} SplitJoins(name: Bytes)
    ensures Join(Split(name)) == name
    ensures forall l :: l in Split(name) ==> 46 !in l
  {
    if name != [] {
      var rest := Split(name[1..]);
      SplitJoins(name[1..]);
      if name[0] == DOT {
        assert ([[]] + rest)[1..] == rest;
      } else if |rest| > 1 {
        assert ([[name[0]] + rest[0]] + rest[1..])[1..] == rest[1..];
      }
    }
  }

  lemma {:induction false} JoinSplits(labels: seq<Bytes>)
    requires |labels| > 0 && forall l :: l in labels ==> 46 !in l
    ensures Split(Join(labels)) == labels
    decreases Join(labels)
  {
    var name, first := Join(labels), labels[0];
    if first != [] {
      assert DOT !in first && first[0] in first;
      var fewer := [first[1..]] + labels[1..];
      assert fewer[1..] == labels[1..];
      assert name[1..] == Join(fewer);
      JoinSplits(fewer);
      assert name[0] == first[0] && [first[0]] + first[1..] == first;
      assert [first] + labels[1..] == labels;
    } else if |labels| > 1 {
      assert name[1..] == Join(labels[1..]);
      JoinSplits(labels[1..]);
    }
  }

  predicate GoodLabel(piece: Bytes) {
    0 < |piece| < 64
  }

  predicate GoodLabels(labels: seq<Bytes>) {
    forall l :: l in labels ==> GoodLabel(l)
  }

  function Literal(labels: seq<Bytes>): (n: Name)
    ensures GoodLabels(labels) ==> WellFormedName(n)
  {
    if labels == [] then Root
    else
      assert GoodLabels(labels) ==> GoodLabel(labels[0]) && GoodLabels(labels[1..]);
      Label(labels[0], Literal(labels[1..]))
  }

  function Labels(n: Name): seq<Bytes> {
    if n.Label? then [n.text] + Labels(n.rest) else []
  }

  lemma {:induction false} LiteralKeepsLabels(labels: seq<Bytes>)
    ensures Labels(Literal(labels)) == labels
  {
    if labels != [] {
      LiteralKeepsLabels(labels[1..]);
    }
  }

  /** Recursion desired, one question, no records. */
  function QueryHeader(id: nat): (header: Bytes)
    requires id < 0x1_0000
    ensures |header| == HEADER && Read(header, 4) == 1 && Read(header, 6) == 0
  {
    Word(id) + [1, 0] + Word(1) + Word(0) + Word(0) + Word(0)
  }

  /** The message a query is: one question in class IN for a name written out, recursion desired. */
  function Query(name: Bytes, qtype: nat, id: nat): (m: Message)
    requires qtype < 0x1_0000 && id < 0x1_0000 && GoodLabels(Split(name))
    ensures WellFormed(m)
  {
    var header := QueryHeader(id);
    var question := Question(Literal(Split(name)), Word(qtype) + Word(IN));
    Message(header, [question], [], [])
  }

  function Labelled(labels: seq<Bytes>): Bytes
    requires GoodLabels(labels)
  {
    if labels == [] then []
    else
      assert GoodLabel(labels[0]);
      [|labels[0]|] + labels[0] + Labelled(labels[1..])
  }

  lemma {:induction false} LabelledSnoc(labels: seq<Bytes>, l: Bytes)
    requires GoodLabels(labels) && GoodLabel(l)
    ensures Labelled(labels + [l]) == Labelled(labels) + [|l|] + l
  {
    if labels == [] {
      assert labels + [l] == [l];
    } else {
      LabelledSnoc(labels[1..], l);
      assert (labels + [l])[1..] == labels[1..] + [l];
    }
  }

  lemma {:induction false} LiteralIsLabelled(labels: seq<Bytes>)
    requires GoodLabels(labels)
    ensures EncodeName(Literal(labels)) == Labelled(labels) + [0]
  {
    if labels != [] {
      LiteralIsLabelled(labels[1..]);
    }
  }

  lemma QueryBytes(name: Bytes, qtype: nat, id: nat)
    requires qtype < 0x1_0000 && id < 0x1_0000 && GoodLabels(Split(name))
    ensures Encode(Query(name, qtype, id))
         == QueryHeader(id) + Labelled(Split(name)) + [0] + Word(qtype) + Word(IN)
  {
    hide QueryHeader, Word, Split, GoodLabels, Labelled, Read;
    var m := Query(name, qtype, id);
    LiteralIsLabelled(Split(name));
    hide EncodeName, Literal;
    assert EncodeQuestions(m.questions) == EncodeQuestion(m.questions[0]) + EncodeQuestions([]);
    var q, k := EncodeName(m.questions[0].name), Word(qtype) + Word(IN);
    assert Encode(m) == QueryHeader(id) + (q + k);
  }

  lemma WordsAre(qtype: nat, id: nat)
    requires qtype < 0x1_0000 && id < 0x1_0000
    ensures QueryHeader(id) == [id / 256, id % 256, 1, 0, 0, 1, 0, 0, 0, 0, 0, 0]
    ensures [0] + Word(qtype) + Word(IN) == [0, qtype / 256, qtype % 256, 0, 1]
  {
  }

  lemma QueryIsBytes(name: Bytes, qtype: nat, id: nat)
    requires qtype < 0x1_0000 && id < 0x1_0000 && GoodLabels(Split(name))
    ensures QueryHeader(id) + Labelled(Split(name)) + [0] + Word(qtype) + Word(IN)
         == [id / 256, id % 256, 1, 0, 0, 1, 0, 0, 0, 0, 0, 0] + Labelled(Split(name)) + [0, qtype / 256, qtype % 256, 0, 1]
  {
    WordsAre(qtype, id);
    hide QueryHeader, Word, Split, Labelled;
    var h, l := QueryHeader(id), Labelled(Split(name));
    assert h + l + [0] + Word(qtype) + Word(IN) == h + l + ([0] + Word(qtype) + Word(IN));
  }

  /** A query for `name`, or nothing when some piece between its dots is empty or over 63 bytes.
      The query reads back as the one question whose labels, joined by dots, are `name`. */
  method BuildDNSQueryType(name: Bytes, qtype: nat, id: nat) returns (query: Option<Bytes>)
    requires qtype < 0x1_0000 && id < 0x1_0000
    ensures query.Some? <==> forall l :: l in Split(name) ==> 1 <= |l| <= 63
    ensures query.Some? ==>
              && query.value == [id / 256, id % 256, 1, 0, 0, 1, 0, 0, 0, 0, 0, 0] + Labelled(Split(name)) + [0, qtype / 256, qtype % 256, 0, 1]
              && ParseMessage(query.value) == Some(Query(name, qtype, id))
              && Join(Labels(Query(name, qtype, id).questions[0].name)) == name
  {
    hide Encode, ParseMessage, Split, Join;
    var msg := Word(id) + [1, 0] + Word(1) + Word(0) + Word(0) + Word(0);
    ghost var header := msg;
    var labels := Split(name);
    for i := 0 to |labels|
      invariant GoodLabels(labels[..i])
      invariant msg == header + Labelled(labels[..i])
    {
      var piece := labels[i];
      if |piece| == 0 || |piece| > 63 {
        assert piece in labels && !GoodLabel(piece);
        return None;
      }
      LabelledSnoc(labels[..i], piece);
      assert labels[..i + 1] == labels[..i] + [piece];
      msg := msg + [|piece|];
      msg := msg + piece;
    }
    assert labels[..|labels|] == labels;
    msg := msg + [0];
    msg := msg + Word(qtype);
    msg := msg + Word(IN);
    QueryBytes(name, qtype, id);
    QueryIsBytes(name, qtype, id);
    assert msg == QueryHeader(id) + Labelled(labels) + [0] + Word(qtype) + Word(IN);
    hide Word, QueryHeader;
    EncodedIsParsed(Query(name, qtype, id));
    LiteralKeepsLabels(labels);
    SplitJoins(name);
    query := Some(msg);
  }

  lemma {:induction false} LabelledLength(labels: seq<Bytes>)
    requires GoodLabels(labels) && labels != []
    ensures |Labelled(labels)| == |Join(labels)| + 1
  {
    if |labels| > 1 {
      LabelledLength(labels[1..]);
    } else {
      assert Labelled(labels[1..]) == [];
    }
  }

  lemma {:induction false} LiteralOctets(msg: Bytes, labels: seq<Bytes>, start: nat)
    requires GoodLabels(labels) && start <= |msg|
    ensures Octets(msg, Literal(labels), start) == Some(|Labelled(labels)| + 1)
    decreases |labels|
  {
    if labels != [] {
      LiteralOctets(msg, labels[1..], start);
    }
  }

  /** A query is built whatever the length of the name; it is strict exactly for names of at
      most 253 bytes. */
  lemma QueryIsStrictIff(name: Bytes, qtype: nat, id: nat)
    requires qtype < 0x1_0000 && id < 0x1_0000 && GoodLabels(Split(name))
    ensures Strict(Query(name, qtype, id)) <==> |name| <= 253
  {
    hide Encode, Split, Literal, Labelled, GoodLabels, Octets, Join, Strict, WellFormed, QueryHeader, Word;
    var m, labels := Query(name, qtype, id), Split(name);
    OneQuestionStrict(m);
    LiteralOctets(Encode(m), labels, HEADER);
    LabelledLength(labels);
    SplitJoins(name);
  }

  lemma OneQuestionStrict(m: Message)
    requires WellFormed(m) && |m.questions| == 1 && m.answers == []
    ensures |Encode(m)| >= HEADER && (Strict(m) <==> StrictName(Encode(m), m.questions[0].name, HEADER))
  {
    hide StrictName, EncodeQuestion;
    var msg, q := Encode(m), m.questions[0];
    assert m.questions[1..] == [];
    assert EncodeQuestions(m.questions) == EncodeQuestion(q) + EncodeQuestions([]);
    assert StrictQuestions(msg, m.questions, HEADER) <==> StrictName(msg, q.name, HEADER);
  }
}
