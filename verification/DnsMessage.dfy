/** Whole DNS messages: the parser of responses, the parser of queries, and the two builders. */
module DnsMessage {
  import opened Basics
  import opened DnsName

  /** One resource record; `at` is where its data begins in the message. */
  datatype RR = RR(name: Bytes, rtype: nat, rclass: nat, ttl: nat, rdata: Bytes, at: nat)

  datatype Question = Question(name: Bytes, qtype: nat, qclass: nat)

  datatype Message = Message(
    id: nat, flags: nat, question: Question,
    answers: seq<RR>, authority: seq<RR>, additional: seq<RR>)

  const NO_QUESTION := Question([], 0, 0)

  /** A value read at some offset, with the offset after it. */
  type Reading<T> = Result<(T, nat), Malformed>

  /** binary.BigEndian.Uint16 and Uint32. */
  function U16(msg: Bytes, i: nat): nat
    requires i + 2 <= |msg|
  {
    msg[i] as int * 256 + msg[i + 1] as int
  }

  function U32(msg: Bytes, i: nat): nat
    requires i + 4 <= |msg|
  {
    U16(msg, i) * 0x1_0000 + U16(msg, i + 2)
  }

  // ----- what a message says -----

  function RecordAt(msg: Bytes, offset: nat): Reading<RR> {
    match NameAt(msg, offset)
    case Err(e) => Err(e)
    case Ok((name, n)) =>
      if n + 10 > |msg| then Err(HeaderOutOfBounds)
      else
        var rdlen := U16(msg, n + 8);
        if n + 10 + rdlen > |msg| then Err(DataOutOfBounds)
        else Ok((RR(name, U16(msg, n), U16(msg, n + 2), U32(msg, n + 4), msg[n + 10..n + 10 + rdlen], n + 10), n + 10 + rdlen))
  }

  function QuestionAt(msg: Bytes, offset: nat): Reading<Question> {
    match NameAt(msg, offset)
    case Err(e) => Err(e)
    case Ok((name, n)) =>
      if n + 4 > |msg| then Err(TruncatedQuestion)
      else Ok((Question(name, U16(msg, n), U16(msg, n + 2)), n + 4))
  }

  /** The earlier items put in front of the later ones. */
  function After<T>(items: seq<T>, r: Reading<seq<T>>): Reading<seq<T>> {
    match r
    case Ok((rest, end)) => Ok((items + rest, end))
    case Err(e) => Err(e)
  }

  function Records(msg: Bytes, offset: nat, count: nat): Reading<seq<RR>>
    decreases count
  {
    if count == 0 then Ok(([], offset))
    else match RecordAt(msg, offset)
      case Err(e) => Err(e)
      case Ok((r, next)) => After([r], Records(msg, next, count - 1))
  }

  function Questions(msg: Bytes, offset: nat, count: nat): Reading<seq<Question>>
    decreases count
  {
    if count == 0 then Ok(([], offset))
    else match QuestionAt(msg, offset)
      case Err(e) => Err(e)
      case Ok((q, next)) => After([q], Questions(msg, next, count - 1))
  }

  /** All three record sections, the first beginning at `offset`. */
  function Sections(msg: Bytes, offset: nat): Result<(seq<RR>, seq<RR>, seq<RR>), Malformed>
    requires 12 <= |msg|
  {
    match Records(msg, offset, U16(msg, 6))
    case Err(e) => Err(e)
    case Ok((answers, o1)) =>
      match Records(msg, o1, U16(msg, 8))
      case Err(e) => Err(e)
      case Ok((authority, o2)) =>
        match Records(msg, o2, U16(msg, 10))
        case Err(e) => Err(e)
        case Ok((additional, _)) => Ok((answers, authority, additional))
  }

  /** Of several questions the first is kept; with none its fields are zero. */
  function First(qs: seq<Question>): Question {
    if qs == [] then NO_QUESTION else qs[0]
  }

  function ParseMessage(msg: Bytes): Result<Message, Malformed> {
    if |msg| < 12 then Err(TooShort)
    else match Questions(msg, 12, U16(msg, 4))
      case Err(e) => Err(e)
      case Ok((qs, o)) =>
        match Sections(msg, o)
        case Err(e) => Err(e)
        case Ok((an, ns, ar)) => Ok(Message(U16(msg, 0), U16(msg, 2), First(qs), an, ns, ar))
  }

  /** The first question of a client's query and the offset after it; its name holds no pointers. */
  function ParseQuery(msg: Bytes): (r: Reading<Question>)
    ensures r.Ok? ==> 16 < r.value.1 <= |msg|
  {
    if |msg| < 12 then Err(TooShort)
    else if U16(msg, 4) == 0 then Err(NoQuestion)
    else match PlainAt(msg, 12)
      case Err(e) => Err(e)
      case Ok((name, n)) =>
        PlainEndInside(msg, 12);
        if n + 4 > |msg| then Err(TruncatedQuestion)
        else Ok((Question(name, U16(msg, n), U16(msg, n + 2)), n + 4))
  }

  // ----- the parsing loops -----

  lemma AfterNone<T>(r: Reading<seq<T>>)
    ensures After([], r) == r
  {
    if r.Ok? {
      assert [] + r.value.0 == r.value.0;
    }
  }

  lemma AfterAppend<T>(items: seq<T>, x: T, r: Reading<seq<T>>)
    ensures After(items, After([x], r)) == After(items + [x], r)
  {
    if r.Ok? {
      assert items + ([x] + r.value.0) == items + [x] + r.value.0;
    }
  }

  method ReadRR(msg: Bytes, start: nat) returns (r: Reading<RR>)
    ensures r == RecordAt(msg, start)
  {
    var name := ReadNameCompressed(msg, start);
    if name.Err? {
      return Err(name.error);
    }
    var offset := name.value.1;
    if offset + 10 > |msg| {
      return Err(HeaderOutOfBounds);
    }
    var rtype, rclass, ttl, rdlen := U16(msg, offset), U16(msg, offset + 2), U32(msg, offset + 4), U16(msg, offset + 8);
    offset := offset + 10;
    if offset + rdlen > |msg| {
      return Err(DataOutOfBounds);
    }
    return Ok((RR(name.value.0, rtype, rclass, ttl, msg[offset..offset + rdlen], offset), offset + rdlen));
  }

  method ReadSection(msg: Bytes, start: nat, count: nat) returns (r: Reading<seq<RR>>)
    ensures r == Records(msg, start, count)
  {
    var out: seq<RR> := [];
    var offset: nat := start;
    AfterNone(Records(msg, start, count));
    for i := 0 to count
      invariant Records(msg, start, count) == After(out, Records(msg, offset, count - i))
    {
      var record := ReadRR(msg, offset);
      if record.Err? {
        return Err(record.error);
      }
      AfterAppend(out, record.value.0, Records(msg, record.value.1, count - i - 1));
      out := out + [record.value.0];
      offset := record.value.1;
    }
    assert out + [] == out;
    return Ok((out, offset));
  }

  /** The question loop, which overwrites nothing after the first question. */
  method ReadQuestions(msg: Bytes, start: nat, count: nat) returns (r: Reading<Question>)
    ensures match Questions(msg, start, count)
      case Ok((qs, end)) => r == Ok((First(qs), end))
      case Err(e) => r == Err(e)
  {
    var offset: nat := start;
    var first := NO_QUESTION;
    ghost var seen: seq<Question> := [];
    AfterNone(Questions(msg, start, count));
    for i := 0 to count
      invariant Questions(msg, start, count) == After(seen, Questions(msg, offset, count - i))
      invariant first == First(seen) && |seen| == i
    {
      var name := ReadNameCompressed(msg, offset);
      if name.Err? {
        return Err(name.error);
      }
      var next := name.value.1;
      if next + 4 > |msg| {
        return Err(TruncatedQuestion);
      }
      var q := Question(name.value.0, U16(msg, next), U16(msg, next + 2));
      offset := next + 4;
      if i == 0 {
        first := q;
      }
      AfterAppend(seen, q, Questions(msg, offset, count - i - 1));
      seen := seen + [q];
    }
    assert seen + [] == seen;
    return Ok((first, offset));
  }

  method ParseFullMessage(msg: Bytes) returns (r: Result<Message, Malformed>)
    ensures r == ParseMessage(msg)
  {
    if |msg| < 12 {
      return Err(TooShort);
    }
    var q := ReadQuestions(msg, 12, U16(msg, 4));
    if q.Err? {
      return Err(q.error);
    }
    var answers := ReadSection(msg, q.value.1, U16(msg, 6));
    if answers.Err? {
      return Err(answers.error);
    }
    var authority := ReadSection(msg, answers.value.1, U16(msg, 8));
    if authority.Err? {
      return Err(authority.error);
    }
    var additional := ReadSection(msg, authority.value.1, U16(msg, 10));
    if additional.Err? {
      return Err(additional.error);
    }
    return Ok(Message(U16(msg, 0), U16(msg, 2), q.value.0, answers.value.0, authority.value.0, additional.value.0));
  }

  method ParseQuestion(msg: Bytes) returns (r: Reading<Question>)
    ensures r == ParseQuery(msg)
  {
    if |msg| < 12 {
      return Err(TooShort);
    }
    if U16(msg, 4) == 0 {
      return Err(NoQuestion);
    }
    var name := ReadName(msg, 12);
    if name.Err? {
      return Err(name.error);
    }
    var offset := name.value.1;
    if offset + 4 > |msg| {
      return Err(TruncatedQuestion);
    }
    return Ok((Question(name.value.0, U16(msg, offset), U16(msg, offset + 2)), offset + 4));
  }

  /** The record's data is a window of the message, and the next record starts right after it. */
  predicate Window(msg: Bytes, r: RR, start: nat, end: nat) {
    start < r.at && r.at + |r.rdata| <= end <= |msg| && r.rdata == msg[r.at..r.at + |r.rdata|]
  }

  lemma RecordInside(msg: Bytes, offset: nat)
    requires RecordAt(msg, offset).Ok?
    ensures var (r, next) := RecordAt(msg, offset).value; Window(msg, r, offset, next) && next == r.at + |r.rdata|
  {
    NameIsBounded(msg, offset);
  }

  /** Records are read one after another, all inside the message, as many as asked for. */
  lemma {:induction false} RecordsInside(msg: Bytes, offset: nat, count: nat)
    requires Records(msg, offset, count).Ok? && offset <= |msg|
    ensures var (rs, end) := Records(msg, offset, count).value;
      && |rs| == count && offset <= end <= |msg|
      && (forall i :: 0 <= i < count ==> Window(msg, rs[i], offset, end))
      && (forall i, j :: 0 <= i < j < count ==> rs[i].at + |rs[i].rdata| < rs[j].at)
    decreases count
  {
    if 0 < count {
      RecordInside(msg, offset);
      var (r, next) := RecordAt(msg, offset).value;
      RecordsInside(msg, next, count - 1);
      var (rest, end) := Records(msg, next, count - 1).value;
      assert forall j :: 0 <= j < count - 1 ==> Window(msg, rest[j], next, end);
    }
  }

  /** All of one section's data stand before all of the other's. */
  predicate Precedes(a: seq<RR>, b: seq<RR>) {
    forall i, j :: 0 <= i < |a| && 0 <= j < |b| ==> a[i].at + |a[i].rdata| < b[j].at
  }

  /** The three sections of any parsed message have the announced lengths and follow each other in the
      message: answers, authority, additional. */
  lemma SectionsInOrder(msg: Bytes)
    requires ParseMessage(msg).Ok?
    ensures 12 <= |msg|
    ensures var p := ParseMessage(msg).value;
      && |p.answers| == U16(msg, 6) && |p.authority| == U16(msg, 8) && |p.additional| == U16(msg, 10)
      && Precedes(p.answers, p.authority) && Precedes(p.answers, p.additional) && Precedes(p.authority, p.additional)
  {
    var o := Questions(msg, 12, U16(msg, 4)).value.1;
    QuestionsInside(msg, 12, U16(msg, 4));
    RecordsInside(msg, o, U16(msg, 6));
    var o1 := Records(msg, o, U16(msg, 6)).value.1;
    RecordsInside(msg, o1, U16(msg, 8));
    RecordsInside(msg, Records(msg, o1, U16(msg, 8)).value.1, U16(msg, 10));
  }

  lemma {:induction false} QuestionsInside(msg: Bytes, offset: nat, count: nat)
    requires Questions(msg, offset, count).Ok? && offset <= |msg|
    ensures Questions(msg, offset, count).value.1 <= |msg|
    decreases count
  {
    if 0 < count {
      QuestionsInside(msg, QuestionAt(msg, offset).value.1, count - 1);
    }
  }

  // ----- messages from servers -----

  /** A question or a record as a server means it, its name in labels. */
  datatype Asked = Asked(owner: DnsName.Labels, qtype: nat, qclass: nat)
  datatype Rec = Rec(owner: DnsName.Labels, rtype: nat, rclass: nat, ttl: Uint32, data: Bytes)

  predicate AskedFits(q: Asked) { Encodable(q.owner) && q.qtype < 0x1_0000 && q.qclass < 0x1_0000 }

  predicate RecFits(r: Rec) {
    Encodable(r.owner) && r.rtype < 0x1_0000 && r.rclass < 0x1_0000 && |r.data| < 0x1_0000
  }

  predicate AllFit(rs: seq<Rec>) { rs == [] || (RecFits(rs[0]) && AllFit(rs[1..])) }

  /** The octets of a question (section 4.1.2 of RFC 1035) in front of the rest of a message. */
  function PutQuestion(q: Asked, rest: Bytes): Bytes {
    Wire(q.owner) + ([0] + (BigEndian16(q.qtype) + (BigEndian16(q.qclass) + rest)))
  }

  /** The octets of a record (section 4.1.3) in front of the rest of a message. */
  function PutRecord(r: Rec, rest: Bytes): Bytes { Wire(r.owner) + ([0] + PutFixed(r, rest)) }

  /** Type, class, TTL, length and data. */
  function PutFixed(r: Rec, rest: Bytes): Bytes {
    BigEndian16(r.rtype) + (BigEndian16(r.rclass) + (BigEndian32(r.ttl) + (BigEndian16(|r.data|) + (r.data + rest))))
  }

  function PutRecords(rs: seq<Rec>, rest: Bytes): Bytes {
    if rs == [] then rest else PutRecord(rs[0], PutRecords(rs[1..], rest))
  }

  /** A whole message: the header (section 4.1.1), one question and three sections of records. */
  function PutMessage(id: nat, flags: nat, q: Asked, an: seq<Rec>, ns: seq<Rec>, ar: seq<Rec>, rest: Bytes): Bytes {
    BigEndian16(id) + (BigEndian16(flags) + (BigEndian16(1) + (BigEndian16(|an|) + (BigEndian16(|ns|) + (BigEndian16(|ar|)
    + PutQuestion(q, PutRecords(an, PutRecords(ns, PutRecords(ar, rest)))))))))
  }

  /** The parsed record has this owner, type, class, TTL and data. */
  predicate Reports(p: RR, r: Rec) {
    p.name == Join(r.owner) && p.rtype == r.rtype && p.rclass == r.rclass && p.ttl == r.ttl && p.rdata == r.data
  }

  predicate ReportsAll(ps: seq<RR>, rs: seq<Rec>) { |ps| == |rs| && forall i :: 0 <= i < |rs| ==> Reports(ps[i], rs[i]) }

  lemma Reads16(msg: Bytes, at: nat, n: nat, rest: Bytes)
    requires at <= |msg| && msg[at..] == BigEndian16(n) + rest && n < 0x1_0000
    ensures at + 2 <= |msg| && U16(msg, at) == n && msg[at + 2..] == rest
  {
    NextPart(msg, at, BigEndian16(n), rest);
    var w := msg[at..at + 2];
    assert w[0] == msg[at] && w[1] == msg[at + 1];
    Uint16BigEndian(n);
  }

  lemma NameReads(msg: Bytes, off: nat, ls: DnsName.Labels, rest: Bytes)
    requires off <= |msg| && Encodable(ls) && msg[off..] == Wire(ls) + ([0] + rest)
    ensures var n := off + |Wire(ls)| + 1;
      n <= |msg| && NameAt(msg, off) == Ok((Join(ls), n)) && msg[n..] == rest
  {
    var e := off + |Wire(ls)|;
    NextPart(msg, off, Wire(ls), [0] + rest);
    NextPart(msg, e, [0], rest);
    assert msg[e..e + 1][0] == msg[e];
    LabelsThen(msg, off, ls, 0);
    assert ls + [] == ls;
  }

  lemma QuestionReads(msg: Bytes, off: nat, q: Asked, rest: Bytes)
    requires off <= |msg| && AskedFits(q) && msg[off..] == PutQuestion(q, rest)
    ensures QuestionAt(msg, off).Ok?
    ensures var (r, end) := QuestionAt(msg, off).value;
      r == Question(Join(q.owner), q.qtype, q.qclass) && end <= |msg| && msg[end..] == rest
  {
    var n := off + |Wire(q.owner)| + 1;
    NameReads(msg, off, q.owner, BigEndian16(q.qtype) + (BigEndian16(q.qclass) + rest));
    Reads16(msg, n, q.qtype, BigEndian16(q.qclass) + rest);
    Reads16(msg, n + 2, q.qclass, rest);
  }

  /** The ten octets between a record's name and its data, and the data. */
  lemma FixedReads(msg: Bytes, n: nat, r: Rec, rest: Bytes)
    requires n <= |msg| && RecFits(r) && msg[n..] == PutFixed(r, rest)
    ensures n + 10 + |r.data| <= |msg|
    ensures U16(msg, n) == r.rtype && U16(msg, n + 2) == r.rclass && U32(msg, n + 4) == r.ttl && U16(msg, n + 8) == |r.data|
    ensures msg[n + 10..n + 10 + |r.data|] == r.data && msg[n + 10 + |r.data|..] == rest
  {
    var t3 := BigEndian16(|r.data|) + (r.data + rest);
    var t2 := BigEndian32(r.ttl) + t3;
    Reads16(msg, n, r.rtype, BigEndian16(r.rclass) + t2);
    Reads16(msg, n + 2, r.rclass, t2);
    NextPart(msg, n + 4, BigEndian32(r.ttl), t3);
    Read32(msg, n + 4, r.ttl);
    Reads16(msg, n + 8, |r.data|, r.data + rest);
    NextPart(msg, n + 10, r.data, rest);
  }

  lemma RecordReads(msg: Bytes, off: nat, r: Rec, rest: Bytes)
    requires off <= |msg| && RecFits(r) && msg[off..] == PutRecord(r, rest)
    ensures RecordAt(msg, off).Ok?
    ensures var (p, end) := RecordAt(msg, off).value; Reports(p, r) && end <= |msg| && msg[end..] == rest
  {
    NameReads(msg, off, r.owner, PutFixed(r, rest));
    FixedReads(msg, off + |Wire(r.owner)| + 1, r, rest);
  }

  lemma RecordsCons(msg: Bytes, off: nat, count: nat, p: RR, next: nat, ps: seq<RR>, end: nat)
    requires RecordAt(msg, off) == Ok((p, next)) && Records(msg, next, count) == Ok((ps, end))
    ensures Records(msg, off, count + 1) == Ok(([p] + ps, end))
  {
  }

  /** The octets from `off` to `next` are this record's. */
  ghost predicate Laid(msg: Bytes, off: nat, r: Rec, next: nat) {
    off <= next <= |msg| && msg[off..] == PutRecord(r, msg[next..])
  }

  ghost predicate LaidAll(msg: Bytes, off: nat, rs: seq<Rec>, end: nat)
    decreases |rs|
  {
    if rs == [] then off == end else exists next :: Laid(msg, off, rs[0], next) && LaidAll(msg, next, rs[1..], end)
  }

  /** Where what follows a record begins. */
  lemma RecordLaid(msg: Bytes, off: nat, r: Rec, rest: Bytes) returns (next: nat)
    requires off <= |msg| && msg[off..] == PutRecord(r, rest)
    ensures Laid(msg, off, r, next) && msg[next..] == rest
  {
    var n := |Wire(r.owner)| + 11 + |r.data|;
    assert |PutRecord(r, rest)| == n + |rest|;
    next := off + n;
    NextPart(msg, off, PutRecord(r, rest)[..n], rest);
  }

  lemma {:induction false} RecordsLaid(msg: Bytes, off: nat, rs: seq<Rec>, rest: Bytes) returns (end: nat)
    requires off <= |msg| && msg[off..] == PutRecords(rs, rest)
    ensures LaidAll(msg, off, rs, end) && end <= |msg| && msg[end..] == rest
    decreases |rs|
  {
    if rs == [] {
      end := off;
    } else {
      var next := RecordLaid(msg, off, rs[0], PutRecords(rs[1..], rest));
      end := RecordsLaid(msg, next, rs[1..], rest);
    }
  }

  lemma LaidReads(msg: Bytes, off: nat, r: Rec, next: nat) returns (p: RR)
    requires Laid(msg, off, r, next) && RecFits(r)
    ensures RecordAt(msg, off) == Ok((p, next)) && Reports(p, r)
  {
    RecordReads(msg, off, r, msg[next..]);
    p := RecordAt(msg, off).value.0;
  }

  lemma ReportsCons(p: RR, ps: seq<RR>, rs: seq<Rec>)
    requires rs != [] && Reports(p, rs[0]) && ReportsAll(ps, rs[1..])
    ensures ReportsAll([p] + ps, rs)
  {
    forall i | 0 <= i < |rs| ensures Reports(([p] + ps)[i], rs[i]) {
      assert 0 < i ==> Reports(ps[i - 1], rs[1..][i - 1]);
    }
  }

  lemma {:induction false} LaidAllRead(msg: Bytes, off: nat, rs: seq<Rec>, end: nat) returns (ps: seq<RR>)
    requires AllFit(rs) && LaidAll(msg, off, rs, end)
    ensures Records(msg, off, |rs|) == Ok((ps, end)) && ReportsAll(ps, rs)
    decreases |rs|
  {
    ps := [];
    if rs != [] {
      var next :| Laid(msg, off, rs[0], next) && LaidAll(msg, next, rs[1..], end);
      var p := LaidReads(msg, off, rs[0], next);
      var more := LaidAllRead(msg, next, rs[1..], end);
      RecordsCons(msg, off, |rs[1..]|, p, next, more, end);
      ReportsCons(p, more, rs);
      ps := [p] + more;
    }
  }

  lemma RecordsRead(msg: Bytes, off: nat, rs: seq<Rec>, rest: Bytes) returns (ps: seq<RR>, end: nat)
    requires off <= |msg| && AllFit(rs) && msg[off..] == PutRecords(rs, rest)
    ensures Records(msg, off, |rs|) == Ok((ps, end)) && ReportsAll(ps, rs) && end <= |msg| && msg[end..] == rest
  {
    end := RecordsLaid(msg, off, rs, rest);
    ps := LaidAllRead(msg, off, rs, end);
  }

  lemma HeaderReads(m: Bytes, id: nat, flags: nat, qd: nat, an: nat, ns: nat, ar: nat, rest: Bytes)
    requires id < 0x1_0000 && flags < 0x1_0000 && qd < 0x1_0000 && an < 0x1_0000 && ns < 0x1_0000 && ar < 0x1_0000
    requires m == BigEndian16(id) + (BigEndian16(flags) + (BigEndian16(qd) + (BigEndian16(an) + (BigEndian16(ns) + (BigEndian16(ar) + rest)))))
    ensures 12 <= |m| && U16(m, 0) == id && U16(m, 2) == flags && U16(m, 4) == qd
    ensures U16(m, 6) == an && U16(m, 8) == ns && U16(m, 10) == ar && m[12..] == rest
  {
    assert m[0..] == m;
    Reads16(m, 0, id, BigEndian16(flags) + (BigEndian16(qd) + (BigEndian16(an) + (BigEndian16(ns) + (BigEndian16(ar) + rest)))));
    Reads16(m, 2, flags, BigEndian16(qd) + (BigEndian16(an) + (BigEndian16(ns) + (BigEndian16(ar) + rest))));
    Reads16(m, 4, qd, BigEndian16(an) + (BigEndian16(ns) + (BigEndian16(ar) + rest)));
    Reads16(m, 6, an, BigEndian16(ns) + (BigEndian16(ar) + rest));
    Reads16(m, 8, ns, BigEndian16(ar) + rest);
    Reads16(m, 10, ar, rest);
  }

  /** What a server meant by a message is what the parser reports: ID, flags, question, and in each section its
      records in order, with owner, type, class, TTL and data; whatever follows is ignored. */
  lemma MessageRoundTrip(id: nat, flags: nat, q: Asked, an: seq<Rec>, ns: seq<Rec>, ar: seq<Rec>, rest: Bytes)
    requires id < 0x1_0000 && flags < 0x1_0000 && |an| < 0x1_0000 && |ns| < 0x1_0000 && |ar| < 0x1_0000
    requires AskedFits(q) && AllFit(an) && AllFit(ns) && AllFit(ar)
    ensures var r := ParseMessage(PutMessage(id, flags, q, an, ns, ar, rest));
      && r.Ok? && r.value.id == id && r.value.flags == flags
      && r.value.question == Question(Join(q.owner), q.qtype, q.qclass)
      && ReportsAll(r.value.answers, an) && ReportsAll(r.value.authority, ns) && ReportsAll(r.value.additional, ar)
  {
    var m := PutMessage(id, flags, q, an, ns, ar, rest);
    var t3 := PutRecords(ar, rest);
    var t2 := PutRecords(ns, t3);
    var t1 := PutRecords(an, t2);
    HeaderReads(m, id, flags, 1, |an|, |ns|, |ar|, PutQuestion(q, t1));
    QuestionReads(m, 12, q, t1);
    OneQuestion(m);
    var o1 := QuestionAt(m, 12).value.1;
    var a, o2 := RecordsRead(m, o1, an, t2);
    var b, o3 := RecordsRead(m, o2, ns, t3);
    var c, o4 := RecordsRead(m, o3, ar, rest);
  }

  /** Of several questions the parser reports the first. */
  lemma FirstQuestionIsKept(msg: Bytes)
    requires ParseMessage(msg).Ok?
    ensures 12 <= |msg| && if U16(msg, 4) == 0 then ParseMessage(msg).value.question == Question([], 0, 0)
      else QuestionAt(msg, 12).Ok? && ParseMessage(msg).value.question == QuestionAt(msg, 12).value.0
  {
  }

  /** The two parsers on one message: what is shorter than a header is refused by both; a header alone is a
      message without questions, which a client may not send; and a first name without pointers makes the
      client's question the message's. */
  lemma ParsersAgree(msg: Bytes)
    ensures |msg| < 12 ==> ParseMessage(msg) == Err(TooShort) && ParseQuery(msg) == Err(TooShort)
    ensures 12 <= |msg| && U16(msg, 4) == U16(msg, 6) == U16(msg, 8) == U16(msg, 10) == 0 ==>
      ParseMessage(msg) == Ok(Message(U16(msg, 0), U16(msg, 2), NO_QUESTION, [], [], []))
    ensures 12 <= |msg| && U16(msg, 4) == 0 ==> ParseQuery(msg) == Err(NoQuestion)
    ensures 12 <= |msg| && U16(msg, 4) != 0 && NoPointer(msg, 12) ==> ParseQuery(msg) == QuestionAt(msg, 12)
  {
    if 12 <= |msg| && NoPointer(msg, 12) {
      ReadersAgree(msg, 12, 0);
    }
  }

  // ----- queries sent while walking the delegation chain -----

  function Labels(qname: Bytes): DnsName.Labels { NonEmpty(Split(TrimDot(qname))) }

  /** The query's octets: all flags zero, one question of class IN. */
  function Query(id: nat, qname: Bytes, qtype: nat): Bytes {
    QueryHead(id) + Wire(Labels(qname)) + [0] + BigEndian16(qtype) + [0, 1]
  }

  function QueryHead(id: nat): Bytes { [id / 0x100 % 0x100, id % 0x100, 0, 0, 0, 1, 0, 0, 0, 0, 0, 0] }

  lemma WireSnoc(ls: DnsName.Labels, i: nat)
    requires i < |ls|
    ensures var w := Wire(NonEmpty(ls[..i]));
      Wire(NonEmpty(ls[..i + 1])) == if ls[i] == [] then w else w + ([|ls[i]| % 256] + ls[i])
  {
    NonEmptySnoc(ls, i);
    if ls[i] != [] {
      WireAppend(NonEmpty(ls[..i]), ls[i]);
    } else {
      assert NonEmpty(ls[..i + 1]) == NonEmpty(ls[..i]);
    }
  }

  lemma Assoc(a: Bytes, b: Bytes, c: Bytes, d: Bytes)
    ensures a + b + c + d == a + (b + (c + d))
  {
  }

  method BuildIterativeQuery(id: nat, qname: Bytes, qtype: nat) returns (buf: Bytes)
    ensures buf == Query(id, qname, qtype)
  {
    buf := [id / 0x100 % 0x100, id % 0x100];
    buf := buf + [0, 0];
    buf := buf + [0, 1];
    buf := buf + [0, 0, 0, 0, 0, 0];
    ghost var head := buf;
    assert head == QueryHead(id);
    var all := Split(TrimDot(qname));
    for i := 0 to |all|
      invariant buf == head + Wire(NonEmpty(all[..i]))
    {
      WireSnoc(all, i);
      var l := all[i];
      if l == [] {
        continue;
      }
      Assoc(head, Wire(NonEmpty(all[..i])), [|l| % 256], l);
      buf := buf + [|l| % 256];
      buf := buf + l;
    }
    assert all[..|all|] == all;
    buf := buf + [0];
    buf := buf + [qtype / 0x100 % 0x100, qtype % 0x100];
    buf := buf + [0, 1];
  }

  lemma Middle(a: Bytes, b: Bytes, c: Bytes)
    ensures (a + b + c)[|a|..|a| + |b|] == b
  {
  }

  lemma {:induction false} Uint16BigEndian(n: nat)
    ensures BigEndian16(n)[0] as int * 256 + BigEndian16(n)[1] as int == n % 0x1_0000
  {
  }

  /** Where the parts of a query stand. */
  lemma QueryLayout(id: nat, qname: Bytes, qtype: nat)
    ensures var m, w := Query(id, qname, qtype), Wire(Labels(qname));
      && |m| == |w| + 17
      && m[..12] == QueryHead(id)
      && m[12..13 + |w|] == w + [0]
      && m[13 + |w|..] == BigEndian16(qtype) + [0, 1]
  {
    var h, w, t := QueryHead(id), Wire(Labels(qname)), BigEndian16(qtype) + [0, 1];
    assert Query(id, qname, qtype) == h + (w + [0]) + t;
    Middle(h, w + [0], t);
  }

  lemma HeadOctets(m: Bytes, hi: Byte, lo: Byte)
    requires 12 <= |m| && m[..12] == [hi, lo, 0, 0, 0, 1, 0, 0, 0, 0, 0, 0]
    ensures m[0] == hi && m[1] == lo && m[2] == m[3] == m[4] == 0 && m[5] == 1
    ensures m[6] == m[7] == m[8] == m[9] == m[10] == m[11] == 0
  {
    var h := m[..12];
    assert m[0] == h[0] && m[1] == h[1] && m[2] == h[2] && m[3] == h[3] && m[4] == h[4] && m[5] == h[5];
    assert m[6] == h[6] && m[7] == h[7] && m[8] == h[8] && m[9] == h[9] && m[10] == h[10] && m[11] == h[11];
  }

  lemma HeadFields(m: Bytes, id: nat)
    requires id < 0x1_0000 && 12 <= |m| && m[..12] == QueryHead(id)
    ensures U16(m, 0) == id && U16(m, 2) == 0 && U16(m, 4) == 1
    ensures U16(m, 6) == U16(m, 8) == U16(m, 10) == 0
  {
    HeadOctets(m, BigEndian16(id)[0], BigEndian16(id)[1]);
    Uint16BigEndian(id);
  }

  lemma TailFields(m: Bytes, n: nat, qtype: nat)
    requires qtype < 0x1_0000 && n + 4 == |m| && m[n..] == BigEndian16(qtype) + [0, 1]
    ensures U16(m, n) == qtype && U16(m, n + 2) == 1
  {
    var t := BigEndian16(qtype) + [0, 1];
    assert forall i :: 0 <= i < 4 ==> m[n + i] == m[n..][i] == t[i];
    Uint16BigEndian(qtype);
  }

  /** A query is read back by both parsers: same ID, no flags, one question with the same labels. */
  lemma QueryRoundTrip(id: nat, qname: Bytes, qtype: nat)
    requires id < 0x1_0000 && qtype < 0x1_0000 && Encodable(Labels(qname))
    ensures var m, q := Query(id, qname, qtype), Question(Join(Labels(qname)), qtype, 1);
      && ParseMessage(m) == Ok(Message(id, 0, q, [], [], []))
      && ParseQuery(m) == Ok((q, |m|))
  {
    var m, w := Query(id, qname, qtype), Wire(Labels(qname));
    QueryLayout(id, qname, qtype);
    DecodeWire(m, 12, Labels(qname));
    HeadFields(m, id);
    TailFields(m, 13 + |w|, qtype);
    QuestionOnly(m, id, Labels(qname), qtype);
  }

  lemma QuestionOnly(m: Bytes, id: nat, ls: DnsName.Labels, qtype: nat)
    requires 12 <= |m| && U16(m, 0) == id && U16(m, 2) == 0 && U16(m, 4) == 1
    requires U16(m, 6) == U16(m, 8) == U16(m, 10) == 0
    requires Decode(m, 12, 0) == Plain(m, 12) == Ok(ls)
    requires NameEnd(m, 12) == PlainEnd(m, 12) == |m| - 4
    requires U16(m, |m| - 4) == qtype && U16(m, |m| - 2) == 1
    ensures var q := Question(Join(ls), qtype, 1);
      ParseMessage(m) == Ok(Message(id, 0, q, [], [], [])) && ParseQuery(m) == Ok((q, |m|))
  {
    assert QuestionAt(m, 12) == Ok((Question(Join(ls), qtype, 1), |m|));
    OneQuestion(m);
  }

  /** A message that announces one question and nothing else is that question. */
  lemma OneQuestion(m: Bytes)
    requires 12 <= |m| && U16(m, 4) == 1 && QuestionAt(m, 12).Ok?
    ensures var (q, end) := QuestionAt(m, 12).value; Questions(m, 12, U16(m, 4)) == Ok(([q], end))
  {
    var (q, end) := QuestionAt(m, 12).value;
    assert Questions(m, end, 0) == Ok(([], end));
    assert [q] + [] == [q];
  }

  /** The name asked for is the name the query carries, trailing dot or not. */
  lemma QueryCarriesName(id: nat, ls: DnsName.Labels, qtype: nat)
    requires id < 0x1_0000 && qtype < 0x1_0000
    requires ls != [] && forall l :: l in ls ==> DotFree(l) && 0 < |l| < 64
    ensures var q := Ok(Message(id, 0, Question(Join(ls), qtype, 1), [], [], []));
      ParseMessage(Query(id, Join(ls), qtype)) == q && ParseMessage(Query(id, Join(ls) + [DOT], qtype)) == q
  {
    ProperName(ls);
    QueryRoundTrip(id, Join(ls), qtype);
    QueryRoundTrip(id, Join(ls) + [DOT], qtype);
  }

  // ----- replies to clients -----

  /** An address as To4 sees it: four octets, or none. */
  type Address = Option<IPv4>

  function V4(ips: seq<Address>): seq<IPv4> {
    if ips == [] then [] else (if ips[0].Some? then [ips[0].value] else []) + V4(ips[1..])
  }

  /** One answer: a pointer to offset 12, type A, class IN, TTL and four octets of data. */
  function Answer(ip: IPv4, ttl: Uint32): (a: Bytes)
    ensures |a| == 16
  {
    [0xC0, 0x0C, 0, 1, 0, 1] + BigEndian32(ttl) + [0, 4] + BigEndian32(ip)
  }

  function Answers(ips: seq<IPv4>, ttl: Uint32): Bytes {
    if ips == [] then [] else Answer(ips[0], ttl) + Answers(ips[1..], ttl)
  }

  function ReplyHead(query: Bytes, count: nat): (h: Bytes)
    requires 2 <= |query|
    ensures |h| == 12
  {
    [query[0], query[1], 0x80, 0x80, 0, 1, count / 0x100 % 0x100, count % 0x100, 0, 0, 0, 0]
  }

  /** The reply to a query whose question section ends at `end`. */
  function Reply(query: Bytes, end: nat, ips: seq<Address>, ttl: Uint32): Bytes
    requires 12 <= end <= |query|
  {
    ReplyHead(query, |ips|) + query[12..end] + Answers(V4(ips), ttl)
  }

  lemma {:induction false} V4Snoc(ips: seq<Address>, i: nat)
    requires i < |ips|
    ensures V4(ips[..i + 1]) == V4(ips[..i]) + if ips[i].Some? then [ips[i].value] else []
  {
    if 0 < i {
      V4Snoc(ips[1..], i - 1);
      assert ips[..i + 1][1..] == ips[1..][..i] && ips[..i][1..] == ips[1..][..i - 1];
    }
  }

  lemma {:induction false} AnswersSnoc(ips: seq<IPv4>, ip: IPv4, ttl: Uint32)
    ensures Answers(ips + [ip], ttl) == Answers(ips, ttl) + Answer(ip, ttl)
  {
    if ips == [] {
      assert Answers([ip], ttl) == Answer(ip, ttl) + Answers([ip][1..], ttl);
    } else {
      assert (ips + [ip])[1..] == ips[1..] + [ip];
      AnswersSnoc(ips[1..], ip, ttl);
    }
  }

  method BuildAResponse(query: Bytes, end: nat, ips: seq<Address>, ttl: Uint32) returns (resp: Bytes)
    requires 12 <= end <= |query|
    ensures resp == Reply(query, end, ips, ttl)
  {
    resp := [query[0], query[1]];
    resp := resp + [0x80, 0x80];
    resp := resp + [0, 1];
    resp := resp + [|ips| / 0x100 % 0x100, |ips| % 0x100];
    resp := resp + [0, 0];
    resp := resp + [0, 0];
    assert resp == ReplyHead(query, |ips|);
    resp := resp + query[12..end];
    ghost var head := resp;
    for i := 0 to |ips|
      invariant resp == head + Answers(V4(ips[..i]), ttl)
    {
      V4Snoc(ips, i);
      var ip4 := ips[i];
      if ip4.None? {
        assert V4(ips[..i + 1]) == V4(ips[..i]);
        continue;
      }
      AnswersSnoc(V4(ips[..i]), ip4.value, ttl);
      var answer: Bytes := [0xC0, 0x0C];
      answer := answer + [0, 1];
      answer := answer + [0, 1];
      answer := answer + BigEndian32(ttl);
      answer := answer + [0, 4];
      answer := answer + BigEndian32(ip4.value);
      assert answer == Answer(ip4.value, ttl);
      resp := resp + answer;
    }
    assert ips[..|ips|] == ips;
  }

  lemma {:induction false} BigEndian32Value(v: Uint32)
    ensures var b := BigEndian32(v);
      (b[0] as int * 256 + b[1] as int) * 0x1_0000 + (b[2] as int * 256 + b[3] as int) == v
  {
    assert v / 0x1_0000 == v / 0x100 / 0x100 && v / 0x100_0000 == v / 0x1_0000 / 0x100;
  }

  lemma AnswerOctets(msg: Bytes, off: nat, a: Bytes, b: Bytes)
    requires off + 16 <= |msg| && |a| == |b| == 4
    requires msg[off..off + 16] == [0xC0, 0x0C, 0, 1, 0, 1] + a + [0, 4] + b
    ensures msg[off] == 0xC0 && msg[off + 1] == 0x0C
    ensures msg[off + 2] == 0 && msg[off + 3] == 1 && msg[off + 4] == 0 && msg[off + 5] == 1
    ensures msg[off + 6..off + 10] == a
    ensures msg[off + 10] == 0 && msg[off + 11] == 4
    ensures msg[off + 12..off + 16] == b
  {
    var w := msg[off..off + 16];
    assert w[0] == msg[off] && w[1] == msg[off + 1] && w[2] == msg[off + 2] && w[3] == msg[off + 3];
    assert w[4] == msg[off + 4] && w[5] == msg[off + 5] && w[10] == msg[off + 10] && w[11] == msg[off + 11];
    SubSlice(msg, off, off + 16, 6, 10);
    SubSlice(msg, off, off + 16, 12, 16);
    assert w[6..10] == a && w[12..16] == b;
  }

  lemma Read32(msg: Bytes, i: nat, v: Uint32)
    requires i + 4 <= |msg| && msg[i..i + 4] == BigEndian32(v)
    ensures U32(msg, i) == v
  {
    var w := msg[i..i + 4];
    assert w[0] == msg[i] && w[1] == msg[i + 1] && w[2] == msg[i + 2] && w[3] == msg[i + 3];
    BigEndian32Value(v);
  }

  /** The record an answer written at `off` is read as. */
  function Owned(name: Bytes, ip: IPv4, ttl: Uint32, off: nat): RR {
    RR(name, 1, 1, ttl, BigEndian32(ip), off + 12)
  }

  /** An answer's owner name resolves through its pointer to the name at offset 12. */
  lemma AnswerReads(msg: Bytes, off: nat, ip: IPv4, ttl: Uint32, ls: DnsName.Labels)
    requires off + 16 <= |msg| && msg[off..off + 16] == Answer(ip, ttl)
    requires Decode(msg, 12, 1) == Ok(ls)
    ensures RecordAt(msg, off) == Ok((Owned(Join(ls), ip, ttl, off), off + 16))
  {
    AnswerOctets(msg, off, BigEndian32(ttl), BigEndian32(ip));
    Read32(msg, off + 6, ttl);
    assert Decode(msg, off, 0) == Decode(msg, 12, 1);
    assert NameAt(msg, off) == Ok((Join(ls), off + 2));
    assert U16(msg, off + 2) == 1 && U16(msg, off + 4) == 1;
    assert U16(msg, off + 10) == 4;
  }

  function AllOwned(name: Bytes, ips: seq<IPv4>, ttl: Uint32, off: nat): (rs: seq<RR>)
    ensures |rs| == |ips|
    ensures forall i :: 0 <= i < |ips| ==> rs[i] == Owned(name, ips[i], ttl, off + 16 * i)
  {
    if ips == [] then [] else [Owned(name, ips[0], ttl, off)] + AllOwned(name, ips[1..], ttl, off + 16)
  }

  lemma FirstAnswer(msg: Bytes, off: nat, ips: seq<IPv4>, ttl: Uint32)
    requires off <= |msg| && ips != [] && msg[off..] == Answers(ips, ttl)
    ensures off + 16 <= |msg| && msg[off..off + 16] == Answer(ips[0], ttl)
    ensures msg[off + 16..] == Answers(ips[1..], ttl)
  {
    var a, rest := Answer(ips[0], ttl), Answers(ips[1..], ttl);
    assert msg[off..] == a + rest;
    assert |msg| == off + 16 + |rest|;
    SubSlice(msg, off, |msg|, 0, 16);
    SubSlice(msg, off, |msg|, 16, |msg| - off);
    assert (a + rest)[..16] == a && (a + rest)[16..] == rest;
  }

  /** From `off` to the end the message holds one record for each address. */
  predicate Stand(msg: Bytes, off: nat, ips: seq<IPv4>, ttl: Uint32, name: Bytes)
    decreases |ips|
  {
    if ips == [] then off == |msg|
    else
      && RecordAt(msg, off) == Ok((Owned(name, ips[0], ttl, off), off + 16))
      && Stand(msg, off + 16, ips[1..], ttl, name)
  }

  lemma {:induction false} AnswersStand(msg: Bytes, off: nat, ips: seq<IPv4>, ttl: Uint32, ls: DnsName.Labels)
    requires off <= |msg| && msg[off..] == Answers(ips, ttl)
    requires Decode(msg, 12, 1) == Ok(ls)
    ensures Stand(msg, off, ips, ttl, Join(ls))
    decreases |ips|
  {
    if ips != [] {
      FirstAnswer(msg, off, ips, ttl);
      AnswerReads(msg, off, ips[0], ttl, ls);
      AnswersStand(msg, off + 16, ips[1..], ttl, ls);
    }
  }

  /** The answers come back in order, as many as are asked for; asking for more runs off the message. */
  lemma {:induction false} AnswersRead(msg: Bytes, off: nat, ips: seq<IPv4>, ttl: Uint32, name: Bytes, count: nat)
    requires Stand(msg, off, ips, ttl, name)
    ensures Records(msg, off, count) ==
      if count <= |ips| then Ok((AllOwned(name, ips[..count], ttl, off), off + 16 * count)) else Err(OutOfBounds)
    decreases count
  {
    if count == 0 {
    } else if ips == [] {
      assert NameAt(msg, off) == Err(OutOfBounds);
    } else {
      AnswersRead(msg, off + 16, ips[1..], ttl, name, count - 1);
      if count <= |ips| {
        AllOwnedStep(name, ips, ttl, off, count);
      }
    }
  }

  lemma AllOwnedStep(name: Bytes, ips: seq<IPv4>, ttl: Uint32, off: nat, count: nat)
    requires 0 < count <= |ips|
    ensures AllOwned(name, ips[..count], ttl, off) == [Owned(name, ips[0], ttl, off)] + AllOwned(name, ips[1..][..count - 1], ttl, off + 16)
  {
    assert ips[..count][0] == ips[0] && ips[..count][1..] == ips[1..][..count - 1];
  }

  /** Where the parts of a reply stand. */
  lemma ReplyLayout(query: Bytes, end: nat, ips: seq<Address>, ttl: Uint32)
    requires 12 <= end <= |query|
    ensures var m := Reply(query, end, ips, ttl);
      && end <= |m| && m[..12] == ReplyHead(query, |ips|)
      && m[12..end] == query[12..end] && m[end..] == Answers(V4(ips), ttl)
  {
    Middle(ReplyHead(query, |ips|), query[12..end], Answers(V4(ips), ttl));
  }

  lemma ReplyFields(m: Bytes, query: Bytes, count: nat)
    requires 2 <= |query| && 12 <= |m| && m[..12] == ReplyHead(query, count)
    ensures U16(m, 0) == U16(query, 0) && U16(m, 2) == 0x8080 && U16(m, 4) == 1
    ensures U16(m, 6) == count % 0x1_0000 && U16(m, 8) == 0 && U16(m, 10) == 0
  {
    var h := m[..12];
    assert m[0] == h[0] && m[1] == h[1] && m[2] == h[2] && m[3] == h[3] && m[4] == h[4] && m[5] == h[5];
    assert m[6] == h[6] && m[7] == h[7] && m[8] == h[8] && m[9] == h[9] && m[10] == h[10] && m[11] == h[11];
    Uint16BigEndian(count);
  }

  lemma EchoedName(m: Bytes, query: Bytes)
    requires Plain(query, 12).Ok? && NoPointer(query, 12)
    requires 12 < PlainEnd(query, 12) <= |query| && PlainEnd(query, 12) <= |m|
    requires m[12..PlainEnd(query, 12)] == query[12..PlainEnd(query, 12)]
    ensures NameAt(m, 12) == PlainAt(query, 12) && Decode(m, 12, 1) == Plain(query, 12)
  {
    PlainMoves(query, 12, m, 12);
    ReadersAgree(m, 12, 0);
    ReadersAgree(m, 12, 1);
  }

  /** The echoed question is read as the query's, from the start or through a pointer. */
  lemma EchoedQuestion(m: Bytes, query: Bytes, end: nat)
    requires ParseQuery(query).Ok? && ParseQuery(query).value.1 == end && NoPointer(query, 12)
    requires end <= |m| && m[12..end] == query[12..end]
    ensures QuestionAt(m, 12) == ParseQuery(query)
    ensures Decode(m, 12, 1) == Plain(query, 12)
  {
    var n := PlainEnd(query, 12);
    SubSlice(m, 12, end, 0, n - 12);
    SubSlice(query, 12, end, 0, n - 12);
    EchoedName(m, query);
    SubSlice(m, 12, end, n - 12, end - 12);
    SubSlice(query, 12, end, n - 12, end - 12);
    EchoedTail(m, query, n);
  }

  lemma EchoedTail(m: Bytes, query: Bytes, n: nat)
    requires n + 4 <= |m| && n + 4 <= |query| && m[n..n + 4] == query[n..n + 4]
    ensures U16(m, n) == U16(query, n) && U16(m, n + 2) == U16(query, n + 2)
  {
    var a, b := m[n..n + 4], query[n..n + 4];
    assert a[0] == m[n] && a[1] == m[n + 1] && a[2] == m[n + 2] && a[3] == m[n + 3];
    assert b[0] == query[n] && b[1] == query[n + 1] && b[2] == query[n + 2] && b[3] == query[n + 3];
  }

  /** The announced number of answers is cut to 16 bits; addresses that are not IPv4 are counted in it
      but not written. */
  function Meant(query: Bytes, ips: seq<Address>, ttl: Uint32): Result<Message, Malformed>
    requires ParseQuery(query).Ok?
  {
    var (q, end) := ParseQuery(query).value;
    var n, v := |ips| % 0x1_0000, V4(ips);
    if n <= |v| then Ok(Message(U16(query, 0), 0x8080, q, AllOwned(q.name, v[..n], ttl, end), [], []))
    else Err(OutOfBounds)
  }

  /** What the full parser makes of any reply to a parsed query. */
  lemma ReplyReadsBack(query: Bytes, ips: seq<Address>, ttl: Uint32)
    requires ParseQuery(query).Ok? && NoPointer(query, 12)
    ensures ParseMessage(Reply(query, ParseQuery(query).value.1, ips, ttl)) == Meant(query, ips, ttl)
  {
    var (q, end) := ParseQuery(query).value;
    var m, n, v := Reply(query, end, ips, ttl), |ips| % 0x1_0000, V4(ips);
    ReplyLayout(query, end, ips, ttl);
    ReplyFields(m, query, |ips|);
    EchoedQuestion(m, query, end);
    OneQuestion(m);
    AnswersStand(m, end, v, ttl, Plain(query, 12).value);
    AnswersRead(m, end, v, ttl, q.name, n);
  }

  lemma {:induction false} V4All(ips: seq<Address>)
    ensures |V4(ips)| <= |ips|
    ensures |V4(ips)| == |ips| <==> forall ip :: ip in ips ==> ip.Some?
    ensures |V4(ips)| == |ips| ==> forall i :: 0 <= i < |ips| ==> ips[i] == Some(V4(ips)[i])
  {
    if ips != [] {
      V4All(ips[1..]);
      assert ips == [ips[0]] + ips[1..];
    }
  }

  /** The message says what was meant: the query's ID and question, flags QR and RA, and exactly these
      addresses in order, each owned by the queried name and carrying the TTL. */
  predicate Says(p: Message, query: Bytes, ips: seq<Address>, ttl: Uint32)
    requires ParseQuery(query).Ok?
  {
    var (q, end) := ParseQuery(query).value;
    && p.id == U16(query, 0) && p.flags == 0x8080 && p.question == q
    && p.authority == p.additional == []
    && |p.answers| == |ips|
    && forall i :: 0 <= i < |ips| ==>
        ips[i].Some? && p.answers[i] == RR(q.name, 1, 1, ttl, BigEndian32(ips[i].value), end + 16 * i + 12)
  }

  /** A reply with fewer than 65536 addresses is well-formed exactly when all of them are IPv4, and then
      it says just what was meant. */
  lemma ReplyIsFaithful(query: Bytes, ips: seq<Address>, ttl: Uint32)
    requires ParseQuery(query).Ok? && NoPointer(query, 12) && |ips| < 0x1_0000
    ensures var p := ParseMessage(Reply(query, ParseQuery(query).value.1, ips, ttl));
      && (p.Ok? <==> forall ip :: ip in ips ==> ip.Some?)
      && (p.Ok? ==> Says(p.value, query, ips, ttl))
  {
    ReplyReadsBack(query, ips, ttl);
    Faithful(ParseMessage(Reply(query, ParseQuery(query).value.1, ips, ttl)), query, ips, ttl);
  }

  lemma Faithful(p: Result<Message, Malformed>, query: Bytes, ips: seq<Address>, ttl: Uint32)
    requires ParseQuery(query).Ok? && |ips| < 0x1_0000 && p == Meant(query, ips, ttl)
    ensures p.Ok? <==> forall ip :: ip in ips ==> ip.Some?
    ensures p.Ok? ==> Says(p.value, query, ips, ttl)
  {
    V4All(ips);
    assert |ips| % 0x1_0000 == |ips|;
    if |V4(ips)| == |ips| {
      assert V4(ips)[..|ips|] == V4(ips);
      AllSaid(query, ips, ttl);
    }
  }

  lemma AllSaid(query: Bytes, ips: seq<Address>, ttl: Uint32)
    requires ParseQuery(query).Ok? && |V4(ips)| == |ips|
    ensures var (q, end) := ParseQuery(query).value;
      Says(Message(U16(query, 0), 0x8080, q, AllOwned(q.name, V4(ips), ttl, end), [], []), query, ips, ttl)
  {
    V4All(ips);
  }
}
