/** siws/parse.go: the parser as it runs, one position moving over the lines. */
module SiwsParser {
  import opened Wrappers
  import opened Text
  import opened Timestamps
  import opened SiwsMessage
  import opened SiwsGrammar
  import opened SiwsErrors
  import Base58

  /** The zero Message; its times are placeholders until Issued At is read. */
  const EMPTY := Message("", "", "", "", "", "", "", Instant(1, 1, 1, 0, 0, 0, 0), None, None, "", [])

  method ParseMessage(b: string, reader: TimeReader, table: array<int>) returns (r: Result<Message, SiwsError>)
    requires Base58.IsIndexTable(table)
    ensures r == Parse(b, reader)
  {
    if |b| > MAX_MESSAGE {
      return Err(Malformed);
    }
    if '\r' in b {
      return Err(Malformed);
    }
    var m := ParseLines(Split(TrimRight(b)), reader, table);
    return if m.Some? then Ok(m.value) else Err(Malformed);
  }

  ghost function MessageOn(ls: seq<string>, reader: TimeReader): Option<Message> {
    var l := ReadLines(ls);
    if l.Some? && ValidLayout(l.value, reader) then Some(Meaning(l.value, reader)) else None
  }

  method ParseLines(lines: seq<string>, reader: TimeReader, table: array<int>) returns (r: Option<Message>)
    requires Base58.IsIndexTable(table)
    ensures r == MessageOn(lines, reader)
  {
    if |lines| < 6 {
      TooFewLines(lines);
      return None;
    }
    ByParts(lines, reader);
    r := ParseParts(lines, reader, table);
  }

  method ParseParts(lines: seq<string>, reader: TimeReader, table: array<int>) returns (r: Option<Message>)
    requires Base58.IsIndexTable(table) && |lines| >= 6
    ensures r == PartsOn(lines, reader)
  {
    var opening := ParseOpening(lines, table);
    if opening.None? {
      return None;
    }
    var (m, pos) := opening.value;
    var fields := ParseFields(lines, pos, m, reader);
    if fields.None? {
      return None;
    }
    var (m1, pos1) := fields.value;
    r := ParseTrailer(lines, pos1, m1, reader);
  }

  /** The message in three consecutive parts. */
  ghost function PartsOn(ls: seq<string>, reader: TimeReader): Option<Message>
    requires |ls| >= 3
  {
    match OpeningOf(ls)
    case None => None
    case Some((m, ls1)) =>
      match FieldsOf(ls1, m, reader)
      case None => None
      case Some((m1, ls2)) => TrailerOf(ls2, m1, reader)
  }

  lemma ByParts(ls: seq<string>, reader: TimeReader)
    requires |ls| >= 3
    ensures MessageOn(ls, reader) == PartsOn(ls, reader)
  {
    var statement := ReadStatement(ls[3..]);
    if statement.Some? {
      StatementIs(ls[3..]);
    }
  }

  lemma AtLeastSevenLines(l: Layout)
    ensures |Lines(l)| >= 7
  {
  }

  lemma TooFewLines(ls: seq<string>)
    requires |ls| < 6
    ensures ReadLines(ls).None?
  {
    if ReadLines(ls).Some? {
      WriteUndoesRead(ls);
      AtLeastSevenLines(ReadLines(ls).value);
    }
  }

  // ----- Header, address and statement -----

  /** What the opening lines give: domain, address and statement, and the lines left. */
  ghost function OpeningOf(ls: seq<string>): Option<(Message, seq<string>)>
    requires |ls| >= 3
  {
    var domain := TrimSuffix(ls[0], HeaderSuffix());
    if !HasSuffix(ls[0], HeaderSuffix()) || domain == "" || !ValidAddress(ls[1]) || ls[2] != "" then None
    else match ReadStatement(ls[3..])
      case None => None
      case Some((statement, rest)) => Some((EMPTY.(domain := domain, address := ls[1], statement := OrEmpty(statement)), rest))
  }

  method ParseOpening(lines: seq<string>, table: array<int>) returns (r: Option<(Message, nat)>)
    requires |lines| >= 6 && Base58.IsIndexTable(table)
    ensures r.None? <==> OpeningOf(lines).None?
    ensures r.Some? ==> r.value.1 <= |lines| && OpeningOf(lines) == Some((r.value.0, lines[r.value.1..]))
  {
    var m := EMPTY;
    var pos := 0;
    if !HasSuffix(lines[pos], HeaderSuffix()) {
      return None;
    }
    m := m.(domain := TrimSuffix(lines[pos], HeaderSuffix()));
    if m.domain == "" {
      return None;
    }
    pos := pos + 1;
    var addr := lines[pos];
    if addr == "" {
      EmptyAddress();
      return None;
    }
    var addrBytes := Base58.DecodeBase58(addr, table);
    if addrBytes.Err? {
      return None;
    }
    if |addrBytes.value| != 32 {
      return None;
    }
    m := m.(address := addr);
    pos := pos + 1;
    if lines[pos] != "" {
      return None;
    }
    pos := pos + 1;
    r := ParseStatement(lines, m, pos);
  }

  /** The optional statement, and the blank line after it. */
  method ParseStatement(lines: seq<string>, before: Message, start: nat) returns (r: Option<(Message, nat)>)
    requires start <= |lines| && before.statement == ""
    ensures match ReadStatement(lines[start..])
      case None => r.None?
      case Some((statement, rest)) =>
        r.Some? && r.value.1 <= |lines| && r.value.0 == before.(statement := OrEmpty(statement)) && rest == lines[r.value.1..]
  {
    var m, pos := before, start;
    if pos < |lines| && lines[pos] != "" && !IsFieldPrefix(lines[pos]) {
      m := m.(statement := lines[pos]);
      pos := pos + 1;
      if pos >= |lines| || lines[pos] != "" {
        return None;
      }
      pos := pos + 1;
    }
    return Some((m, pos));
  }

  lemma EmptyAddress()
    ensures !ValidAddress("")
  {
    if Base58.Decode("").Ok? && |Base58.Decode("").value| == 32 {
      Base58.AddressLength("");
      assert false;
    }
  }

  // ----- The required fields -----

  predicate ValidFields(fs: Fields, reader: TimeReader) {
    fs.uri != "" && fs.version == "1" && ValidNonce(fs.nonce) && reader.issuedAt(fs.issuedAt).Some?
  }

  ghost function FieldsOf(ls: seq<string>, m: Message, reader: TimeReader): Option<(Message, seq<string>)> {
    match ReadFields(ls)
    case None => None
    case Some((fs, rest)) =>
      if !ValidFields(fs, reader) then None
      else Some((m.(uri := fs.uri, version := fs.version, chainId := ChainOf(fs.chainId), nonce := fs.nonce,
                    issuedAt := reader.issuedAt(fs.issuedAt).value), rest))
  }

  method ExpectField(lines: seq<string>, pos: nat, f: Field) returns (r: Option<string>, pos': nat)
    ensures r.Some? <==> pos < |lines| && Label(f) <= lines[pos]
    ensures r.Some? ==> r.value == lines[pos][|Label(f)|..] && pos' == pos + 1
  {
    if pos >= |lines| {
      return None, pos;
    }
    var line := lines[pos];
    if !(Label(f) <= line) {
      return None, pos;
    }
    return Some(line[|Label(f)|..]), pos + 1;
  }

  method ParseFields(lines: seq<string>, start: nat, m0: Message, reader: TimeReader) returns (r: Option<(Message, nat)>)
    requires start <= |lines| && m0.chainId == ""
    ensures r.None? <==> FieldsOf(lines[start..], m0, reader).None?
    ensures r.Some? ==> r.value.1 <= |lines| && FieldsOf(lines[start..], m0, reader) == Some((r.value.0, lines[r.value.1..]))
  {
    var m, pos, text := m0, start, None;
    text, pos := ExpectField(lines, pos, URI);
    if text.None? {
      return None;
    }
    m := m.(uri := text.value);
    if m.uri == "" {
      return None;
    }
    text, pos := ExpectField(lines, pos, Version);
    if text.None? {
      return None;
    }
    m := m.(version := text.value);
    if m.version != "1" {
      return None;
    }
    assert lines[start..][2..] == lines[pos..];
    ghost var chain := TakeOptional(ChainID, lines[pos..]);
    if pos < |lines| && Label(ChainID) <= lines[pos] {
      m := m.(chainId := lines[pos][|Label(ChainID)|..]);
      pos := pos + 1;
    }
    if m.chainId == "" {
      m := m.(chainId := DEFAULT_CHAIN);
    }
    assert m.chainId == ChainOf(chain.0) && lines[pos..] == chain.1;
    ghost var at := pos;
    text, pos := ExpectField(lines, pos, Nonce);
    if text.None? {
      return None;
    }
    m := m.(nonce := text.value);
    if !ValidNonce(m.nonce) {
      return None;
    }
    text, pos := ExpectField(lines, pos, IssuedAt);
    if text.None? {
      return None;
    }
    var issuedAt := reader.issuedAt(text.value);
    if issuedAt.None? {
      return None;
    }
    m := m.(issuedAt := issuedAt.value);
    assert lines[at..][2..] == lines[pos..];
    return Some((m, pos));
  }

  // ----- The trailer: stage is the highest rank seen -----

  ghost function TrailerOf(ls: seq<string>, m: Message, reader: TimeReader): Option<Message> {
    match ReadTrailer(0, ls)
    case None => None
    case Some(t) => if ValidTrailer(t, reader) then Some(WithTrailer(m, t, reader)) else None
  }

  const NO_TRAILER := Trailer(None, None, None, None)

  ghost function Or<T>(a: Option<T>, b: Option<T>): Option<T> {
    if a.Some? then a else b
  }

  /** The texts already read, put before those still to come. */
  ghost function Prepend(acc: Trailer, later: Option<Trailer>): Option<Trailer> {
    match later
    case None => None
    case Some(t) => Some(Trailer(Or(acc.expirationTime, t.expirationTime), Or(acc.notBefore, t.notBefore),
                                 Or(acc.requestId, t.requestId), Or(acc.resources, t.resources)))
  }

  ghost function Put(acc: Trailer, f: Field, text: string): Trailer {
    match f
    case ExpirationTime => acc.(expirationTime := Some(text))
    case NotBefore => acc.(notBefore := Some(text))
    case RequestID => acc.(requestId := Some(text))
    case _ => acc
  }

  /** Nothing of a rank above stage has been read. */
  ghost predicate UpTo(acc: Trailer, stage: nat) {
    && (acc.expirationTime.Some? ==> stage >= 1) && (acc.notBefore.Some? ==> stage >= 2)
    && (acc.requestId.Some? ==> stage >= 3) && (acc.resources.Some? ==> stage >= 4)
  }

  /** A labelled line moves the stage up to its rank, or is an error. */
  lemma LabelledLine(stage: nat, ls: seq<string>, f: Field)
    requires ls != [] && Label(f) <= ls[0] && Rank(f) > 0
    ensures ReadTrailer(stage, ls) ==
      if stage < Rank(f) then Prepend(Put(NO_TRAILER, f, ls[0][|Label(f)|..]), ReadTrailer(Rank(f), ls[1..])) else None
  {
    forall g ensures Label(g) <= ls[0] <==> f == g { OneLabel(f, g, ls[0]); }
    OneLabel(f, f, ls[0]);
  }

  lemma ResourcesLine(stage: nat, ls: seq<string>)
    requires ls != [] && ls[0] == ResourcesLabel()
    ensures ReadTrailer(stage, ls) ==
      if stage < 4 && (forall i :: 1 <= i < |ls| ==> Bullet() <= ls[i])
      then Some(NO_TRAILER.(resources := Some(Unbullet(ls[1..])))) else None
  {
    forall f ensures !(Label(f) <= ls[0]) { LabelMatches(f, f, ""); }
  }

  lemma OtherLine(stage: nat, ls: seq<string>)
    requires ls != [] && ls[0] != ResourcesLabel() && forall f :: Rank(f) > 0 ==> !(Label(f) <= ls[0])
    ensures ReadTrailer(stage, ls).None?
  {
  }

  lemma PrependLater(acc: Trailer, stage: nat, f: Field, text: string, later: Option<Trailer>)
    requires UpTo(acc, stage) && stage < Rank(f)
    ensures Prepend(acc, Prepend(Put(NO_TRAILER, f, text), later)) == Prepend(Put(acc, f, text), later)
  {
  }

  /** The block of resources from line 1 to line k spends the last stage. */
  lemma ResourcesBlock(acc: Trailer, stage: nat, ls: seq<string>, k: nat, resources: seq<string>)
    requires UpTo(acc, stage) && stage < 4 && 1 <= k <= |ls| && ls[0] == ResourcesLabel()
    requires (forall i :: 1 <= i < k ==> Bullet() <= ls[i]) && (k < |ls| ==> !(Bullet() <= ls[k]))
    requires |resources| == k - 1 && forall i :: 0 <= i < k - 1 ==> resources[i] == ls[i + 1][|Bullet()|..]
    ensures Prepend(acc, ReadTrailer(stage, ls)) == Prepend(acc.(resources := Some(resources)), ReadTrailer(4, ls[k..]))
  {
    ResourcesLine(stage, ls);
    if k == |ls| {
      assert Unbullet(ls[1..]) == resources;
    }
  }

  /** The state of the loop: the message so far holds exactly the texts read, none above stage. */
  ghost predicate Consistent(m: Message, m0: Message, acc: Trailer, stage: nat, reader: TimeReader) {
    UpTo(acc, stage) && stage <= 4 && ValidTrailer(acc, reader) && m == WithTrailer(m0, acc, reader)
  }

  ghost predicate Refused(t: Option<Trailer>, reader: TimeReader) {
    t.None? || !ValidTrailer(t.value, reader)
  }

  method ParseTrailer(lines: seq<string>, start: nat, m0: Message, reader: TimeReader) returns (r: Option<Message>)
    requires start <= |lines|
    requires m0.expirationTime == None && m0.notBefore == None && m0.requestId == "" && m0.resources == []
    ensures r == TrailerOf(lines[start..], m0, reader)
  {
    var m, pos, stage := m0, start, 0;
    ghost var acc := NO_TRAILER;
    while pos < |lines|
      invariant start <= pos <= |lines| && Consistent(m, m0, acc, stage, reader)
      invariant ReadTrailer(0, lines[start..]) == Prepend(acc, ReadTrailer(stage, lines[pos..]))
    {
      var ok;
      ok, m, pos, stage, acc := ParseTrailerLine(lines, m, pos, stage, acc, m0, reader);
      if !ok {
        return None;
      }
    }
    return Some(m);
  }

  /** Taking a labelled line of rank above stage keeps what the trailer reads as. */
  lemma LineTaken(acc: Trailer, stage: nat, ls: seq<string>, f: Field, text: string)
    requires UpTo(acc, stage) && Rank(f) > 0 && ls != [] && Label(f) <= ls[0] && text == ls[0][|Label(f)|..]
    ensures stage >= Rank(f) ==> Prepend(acc, ReadTrailer(stage, ls)).None?
    ensures stage < Rank(f) ==>
      UpTo(Put(acc, f, text), Rank(f)) &&
      Prepend(acc, ReadTrailer(stage, ls)) == Prepend(Put(acc, f, text), ReadTrailer(Rank(f), ls[1..]))
  {
    LabelledLine(stage, ls, f);
    if stage < Rank(f) {
      PrependLater(acc, stage, f, text, ReadTrailer(Rank(f), ls[1..]));
    }
  }

  /** What one turn of the loop promises of the line at pos0. */
  ghost predicate Turned(lines: seq<string>, pos0: nat, stage0: nat, acc0: Trailer, base: Message, reader: TimeReader,
                         ok: bool, m: Message, pos: nat, stage: nat, acc: Trailer)
    requires pos0 < |lines|
  {
    if !ok then Refused(Prepend(acc0, ReadTrailer(stage0, lines[pos0..])), reader)
    else
      && pos0 < pos <= |lines| && Consistent(m, base, acc, stage, reader)
      && Prepend(acc0, ReadTrailer(stage0, lines[pos0..])) == Prepend(acc, ReadTrailer(stage, lines[pos..]))
  }

  /** One turn of the loop's switch. */
  method ParseTrailerLine(lines: seq<string>, m0: Message, pos0: nat, stage0: nat, ghost acc0: Trailer,
                          ghost base: Message, reader: TimeReader)
    returns (ok: bool, m: Message, pos: nat, stage: nat, ghost acc: Trailer)
    requires pos0 < |lines| && Consistent(m0, base, acc0, stage0, reader)
    requires base.resources == []
    ensures Turned(lines, pos0, stage0, acc0, base, reader, ok, m, pos, stage, acc)
  {
    var line := lines[pos0];
    if Label(ExpirationTime) <= line {
      ok, m, stage, acc := TimeLine(lines, m0, pos0, stage0, acc0, base, reader, ExpirationTime);
      pos := pos0 + 1;
    } else if Label(NotBefore) <= line {
      ok, m, stage, acc := TimeLine(lines, m0, pos0, stage0, acc0, base, reader, NotBefore);
      pos := pos0 + 1;
    } else if Label(RequestID) <= line {
      ok, m, stage, acc := RequestLine(lines, m0, pos0, stage0, acc0, base, reader);
      pos := pos0 + 1;
    } else if line == ResourcesLabel() {
      ok, m, pos, stage, acc := ResourcesLines(lines, m0, pos0, stage0, acc0, base, reader);
    } else {
      OtherLine(stage0, lines[pos0..]);
      return false, m0, pos0, stage0, acc0;
    }
  }

  /** Expiration Time and Not Before differ in the field they set. */
  method TimeLine(lines: seq<string>, m0: Message, pos0: nat, stage0: nat, ghost acc0: Trailer,
                  ghost base: Message, reader: TimeReader, f: Field)
    returns (ok: bool, m: Message, stage: nat, ghost acc: Trailer)
    requires pos0 < |lines| && Consistent(m0, base, acc0, stage0, reader)
    requires f in {ExpirationTime, NotBefore} && Label(f) <= lines[pos0]
    ensures Turned(lines, pos0, stage0, acc0, base, reader, ok, m, pos0 + 1, stage, acc)
  {
    ok, m, stage, acc := true, m0, stage0, acc0;
    var val := lines[pos0][|Label(f)|..];
    LineTaken(acc0, stage0, lines[pos0..], f, val);
    if stage >= Rank(f) {
      return false, m, stage, acc;
    }
    stage := Rank(f);
    acc := Put(acc, f, val);
    var t := reader.trailer(val);
    if t.None? {
      return false, m, stage, acc;
    }
    m := if f == ExpirationTime then m.(expirationTime := t) else m.(notBefore := t);
  }

  method RequestLine(lines: seq<string>, m0: Message, pos0: nat, stage0: nat, ghost acc0: Trailer,
                     ghost base: Message, reader: TimeReader)
    returns (ok: bool, m: Message, stage: nat, ghost acc: Trailer)
    requires pos0 < |lines| && Consistent(m0, base, acc0, stage0, reader)
    requires Label(RequestID) <= lines[pos0]
    ensures Turned(lines, pos0, stage0, acc0, base, reader, ok, m, pos0 + 1, stage, acc)
  {
    ok, m, stage, acc := true, m0, stage0, acc0;
    var val := lines[pos0][|Label(RequestID)|..];
    LineTaken(acc0, stage0, lines[pos0..], RequestID, val);
    if stage >= 3 {
      return false, m, stage, acc;
    }
    stage := 3;
    m := m.(requestId := val);
    acc := Put(acc, RequestID, val);
  }

  method ResourcesLines(lines: seq<string>, m0: Message, pos0: nat, stage0: nat, ghost acc0: Trailer,
                        ghost base: Message, reader: TimeReader)
    returns (ok: bool, m: Message, pos: nat, stage: nat, ghost acc: Trailer)
    requires pos0 < |lines| && Consistent(m0, base, acc0, stage0, reader)
    requires base.resources == [] && lines[pos0] == ResourcesLabel()
    ensures Turned(lines, pos0, stage0, acc0, base, reader, ok, m, pos, stage, acc)
  {
    ok, m, pos, stage, acc := true, m0, pos0, stage0, acc0;
    if stage >= 4 {
      ResourcesLine(stage0, lines[pos0..]);
      return false, m, pos, stage, acc;
    }
    stage := 4;
    pos := pos + 1;
    var resources;
    resources, pos := ParseResources(lines, pos);
    m := m.(resources := m.resources + resources);
    ResourcesBlock(acc0, stage0, lines[pos0..], pos - pos0, resources);
    acc := acc.(resources := Some(resources));
  }

  /** Collects bulleted lines up to the first line without a bullet. */
  method ParseResources(lines: seq<string>, start: nat) returns (resources: seq<string>, pos: nat)
    requires start <= |lines|
    ensures start <= pos <= |lines| && (forall i :: start <= i < pos ==> Bullet() <= lines[i])
    ensures resources == Unbullet(lines[start..pos])
    ensures pos < |lines| ==> !(Bullet() <= lines[pos])
  {
    resources, pos := [], start;
    while pos < |lines|
      invariant start <= pos <= |lines| && (forall i :: start <= i < pos ==> Bullet() <= lines[i])
      invariant resources == Unbullet(lines[start..pos])
    {
      var rline := lines[pos];
      if !(Bullet() <= rline) {
        break;
      }
      resources := resources + [rline[|Bullet()|..]];
      pos := pos + 1;
    }
  }
}
