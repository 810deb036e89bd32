/** What siws promises of parsing and printing, over all inputs. */
module SiwsTheorems {
  import opened Wrappers
  import opened Text
  import opened Timestamps
  import opened SiwsMessage
  import opened SiwsGrammar
  import opened SiwsErrors
  import Base58

  /** A layout and message denoted by the bytes b. */
  ghost predicate Denotes(b: string, l: Layout, m: Message, reader: TimeReader) {
    ValidLayout(l, reader) && Writes(l, b) && m == Meaning(l, reader)
  }

  lemma LastLine(l: Layout)
    ensures var ls := Lines(l); ls != [] && ls[|ls| - 1] != ""
  {
    LabelMatches(IssuedAt, IssuedAt, l.issuedAt);
    LastOfTrailer(l.trailer);
    var fs, ts := FieldLines(l), TrailerLines(l.trailer);
    assert fs[|fs| - 1] == FieldLine(IssuedAt, l.issuedAt);
    assert Lines(l)[|Lines(l)| - 1] == (fs + ts)[|fs + ts| - 1];
  }

  ghost predicate EndsInText(ls: seq<string>) {
    ls != [] ==> ls[|ls| - 1] != ""
  }

  lemma EndsAppend(a: seq<string>, b: seq<string>)
    requires EndsInText(a) && EndsInText(b)
    ensures EndsInText(a + b)
  {
  }

  lemma EndsOptional(f: Field, text: Option<string>)
    ensures EndsInText(OptionalLine(f, text))
  {
    if text.Some? { LabelMatches(f, f, text.value); }
  }

  lemma LastOfTrailer(t: Trailer)
    ensures EndsInText(TrailerLines(t))
  {
    var rs := ResourceLines(t.resources);
    var qs := OptionalLine(RequestID, t.requestId);
    var ns := OptionalLine(NotBefore, t.notBefore);
    EndsOptional(RequestID, t.requestId);
    EndsOptional(NotBefore, t.notBefore);
    EndsOptional(ExpirationTime, t.expirationTime);
    EndsAppend(qs, rs);
    EndsAppend(ns, qs + rs);
    EndsAppend(OptionalLine(ExpirationTime, t.expirationTime), ns + (qs + rs));
  }

  lemma WrittenIsSplit(l: Layout, b: string)
    requires Writes(l, b)
    ensures Split(TrimRight(b)) == Lines(l)
  {
    var k: nat :| b == Join(Lines(l)) + Newlines(k);
    LastLine(l);
    JoinLast(Lines(l));
    var last := Lines(l)[|Lines(l)| - 1];
    assert last[|last| - 1] in last;
    TrimRightUndoes(Join(Lines(l)), k);
    SplitJoin(Lines(l));
  }

  lemma SplitIsWritten(l: Layout, b: string)
    requires Split(TrimRight(b)) == Lines(l)
    ensures Writes(l, b)
  {
    var k := TrimRightIs(b);
    JoinSplit(TrimRight(b));
  }

  /** The parser accepts exactly the language of the grammar. */
  lemma AcceptsExactly(b: string, m: Message, reader: TimeReader)
    ensures Parse(b, reader) == Ok(m) <==>
      |b| <= MAX_MESSAGE && '\r' !in b && exists l :: Denotes(b, l, m, reader)
  {
    if Parse(b, reader) == Ok(m) {
      var ls := Split(TrimRight(b));
      var l := ReadLines(ls).value;
      WriteUndoesRead(ls);
      SplitIsWritten(l, b);
      assert Denotes(b, l, m, reader);
    }
    if |b| <= MAX_MESSAGE && '\r' !in b && exists l :: Denotes(b, l, m, reader) {
      var l :| Denotes(b, l, m, reader);
      WrittenIsSplit(l, b);
      ReadUndoesWrite(l);
    }
  }

  /** No text is written from two layouts. */
  lemma LayoutUnique(b: string, l: Layout, l': Layout)
    requires Writes(l, b) && Writes(l', b) && ValidStatement(l.statement) && ValidStatement(l'.statement)
    ensures l == l'
  {
    WrittenIsSplit(l, b);
    WrittenIsSplit(l', b);
    ReadUndoesWrite(l);
    ReadUndoesWrite(l');
  }

  // ----- Characters that may not occur: newline and carriage return -----

  predicate Breaks(c: char) {
    c == '\n' || c == '\r'
  }

  ghost predicate Lack(ls: seq<string>, c: char) {
    forall i :: 0 <= i < |ls| ==> c !in ls[i]
  }

  predicate OptionLacks(text: Option<string>, c: char) {
    text.Some? ==> c !in text.value
  }

  ghost predicate TrailerLacks(t: Trailer, c: char) {
    && OptionLacks(t.expirationTime, c) && OptionLacks(t.notBefore, c) && OptionLacks(t.requestId, c)
    && (t.resources.Some? ==> Lack(t.resources.value, c))
  }

  ghost predicate LayoutLacks(l: Layout, c: char) {
    && c !in l.domain && c !in l.address && OptionLacks(l.statement, c) && c !in l.uri && c !in l.version
    && OptionLacks(l.chainId, c) && c !in l.nonce && c !in l.issuedAt && TrailerLacks(l.trailer, c)
  }

  lemma LackAppend(a: seq<string>, b: seq<string>, c: char)
    ensures Lack(a + b, c) <==> Lack(a, c) && Lack(b, c)
  {
    if Lack(a + b, c) {
      forall i | 0 <= i < |a| ensures c !in a[i] { assert (a + b)[i] == a[i]; }
      forall i | 0 <= i < |b| ensures c !in b[i] { assert (a + b)[|a| + i] == b[i]; }
    }
  }

  lemma FieldLacks(f: Field, text: string, c: char)
    requires Breaks(c)
    ensures c in FieldLine(f, text) <==> c in text
  {
    assert c !in Label(f);
  }

  lemma OptionalLacks(f: Field, text: Option<string>, c: char)
    requires Breaks(c)
    ensures Lack(OptionalLine(f, text), c) <==> OptionLacks(text, c)
  {
    if text.Some? {
      FieldLacks(f, text.value, c);
      assert OptionalLine(f, text)[0] == FieldLine(f, text.value);
    }
  }

  lemma ResourcesLack(resources: Option<seq<string>>, c: char)
    requires Breaks(c)
    ensures Lack(ResourceLines(resources), c) <==> (resources.Some? ==> Lack(resources.value, c))
  {
    if resources.Some? {
      var bullets := Bullets(resources.value);
      LackAppend([ResourcesLabel()], bullets, c);
      assert c !in ResourcesLabel() && c !in Bullet();
      forall i | 0 <= i < |bullets| ensures c in bullets[i] <==> c in resources.value[i] {}
    }
  }

  lemma TrailerLinesLack(t: Trailer, c: char)
    requires Breaks(c)
    ensures Lack(TrailerLines(t), c) <==> TrailerLacks(t, c)
  {
    var rs := ResourceLines(t.resources);
    var qs := OptionalLine(RequestID, t.requestId);
    var ns := OptionalLine(NotBefore, t.notBefore);
    LackAppend(qs, rs, c);
    LackAppend(ns, qs + rs, c);
    LackAppend(OptionalLine(ExpirationTime, t.expirationTime), ns + (qs + rs), c);
    OptionalLacks(RequestID, t.requestId, c);
    OptionalLacks(NotBefore, t.notBefore, c);
    OptionalLacks(ExpirationTime, t.expirationTime, c);
    ResourcesLack(t.resources, c);
  }

  lemma PairLacks(a: string, b: string, c: char)
    ensures Lack([a, b], c) <==> c !in a && c !in b
  {
    assert [a, b][0] == a && [a, b][1] == b;
  }

  lemma FieldLinesLack(l: Layout, c: char)
    requires Breaks(c)
    ensures Lack(FieldLines(l), c) <==>
      c !in l.uri && c !in l.version && OptionLacks(l.chainId, c) && c !in l.nonce && c !in l.issuedAt
  {
    var first := [FieldLine(URI, l.uri), FieldLine(Version, l.version)];
    var last := [FieldLine(Nonce, l.nonce), FieldLine(IssuedAt, l.issuedAt)];
    PairLacks(first[0], first[1], c);
    PairLacks(last[0], last[1], c);
    FieldLacks(URI, l.uri, c);
    FieldLacks(Version, l.version, c);
    FieldLacks(Nonce, l.nonce, c);
    FieldLacks(IssuedAt, l.issuedAt, c);
    OptionalLacks(ChainID, l.chainId, c);
    LackAppend(OptionalLine(ChainID, l.chainId), last, c);
    LackAppend(first, OptionalLine(ChainID, l.chainId) + last, c);
  }

  lemma HeaderLacks(c: char)
    requires Breaks(c)
    ensures c !in HeaderSuffix()
  {
  }

  lemma OpeningLacks(l: Layout, c: char)
    requires Breaks(c)
    ensures Lack(OpeningLines(l), c) <==> c !in l.domain && c !in l.address && OptionLacks(l.statement, c)
  {
    var head := [l.domain + HeaderSuffix(), l.address, ""];
    LackAppend(head, StatementLines(l.statement), c);
    HeaderLacks(c);
    assert head[0] == l.domain + HeaderSuffix() && head[1] == l.address;
    if l.statement.Some? { PairLacks(l.statement.value, "", c); }
  }

  lemma LinesLack(l: Layout, c: char)
    requires Breaks(c)
    ensures Lack(Lines(l), c) <==> LayoutLacks(l, c)
  {
    LackAppend(FieldLines(l), TrailerLines(l.trailer), c);
    LackAppend(OpeningLines(l), FieldLines(l) + TrailerLines(l.trailer), c);
    OpeningLacks(l, c);
    FieldLinesLack(l, c);
    TrailerLinesLack(l.trailer, c);
  }

  // ----- The round trip -----

  ghost predicate Plain(s: string) {
    '\n' !in s && '\r' !in s
  }

  /** The messages whose text survives printing and parsing. */
  ghost predicate WellFormed(m: Message) {
    && Plain(m.domain) && Plain(m.address) && Plain(m.statement) && Plain(m.uri) && Plain(m.chainId)
    && Plain(m.nonce) && Plain(m.requestId) && (forall i :: 0 <= i < |m.resources| ==> Plain(m.resources[i]))
    && m.domain != "" && ValidAddress(m.address) && ValidStatement(NonEmpty(m.statement))
    && m.uri != "" && m.version == "1" && m.chainId != "" && ValidNonce(m.nonce)
  }

  function TruncateOption(t: Option<Instant>): Option<Instant> {
    if t.Some? then Some(Truncate(t.value)) else None
  }

  /** The message with its times cut to the millisecond, all that the canonical text holds. */
  function Truncated(m: Message): Message {
    m.(issuedAt := Truncate(m.issuedAt), expirationTime := TruncateOption(m.expirationTime),
       notBefore := TruncateOption(m.notBefore))
  }

  ghost predicate InMillis(m: Message) {
    && WholeMillis(m.issuedAt)
    && (m.expirationTime.Some? ==> WholeMillis(m.expirationTime.value))
    && (m.notBefore.Some? ==> WholeMillis(m.notBefore.value))
  }

  lemma TruncatedReads(t: Instant, reader: TimeReader)
    requires Valid(t) && ReadsCanonical(reader)
    ensures reader.issuedAt(Format(t)) == Some(Truncate(t)) && reader.trailer(Format(t)) == Some(Truncate(t))
    ensures Plain(Format(t))
  {
    FormatPlain(t);
    assert Valid(Truncate(t)) && WholeMillis(Truncate(t));
  }

  lemma CanonicalMeans(m: Message, reader: TimeReader)
    requires WellFormed(m) && TimesValid(m) && ReadsCanonical(reader)
    ensures ValidLayout(CanonicalLayout(m), reader) && Meaning(CanonicalLayout(m), reader) == Truncated(m)
  {
    TruncatedReads(m.issuedAt, reader);
    if m.expirationTime.Some? { TruncatedReads(m.expirationTime.value, reader); }
    if m.notBefore.Some? { TruncatedReads(m.notBefore.value, reader); }
  }

  lemma CanonicalLacks(m: Message, c: char)
    requires WellFormed(m) && TimesOnCalendar(m) && Breaks(c)
    ensures Lack(Lines(CanonicalLayout(m)), c)
  {
    FormatPlain(m.issuedAt);
    CanonicalTrailerLacks(m, c);
    LinesLack(CanonicalLayout(m), c);
  }

  lemma CanonicalTrailerLacks(m: Message, c: char)
    requires WellFormed(m) && TimesOnCalendar(m) && Breaks(c)
    ensures TrailerLacks(CanonicalTrailer(m), c)
  {
    if m.expirationTime.Some? { FormatPlain(m.expirationTime.value); }
    if m.notBefore.Some? { FormatPlain(m.notBefore.value); }
  }

  lemma CanonicalPlain(m: Message)
    requires WellFormed(m) && TimesOnCalendar(m)
    ensures AllOneLine(Lines(CanonicalLayout(m))) && '\r' !in Printed(m)
  {
    CanonicalLacks(m, '\n');
    CanonicalLacks(m, '\r');
    JoinHas(Lines(CanonicalLayout(m)), '\r');
  }

  lemma PrintedIsWritten(m: Message)
    requires WellFormed(m) && TimesOnCalendar(m)
    ensures Writes(CanonicalLayout(m), Printed(m))
  {
    CanonicalPlain(m);
    assert Newlines(1) == "\n";
    assert Printed(m) == Join(Lines(CanonicalLayout(m))) + Newlines(1);
  }

  lemma ParsePrinted(m: Message, reader: TimeReader)
    requires WellFormed(m) && TimesValid(m) && ReadsCanonical(reader)
    ensures Parse(Printed(m), reader) == if |Printed(m)| <= MAX_MESSAGE then Ok(Truncated(m)) else Err(Malformed)
  {
    CanonicalMeans(m, reader);
    CanonicalPlain(m);
    PrintedIsWritten(m);
    if |Printed(m)| <= MAX_MESSAGE {
      assert Denotes(Printed(m), CanonicalLayout(m), Truncated(m), reader);
      AcceptsExactly(Printed(m), Truncated(m), reader);
    }
  }

  lemma MeaningIsWellFormed(l: Layout, reader: TimeReader)
    requires ValidLayout(l, reader) && LayoutLacks(l, '\n') && LayoutLacks(l, '\r')
    ensures WellFormed(Meaning(l, reader))
  {
  }

  lemma WrittenLacks(l: Layout, b: string)
    requires Writes(l, b) && '\r' !in b
    ensures LayoutLacks(l, '\n') && LayoutLacks(l, '\r')
  {
    var ls := Lines(l);
    var k: nat :| b == Join(ls) + Newlines(k);
    LinesLack(l, '\n');
    LinesLack(l, '\r');
    JoinHas(ls, '\r');
  }

  lemma ParsedIsWellFormed(b: string, m: Message, reader: TimeReader)
    requires Parse(b, reader) == Ok(m)
    ensures WellFormed(m)
  {
    AcceptsExactly(b, m, reader);
    var l :| Denotes(b, l, m, reader);
    WrittenLacks(l, b);
    MeaningIsWellFormed(l, reader);
  }

  lemma TruncatedSame(m: Message)
    ensures InMillis(m) <==> Truncated(m) == m
  {
  }

  /**
   * Parse(m.String()) equals m exactly for the well-formed messages in whole milliseconds of the years 0 to 9999 that
   * fit the size cap. What is printed for other years has to be refused by the reader.
   */
  lemma RoundTrip(m: Message, reader: TimeReader)
    requires TimesOnCalendar(m) && ReadsCanonical(reader) && (TimesValid(m) || RefusesOthers(reader))
    ensures Parse(Printed(m), reader) == Ok(m) <==>
      TimesValid(m) && WellFormed(m) && InMillis(m) && |Printed(m)| <= MAX_MESSAGE
  {
    var b := Printed(m);
    TruncatedSame(m);
    if Parse(b, reader) == Ok(m) {
      ParsedIsWellFormed(b, m, reader);
      if !TimesValid(m) { OthersRefused(m, reader); }
    }
    if WellFormed(m) && TimesValid(m) {
      ParsePrinted(m, reader);
    }
  }

  /** What is printed can only be read as what was printed. */
  lemma PrintIsRead(m: Message, reader: TimeReader)
    requires WellFormed(m) && TimesOnCalendar(m) && Parse(Printed(m), reader).Ok?
    ensures ValidLayout(CanonicalLayout(m), reader)
  {
    var b, other := Printed(m), Parse(Printed(m), reader).value;
    AcceptsExactly(b, other, reader);
    var l :| Denotes(b, l, other, reader);
    PrintedIsWritten(m);
    LayoutUnique(b, l, CanonicalLayout(m));
  }

  lemma OthersRefused(m: Message, reader: TimeReader)
    requires WellFormed(m) && TimesOnCalendar(m) && !TimesValid(m) && RefusesOthers(reader)
    ensures Parse(Printed(m), reader).Err?
  {
    if Parse(Printed(m), reader).Ok? {
      PrintIsRead(m, reader);
      assert false;
    }
  }

  /** Distinct well-formed messages print differently, whatever their size. */
  lemma PrintingInjective(m: Message, n: Message)
    requires WellFormed(m) && TimesValid(m) && InMillis(m)
    requires WellFormed(n) && TimesValid(n) && InMillis(n)
    requires Printed(m) == Printed(n)
    ensures m == n
  {
    PrintedIsWritten(m);
    PrintedIsWritten(n);
    LayoutUnique(Printed(m), CanonicalLayout(m), CanonicalLayout(n));
    CanonicalReaderQualifies();
    CanonicalMeans(m, CanonicalReader());
    CanonicalMeans(n, CanonicalReader());
  }

  // ----- Printing what was parsed -----

  /** How much longer the canonical text can be: the default chain line, the last newline, and short timestamps. */
  const DEFAULT_CHAIN_LINE := 18

  function OptionalSize(f: Field, text: Option<string>): nat {
    if text.Some? then |Label(f)| + |text.value| + 1 else 0
  }

  lemma OptionalLineSize(f: Field, text: Option<string>)
    ensures Size(OptionalLine(f, text)) == OptionalSize(f, text)
  {
    if text.Some? {
      assert OptionalLine(f, text)[1..] == [];
    }
  }

  lemma TrailerSize(t: Trailer)
    ensures Size(TrailerLines(t)) ==
      OptionalSize(ExpirationTime, t.expirationTime) + OptionalSize(NotBefore, t.notBefore)
      + OptionalSize(RequestID, t.requestId) + Size(ResourceLines(t.resources))
  {
    var rs := ResourceLines(t.resources);
    var qs := OptionalLine(RequestID, t.requestId);
    var ns := OptionalLine(NotBefore, t.notBefore);
    SizeAppend(qs, rs);
    SizeAppend(ns, qs + rs);
    SizeAppend(OptionalLine(ExpirationTime, t.expirationTime), ns + (qs + rs));
    OptionalLineSize(ExpirationTime, t.expirationTime);
    OptionalLineSize(NotBefore, t.notBefore);
    OptionalLineSize(RequestID, t.requestId);
  }

  lemma PairSize(a: string, b: string)
    ensures Size([a, b]) == |a| + |b| + 2
  {
    assert [a, b][1..] == [b] && [b][1..] == [];
    assert Size([b]) == |b| + 1 + Size([]);
  }

  lemma FieldsSize(l: Layout)
    ensures Size(FieldLines(l)) ==
      |Label(URI)| + |l.uri| + |Label(Version)| + |l.version| + OptionalSize(ChainID, l.chainId)
      + |Label(Nonce)| + |l.nonce| + |Label(IssuedAt)| + |l.issuedAt| + 4
  {
    var first := [FieldLine(URI, l.uri), FieldLine(Version, l.version)];
    var last := [FieldLine(Nonce, l.nonce), FieldLine(IssuedAt, l.issuedAt)];
    SizeAppend(OptionalLine(ChainID, l.chainId), last);
    SizeAppend(first, OptionalLine(ChainID, l.chainId) + last);
    PairSize(first[0], first[1]);
    PairSize(last[0], last[1]);
    OptionalLineSize(ChainID, l.chainId);
  }

  lemma LinesSize(l: Layout)
    ensures Size(Lines(l)) == Size(OpeningLines(l)) + Size(FieldLines(l)) + Size(TrailerLines(l.trailer))
  {
    SizeAppend(FieldLines(l), TrailerLines(l.trailer));
    SizeAppend(OpeningLines(l), FieldLines(l) + TrailerLines(l.trailer));
  }

  predicate AtLeast(text: Option<string>, n: nat) {
    text.Some? ==> |text.value| >= n
  }

  /** The timestamps of a layout have at least n characters. */
  predicate TimesAtLeast(l: Layout, n: nat) {
    |l.issuedAt| >= n && AtLeast(l.trailer.expirationTime, n) && AtLeast(l.trailer.notBefore, n)
  }

  lemma CanonicalTrailerSize(l: Layout, m: Message, reader: TimeReader, n: nat)
    requires ValidLayout(l, reader) && m == Meaning(l, reader) && TimesValid(m) && TimesAtLeast(l, n) && n <= LAYOUT_LEN
    ensures Size(TrailerLines(CanonicalTrailer(m))) <= Size(TrailerLines(l.trailer)) + 2 * (LAYOUT_LEN - n)
  {
    TrailerSize(l.trailer);
    TrailerSize(CanonicalTrailer(m));
    TimeSize(ExpirationTime, l.trailer.expirationTime, m.expirationTime, reader, n);
    TimeSize(NotBefore, l.trailer.notBefore, m.notBefore, reader, n);
    RestSize(l.trailer, m);
  }

  lemma TimeSize(f: Field, text: Option<string>, t: Option<Instant>, reader: TimeReader, n: nat)
    requires AtLeast(text, n) && n <= LAYOUT_LEN && t == ReadTime(text, reader) && (t.Some? ==> Valid(t.value))
    ensures OptionalSize(f, FormatOptional(t)) <= OptionalSize(f, text) + (LAYOUT_LEN - n)
  {
  }

  lemma RestSize(t: Trailer, m: Message)
    requires m.requestId == OrEmpty(t.requestId) && m.resources == if t.resources.Some? then t.resources.value else []
    ensures OptionalSize(RequestID, NonEmpty(m.requestId)) <= OptionalSize(RequestID, t.requestId)
    ensures Size(ResourceLines(if m.resources != [] then Some(m.resources) else None)) <= Size(ResourceLines(t.resources))
  {
  }

  lemma ChainSize(text: Option<string>)
    ensures OptionalSize(ChainID, Some(ChainOf(text))) <= OptionalSize(ChainID, text) + DEFAULT_CHAIN_LINE
  {
    assert |Label(ChainID)| + |DEFAULT_CHAIN| + 1 == DEFAULT_CHAIN_LINE;
  }

  lemma CanonicalFieldsSize(l: Layout, m: Message, reader: TimeReader, n: nat)
    requires ValidLayout(l, reader) && m == Meaning(l, reader) && TimesValid(m) && TimesAtLeast(l, n) && n <= LAYOUT_LEN
    ensures Size(FieldLines(CanonicalLayout(m))) <= Size(FieldLines(l)) + DEFAULT_CHAIN_LINE + (LAYOUT_LEN - n)
  {
    var c := CanonicalLayout(m);
    assert c.uri == l.uri && c.version == l.version && c.nonce == l.nonce && c.chainId == Some(ChainOf(l.chainId));
    ChainSize(l.chainId);
    FieldsSize(l);
    FieldsSize(c);
  }

  /** Printing what was parsed lengthens the text by at most a default chain line, a newline and short timestamps. */
  lemma PrintedSize(b: string, l: Layout, m: Message, reader: TimeReader, n: nat)
    requires Denotes(b, l, m, reader) && TimesValid(m) && TimesAtLeast(l, n) && n <= LAYOUT_LEN
    ensures |Printed(m)| <= |b| + 1 + DEFAULT_CHAIN_LINE + 3 * (LAYOUT_LEN - n)
  {
    CanonicalTrailerSize(l, m, reader, n);
    CanonicalFieldsSize(l, m, reader, n);
    var c := CanonicalLayout(m);
    assert OpeningLines(c) == OpeningLines(l);
    LinesSize(l);
    LinesSize(c);
    JoinSize(Lines(l));
    JoinSize(Lines(c));
  }

  /**
   * Printing is a normal form: it prints to itself again, and parses again unless it outgrew the cap. With timestamps of
   * at least n characters it does not outgrow it up to 8173 bytes, less 3 for each character that n falls short of 24.
   */
  lemma NormalForm(b: string, l: Layout, m: Message, reader: TimeReader, n: nat)
    requires Parse(b, reader) == Ok(m) && Denotes(b, l, m, reader) && TimesValid(m) && ReadsCanonical(reader)
    ensures TimesValid(Truncated(m)) && Printed(Truncated(m)) == Printed(m)
    ensures Parse(Printed(m), reader) == if |Printed(m)| <= MAX_MESSAGE then Ok(Truncated(m)) else Err(Malformed)
    ensures TimesAtLeast(l, n) && n <= LAYOUT_LEN && |b| + 3 * (LAYOUT_LEN - n) <= 8173 ==>
      Parse(Printed(m), reader) == Ok(Truncated(m))
  {
    ParsedIsWellFormed(b, m, reader);
    ParsePrinted(m, reader);
    TruncatedPrints(m);
    if TimesAtLeast(l, n) && n <= LAYOUT_LEN {
      PrintedSize(b, l, m, reader, n);
    }
  }

  /** The print of an accepted message is accepted again exactly if its years have four digits and it fits the cap. */
  lemma ReparsesIff(b: string, m: Message, reader: TimeReader)
    requires Parse(b, reader) == Ok(m) && TimesOnCalendar(m) && ReadsCanonical(reader) && RefusesOthers(reader)
    ensures Parse(Printed(m), reader).Ok? <==> TimesValid(m) && |Printed(m)| <= MAX_MESSAGE
  {
    ParsedIsWellFormed(b, m, reader);
    if TimesValid(m) {
      ParsePrinted(m, reader);
    } else {
      OthersRefused(m, reader);
    }
  }

  lemma TruncatedPrints(m: Message)
    requires TimesValid(m)
    ensures TimesValid(Truncated(m)) && Printed(Truncated(m)) == Printed(m)
  {
    FormatPlain(m.issuedAt);
    TruncatedFormats(m.expirationTime);
    TruncatedFormats(m.notBefore);
    assert CanonicalLayout(Truncated(m)) == CanonicalLayout(m);
  }

  lemma TruncatedFormats(t: Option<Instant>)
    requires t.Some? ==> Valid(t.value)
    ensures TruncateOption(t).Some? ==> Valid(TruncateOption(t).value)
    ensures FormatOptional(TruncateOption(t)) == FormatOptional(t)
  {
    if t.Some? { FormatPlain(t.value); }
  }

  // ----- The cap can break re-parsing: an accepted message whose own print is refused -----

  /** A sign-in for this domain, key and nonce without a chain line. */
  ghost predicate Sparse(l: Layout) {
    && l.domain != "" && Plain(l.domain) && ValidAddress(l.address) && l.statement == None
    && l.uri != "" && Plain(l.uri) && l.version == "1" && l.chainId == None && ValidNonce(l.nonce)
    && ReadCanonical(l.issuedAt).Some? && l.trailer == Trailer(None, None, None, None)
  }

  lemma AddressPlain(s: string)
    requires ValidAddress(s)
    ensures Plain(s)
  {
    assert Base58.IndexOf('\n') == -1 && Base58.IndexOf('\r') == -1;
  }

  lemma SparseIsPlain(l: Layout, c: char)
    requires Sparse(l) && Breaks(c)
    ensures LayoutLacks(l, c)
  {
    AddressPlain(l.address);
    FormatRead(l.issuedAt);
    FormatPlain(ReadCanonical(l.issuedAt).value);
  }

  /** What it means, to any reader of canonical timestamps. */
  lemma SparseMeans(l: Layout, reader: TimeReader)
    requires Sparse(l) && ReadsCanonical(reader)
    ensures ValidLayout(l, reader) && TimesValid(Meaning(l, reader))
    ensures CanonicalLayout(Meaning(l, reader)) == l.(chainId := Some(DEFAULT_CHAIN))
  {
    FormatRead(l.issuedAt);
  }

  lemma SparseLines(l: Layout)
    requires Sparse(l)
    ensures AllOneLine(Lines(l)) && '\r' !in Join(Lines(l))
  {
    SparseIsPlain(l, '\n');
    SparseIsPlain(l, '\r');
    LinesLack(l, '\n');
    LinesLack(l, '\r');
    JoinHas(Lines(l), '\r');
  }

  lemma SparseWrites(l: Layout, reader: TimeReader)
    requires Sparse(l) && ReadsCanonical(reader)
    ensures ValidLayout(l, reader) && Denotes(Join(Lines(l)), l, Meaning(l, reader), reader)
  {
    SparseMeans(l, reader);
    SparseLines(l);
    JoinedWrites(l, Join(Lines(l)));
  }

  lemma JoinedWrites(l: Layout, b: string)
    requires AllOneLine(Lines(l)) && b == Join(Lines(l))
    ensures Writes(l, b)
  {
    assert b == b + Newlines(0);
  }

  lemma SparsePrints(l: Layout, c: Layout)
    requires Sparse(l) && c == l.(chainId := Some(DEFAULT_CHAIN))
    ensures Size(Lines(c)) == Size(Lines(l)) + DEFAULT_CHAIN_LINE
  {
    assert |Label(ChainID)| + |DEFAULT_CHAIN| + 1 == DEFAULT_CHAIN_LINE;
    assert OpeningLines(c) == OpeningLines(l);
    LinesSize(l);
    LinesSize(c);
    FieldsSize(l);
    FieldsSize(c);
  }

  /** A URI can be chosen to bring the text to any length. */
  function Pad(l: Layout, n: nat): Layout {
    l.(uri := l.uri + Repeat('/', n))
  }

  lemma Padded(l: Layout, n: nat)
    requires Sparse(l)
    ensures Sparse(Pad(l, n)) && Size(Lines(Pad(l, n))) == Size(Lines(l)) + n
  {
    var p := Pad(l, n);
    assert OpeningLines(p) == OpeningLines(l);
    LinesSize(l);
    LinesSize(p);
    FieldsSize(l);
    FieldsSize(p);
  }

  /**
   * So "a successful parse prints to a parsable text" fails just above the bound of NormalForm: any sign-in without a
   * chain line, its URI padded to n bytes, is accepted, and its own print is refused, for every n from 8174 to the cap.
   */
  lemma ReparseCanFail(l: Layout, n: nat, reader: TimeReader) returns (b: string, m: Message)
    requires Sparse(l) && Size(Lines(l)) <= n + 1 && 8173 < n <= MAX_MESSAGE && ReadsCanonical(reader)
    ensures |b| == n && Parse(b, reader) == Ok(m) && m.address == l.address
    ensures TimesValid(m) && Parse(Printed(m), reader).Err?
  {
    var k := n + 1 - Size(Lines(l));
    Padded(l, k);
    b, m := NearCap(Pad(l, k), n, reader);
  }

  lemma HeadSize(l: Layout)
    requires l.statement == None
    ensures Size(OpeningLines(l)) == |l.domain| + |HeaderSuffix()| + |l.address| + 3
  {
    var first, rest := l.domain + HeaderSuffix(), [l.address, ""];
    assert OpeningLines(l) == [first] + rest;
    PairSize(l.address, "");
    assert ([first] + rest)[1..] == rest;
  }

  /** A small sign-in for a key, at a given instant. */
  function SmallLayout(key: seq<byte>, t: Instant): Layout
    requires Valid(t)
  {
    Layout("a", Base58.Encode(key), None, "b", "1", None, Repeat('a', 8), Format(t), Trailer(None, None, None, None))
  }

  lemma SmallIsSparse(key: seq<byte>, t: Instant)
    requires |key| == 32 && Valid(t) && WholeMillis(t)
    ensures Sparse(SmallLayout(key, t))
  {
    Base58.KeyLength(key);
    ReadFormat(t);
    assert ValidAddress(Base58.Encode(key));
  }

  lemma SmallIsSmall(key: seq<byte>, t: Instant, l: Layout)
    requires |key| == 32 && Valid(t) && l == SmallLayout(key, t)
    ensures Size(Lines(l)) <= 300
  {
    Base58.KeyLength(key);
    HeadSize(l);
    HeaderLength();
    FieldsSize(l);
    TrailerSize(l.trailer);
    LinesSize(l);
  }

  lemma HeaderLength()
    ensures |HeaderSuffix()| == 47
  {
  }

  /** For every key and every length from 8174 to the cap there is an accepted sign-in whose own print is refused. */
  lemma ReparseFailsForEveryKey(key: seq<byte>, n: nat, reader: TimeReader) returns (b: string, m: Message)
    requires |key| == 32 && 8173 < n <= MAX_MESSAGE && ReadsCanonical(reader)
    ensures |b| == n && Parse(b, reader) == Ok(m) && m.address == Base58.Encode(key)
    ensures TimesValid(m) && Parse(Printed(m), reader).Err?
  {
    var t := Instant(2026, 1, 1, 0, 0, 0, 0);
    var l := SmallLayout(key, t);
    SmallIsSparse(key, t);
    SmallIsSmall(key, t, l);
    b, m := ReparseCanFail(l, n, reader);
  }

  lemma NearCap(l: Layout, n: nat, reader: TimeReader) returns (b: string, m: Message)
    requires Sparse(l) && Size(Lines(l)) == n + 1 && 8173 < n <= MAX_MESSAGE && ReadsCanonical(reader)
    ensures |b| == n && Parse(b, reader) == Ok(m) && m.address == l.address
    ensures TimesValid(m) && |Printed(m)| > MAX_MESSAGE
  {
    SparseMeans(l, reader);
    SparseLines(l);
    SparseWrites(l, reader);
    b, m := Join(Lines(l)), Meaning(l, reader);
    SparsePrints(l, CanonicalLayout(m));
    LastLine(l);
    JoinSize(Lines(l));
    PrintedIsSize(m);
    AcceptsExactly(b, m, reader);
  }

  lemma PrintedIsSize(m: Message)
    requires TimesValid(m)
    ensures |Printed(m)| == Size(Lines(CanonicalLayout(m)))
  {
    JoinSize(Lines(CanonicalLayout(m)));
  }
}
