/** The SIWS text written out, with no grammar in between: which bytes are accepted, what they mean, and what is printed. */
module SiwsText {
  import opened Wrappers
  import opened Text
  import opened Timestamps
  import opened SiwsMessage
  import opened SiwsGrammar
  import opened SiwsErrors
  import opened SiwsTheorems
  import Base58

  // ----- The text of a choice of field texts -----

  function Line(head: string, text: string): string {
    head + text + "\n"
  }

  function LineIf(head: string, text: Option<string>): string {
    if text.Some? then Line(head, text.value) else ""
  }

  function BulletText(texts: seq<string>): string {
    if texts == [] then "" else BulletText(texts[..|texts| - 1]) + Line("- ", texts[|texts| - 1])
  }

  function OpeningText(l: Layout): string {
    l.domain + " wants you to sign in with your Solana account:" + "\n"
    + l.address + "\n"
    + "\n"
    + if l.statement.Some? then l.statement.value + "\n" + "\n" else ""
  }

  function FieldText(l: Layout): string {
    (Line("URI: ", l.uri)
    + Line("Version: ", l.version))
    + (LineIf("Chain ID: ", l.chainId)
    + (Line("Nonce: ", l.nonce)
    + Line("Issued At: ", l.issuedAt)))
  }

  function TrailerText(t: Trailer): string {
    LineIf("Expiration Time: ", t.expirationTime)
    + (LineIf("Not Before: ", t.notBefore)
    + (LineIf("Request ID: ", t.requestId)
    + ResourcesText(t.resources)))
  }

  function ResourcesText(resources: Option<seq<string>>): string {
    if resources.Some? then "Resources:\n" + BulletText(resources.value) else ""
  }

  function TextOf(l: Layout): string {
    OpeningText(l) + (FieldText(l) + TrailerText(l.trailer))
  }

  // ----- It is the text of the grammar's lines -----

  lemma {:induction false} UnlinesAppend(a: seq<string>, b: seq<string>)
    ensures Unlines(a + b) == Unlines(a) + Unlines(b)
  {
    if b == [] {
      assert a + b == a;
    } else {
      var front, last := b[..|b| - 1], b[|b| - 1];
      UnlinesAppend(a, front);
      UnlinesSnoc(a + front, last);
      assert a + b == a + front + [last] && b == front + [last];
      Regrouped(Unlines(a), Unlines(front), last + "\n");
    }
  }

  lemma Regrouped(a: string, b: string, c: string)
    ensures a + b + c == a + (b + c)
  {
  }

  /** Three runs of lines whose texts are known. */
  lemma UnlinesThree(a: seq<string>, b: seq<string>, c: seq<string>, s: string, t: string, u: string)
    requires Unlines(a) == s && Unlines(b) == t && Unlines(c) == u
    ensures Unlines(a + (b + c)) == s + (t + u)
  {
    UnlinesAppend(b, c);
    UnlinesAppend(a, b + c);
  }

  lemma UnlinesOne(s: string)
    ensures Unlines([s]) == s + "\n"
  {
    UnlinesSnoc([], s);
    assert [] + [s] == [s];
  }

  lemma UnlinesPair(a: string, b: string)
    ensures Unlines([a, b]) == a + "\n" + (b + "\n")
  {
    UnlinesOne(a);
    UnlinesSnoc([a], b);
    assert [a] + [b] == [a, b];
  }

  lemma UnlinesField(f: Field, head: string, text: string)
    requires head == Label(f)
    ensures Unlines([FieldLine(f, text)]) == Line(head, text)
  {
    UnlinesOne(FieldLine(f, text));
  }

  lemma UnlinesOptional(f: Field, head: string, text: Option<string>)
    requires head == Label(f)
    ensures Unlines(OptionalLine(f, text)) == LineIf(head, text)
  {
    if text.Some? { UnlinesField(f, head, text.value); }
  }

  lemma {:induction false} UnlinesBullets(texts: seq<string>)
    ensures Unlines(Bullets(texts)) == BulletText(texts)
  {
    if texts != [] {
      var front, last := texts[..|texts| - 1], texts[|texts| - 1];
      UnlinesBullets(front);
      UnlinesSnoc(Bullets(front), Bullet() + last);
      assert Bullets(texts) == Bullets(front) + [Bullet() + last];
    }
  }

  lemma UnlinesResources(resources: Option<seq<string>>)
    ensures Unlines(ResourceLines(resources)) == ResourcesText(resources)
  {
    if resources.Some? {
      UnlinesAppend([ResourcesLabel()], Bullets(resources.value));
      UnlinesOne(ResourcesLabel());
      UnlinesBullets(resources.value);
      assert ResourcesLabel() + "\n" == "Resources:\n";
    }
  }

  lemma TrailerTextIs(t: Trailer)
    ensures Unlines(TrailerLines(t)) == TrailerText(t)
  {
    UnlinesOptional(ExpirationTime, "Expiration Time: ", t.expirationTime);
    UnlinesOptional(NotBefore, "Not Before: ", t.notBefore);
    UnlinesOptional(RequestID, "Request ID: ", t.requestId);
    UnlinesResources(t.resources);
    UnlinesAppend(OptionalLine(RequestID, t.requestId), ResourceLines(t.resources));
    UnlinesThree(OptionalLine(ExpirationTime, t.expirationTime), OptionalLine(NotBefore, t.notBefore),
                 OptionalLine(RequestID, t.requestId) + ResourceLines(t.resources),
                 LineIf("Expiration Time: ", t.expirationTime), LineIf("Not Before: ", t.notBefore),
                 LineIf("Request ID: ", t.requestId) + ResourcesText(t.resources));
  }

  lemma UnlinesFields(f: Field, a: string, g: Field, b: string, left: string, right: string)
    requires left == Label(f) && right == Label(g)
    ensures Unlines([FieldLine(f, a), FieldLine(g, b)]) == Line(left, a) + Line(right, b)
  {
    UnlinesPair(FieldLine(f, a), FieldLine(g, b));
  }

  lemma FieldTextIs(l: Layout)
    ensures Unlines(FieldLines(l)) == FieldText(l)
  {
    var first := [FieldLine(URI, l.uri), FieldLine(Version, l.version)];
    var last := [FieldLine(Nonce, l.nonce), FieldLine(IssuedAt, l.issuedAt)];
    UnlinesFields(URI, l.uri, Version, l.version, "URI: ", "Version: ");
    UnlinesOptional(ChainID, "Chain ID: ", l.chainId);
    UnlinesFields(Nonce, l.nonce, IssuedAt, l.issuedAt, "Nonce: ", "Issued At: ");
    UnlinesThree(first, OptionalLine(ChainID, l.chainId), last,
                 Line("URI: ", l.uri) + Line("Version: ", l.version), LineIf("Chain ID: ", l.chainId),
                 Line("Nonce: ", l.nonce) + Line("Issued At: ", l.issuedAt));
  }

  lemma HeaderIs()
    ensures HeaderSuffix() == " wants you to sign in with your Solana account:"
  {
  }

  lemma OpeningTextIs(l: Layout)
    ensures Unlines(OpeningLines(l)) == OpeningText(l)
  {
    var first, rest := l.domain + HeaderSuffix(), [l.address, ""];
    HeaderIs();
    UnlinesAppend([first] + rest, StatementLines(l.statement));
    UnlinesAppend([first], rest);
    UnlinesOne(first);
    UnlinesPair(l.address, "");
    assert OpeningLines(l) == [first] + rest + StatementLines(l.statement);
    if l.statement.Some? { UnlinesPair(l.statement.value, ""); }
  }

  lemma TextIs(l: Layout)
    ensures Join(Lines(l)) + "\n" == TextOf(l)
  {
    UnlinesJoin(Lines(l));
    OpeningTextIs(l);
    FieldTextIs(l);
    TrailerTextIs(l.trailer);
    UnlinesThree(OpeningLines(l), FieldLines(l), TrailerLines(l.trailer), OpeningText(l), FieldText(l), TrailerText(l.trailer));
  }

  // ----- Which field texts are allowed, and what they mean -----

  predicate StartsWithLabel(s: string) {
    || "URI: " <= s || "Version: " <= s || "Chain ID: " <= s || "Nonce: " <= s || "Issued At: " <= s
    || "Expiration Time: " <= s || "Not Before: " <= s || "Request ID: " <= s || "Resources:" <= s
  }

  predicate Alphanumeric(c: char) {
    'a' <= c <= 'z' || 'A' <= c <= 'Z' || '0' <= c <= '9'
  }

  predicate Allowed(l: Layout, reader: TimeReader) {
    && l.domain != "" && l.uri != "" && l.version == "1"
    && Base58.Decode(l.address).Ok? && |Base58.Decode(l.address).value| == 32
    && (l.statement.Some? ==> l.statement.value != "" && !StartsWithLabel(l.statement.value))
    && |l.nonce| >= 8 && (forall i :: 0 <= i < |l.nonce| ==> Alphanumeric(l.nonce[i]))
    && reader.issuedAt(l.issuedAt).Some?
    && (l.trailer.expirationTime.Some? ==> reader.trailer(l.trailer.expirationTime.value).Some?)
    && (l.trailer.notBefore.Some? ==> reader.trailer(l.trailer.notBefore.value).Some?)
  }

  function MessageIn(l: Layout, reader: TimeReader): Message
    requires Allowed(l, reader)
  {
    Message(
      l.domain, l.address, if l.statement.Some? then l.statement.value else "", l.uri, "1",
      if l.chainId.Some? && l.chainId.value != "" then l.chainId.value else "mainnet",
      l.nonce, reader.issuedAt(l.issuedAt).value,
      if l.trailer.expirationTime.Some? then reader.trailer(l.trailer.expirationTime.value) else None,
      if l.trailer.notBefore.Some? then reader.trailer(l.trailer.notBefore.value) else None,
      if l.trailer.requestId.Some? then l.trailer.requestId.value else "",
      if l.trailer.resources.Some? then l.trailer.resources.value else [])
  }

  lemma LabelsAre(s: string)
    ensures IsFieldPrefix(s) <==> StartsWithLabel(s)
  {
    if StartsWithLabel(s) && !("Resources:" <= s) {
      var f := if "URI: " <= s then URI else if "Version: " <= s then Version else if "Chain ID: " <= s then ChainID
               else if "Nonce: " <= s then Nonce else if "Issued At: " <= s then IssuedAt
               else if "Expiration Time: " <= s then ExpirationTime else if "Not Before: " <= s then NotBefore else RequestID;
      assert Label(f) <= s;
    }
    if IsFieldPrefix(s) && !(ResourcesLabel() <= s) {
      var f :| Label(f) <= s;
      LabelStarts(f, s);
    }
  }

  lemma LabelStarts(f: Field, s: string)
    requires Label(f) <= s
    ensures StartsWithLabel(s)
  {
  }

  lemma AllowedIs(l: Layout, reader: TimeReader)
    ensures ValidLayout(l, reader) <==> Allowed(l, reader)
    ensures Allowed(l, reader) ==> Meaning(l, reader) == MessageIn(l, reader)
  {
    if l.statement.Some? { LabelsAre(l.statement.value); }
  }

  // ----- Parsing -----

  /** The bytes are this text, but for the number of newlines at the end. */
  ghost predicate IsText(b: string, l: Layout) {
    exists k: nat :: b + "\n" == TextOf(l) + Repeat('\n', k)
  }

  ghost predicate InText(b: string, l: Layout, m: Message, reader: TimeReader) {
    LayoutLacks(l, '\n') && IsText(b, l) && Allowed(l, reader) && m == MessageIn(l, reader)
  }

  lemma EndsMatch(b: string, joined: string, text: string, k: nat)
    requires text == joined + "\n"
    ensures b == joined + Newlines(k) <==> b + "\n" == text + Repeat('\n', k)
  {
    assert "\n" + Repeat('\n', k) == Repeat('\n', k) + "\n";
    assert text + Repeat('\n', k) == joined + Newlines(k) + "\n";
    if b + "\n" == text + Repeat('\n', k) {
      assert b == (b + "\n")[..|b|];
      assert joined + Newlines(k) == (joined + Newlines(k) + "\n")[..|b|];
    }
  }

  lemma WritesIsText(b: string, l: Layout)
    ensures Writes(l, b) <==> LayoutLacks(l, '\n') && IsText(b, l)
  {
    TextIs(l);
    LinesLack(l, '\n');
    forall k: nat ensures b == Join(Lines(l)) + Newlines(k) <==> b + "\n" == TextOf(l) + Repeat('\n', k) {
      EndsMatch(b, Join(Lines(l)), TextOf(l), k);
    }
  }

  lemma DenotesInText(b: string, l: Layout, m: Message, reader: TimeReader)
    ensures Denotes(b, l, m, reader) <==> InText(b, l, m, reader)
  {
    WritesIsText(b, l);
    AllowedIs(l, reader);
  }

  /** The bytes that are accepted, and the message each stands for. */
  lemma ParsedText(b: string, m: Message, reader: TimeReader)
    ensures Parse(b, reader) == Ok(m) <==> |b| <= 8192 && '\r' !in b && exists l :: InText(b, l, m, reader)
  {
    AcceptsExactly(b, m, reader);
    forall l ensures Denotes(b, l, m, reader) <==> InText(b, l, m, reader) { DenotesInText(b, l, m, reader); }
  }

  lemma FourthLine(l: Layout)
    ensures |Lines(l)| > 4
    ensures if l.statement.Some? then Lines(l)[3] == l.statement.value && Lines(l)[4] == "" else Lines(l)[4] != ""
  {
    var rest := FieldLines(l) + TrailerLines(l.trailer);
    OpeningSits(l, rest);
    LabelMatches(Version, Version, l.version);
    assert rest[1] == FieldLine(Version, l.version);
    assert Lines(l)[3] == Lines(l)[3..][0] && Lines(l)[4] == Lines(l)[3..][1];
  }

  /** Lines of a layout with a statement that is not allowed are those of no layout with one that is. */
  lemma StatementTells(l: Layout, l': Layout)
    requires Lines(l) == Lines(l') && ValidStatement(l'.statement)
    ensures ValidStatement(l.statement)
  {
    FourthLine(l);
    FourthLine(l');
  }

  lemma OnlyMalformed(b: string, reader: TimeReader)
    ensures Parse(b, reader).Err? ==> Parse(b, reader) == Err(Malformed)
  {
  }

  /** Any choice of field texts of one line, written out, is parsed to exactly these fields, or refused as malformed. */
  lemma WrittenParsed(l: Layout, b: string, reader: TimeReader)
    requires LayoutLacks(l, '\n') && b == TextOf(l)
    ensures Parse(b, reader) ==
      if |b| <= 8192 && '\r' !in b && Allowed(l, reader) then Ok(MessageIn(l, reader)) else Err(Malformed)
  {
    OnlyMalformed(b, reader);
    ItsOwnText(b, l);
    if |b| <= 8192 && '\r' !in b && Allowed(l, reader) {
      assert InText(b, l, MessageIn(l, reader), reader);
      ParsedText(b, MessageIn(l, reader), reader);
    } else if Parse(b, reader).Ok? {
      WritesIsText(b, l);
      OnlyAllowed(b, l, Parse(b, reader).value, reader);
    }
  }

  lemma ItsOwnText(b: string, l: Layout)
    requires b == TextOf(l)
    ensures IsText(b, l)
  {
    assert "\n" == Repeat('\n', 1);
  }

  lemma OnlyAllowed(b: string, l: Layout, m: Message, reader: TimeReader)
    requires Writes(l, b) && Parse(b, reader) == Ok(m)
    ensures |b| <= 8192 && '\r' !in b && Allowed(l, reader)
  {
    AcceptsExactly(b, m, reader);
    var l' :| Denotes(b, l', m, reader);
    WrittenIsSplit(l, b);
    WrittenIsSplit(l', b);
    StatementTells(l, l');
    LayoutUnique(b, l, l');
    AllowedIs(l, reader);
  }

  // ----- Printing -----

  function Present(text: string): Option<string> {
    if text == "" then None else Some(text)
  }

  function PresentTime(t: Option<Instant>): Option<string>
    requires t.Some? ==> OnCalendar(t.value)
  {
    if t.Some? then Some(Format(t.value)) else None
  }

  /** What String writes: the same text, with a Chain ID line always and the other optional lines when there is something to say. */
  lemma PrintedText(m: Message)
    requires TimesOnCalendar(m)
    ensures Printed(m) == TextOf(Layout(
      m.domain, m.address, Present(m.statement), m.uri, m.version, Some(m.chainId), m.nonce, Format(m.issuedAt),
      Trailer(PresentTime(m.expirationTime), PresentTime(m.notBefore), Present(m.requestId),
              if m.resources == [] then None else Some(m.resources))))
  {
    TextIs(CanonicalLayout(m));
  }
}
