/** siws/message.go: the message, the lines it is written in, and its printer. */
module SiwsMessage {
  import opened Wrappers
  import opened Text
  import opened Timestamps

  datatype Message = Message(
    domain: string,
    address: string,
    statement: string,          // empty means absent
    uri: string,
    version: string,
    chainId: string,
    nonce: string,
    issuedAt: Instant,
    expirationTime: Option<Instant>,
    notBefore: Option<Instant>,
    requestId: string,          // empty means absent
    resources: seq<string>)

  // ----- Field labels -----

  datatype Field = URI | Version | ChainID | Nonce | IssuedAt | ExpirationTime | NotBefore | RequestID

  function Label(f: Field): string {
    match f
    case URI => "URI: "
    case Version => "Version: "
    case ChainID => "Chain ID: "
    case Nonce => "Nonce: "
    case IssuedAt => "Issued At: "
    case ExpirationTime => "Expiration Time: "
    case NotBefore => "Not Before: "
    case RequestID => "Request ID: "
  }

  function HeaderSuffix(): string {
    " wants you to sign in" + " with your Solana account:"
  }

  function ResourcesLabel(): string { "Resources:" }

  function Bullet(): (s: string)
    ensures |s| == 2
  {
    "- "
  }

  const DEFAULT_CHAIN := "mainnet"

  /** isFieldPrefix */
  predicate IsFieldPrefix(s: string) {
    (exists f: Field :: Label(f) <= s) || ResourcesLabel() <= s
  }

  // ----- The grammar: the lines that a choice of field texts is written in -----

  /** The texts of one message as they stand on its lines; None for a line that is not there. */
  datatype Layout = Layout(
    domain: string,
    address: string,
    statement: Option<string>,
    uri: string,
    version: string,
    chainId: Option<string>,
    nonce: string,
    issuedAt: string,
    trailer: Trailer)

  datatype Trailer = Trailer(
    expirationTime: Option<string>,
    notBefore: Option<string>,
    requestId: Option<string>,
    resources: Option<seq<string>>)

  function FieldLine(f: Field, text: string): string {
    Label(f) + text
  }

  function OptionalLine(f: Field, text: Option<string>): seq<string> {
    if text.Some? then [FieldLine(f, text.value)] else []
  }

  function Bullets(texts: seq<string>): (ls: seq<string>)
    ensures |ls| == |texts| && forall i :: 0 <= i < |ls| ==> ls[i] == Bullet() + texts[i]
  {
    seq(|texts|, i requires 0 <= i < |texts| => Bullet() + texts[i])
  }

  function ResourceLines(resources: Option<seq<string>>): seq<string> {
    if resources.Some? then [ResourcesLabel()] + Bullets(resources.value) else []
  }

  function TrailerLines(t: Trailer): seq<string> {
    OptionalLine(ExpirationTime, t.expirationTime)
    + (OptionalLine(NotBefore, t.notBefore)
    + (OptionalLine(RequestID, t.requestId)
    + ResourceLines(t.resources)))
  }

  function StatementLines(statement: Option<string>): seq<string> {
    if statement.Some? then [statement.value, ""] else []
  }

  function OpeningLines(l: Layout): seq<string> {
    [l.domain + HeaderSuffix(), l.address, ""] + StatementLines(l.statement)
  }

  function FieldLines(l: Layout): seq<string> {
    [FieldLine(URI, l.uri), FieldLine(Version, l.version)]
    + (OptionalLine(ChainID, l.chainId)
    + [FieldLine(Nonce, l.nonce), FieldLine(IssuedAt, l.issuedAt)])
  }

  function Lines(l: Layout): seq<string> {
    OpeningLines(l) + (FieldLines(l) + TrailerLines(l.trailer))
  }

  // ----- The canonical layout of a message and its printer -----

  predicate TimesOnCalendar(m: Message) {
    && OnCalendar(m.issuedAt)
    && (m.expirationTime.Some? ==> OnCalendar(m.expirationTime.value))
    && (m.notBefore.Some? ==> OnCalendar(m.notBefore.value))
  }

  /** The times of a message are in years that four digits can print. */
  predicate TimesValid(m: Message) {
    && Valid(m.issuedAt)
    && (m.expirationTime.Some? ==> Valid(m.expirationTime.value))
    && (m.notBefore.Some? ==> Valid(m.notBefore.value))
  }

  function FormatOptional(t: Option<Instant>): Option<string>
    requires t.Some? ==> OnCalendar(t.value)
  {
    if t.Some? then Some(Format(t.value)) else None
  }

  function NonEmpty(s: string): Option<string> {
    if s != "" then Some(s) else None
  }

  function CanonicalTrailer(m: Message): Trailer
    requires TimesOnCalendar(m)
  {
    Trailer(FormatOptional(m.expirationTime), FormatOptional(m.notBefore), NonEmpty(m.requestId),
            if m.resources != [] then Some(m.resources) else None)
  }

  function CanonicalLayout(m: Message): Layout
    requires TimesOnCalendar(m)
  {
    Layout(m.domain, m.address, NonEmpty(m.statement), m.uri, m.version, Some(m.chainId), m.nonce,
           Format(m.issuedAt), CanonicalTrailer(m))
  }

  /** The canonical text: the canonical lines, each ended by a newline. */
  function Printed(m: Message): string
    requires TimesOnCalendar(m)
  {
    Join(Lines(CanonicalLayout(m))) + "\n"
  }

  /** Message.String: the builder b, with the lines finished so far kept as a ghost. */
  method String(m: Message) returns (b: string)
    requires TimesOnCalendar(m)
    ensures b == Printed(m)
  {
    ghost var l := CanonicalLayout(m);
    ghost var opening, fields, trailer;
    b, opening := WriteOpening(m);
    b, fields := WriteFields(m, b, opening);
    b, trailer := WriteTrailer(m, b, fields);
    Regroup(OpeningLines(l), FieldLines(l), TrailerLines(l.trailer), [], []);
    UnlinesJoin(trailer);
  }

  method WriteOpening(m: Message) returns (b: string, ghost written: seq<string>)
    requires TimesOnCalendar(m)
    ensures written == OpeningLines(CanonicalLayout(m)) && b == Unlines(written)
  {
    b, written := WriteLine("", [], m.domain + HeaderSuffix());
    b, written := WriteLine(b, written, m.address);
    if m.statement != "" {
      b, written := WriteLine(b, written, "");
      b, written := WriteLine(b, written, m.statement);
    }
    b, written := WriteLine(b, written, "");
  }

  method WriteFields(m: Message, start: string, ghost before: seq<string>) returns (b: string, ghost written: seq<string>)
    requires TimesOnCalendar(m) && start == Unlines(before)
    ensures written == before + FieldLines(CanonicalLayout(m)) && b == Unlines(written)
  {
    b, written := WriteLine(start, before, FieldLine(URI, m.uri));
    b, written := WriteLine(b, written, FieldLine(Version, m.version));
    b, written := WriteLine(b, written, FieldLine(ChainID, m.chainId));
    b, written := WriteLine(b, written, FieldLine(Nonce, m.nonce));
    b, written := WriteLine(b, written, FieldLine(IssuedAt, Format(m.issuedAt)));
  }

  method WriteTrailer(m: Message, start: string, ghost before: seq<string>) returns (b: string, ghost written: seq<string>)
    requires TimesOnCalendar(m) && start == Unlines(before)
    ensures written == before + TrailerLines(CanonicalTrailer(m)) && b == Unlines(written)
  {
    b, written := WriteOptional(start, before, ExpirationTime, FormatOptional(m.expirationTime));
    b, written := WriteOptional(b, written, NotBefore, FormatOptional(m.notBefore));
    b, written := WriteOptional(b, written, RequestID, NonEmpty(m.requestId));
    b, written := WriteResources(b, written, m.resources);
    ghost var t := CanonicalTrailer(m);
    Regroup(before, OptionalLine(ExpirationTime, t.expirationTime), OptionalLine(NotBefore, t.notBefore),
            OptionalLine(RequestID, t.requestId), ResourceLines(t.resources));
  }

  lemma Regroup<T>(a: seq<T>, b: seq<T>, c: seq<T>, d: seq<T>, e: seq<T>)
    ensures a + b + c + d + e == a + (b + (c + (d + e)))
    ensures a + b + c == a + (b + c)
  {
  }

  method WriteResources(start: string, ghost before: seq<string>, resources: seq<string>)
    returns (b: string, ghost written: seq<string>)
    requires start == Unlines(before)
    ensures written == before + ResourceLines(if resources != [] then Some(resources) else None) && b == Unlines(written)
  {
    b, written := start, before;
    if |resources| > 0 {
      b, written := WriteLine(b, written, ResourcesLabel());
      for i := 0 to |resources|
        invariant b == Unlines(written) && written == before + ([ResourcesLabel()] + Bullets(resources[..i]))
      {
        b, written := WriteLine(b, written, Bullet() + resources[i]);
      }
      assert resources[..|resources|] == resources;
    }
  }

  method WriteOptional(start: string, ghost before: seq<string>, f: Field, text: Option<string>)
    returns (b: string, ghost written: seq<string>)
    requires start == Unlines(before)
    ensures written == before + OptionalLine(f, text) && b == Unlines(written)
  {
    b, written := start, before;
    if text.Some? {
      b, written := WriteLine(b, written, FieldLine(f, text.value));
    }
  }

  /** Writes one line and its newline. */
  method WriteLine(b: string, ghost written: seq<string>, l: string) returns (b': string, ghost written': seq<string>)
    requires b == Unlines(written)
    ensures written' == written + [l] && b' == Unlines(written')
  {
    b' := b + l;
    b' := b' + "\n";
    written' := written + [l];
    UnlinesSnoc(written, l);
    assert b' == b + (l + "\n");
  }
}
