/** The SIWS grammar read back: from lines to the one layout that is written on them, and from a layout to its message. */
module SiwsGrammar {
  import opened Wrappers
  import opened Text
  import opened Timestamps
  import opened SiwsMessage
  import opened SiwsErrors
  import Base58

  const MAX_MESSAGE := 8192

  // ----- Which texts are allowed -----

  /** validNonce */
  predicate ValidNonce(s: string) {
    |s| >= 8 && forall i :: 0 <= i < |s| ==> 'a' <= s[i] <= 'z' || 'A' <= s[i] <= 'Z' || '0' <= s[i] <= '9'
  }

  predicate ValidAddress(s: string) {
    Base58.Decode(s).Ok? && |Base58.Decode(s).value| == 32
  }

  predicate ValidStatement(statement: Option<string>) {
    statement.Some? ==> statement.value != "" && !IsFieldPrefix(statement.value)
  }

  predicate ValidTrailer(t: Trailer, reader: TimeReader) {
    && (t.expirationTime.Some? ==> reader.trailer(t.expirationTime.value).Some?)
    && (t.notBefore.Some? ==> reader.trailer(t.notBefore.value).Some?)
  }

  predicate ValidLayout(l: Layout, reader: TimeReader) {
    && l.domain != "" && ValidAddress(l.address) && ValidStatement(l.statement)
    && l.uri != "" && l.version == "1" && ValidNonce(l.nonce)
    && reader.issuedAt(l.issuedAt).Some?
    && ValidTrailer(l.trailer, reader)
  }

  // ----- The message a layout stands for -----

  function ReadTime(text: Option<string>, reader: TimeReader): Option<Instant> {
    if text.Some? then reader.trailer(text.value) else None
  }

  function OrEmpty(text: Option<string>): string {
    if text.Some? then text.value else ""
  }

  /** The chain, which defaults when its line is missing or empty. */
  function ChainOf(text: Option<string>): string {
    if OrEmpty(text) == "" then DEFAULT_CHAIN else text.value
  }

  function WithTrailer(m: Message, t: Trailer, reader: TimeReader): Message {
    m.(expirationTime := ReadTime(t.expirationTime, reader),
       notBefore := ReadTime(t.notBefore, reader),
       requestId := OrEmpty(t.requestId),
       resources := if t.resources.Some? then t.resources.value else [])
  }

  function Meaning(l: Layout, reader: TimeReader): Message
    requires ValidLayout(l, reader)
  {
    WithTrailer(
      Message(l.domain, l.address, OrEmpty(l.statement), l.uri, l.version, ChainOf(l.chainId), l.nonce,
              reader.issuedAt(l.issuedAt).value, None, None, "", []),
      l.trailer, reader)
  }

  /** The bytes a layout is written in: its lines, and any number of newlines at the end. */
  ghost predicate Writes(l: Layout, b: string) {
    AllOneLine(Lines(l)) && exists k: nat :: b == Join(Lines(l)) + Newlines(k)
  }

  // ----- Reading lines back, field by field in rank order -----

  function TakeOptional(f: Field, ls: seq<string>): (Option<string>, seq<string>) {
    if ls != [] && Label(f) <= ls[0] then (Some(ls[0][|Label(f)|..]), ls[1..]) else (None, ls)
  }

  function Rank(f: Field): nat {
    match f
    case ExpirationTime => 1
    case NotBefore => 2
    case RequestID => 3
    case _ => 0
  }

  /** A field still allowed at this stage. */
  function TakeAfter(stage: nat, f: Field, ls: seq<string>): (Option<string>, seq<string>) {
    if stage < Rank(f) then TakeOptional(f, ls) else (None, ls)
  }

  function Unbullet(ls: seq<string>): (texts: seq<string>)
    requires forall i :: 0 <= i < |ls| ==> Bullet() <= ls[i]
    ensures |texts| == |ls| && forall i :: 0 <= i < |ls| ==> texts[i] == ls[i][|Bullet()|..]
  {
    seq(|ls|, i requires 0 <= i < |ls| => ls[i][|Bullet()|..])
  }

  /** None for lines that are no resource list; a missing list is Some(None). */
  function ReadResources(stage: nat, ls: seq<string>): Option<Option<seq<string>>> {
    if ls == [] then Some(None)
    else if stage < 4 && ls[0] == ResourcesLabel() && (forall i :: 1 <= i < |ls| ==> Bullet() <= ls[i])
    then Some(Some(Unbullet(ls[1..])))
    else None
  }

  /** The trailer on lines ls, when fields up to stage are already spent. */
  function ReadTrailer(stage: nat, ls: seq<string>): Option<Trailer> {
    var (expiration, ls1) := TakeAfter(stage, ExpirationTime, ls);
    var (notBefore, ls2) := TakeAfter(stage, NotBefore, ls1);
    var (requestId, ls3) := TakeAfter(stage, RequestID, ls2);
    var resources := ReadResources(stage, ls3);
    if resources.Some? then Some(Trailer(expiration, notBefore, requestId, resources.value)) else None
  }

  datatype Fields = Fields(uri: string, version: string, chainId: Option<string>, nonce: string, issuedAt: string)

  /** The two lines that f and g must stand on. */
  predicate StartWith(ls: seq<string>, f: Field, g: Field) {
    |ls| >= 2 && Label(f) <= ls[0] && Label(g) <= ls[1]
  }

  function ReadFields(ls: seq<string>): Option<(Fields, seq<string>)> {
    if !StartWith(ls, URI, Version) then None
    else
      var (chainId, ls1) := TakeOptional(ChainID, ls[2..]);
      if !StartWith(ls1, Nonce, IssuedAt) then None
      else Some((Fields(ls[0][|Label(URI)|..], ls[1][|Label(Version)|..], chainId,
                        ls1[0][|Label(Nonce)|..], ls1[1][|Label(IssuedAt)|..]), ls1[2..]))
  }

  /** An optional statement, which its blank line must follow. */
  function ReadStatement(ls: seq<string>): Option<(Option<string>, seq<string>)> {
    if ls == [] || ls[0] == "" || IsFieldPrefix(ls[0]) then Some((None, ls))
    else if |ls| < 2 || ls[1] != "" then None
    else Some((Some(ls[0]), ls[2..]))
  }

  predicate HasSuffix(s: string, suffix: string) {
    |suffix| <= |s| && s[|s| - |suffix|..] == suffix
  }

  function TrimSuffix(s: string, suffix: string): string {
    if HasSuffix(s, suffix) then s[..|s| - |suffix|] else s
  }

  function ReadLines(ls: seq<string>): Option<Layout> {
    if |ls| < 3 || !HasSuffix(ls[0], HeaderSuffix()) || ls[2] != "" then None
    else match ReadStatement(ls[3..])
      case None => None
      case Some((statement, ls1)) =>
        match ReadFields(ls1)
        case None => None
        case Some((fs, ls2)) =>
          match ReadTrailer(0, ls2)
          case None => None
          case Some(t) =>
            Some(Layout(TrimSuffix(ls[0], HeaderSuffix()), ls[1], statement,
                        fs.uri, fs.version, fs.chainId, fs.nonce, fs.issuedAt, t))
  }

  /** What ParseMessage computes. Every failure is Malformed. */
  function Parse(b: string, reader: TimeReader): Result<Message, SiwsError> {
    if |b| > MAX_MESSAGE || '\r' in b then Err(Malformed)
    else
      var l := ReadLines(Split(TrimRight(b)));
      if l.Some? && ValidLayout(l.value, reader) then Ok(Meaning(l.value, reader)) else Err(Malformed)
  }

  // ----- Labels are prefix-free -----

  lemma LabelsDiffer(f: Field, g: Field)
    ensures |Label(f)| > 2 && |ResourcesLabel()| > 2
    ensures f != g ==> Label(f)[0] != Label(g)[0] || Label(f)[2] != Label(g)[2]
    ensures Label(f)[0] != ResourcesLabel()[0] || Label(f)[2] != ResourcesLabel()[2]
  {
  }

  lemma LabelMatches(f: Field, g: Field, text: string)
    ensures Label(f) <= FieldLine(g, text) <==> f == g
    ensures FieldLine(g, text)[|Label(g)|..] == text
    ensures !(Label(f) <= ResourcesLabel()) && FieldLine(g, text) != ResourcesLabel() && FieldLine(g, text) != ""
    ensures IsFieldPrefix(FieldLine(g, text)) && IsFieldPrefix(ResourcesLabel())
  {
    LabelsDiffer(f, g);
    LabelsDiffer(g, f);
    var l := FieldLine(g, text);
    assert l[0] == Label(g)[0] && l[2] == Label(g)[2];
  }

  lemma OneLabel(f: Field, g: Field, l: string)
    requires Label(f) <= l
    ensures Label(g) <= l <==> f == g
    ensures l != ResourcesLabel() && l == FieldLine(f, l[|Label(f)|..])
  {
    LabelMatches(g, f, l[|Label(f)|..]);
  }

  // ----- Reading undoes writing -----

  lemma TakeWritten(f: Field, text: Option<string>, rest: seq<string>)
    requires text.None? && rest != [] ==> !(Label(f) <= rest[0])
    ensures TakeOptional(f, OptionalLine(f, text) + rest) == (text, rest)
  {
    if text.Some? {
      LabelMatches(f, f, text.value);
      assert (OptionalLine(f, text) + rest)[1..] == rest;
    } else {
      assert OptionalLine(f, text) + rest == rest;
    }
  }

  lemma ResourcesWritten(resources: Option<seq<string>>)
    ensures ReadResources(0, ResourceLines(resources)) == Some(resources)
    ensures forall f :: ResourceLines(resources) != [] ==> !(Label(f) <= ResourceLines(resources)[0])
  {
    if resources.Some? {
      var ls := ResourceLines(resources);
      assert ls[1..] == Bullets(resources.value);
      assert Unbullet(ls[1..]) == resources.value;
      forall f ensures !(Label(f) <= ls[0]) { LabelMatches(f, f, ""); }
    }
  }

  lemma TrailerWritten(t: Trailer)
    ensures ReadTrailer(0, TrailerLines(t)) == Some(t)
    ensures forall f :: TrailerLines(t) != [] && Rank(f) == 0 ==> !(Label(f) <= TrailerLines(t)[0])
  {
    var ls3 := ResourceLines(t.resources);
    var ls2 := OptionalLine(RequestID, t.requestId) + ls3;
    var ls1 := OptionalLine(NotBefore, t.notBefore) + ls2;
    ResourcesWritten(t.resources);
    FirstLine(RequestID, t.requestId, ls3);
    FirstLine(NotBefore, t.notBefore, ls2);
    FirstLine(ExpirationTime, t.expirationTime, ls1);
    TakeWritten(RequestID, t.requestId, ls3);
    TakeWritten(NotBefore, t.notBefore, ls2);
    TakeWritten(ExpirationTime, t.expirationTime, ls1);
  }

  /** A label other than f's starts the lines only if it starts the rest. */
  lemma FirstLine(f: Field, text: Option<string>, rest: seq<string>)
    ensures forall g :: g != f && (rest == [] || !(Label(g) <= rest[0])) ==>
      var ls := OptionalLine(f, text) + rest; ls == [] || !(Label(g) <= ls[0])
  {
    if text.Some? {
      forall g | g != f ensures !(Label(g) <= FieldLine(f, text.value)) { LabelMatches(g, f, text.value); }
    } else {
      assert OptionalLine(f, text) + rest == rest;
    }
  }

  lemma PairWritten(f: Field, a: string, g: Field, b: string, rest: seq<string>)
    ensures var ls := [FieldLine(f, a), FieldLine(g, b)] + rest;
      StartWith(ls, f, g) && ls[0][|Label(f)|..] == a && ls[1][|Label(g)|..] == b && ls[2..] == rest
  {
    LabelMatches(f, f, a);
    LabelMatches(g, g, b);
  }

  lemma ChainWritten(chainId: Option<string>, nonce: string, tail: seq<string>)
    requires tail != [] && tail[0] == FieldLine(Nonce, nonce)
    ensures TakeOptional(ChainID, OptionalLine(ChainID, chainId) + tail) == (chainId, tail)
  {
    LabelMatches(ChainID, Nonce, nonce);
    TakeWritten(ChainID, chainId, tail);
  }

  lemma FieldsWritten(l: Layout, rest: seq<string>)
    ensures ReadFields(FieldLines(l) + rest) == Some((Fields(l.uri, l.version, l.chainId, l.nonce, l.issuedAt), rest))
  {
    var first := [FieldLine(URI, l.uri), FieldLine(Version, l.version)];
    var last := [FieldLine(Nonce, l.nonce), FieldLine(IssuedAt, l.issuedAt)];
    var chain := OptionalLine(ChainID, l.chainId);
    Regroup(first, chain, last + rest, [], []);
    assert FieldLines(l) + rest == first + (chain + (last + rest));
    PairWritten(URI, l.uri, Version, l.version, chain + (last + rest));
    ChainWritten(l.chainId, l.nonce, last + rest);
    PairWritten(Nonce, l.nonce, IssuedAt, l.issuedAt, rest);
    FieldsFrom(first + (chain + (last + rest)), last + rest);
  }

  lemma FieldsFrom(ls: seq<string>, ls1: seq<string>)
    requires StartWith(ls, URI, Version) && TakeOptional(ChainID, ls[2..]).1 == ls1 && StartWith(ls1, Nonce, IssuedAt)
    ensures ReadFields(ls) == Some((
      Fields(ls[0][|Label(URI)|..], ls[1][|Label(Version)|..], TakeOptional(ChainID, ls[2..]).0,
             ls1[0][|Label(Nonce)|..], ls1[1][|Label(IssuedAt)|..]), ls1[2..]))
  {
  }

  lemma StatementWritten(statement: Option<string>, rest: seq<string>)
    requires ValidStatement(statement)
    requires rest != [] && (rest[0] == "" || IsFieldPrefix(rest[0]))
    ensures ReadStatement(StatementLines(statement) + rest) == Some((statement, rest))
  {
    var ls := StatementLines(statement) + rest;
    if statement.Some? {
      assert ls[2..] == rest;
    } else {
      assert ls == rest;
    }
  }

  /** Lines whose parts are known. */
  lemma LinesFrom(ls: seq<string>, statement: Option<string>, ls1: seq<string>, fs: Fields, ls2: seq<string>, t: Trailer)
    requires |ls| >= 3 && HasSuffix(ls[0], HeaderSuffix()) && ls[2] == "" && ReadStatement(ls[3..]) == Some((statement, ls1))
    requires ReadFields(ls1) == Some((fs, ls2)) && ReadTrailer(0, ls2) == Some(t)
    ensures ReadLines(ls) == Some(
      Layout(TrimSuffix(ls[0], HeaderSuffix()), ls[1], statement, fs.uri, fs.version, fs.chainId, fs.nonce, fs.issuedAt, t))
  {
  }

  /** Whatever is written is read back, so the lines determine the layout. */
  lemma ReadUndoesWrite(l: Layout)
    requires ValidStatement(l.statement)
    ensures ReadLines(Lines(l)) == Some(l)
  {
    var ls, trailer := Lines(l), TrailerLines(l.trailer);
    var rest := FieldLines(l) + trailer;
    OpeningSits(l, rest);
    SuffixTrims(l.domain, HeaderSuffix());
    FieldsStart(l, trailer);
    StatementWritten(l.statement, rest);
    FieldsWritten(l, trailer);
    TrailerWritten(l.trailer);
    LinesFrom(ls, l.statement, rest, Fields(l.uri, l.version, l.chainId, l.nonce, l.issuedAt), trailer, l.trailer);
  }

  lemma OpeningSits(l: Layout, rest: seq<string>)
    ensures var ls := OpeningLines(l) + rest;
      |ls| >= 3 && ls[0] == l.domain + HeaderSuffix() && ls[1] == l.address && ls[2] == ""
      && ls[3..] == StatementLines(l.statement) + rest
  {
  }

  lemma FieldsStart(l: Layout, trailer: seq<string>)
    ensures var rest := FieldLines(l) + trailer; rest != [] && IsFieldPrefix(rest[0])
  {
    LabelMatches(URI, URI, l.uri);
  }

  lemma SuffixTrims(s: string, suffix: string)
    ensures HasSuffix(s + suffix, suffix) && TrimSuffix(s + suffix, suffix) == s
  {
  }

  // ----- Writing undoes reading -----

  lemma TakenIs(f: Field, ls: seq<string>)
    ensures var (text, rest) := TakeOptional(f, ls); ls == OptionalLine(f, text) + rest
  {
    if ls != [] && Label(f) <= ls[0] {
      OneLabel(f, f, ls[0]);
    }
  }

  lemma ResourcesAre(ls: seq<string>)
    requires ReadResources(0, ls).Some?
    ensures ls == ResourceLines(ReadResources(0, ls).value)
  {
    if ls != [] {
      assert ls == [ls[0]] + ls[1..];
      forall i | 0 <= i < |ls[1..]| ensures Bullet() + Unbullet(ls[1..])[i] == ls[1..][i] {
        assert ls[1..][i] == ls[i + 1];
      }
      assert Bullets(Unbullet(ls[1..])) == ls[1..];
    }
  }

  lemma TrailerIs(ls: seq<string>)
    requires ReadTrailer(0, ls).Some?
    ensures ls == TrailerLines(ReadTrailer(0, ls).value)
  {
    var (_, ls1) := TakeOptional(ExpirationTime, ls);
    var (_, ls2) := TakeOptional(NotBefore, ls1);
    var (_, ls3) := TakeOptional(RequestID, ls2);
    TakenIs(ExpirationTime, ls);
    TakenIs(NotBefore, ls1);
    TakenIs(RequestID, ls2);
    ResourcesAre(ls3);
  }

  lemma FieldsAre(ls: seq<string>, l: Layout)
    requires ReadFields(ls).Some?
    requires ReadFields(ls).value.0 == Fields(l.uri, l.version, l.chainId, l.nonce, l.issuedAt)
    ensures ls == FieldLines(l) + ReadFields(ls).value.1
  {
    var (_, ls1) := TakeOptional(ChainID, ls[2..]);
    OneLabel(URI, URI, ls[0]);
    OneLabel(Version, Version, ls[1]);
    TakenIs(ChainID, ls[2..]);
    OneLabel(Nonce, Nonce, ls1[0]);
    OneLabel(IssuedAt, IssuedAt, ls1[1]);
    assert ls == [ls[0], ls[1]] + ls[2..];
    assert ls1 == [ls1[0], ls1[1]] + ls1[2..];
  }

  lemma StatementIs(ls: seq<string>)
    requires ReadStatement(ls).Some?
    ensures ls == StatementLines(ReadStatement(ls).value.0) + ReadStatement(ls).value.1
    ensures ValidStatement(ReadStatement(ls).value.0)
  {
  }

  lemma WriteUndoesRead(ls: seq<string>)
    requires ReadLines(ls).Some?
    ensures Lines(ReadLines(ls).value) == ls && ValidStatement(ReadLines(ls).value.statement)
  {
    var l := ReadLines(ls).value;
    var ls1 := ReadStatement(ls[3..]).value.1;
    var ls2 := ReadFields(ls1).value.1;
    StatementIs(ls[3..]);
    FieldsAre(ls1, l);
    TrailerIs(ls2);
    OpeningIs(ls, l, ls1);
  }

  lemma OpeningIs(ls: seq<string>, l: Layout, rest: seq<string>)
    requires |ls| >= 3 && HasSuffix(ls[0], HeaderSuffix()) && ls[1] == l.address && ls[2] == ""
    requires l.domain == TrimSuffix(ls[0], HeaderSuffix()) && ls[3..] == StatementLines(l.statement) + rest
    ensures ls == OpeningLines(l) + rest
  {
    assert ls[0] == l.domain + HeaderSuffix();
    assert ls == [ls[0], ls[1], ls[2]] + ls[3..];
  }
}
