/** siwx/caip.go: chain and account identifiers. */
module Caip {
  import opened Wrappers

  datatype CAIP2 = CAIP2(ns: string, reference: string)

  datatype CAIP10 = CAIP10(chainId: CAIP2, address: string)

  datatype CaipError = Malformed

  // ----- The character classes -----

  predicate Lower(c: char) { 'a' <= c <= 'z' }
  predicate Upper(c: char) { 'A' <= c <= 'Z' }
  predicate Digit(c: char) { '0' <= c <= '9' }

  /** ^[-a-z0-9]{3,8}$ */
  predicate ValidNamespace(s: string) {
    3 <= |s| <= 8 && forall i :: 0 <= i < |s| ==> s[i] == '-' || Lower(s[i]) || Digit(s[i])
  }

  /** ^[-_a-zA-Z0-9]{1,32}$ */
  predicate ValidReference(s: string) {
    1 <= |s| <= 32 && forall i :: 0 <= i < |s| ==> s[i] == '-' || s[i] == '_' || Lower(s[i]) || Upper(s[i]) || Digit(s[i])
  }

  /** ^[-.%a-zA-Z0-9]{1,128}$ */
  predicate ValidAddress(s: string) {
    && 1 <= |s| <= 128
    && forall i :: 0 <= i < |s| ==>
         s[i] == '-' || s[i] == '.' || s[i] == '%' || Lower(s[i]) || Upper(s[i]) || Digit(s[i])
  }

  predicate ValidCAIP2(c: CAIP2) {
    ValidNamespace(c.ns) && ValidReference(c.reference)
  }

  predicate ValidCAIP10(c: CAIP10) {
    ValidCAIP2(c.chainId) && ValidAddress(c.address)
  }

  // ----- Printing and parsing -----

  function ChainString(c: CAIP2): string {
    c.ns + ":" + c.reference
  }

  function String(c: CAIP10): string {
    ChainString(c.chainId) + ":" + c.address
  }

  /** strings.Index(s, ":"), None for -1. */
  function FindColon(s: string): (r: Option<nat>)
    ensures r.Some? ==> r.value < |s| && s[r.value] == ':' && ':' !in s[..r.value]
    ensures r.None? ==> ':' !in s
  {
    if s == "" then None
    else if s[0] == ':' then Some(0)
    else
      var rest := FindColon(s[1..]);
      if rest.Some? then
        assert s[..rest.value + 1] == [s[0]] + s[1..][..rest.value];
        Some(rest.value + 1)
      else
        assert s == [s[0]] + s[1..];
        None
  }

  function ParseCAIP2(s: string): Result<CAIP2, CaipError> {
    var colon := FindColon(s);
    if colon.None? then Err(Malformed)
    else
      var (ns, reference) := (s[..colon.value], s[colon.value + 1..]);
      if !ValidNamespace(ns) then Err(Malformed)
      else if !ValidReference(reference) then Err(Malformed)
      else Ok(CAIP2(ns, reference))
  }

  function ParseCAIP10(s: string): Result<CAIP10, CaipError> {
    var first := FindColon(s);
    if first.None? then Err(Malformed)
    else
      var rest := s[first.value + 1..];
      var second := FindColon(rest);
      if second.None? then Err(Malformed)
      else
        var (ns, reference, address) := (s[..first.value], rest[..second.value], rest[second.value + 1..]);
        if !ValidNamespace(ns) then Err(Malformed)
        else if !ValidReference(reference) then Err(Malformed)
        else if !ValidAddress(address) then Err(Malformed)
        else Ok(CAIP10(CAIP2(ns, reference), address))
  }

  // ----- Parsing and printing are inverse on the valid identifiers -----

  lemma {:induction false} FirstColon(before: string, after: string)
    requires ':' !in before
    ensures FindColon(before + ":" + after) == Some(|before|)
  {
    var s := before + ":" + after;
    if before != "" {
      assert before[0] in before && s[1..] == before[1..] + ":" + after;
      FirstColon(before[1..], after);
    }
  }

  lemma SplitAt(s: string, i: nat)
    requires i < |s| && s[i] == ':'
    ensures s == s[..i] + ":" + s[i + 1..]
  {
  }

  /** ParseCAIP2 accepts exactly the strings of valid chain identifiers, and returns the one printed. */
  lemma CAIP2Exactly(s: string, c: CAIP2)
    ensures ParseCAIP2(s) == Ok(c) <==> ValidCAIP2(c) && s == ChainString(c)
  {
    if ValidCAIP2(c) && s == ChainString(c) {
      FirstColon(c.ns, c.reference);
      assert s[|c.ns| + 1..] == c.reference && s[..|c.ns|] == c.ns;
    }
    if ParseCAIP2(s) == Ok(c) {
      SplitAt(s, FindColon(s).value);
    }
  }

  /** ParseCAIP10 accepts exactly the strings of valid accounts, and returns the one printed. */
  lemma CAIP10Exactly(s: string, c: CAIP10)
    ensures ParseCAIP10(s) == Ok(c) <==> ValidCAIP10(c) && s == String(c)
  {
    if ValidCAIP10(c) && s == String(c) {
      PrintedParses(c);
    }
    if ParseCAIP10(s) == Ok(c) {
      ParsedPrints(s);
    }
  }

  lemma PrintedParses(c: CAIP10)
    requires ValidCAIP10(c)
    ensures ParseCAIP10(String(c)) == Ok(c)
  {
    Pieces(c);
    FirstColon(c.chainId.ns, c.chainId.reference + ":" + c.address);
    FirstColon(c.chainId.reference, c.address);
  }

  lemma ParsedPrints(s: string)
    requires ParseCAIP10(s).Ok?
    ensures ValidCAIP10(ParseCAIP10(s).value) && String(ParseCAIP10(s).value) == s
  {
    var first := FindColon(s).value;
    var rest := s[first + 1..];
    SplitAt(s, first);
    SplitAt(rest, FindColon(rest).value);
    Pieces(ParseCAIP10(s).value);
  }

  lemma Pieces(c: CAIP10)
    ensures var rest := c.chainId.reference + ":" + c.address;
      && String(c) == c.chainId.ns + ":" + rest
      && String(c)[..|c.chainId.ns|] == c.chainId.ns && String(c)[|c.chainId.ns| + 1..] == rest
      && rest[..|c.chainId.reference|] == c.chainId.reference && rest[|c.chainId.reference| + 1..] == c.address
  {
  }

  /** Keys of accounts are injective even when the reference is arbitrary text, colons included. */
  lemma KeyInjective(c: CAIP10, d: CAIP10)
    requires ':' !in c.chainId.ns && ':' !in d.chainId.ns && ':' !in c.address && ':' !in d.address
    requires String(c) == String(d)
    ensures c == d
  {
    Pieces(c);
    Pieces(d);
    FirstColon(c.chainId.ns, c.chainId.reference + ":" + c.address);
    FirstColon(d.chainId.ns, d.chainId.reference + ":" + d.address);
    LastColon(c.chainId.reference, c.address, d.chainId.reference, d.address);
  }

  // ----- The identifiers, character by character -----

  predicate InNamespace(c: char) {
    c == '-' || 'a' <= c <= 'z' || '0' <= c <= '9'
  }

  predicate InReference(c: char) {
    c == '-' || c == '_' || 'a' <= c <= 'z' || 'A' <= c <= 'Z' || '0' <= c <= '9'
  }

  predicate InAddress(c: char) {
    c == '-' || c == '.' || c == '%' || 'a' <= c <= 'z' || 'A' <= c <= 'Z' || '0' <= c <= '9'
  }

  ghost predicate AllIn(s: string, f: char -> bool) {
    forall i :: 0 <= i < |s| ==> f(s[i])
  }

  /** The strings that are accepted, and what they are split into. */
  lemma ChainWritten(s: string, ns: string, reference: string)
    ensures ParseCAIP2(s) == Ok(CAIP2(ns, reference)) <==>
      && s == ns + ":" + reference && 3 <= |ns| <= 8 && 1 <= |reference| <= 32
      && AllIn(ns, InNamespace) && AllIn(reference, InReference)
  {
    CAIP2Exactly(s, CAIP2(ns, reference));
  }

  lemma AccountWritten(s: string, ns: string, reference: string, address: string)
    ensures ParseCAIP10(s) == Ok(CAIP10(CAIP2(ns, reference), address)) <==>
      && s == ns + ":" + reference + ":" + address && 3 <= |ns| <= 8 && 1 <= |reference| <= 32 && 1 <= |address| <= 128
      && AllIn(ns, InNamespace) && AllIn(reference, InReference) && AllIn(address, InAddress)
  {
    CAIP10Exactly(s, CAIP10(CAIP2(ns, reference), address));
  }

  /** Such a key parses exactly when its account is valid. */
  lemma KeyParses(c: CAIP10)
    requires ':' !in c.chainId.ns && ':' !in c.address
    ensures ParseCAIP10(String(c)).Ok? <==> ValidCAIP10(c)
  {
    if ValidCAIP10(c) {
      PrintedParses(c);
    }
    if ParseCAIP10(String(c)).Ok? {
      ParsedPrints(String(c));
      KeyInjective(c, ParseCAIP10(String(c)).value);
    }
  }

  lemma LastColon(r: string, a: string, r': string, a': string)
    requires ':' !in a && ':' !in a' && r + ":" + a == r' + ":" + a'
    ensures r == r' && a == a'
  {
    LongerHasColon(r, a, r', a');
    LongerHasColon(r', a', r, a);
    var s := r + ":" + a;
    assert s[..|r|] == r && s[|r| + 1..] == a;
  }

  lemma LongerHasColon(r: string, a: string, r': string, a': string)
    requires r + ":" + a == r' + ":" + a'
    ensures |a| < |a'| ==> ':' in a'
  {
    if |a| < |a'| {
      var s := r + ":" + a;
      assert s[|r|] == ':' && (r' + ":" + a')[|r|] == a'[|r| - |r'| - 1];
    }
  }
}
