# siwx-go, modelled and proved in Dafny

`siwx-go` lets a relying party check "Sign-In With X" messages: a strict text format for Solana (SIWS), adapters that
verify Solana and EVM sign-ins and report every check, a registry in front of them, and a demo hub that issues nonces,
burns them, and mints tokens. This project restates that logic in Dafny and proves what it is for. `dafny verify
dfyconfig.toml` checks all of it.

What is here, by area:

- **Text format** (`SiwsMessage`, `SiwsGrammar`, `SiwsParser`, `SiwsTheorems`, `SiwsText`, on `Text`, `Timestamps` and
  `Calendar`). The parser and the printer run as methods over positions and builders. The parser accepts exactly a
  declarative language of layouts, which `SiwsText` also writes out label by label; printing and parsing undo each other
  exactly on the well-formed millisecond messages within the size cap. `Calendar` counts nanoseconds, and what is expired
  or not yet valid is told by that count.
- **Base58** (`Base58`, on `Numerals`): the bignum loops against positional numerals, both directions of the inverse, and
  the length bounds.
- **Verification** (`SiwsVerify`, `Events`, `SolanaAdapter`, `EvmAdapter`, `Registry` and their theorem files): each run
  as the events it emits and the result it returns; the methods emit that run to a list of observers that may panic.
  Of the chain a caller names the registry looks only at the namespace: the message names its own chain.
- **Contract wallets** (`EvmSignatures`, `Erc1271`, `EvmTheorems`): the verdict on wrapped, contract and plain signatures
  with any chain client; the ERC-1271 calldata encoder against the independent decoder of the simulated wallets.
- **Hub** (`NonceStore`, `IdentityStore`, `Recorder`, `Caip`, `HubMachine`, `HubInvariants`, `HubAccounts`,
  `HubTheorems`, `HubGenuine`, `HubWitness`, `HubFlood`, `HubHandlers`, on `Histories`): each store as a class proved
  against what one critical section does, theorems about whole runs of each store, and a state machine in which requests
  interleave at every critical section. Every token and link goes back to a genuine sign-in (`HubGenuine`); runs that end
  badly are exhibited (`HubWitness`, `HubFlood`). The handlers are methods that play the machine's moves in order.
- **Keccak** (`KeccakF`, `KeccakHalves`, `KeccakSponge`, on `Words`): the 32-bit half-word permutation and the byte
  stream against sections 3.2, 3.3, 4 and 5.1 of FIPS 202 with no suffix bits.

Conventions. Strings hold one character per byte. Errors are the sentinels that `errors.Is` finds in them; their wording
is not modelled. Clock readings, random nonces, ids and request numbers are parameters, with freshness and a clock that
does not go back as explicit conditions where a theorem needs them. Ed25519, public-key recovery, EIP-191 checking,
siwe-go's parser, `time.Parse` and Ethereum's hashing are function parameters, so each theorem holds whatever they do;
`TimeReader` stands for `time.Parse`, and `CanonicalReader` shows that its conditions can be met. Where a statement counts
nanoseconds, its instants lie on the calendar, as every `time.Time` does. A long Go function is
split over several methods; a panic is a value (`Panics`, `None`) or, in an observer, a call whose event is not kept:
any call of any observer may panic, on one event at one time and not at another.

Where code and documentation part ways, the model follows the code:

- Security requirement S10 of the repository promises that every message survives printing and parsing.
  `SiwsTheorems.RoundTrip` gives the exact condition. The print of an accepted message is accepted again exactly if its
  times lie in the UTC years 0 to 9999 and it fits the cap (`ReparsesIff`). `0000-01-01T00:00:00+01:00` is a time of the
  year -1, whose print is refused. A message near the cap can print to more than the cap: with 24-character timestamps
  never up to 8173 bytes (`NormalForm`), and at every length above that for some sign-in of every key
  (`ReparseFailsForEveryKey`).
- The grammar is the code's: an optional Chain ID that defaults to `mainnet`, one blank line when there is no statement.
- `VerifyRaw` calls an empty expectation malformed; the Solana adapter calls it a domain or nonce mismatch
  (`SolanaTheorems.FixedClock` says exactly when they agree).
- `keccak256` flushes a block before it sets the last padding bit, so a message of 135 bytes modulo 136 gets one block too
  many. At every such length the result differs from the sponge under some permutation, and at no other length under any
  (`KeccakSponge.FedIffSponge`); the 40-byte inputs of EIP-55 are not affected.
- `uint256Word` writes four bytes, so calldata for a signature of 2^32 bytes or more names a shorter length
  (`Erc1271.RoundTrip`).
- A Solana Chain ID is arbitrary text. Store keys stay injective (`RegistryTheorems.AccountKeysInjective`), but not every
  verified sign-in gets a token: it does if and only if every account upserted or linked under its identity has a
  reference that CAIP-2 allows (`HubTheorems.TokenIffReferencesValid`). For every key and every one-line Chain
  ID that fits a request body there is a run in which a sign-in verifies and shows which (`HubWitness.ChainIdDecides`). With the
  Chain ID `a b` it ends in "wallets lookup failed" (`HubWitness.SpacedChainId`), and so does every later sign-in under
  that identity (`HubTheorems.InvalidKeyEndsTokens`).
- `LinkWallet` takes a wallet over without removing it from the old list, so the two maps are inverse exactly in the runs
  that never do that (`IdentityStore.InverseIffNoSteal`); two identities and one link suffice to break it
  (`IdentityStore.TakeoverHappens`).
- Link attempts are never drained; once 1024 of them are buffered, every later sign-in drains an empty trail
  (`HubTheorems.LinksEndTrails`). One user with one token gets there (`HubFlood.BufferFills`).

## Model

| member | source | states |
|---|---|---|
| SiwsParser.ParseMessage | siws/parse.go:22-200 | the parser, one position moving over the lines, terminates on every byte string without an access out of range and returns what the grammar assigns; which bytes and fields those are SiwsText.ParsedText writes out |
| SiwsParser.ParseOpening | siws/parse.go:39-72 | header, address and blank line are taken as the grammar says, or nothing is |
| SiwsParser.ParseStatement | siws/parse.go:74-85 | a statement is a non-empty line that starts with no field label, and its blank line must follow |
| SiwsParser.ExpectField | siws/parse.go:204-214 | the line at the position yields the text after its label, else the parse fails |
| SiwsParser.ParseFields | siws/parse.go:87-134 | URI, Version, optional Chain ID with its default, Nonce and Issued At in that order, each with its own validity |
| SiwsParser.ParseTrailer | siws/parse.go:136-197 | the stage counter accepts exactly the trailer lines in rank order, each at most once, to the end of the input |
| SiwsParser.ParseResources | siws/parse.go:184-192 | the inner loop takes the maximal run of bullet lines |
| SiwsText.ParsedText | siws/parse.go:22-242 | a message is parsed from b exactly if b has at most 8192 bytes and no CR and is, up to newlines at the end, the text written out with every label, of allowed field texts that are the message's |
| SiwsText.WrittenParsed | siws/parse.go:22-242 | any field texts of one line, written out, parse to exactly these fields, with the chain "mainnet" when there is none, or are refused as malformed, exactly if one of them is not allowed or the text is too long or has a CR |
| SiwsTheorems.AcceptsExactly | siws/parse.go:22-242 | a message is parsed from b if and only if b is at most 8192 bytes, has no CR, and is a valid layout written out, up to trailing newlines, that means that message |
| SiwsTheorems.LayoutUnique | siws/parse.go:22-200 | a text is written by at most one layout, so the fields assigned are the only possible ones |
| SiwsGrammar.ReadUndoesWrite | siws/parse.go:34-197 | reading the lines of a layout gives that layout back |
| SiwsGrammar.WriteUndoesRead | siws/parse.go:34-197 | lines that are read are the lines of the layout read |
| SiwsTheorems.ParsedIsWellFormed | siws/parse.go:22-242 | whatever is accepted has single-line fields, version 1, a 32-byte address, a valid nonce, and a statement that is no label |
| SiwsMessage.String | siws/message.go:57-120 | the builder holds exactly the canonical layout of the message, line by line, whatever the year of its times; SiwsText.PrintedText writes it out |
| SiwsText.PrintedText | siws/message.go:57-120 | what is printed is the text written out with every label, a Chain ID line always and each other optional line when there is something to say |
| SiwsTheorems.RoundTrip | siws/message.go:57-120 | parsing a message's text gives the message back if and only if it is well formed, within the cap, and its times are in whole milliseconds of the years 0 to 9999; for other years the reader must refuse what is printed |
| SiwsTheorems.ParsePrinted | siws/message.go:57-120 | a well-formed message within the cap parses back with its times cut to the millisecond; over the cap it is refused |
| SiwsTheorems.PrintingInjective | siws/message.go:57-120 | distinct well-formed messages have distinct texts, at any size |
| SiwsTheorems.PrintedSize | siws/parse.go:106-113 | reprinting adds at most a newline, the 18-byte default Chain ID line, and 3 bytes for each character by which the message's own timestamps may be shorter than canonical |
| SiwsTheorems.NormalForm | siws/parse.go:13-32 | what was parsed, in years that four digits print, prints to a text that parses and prints to itself, unless it outgrew the cap; with timestamps of at least n of 24 characters no input of up to 8173 - 3(24 - n) bytes does |
| SiwsTheorems.ReparsesIff | siws/message.go:57-120 | the print of an accepted message is accepted again if and only if its times are in the years 0 to 9999 and it fits the cap |
| SiwsTheorems.ReparseCanFail | siws/parse.go:23-32 | under every reader of canonical timestamps, any sign-in without a Chain ID line, its URI lengthened to any length from 8174 to 8192 bytes, is accepted while its own canonical text is refused, so the bound of NormalForm is tight |
| SiwsTheorems.ReparseFailsForEveryKey | siws/parse.go:106-113 | every 32-byte key has such a sign-in of each of these lengths, under every such reader |
| Timestamps.ReadFormat | siws/message.go:8-10 | the canonical 24-character layout determines every millisecond instant of the years 0 to 9999 |
| Timestamps.FormatRead | siws/message.go:8-10 | a text of that layout is the one written for the instant it reads as |
| Timestamps.YearWritten | siws/message.go:8-10 | a year is written in at least four digits, of its number, behind a minus sign if it is negative |
| Calendar.BeforeIff | siws/verify.go:103-117 | an instant is before another exactly if fewer nanoseconds have passed by then, and equal exactly if as many |
| Calendar.InstantWith | siws/message.go:8-10 | the calendar has an instant for every count of nanoseconds |
| Base58.IndexTable | siws/base58.go:22-29 | the index table holds the digit of every alphabet character and -1 elsewhere |
| Base58.IndexInverts | siws/base58.go:9-29 | a character's index is its position in the alphabet, and -1 exactly for characters outside it |
| Base58.Decodes | siws/base58.go:33-45 | a string is decoded exactly if it has at most 128 characters, all of the alphabet |
| Base58.DecodeBase58 | siws/base58.go:33-62 | the multiply-and-add loop with leading ones gives the base-256 numeral with as many leading zeros, or an error past the cap or outside the alphabet |
| Base58.EncodeBase58 | siws/base58.go:65-85 | repeated division, leading ones and the reversal give the base-58 numeral with as many leading zeros |
| Base58.LowDigitsFirst | siws/base58.go:69-72 | repeated division yields the digits of the number, lowest first |
| Base58.Reverse | siws/base58.go:81-83 | swapping the ends towards the middle reverses the text |
| Base58.EncodeUndoesDecode | siws/base58.go:31-85 | encoding what was decoded gives the accepted string back |
| Base58.DecodeUndoesEncode | siws/base58.go:31-85 | decoding an encoding gives the bytes back whenever the encoding is within the cap |
| Base58.DecodeInjective | siws/base58.go:33-62 | no two accepted strings decode to the same bytes |
| Base58.KeyLength | siws/base58.go:11-14 | a 32-byte key has 32 to 44 symbols, and the cap refuses no encoding of up to 93 bytes |
| Base58.AddressLength | siws/base58.go:11-14 | every string that decodes to 32 bytes has 32 to 44 characters |
| SiwsVerify.AcceptsGenuine | siws/verify.go:41-66 | VerifyRaw accepts exactly the texts that parse to a message with the expected domain and nonce, within its time limits, signed by its address |
| SiwsVerify.FirstObjection | siws/verify.go:41-66 | a refusal carries the error of the first stage that objects, in the order preconditions, parsing, domain, not-before, expiry, nonce, signature |
| SiwsVerify.RefusalHasObjection | siws/verify.go:41-66 | VerifyRaw refuses if and only if some stage objects |
| SiwsVerify.VerdictInTime | siws/verify.go:41-140 | the verdict on a parsed text, by nanosecond counts: refused before Not Before and from Expiration Time on, else accepted if domain, nonce and a 64-byte signature by the address's 32-byte key are right, else refused with the first error in the order of the checks |
| SiwsVerify.CanonicalAgreement | siws/verify.go:68-94 | on a message's own canonical text VerifyRaw and the deprecated Message.Verify have the same outcome |
| Caip.CAIP2Exactly | siwx/caip.go:26-39 | a string is accepted exactly when it is the text of a valid chain id, and that id is returned |
| Caip.CAIP10Exactly | siwx/caip.go:52-78 | a string is accepted exactly when it is the text of a valid account, and that account is returned |
| Caip.ChainWritten | siwx/caip.go:10-39 | a chain id is accepted exactly as 3 to 8 characters and 1 to 32 characters of the two classes, written out, around a colon |
| Caip.AccountWritten | siwx/caip.go:10-78 | an account is accepted exactly as such a chain id, a colon, and 1 to 128 characters of the third class |
| Caip.KeyInjective | siwx/caip.go:47-48 | account texts are injective as soon as namespace and address hold no colon, whatever the reference |
| Caip.KeyParses | siwx/caip.go:47-78 | such a text parses exactly when namespace, reference and address are all valid |
| Events.Observer.On | siwx/observer.go:44-49 | an observer has one more call, whose event it keeps unless it panicked; any call may panic, whatever happened at others |
| Events.SafeCall | siwx/observer.go:97-100 | a panic of one observer is contained: the call is recorded and the fan-out goes on |
| Events.FanOut | siwx/observer.go:73-95 | after the loop every observer has been offered the event as often as it is listed |
| Events.Emit | siwx/observer.go:66-95 | every observer of the list has been offered all events emitted so far, in order, as often as it is listed, whichever calls panicked |
| Events.KeptAll | siwx/observer.go:66-100 | an observer that panicked on none of the calls since then has kept every event offered since then, in order |
| Events.KeptIff | siwx/observer.go:97-100 | an observer keeps an event exactly if it was called with it and did not panic |
| Events.RunChecksTrace | siwx/solana/adapter.go:81-93 | running five checks reports a prefix of them in which only the last can fail, and returns the first failure |
| SolanaAdapter.MapErr | siwx/solana/adapter.go:133-151 | whatever order the map is visited in, an error wrapping one sentinel maps to its siwx sentinel, and an unknown one to malformed |
| SolanaAdapter.Verify | siwx/solana/adapter.go:28-129 | returns the result of its run and emits the events of its run to every observer; what they are SolanaTheorems.FirstObjection, ParseReported and IdentitySays tell |
| SolanaAdapter.RunSteps | siwx/solana/adapter.go:49-114 | the check loop and the signature check report each check and stop at the first failure |
| SolanaTheorems.SolanaTrace | siwx/solana/adapter.go:28-129 | every call emits one parse result and then checks of the adapter language, all under the caller's id, and accepts iff all five passed |
| SolanaTheorems.ParseReported | siwx/solana/adapter.go:31-43 | the first event tells whether the text parsed, if not that it is malformed, and its length |
| SolanaTheorems.FirstObjection | siwx/solana/adapter.go:45-129 | with any clock the error is that of the first of the five checks that fails, each time check by its own reading, and the events end there; if none fails the identity names the parsed chain, address, domain, nonce, issue and expiry |
| SolanaTheorems.IdentitySays | siwx/solana/adapter.go:116-129 | every identity carries account, domain, nonce, issue time and expiry of the parsed message, and the expiry lies after the last clock reading |
| SolanaTheorems.FixedClock | siwx/solana/adapter.go:28-129 | with the clock standing still the adapter gives VerifyRaw's verdict, mapped, if and only if both expectations are given or the message does not parse |
| SolanaTheorems.MovingClock | siwx/solana/adapter.go:46-114 | with any clock that does not go back it accepts exactly what is genuine at the last reading and already valid at the first |
| SolanaTheorems.AcceptedIsGenuine | siwx/solana/adapter.go:46-129 | whatever the clock does, what is accepted is genuine at the last reading, and its identity is the message's |
| SolanaTheorems.SignatureStepErrors | siwx/solana/adapter.go:95-114 | after four passed checks the signature step can fail only as expired or badly signed |
| EvmAdapter.Verify | siwx/evm/adapter.go:66-169 | returns the result of its run and emits the events of its run to every observer, with one clock reading; the signature's part in it EvmSignatures tells |
| EvmAdapter.RunSteps | siwx/evm/adapter.go:89-151 | the check loop and the signature check report each check and stop at the first failure |
| EvmTheorems.EvmTrace | siwx/evm/adapter.go:66-169 | every call emits one parse result and then checks of the adapter language, all under the caller's id, and accepts iff all five passed |
| EvmTheorems.AcceptsAdmissible | siwx/evm/adapter.go:66-169 | a parsed message is accepted if and only if domain and nonce are the expected ones, its time limits are readable and hold, and its signature validates |
| EvmTheorems.FirstObjection | siwx/evm/adapter.go:93-151 | a refusal carries the error of the first check that does not pass, in the order domain, not-before, expiry, nonce, signature, an unreadable time limit being malformed |
| EvmTheorems.ExpiryKept | siwx/evm/adapter.go:152-168 | an identity has an expiry exactly when its message names one, the one read from it and after the clock reading; it carries the domain, nonce, issue time, chain and address of the message |
| EvmSignatures.WrappedVerdict | siwx/evm/erc6492.go:71-94 | a signature ending in the sixteen pairs 0x64, 0x92 is accepted exactly if a client can call a creation, the call packs, and it answers with the single byte 1; otherwise it is unsupported, invalid, or an RPC error with the caller's |
| EvmSignatures.PlainVerdict | siwx/evm/adapter.go:171-214 | any other is an EOA's without a client or without code at the address, else accepted exactly if the contract's answer starts with 0x1626ba7e; an error of the client is an RPC error and never a fallback |
| EvmSignatures.ParseReported | siwx/evm/adapter.go:70-82 | the first event tells whether the text parsed, if not that it is malformed, and its length |
| EvmTheorems.WrappedIs | siwx/evm/adapter.go:225-228 | a signature counts as wrapped exactly when it is some signature with the ERC-6492 magic appended |
| EvmTheorems.DemoVerdict | siwx/evm/adapter.go:171-214 | over the simulated wallets a registered address accepts exactly its owner's signature, any other is checked as an EOA, and wrapped signatures are unsupported |
| EvmTheorems.WalletAnswers | examples/hub/contractwallet.go:86-119 | a wallet answers the magic word exactly if the signature, its v of 27 or more lowered by 27, recovers to its owner |
| EvmTheorems.DemoChains | examples/hub/contractwallet.go:53-60 | the simulated chain answers for every chain of the namespace eip155, and for no other |
| EvmTheorems.WalletAnswersToItsOwner | examples/hub/contractwallet.go:37-51 | provided no address but its owner derives it, a wallet accepts exactly the signers from whose address its own is derived, whatever else is registered |
| EvmTheorems.NeverPanics | examples/hub/contractwallet.go:86-119 | the decoder never panics on calldata the adapter encodes |
| Erc1271.Erc1271Calldata | siwx/evm/adapter.go:230-242 | the buffer appended piece by piece is selector, hash word, offset 64, length, signature and padding |
| Erc1271.RightSizedWord | siwx/evm/adapter.go:244-248 | a hash is cut or zero-filled on the right to 32 bytes |
| Erc1271.Uint256Word | siwx/evm/adapter.go:250-257 | a length is written into the four lowest bytes of a word |
| Erc1271.UintWordValue | siwx/evm/adapter.go:250-257 | the word denotes the length modulo 2^32 |
| Erc1271.CalldataFields | siwx/evm/adapter.go:230-242 | selector 0x1626ba7e, hash word, offset, length and signature sit at bytes 0, 4, 36, 68 and 100 |
| Erc1271.CalldataEnd | siwx/evm/adapter.go:230-242 | zeros fill the last word of the signature, and no more |
| Erc1271.DecodeEncoded | examples/hub/contractwallet.go:86-99 | the decoder finds the hash word and the first len(sig) mod 2^32 bytes of the signature, and rejects when there are none |
| Erc1271.RoundTrip | siwx/evm/adapter.go:230-257 | hash and signature come back exactly when the hash is one word and the signature has 1 to 2^32 - 1 bytes |
| Erc1271.PanicsOnOverflow | examples/hub/contractwallet.go:92-97 | the decoder crashes exactly on length fields, taken modulo 2^64, from 2^63 - 100 to 2^63 - 1 |
| Erc1271.DemoWallets.Register | examples/hub/contractwallet.go:37-43 | records the owner under the derived address and keeps every wallet at the address of its owner |
| Erc1271.DemoWallets.CodeAt | examples/hub/contractwallet.go:72-80 | code exactly at the registered addresses |
| Erc1271.DemoWallets.CallContract | examples/hub/contractwallet.go:86-119 | copying, normalising v and recovering give the answer that the decoded call determines |
| Registry.Registry.Register | siwx/registry.go:33-37 | replaces the verifier of its namespace and keeps every verifier under its own namespace |
| Registry.Registry.Verify | siwx/registry.go:42-88 | returns the result of its run; every observer listed has been offered the whole run, and one listed once that panicked on none of it has kept it in order |
| Registry.RunTrace | siwx/registry.go:42-88 | every run is an attempt, the adapter's trace if the namespace is registered, and a result, all under one id |
| Registry.CallReported | siwx/registry.go:42-114 | the caller's id is kept or an empty one replaced; first event, last event with the first sentinel of the error in the fixed order, and what the verifier of the namespace reports and returns, are written out |
| Registry.IdentityIffAllChecks | siwx/registry.go:79-87 | an identity is returned if and only if all five checks were reported and true |
| Registry.OutcomeReported | siwx/registry.go:99-114 | the last event says whether an identity was returned, and otherwise names a sentinel that is in the error |
| RegistryTheorems.AcceptedIdentity | siwx/registry.go:79-87 | an identity carries the nonce of its message, which is the expected one, the expected domain, and an account in the namespace asked for |
| RegistryTheorems.AccountRegular | siwx/solana/adapter.go:116-128 | an accepted account has a valid namespace and, if Address.Hex prints one, a valid address, so only its reference may be other text |
| RegistryTheorems.AccountKeysInjective | siwx/solana/adapter.go:116-128 | two accepted identities have the same store key exactly when they are the same account |
| RegistryTheorems.SolanaKeyParses | siwx/solana/adapter.go:116-128 | the store key of a Solana sign-in is a CAIP-10 account exactly when its Chain ID is a valid reference |
| NonceStore.NonceStore.Issue | examples/hub/stores.go:35-47 | one critical section: sweep at the first reading, then store the nonce with its expiry from the second |
| NonceStore.NonceStore.Burn | examples/hub/stores.go:49-61 | removes the nonce in any case, and succeeds exactly if it was stored and has not expired |
| NonceStore.NonceStore.Sweep | examples/hub/stores.go:63-71 | deleting while iterating, in any order, leaves exactly the unexpired entries |
| NonceStore.BurnExactly | examples/hub/stores.go:35-71 | in every run a burn succeeds exactly when the nonce was issued before, its expiry has not passed, and no earlier burn of it succeeded |
| NonceStore.SameAsLog | examples/hub/stores.go:35-71 | the sweeping store answers every burn as a log does that forgets nothing |
| NonceStore.SpentOnce | examples/hub/stores.go:20-21 | no nonce is spent twice |
| NonceStore.SweptOnIssue | examples/hub/stores.go:43-45 | after an issue the map holds only entries unexpired at its sweep, exactly unless the new entry starts out expired |
| IdentityStore.IdentityStore.UpsertByWallet | examples/hub/stores.go:89-105 | returns the wallet's identity, or makes one whose list is that wallet alone |
| IdentityStore.IdentityStore.LinkWallet | examples/hub/stores.go:107-123 | appends an unlisted wallet and maps it to the identity, does nothing for a listed one, and fails exactly for unknown identities |
| IdentityStore.IdentityStore.Wallets | examples/hub/stores.go:125-139 | parses the listed keys in order up to the first that is invalid |
| IdentityStore.ParseAllExactly | examples/hub/stores.go:125-139 | the result is exactly the valid accounts whose keys are listed, in order, and an error if a key is no valid account |
| IdentityStore.RunSound | examples/hub/stores.go:75-123 | in every run with fresh ids each wallet maps to an identity that lists it, every listed wallet maps somewhere, and no list repeats itself |
| IdentityStore.RunGrows | examples/hub/stores.go:89-123 | identities stay and lists only grow at the end |
| IdentityStore.UpsertedStaysListed | examples/hub/stores.go:89-123 | an upserted wallet is in its identity's list at every later moment |
| IdentityStore.InverseIffNoSteal | examples/hub/stores.go:107-123 | the two maps are exact inverses if and only if no link took a wallet over from another identity |
| IdentityStore.TakeoverHappens | examples/hub/stores.go:107-123 | any two accounts with different keys have a run of two sign-ins and one link that takes the second over and breaks the maps |
| IdentityStore.ListedIffPlaced | examples/hub/stores.go:89-123 | in every run an identity lists exactly the keys that some upsert found or put there, or some link named |
| IdentityStore.ReadableIff | examples/hub/stores.go:125-139 | the wallets of an identity can be read if and only if the text of every account upserted or linked under it parses |
| IdentityStore.InvalidForGood | examples/hub/stores.go:125-139 | one listed key that is no valid account makes every later reading of that list fail |
| Recorder.Recorder.OnCheckResult | examples/hub/observe.go:112-131 | appends to the attempt's trail while fewer than 1024 attempts are buffered |
| Recorder.Recorder.DrainChecks | examples/hub/observe.go:81-89 | returns and forgets the attempt's trail |
| Recorder.RunBounded | examples/hub/observe.go:69-70 | the buffer never holds more than 1024 attempts |
| Recorder.DrainsAllIffRoom | examples/hub/observe.go:81-131 | a drain returns all the attempt emitted since its last drain, in order, exactly when fewer than 1024 attempts were buffered at each of those events |
| Recorder.FullForGood | examples/hub/observe.go:112-131 | once 1024 attempts that are never drained are buffered, every other attempt's trail stays empty |
| HubHandlers.Server.GetNonce | examples/hub/handlers.go:57-69 | the handler is one issue of the state machine, of a nonce that lasts 600 seconds |
| HubHandlers.Server.RegisterContractWallet | examples/hub/handlers.go:93-113 | the handler is one registration of the state machine |
| HubHandlers.Server.Admit | examples/hub/handlers.go:137-172 | validation, burn, verification and reports are enabled moves in this order, all of them of the request, or end in the refusal returned |
| HubHandlers.Server.PostVerify | examples/hub/handlers.go:116-203 | the handler plays enabled moves from arrival to the response it returns, all of them of its request, and touches no other request |
| HubHandlers.Server.Enrol | examples/hub/handlers.go:179-189 | upsert and reading of the wallets are the next two moves of the request, and what is read decides its phase |
| HubHandlers.Server.Welcome | examples/hub/handlers.go:179-202 | the moves are upsert, reading of the wallets and, exactly if that succeeds, the token |
| HubHandlers.Server.PostLink | examples/hub/handlers.go:206-265 | the handler plays enabled moves from arrival to the response it returns, all of them of its request, and touches no other request |
| HubInvariants.NonceNext | examples/hub/handlers.go:155-160 | every move keeps: a request past its burn owns one successful burn of its cookie's nonce, and no two requests own the same |
| HubInvariants.AcceptNext | examples/hub/handlers.go:171-182 | every move keeps: what was verified carries the cookie's nonce in its message, and its trail is five true checks |
| HubInvariants.IdNext | examples/hub/handlers.go:179-191 | every move keeps: the identity of an upserted account lists its key, and a link request's identity exists |
| HubInvariants.CompletedNext | examples/hub/handlers.go:191-202 | every move keeps: each request completes at most once |
| HubInvariants.TrailNext | examples/hub/handlers.go:162-172 | every move keeps: attempts have ids of their own, what each emitted is the prefix of its trail sent so far, and only attempts of sign-ins are ever drained |
| HubAccounts.AccountsNext | examples/hub/handlers.go:179-191 | every move keeps: each account under way, in a token or link, or ever written to the identity store has what its request's verification established |
| HubAccounts.AccountsRun | examples/hub/handlers.go:171-182 | in every run each of these accounts was returned by an earlier verification of its own request |
| HubAccounts.TokenNext | examples/hub/handlers.go:179-202 | every move keeps: the account signed in with is among the wallets read and among those of the token |
| HubTheorems.CompletionsBurnApart | examples/hub/handlers.go:155-160 | in every reachable state distinct tokens and links rest on distinct successful burns of distinct nonces |
| HubTheorems.RequestsBurnApart | examples/hub/handlers.go:155-160 | no two requests, whatever becomes of them, spend the same nonce or share a successful burn |
| HubTheorems.BurnInTime | examples/hub/handlers.go:137-160 | in every reachable state an arrived request gets past its burn exactly if its cookie's nonce was issued no more than 600 seconds before and has not been spent, else it is refused for its nonce |
| HubTheorems.IssuesApart | examples/hub/handlers.go:57-69 | successful burns honour issues of their own, each of the burn's nonce and before it |
| HubTheorems.CompletionsWithinBurns | examples/hub/handlers.go:57-69 | there are at most as many tokens and links as successful burns, and at most as many of those as issues |
| HubTheorems.MessageUsedOnce | examples/hub/handlers.go:143-147 | a message is good for one token or one link in its namespace, in any interleaving |
| HubGenuine.CompletionSigned | examples/hub/handlers.go:143-182 | every token and link goes back to an earlier verification of its request, at which the text was validated for its account, by the key, address or wallet it names, for the hub's domain, within its time limits, and for the cookie's nonce, already burnt |
| HubGenuine.WalletSigned | examples/hub/contractwallet.go:86-119 | a sign-in with a registered wallet was signed by an address from which the wallet's is derived |
| HubTheorems.TokenListsAccount | examples/hub/handlers.go:179-191 | a token's wallets include the account signed in with, whatever happened between upsert and reading |
| HubTheorems.LinkFindsIdentity | examples/hub/handlers.go:260-263 | for the identity of a minted token the "link failed" branch is never taken |
| HubTheorems.DrainedTrail | examples/hub/handlers.go:171-172 | what a verify request drains is its whole trail exactly when the buffer had room at each report; an accepted one is five true checks |
| HubTheorems.IdentityMaps | examples/hub/handlers.go:180-185 | in every reachable state the maps are sound, and inverse exactly if none of its writes took a wallet over |
| HubTheorems.TokenIffReferencesValid | examples/hub/handlers.go:185-191 | in every reachable state a verified sign-in goes on to its token if every account upserted or linked under its identity has a valid reference, and otherwise ends in "wallets lookup failed" |
| HubTheorems.InvalidKeyEndsTokens | examples/hub/handlers.go:185-189 | once an identity lists a key that is no valid account, each of its later sign-ins ends in "wallets lookup failed" |
| HubWitness.ChainIdDecides | siws/parse.go:106-113 | for every 32-byte key and every one-line Chain ID that fits a request body a run of the hub accepts the sign-in and ends in a token if the Chain ID is a valid reference, in "wallets lookup failed" if not |
| HubWitness.SpacedChainId | examples/hub/handlers.go:185-189 | with the Chain ID "a b" the verified sign-in ends in "wallets lookup failed" |
| HubWitness.SceneExists | siws/parse.go:106-113 | every 32-byte key and one-line Chain ID of up to 3 characters, "a b" among them, has such a sign-in under a signature check that takes it, so the premise of these runs can be met |
| HubTheorems.LinkStaysBuffered | examples/hub/handlers.go:206-265 | in every run a link attempt that is buffered stays buffered for good |
| HubTheorems.LinksEndTrails | examples/hub/observe.go:112-131 | once 1024 link attempts are buffered, every later sign-in drains an empty trail |
| HubFlood.LinkAdds | examples/hub/handlers.go:206-265 | while fewer than 1024 attempts are buffered, a link request of a user with a token can leave one more that nothing drains |
| HubFlood.BufferFills | examples/hub/observe.go:112-131 | a run of the hub leads from the first sign-in of any scene that gets a token to 1024 buffered link attempts |
| KeccakHalves.Rot32IsRotation | examples/web/app.js:26-32 | rot32 is rotation of the 64-bit lane, for every amount |
| KeccakHalves.Parities | examples/web/app.js:37-40 | the first loop computes the column parities of theta, half by half |
| KeccakHalves.ApplyTheta | examples/web/app.js:41-49 | the second loop completes theta in place |
| KeccakHalves.RhoAndPi | examples/web/app.js:50-57 | the chained walk over PIL and ROTC is rho followed by pi |
| KeccakF.RhoPi | examples/web/app.js:52-57 | the walk of rho visits its lanes in the order pi moves them |
| KeccakHalves.ChiLoop | examples/web/app.js:58-61 | the double loop is chi |
| KeccakHalves.RCIsRoundConstant | examples/web/app.js:12-21 | each pair of RC is the round constant that the shift register of FIPS 202 generates |
| KeccakHalves.AddConstant | examples/web/app.js:62-63 | adding the two halves of a constant is iota |
| KeccakHalves.PermuteInPlace | examples/web/app.js:34-65 | keccakF on 50 half-words is the 24-round permutation on 25 lanes, for every state |
| KeccakSponge.AddPending | examples/web/app.js:74-78 | adding the pending bytes shifted into half-words adds the block to the state |
| KeccakSponge.Absorber.AbsorbByte | examples/web/app.js:71-82 | full blocks are absorbed as in the sponge, and the bytes after them are pending |
| KeccakSponge.FeedMessage | examples/web/app.js:84-85 | after the loop the message and the byte 0x01 have been absorbed |
| KeccakSponge.Finalise | examples/web/app.js:86-92 | setting the last bit and adding the last block completes the padded message the program feeds |
| KeccakSponge.Squeeze | examples/web/app.js:94-99 | the output bytes are the first 256 bits of the state |
| KeccakSponge.FedIsSponge | examples/web/app.js:84-92 | the padding fed is pad10*1 if and only if the message is not of 135 bytes modulo 136, and then the digest is that of the sponge |
| KeccakSponge.FedIffSponge | examples/web/app.js:84-92 | what is fed hashes like the sponge under every permutation if and only if the message is not of 135 bytes modulo 136 |
| KeccakSponge.Digest | examples/web/app.js:11-100 | the digest is the Keccak-256 sponge of the message, unless its length is 135 modulo 136 |

## Left out

- Ed25519, secp256k1 recovery, EIP-191, RSA, JWT signing and `accounts.TextHash` themselves: foreign calls, here function parameters.
- siwe-go's parser and printer: the EVM adapter is given the parsed record.
- The lenient layouts of `time.Parse`: a reader parameter, with conditions only where a theorem needs them.
- Durations in events, log lines, metrics counters, problem details, HTTP routing, JSON, base64, cookies other than the nonce they carry, and configuration.
- The `evmrpc` resolver and the JWKS cache: network plumbing.
- The ERC-6492 validator bytecode and its ABI packing: `pack` is a parameter of the EVM adapter.
- Constant-time comparison: only its result.
- Failure of the random source: it ends the request where it stands.
- Concurrent use of the registry and the demo wallets: a reader-writer lock around one map access each.
- Registry.Registry.Verify: every observer is behind MultiObserver's recovery; a bare observer that panics would end the call.
- HubMachine.Next: a verification is one move, so a wallet registered while it runs is seen by the whole of it or not at all; the hub's check events are recorded one by one after it. A request of any size may arrive, where the hub cuts bodies at 8 KiB; the runs exhibited keep to that limit.
- HubHandlers.Server.RegisterContractWallet: the adapter holds the wallets by reference; here it is registered again with their new state.
- HubHandlers.Server.VerifyMessage: an observer of its own collects the events that the recorder is then given in the same order.
- EvmTheorems.WalletAnswersToItsOwner: needs that no address but the owner's derives this wallet, which the hash behind it cannot promise.
- HubGenuine.WalletSigned: needs that `accounts.TextHash` gives 32 bytes, a fact of a foreign library.
- HubTheorems.TokenListsAccount: needs that `Address.Hex` prints no colon, which is part of a foreign library.
- HubTheorems.TokenIffReferencesValid: needs that `Address.Hex` prints 1 to 128 characters that CAIP-10 allows, likewise.
- HubTheorems.LinkFindsIdentity: takes a bearer token's identity to be one that this hub minted, which the middleware's signature check is for.
