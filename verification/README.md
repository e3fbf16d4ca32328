# Signa: the quorum waiver protocol, its bytes and its arithmetic

A lender's two approvers waive a coverage covenant by signing one transaction of a quorum wallet. The
transaction is pinned when it is proposed, recorded as an intent at Privy, signed there once both
approvers have authorized it, checked against what was pinned, and broadcast to Arc. This project
models that flow, the bytes the approvers sign, the store and journals that carry it across crashes,
and the exact decimal arithmetic of the amounts, and proves what each part promises.

## How it is built

| part | files |
|---|---|
| JavaScript text and numerals, canonical JSON and its parser, UTF-8, DER | `Text`, `CanonicalJson`, `JsonLaws`, `JsonMeaning`, `JsonShortest`, `JsonReading`, `JsonGrammar`, `AdapterJson`, `Utf8`, `Der`, `Vectors` |
| the signed payload, as a value and character by character | `Payload`, `SignedText` |
| pinned and signed transactions, the durable store, Privy's intents | `Transactions`, `Store`, `Intents` |
| the protocol as a state machine, its invariant, its theorems, crashes and recovery | `Protocol`, `ProtocolSafety`, `WaiverTheorems`, `WaiverRecovery` |
| the service, the desk, and the broadcast command | `QuorumService`, `Desk`, `WaiverBroadcast` |
| journalled sends, facility setup | `Journal`, `SendPath`, `FacilitySetup` |
| the vault, and the seven-phase run over it | `CovenantVault`, `RunPlan`, `WaiverRun`, `WaiverRunLaws`, `WaiverRunEnds`, `WaiverRunResumes` |
| amounts | `Amounts` |

The state machine of `Protocol` has one step per effect: each check of an open action, the pin, the
intent Privy creates, the save, the temporary write and rename, the send, the receipt, the record. A
crash or a change at Privy or Arc can fall between any two. `ProtocolSafety.StepKeeps` shows that every
step keeps the invariant, and `WaiverTheorems` and `WaiverRecovery` state what follows for every reachable
state and every run. The class `QuorumService.QuorumAdminService` has the source's methods over a `JsonFileStore`, and
each method returns, as ghost data, the run of the state machine it performed: its first state is the
old one, its last the new one. So the theorems about runs are theorems about the class.

What is assumed of the outside, and only this: Keccak-256 is injective; among the member keys of Privy's
intents a signature verifies over one payload at most (used in `ForwardedFitsOneIntent` alone); Privy
gives every intent a new id and a JSON body, never changes an intent's request or member keys, never
reopens a closed intent, and never changes what it signed; Arc takes each nonce of a sender once, and the
pending nonce it reports exceeds every mined nonce of the wallet. Calls of the one service are
serialised. A reverted receipt leaves its action open, as in the code, so `ExecuteAgainFinishes` speaks
of transactions that are not mined as failures. It also needs that only this store's actions use the
wallet, each sent while the file holds it; `UnsavedActionTakesTheNonce` shows why.

## Where the code and its documentation part

- The comment at `packages/privy-waiver/src/service.ts:304` says that a broadcast is recorded before any
  assertion can throw. For a successful receipt that is false in exactly one case (a reverted one throws
  in `broadcastAndConfirm`, unrecorded): a waiver executed by a service with no facility configured, where
  `waiverCreatedIn` throws first (line 329). `provision-facility.ts` builds such a service over the same
  store file. `WaiverRecovery.UnconfiguredServiceMissesTheRecord` is the run: a waiver proposed with a
  facility, executed without, mined, and never recorded by that service; a service with a facility records
  it. `WaiverRecovery.RecordedExactlyWhen` is the exact condition.
- `JsonFileStore.save` keeps an action in memory when its flush fails, and `execute` will send it. After
  a crash the file does not know it, the next proposal pins the same nonce, and whichever is mined
  second never is (`WaiverRecovery.UnsavedActionTakesTheNonce`). While every action sent is in the file,
  this cannot happen (`WaiverRecovery.AlwaysMineable`).
- An interrupted waiver run cannot always be resumed, whatever flags are given:
  `WaiverRunResumes.ResumableExactlyWhen`, and, if nobody else touches covenant or cover, by the run's own
  transactions alone, `WaiverRunResumes.ResumableByTheChain`. The preflight wants CURE and an open proposal,
  so a run killed after W-2, or after W-3 with nothing proposed, is refused. So is one killed between the
  mining of the waiver and its record (`WaiverRunResumes.KilledBeforeTheRecord`), until somebody executes
  the action elsewhere, and one that reached W-6.
- A run that can be resumed need not get anywhere. The preflight refuses while a waiver is active, and the
  vault refuses the draw of W-5 once it is not. So the waiver and its draw must land in one attempt: when
  an attempt ends between the two, `--adopt-waiver` is accepted after the lapse, and neither W-5 nor W-6
  is ever sent (`WaiverRunEnds.TooLateForTheDraw`, and the kill between phases that leads there,
  `WaiverRunResumes.KilledBeforeTheDraw`).
- Nor does a run get anywhere while cover suffices after its hedge was replaced: W-3 finds no refusal, and
  the readiness check of W-4, made even when the waiver is adopted, throws. The preflight accepts all the
  same (`WaiverRunEnds.NothingLandsWhileCovered`, `WaiverRunResumes.CoverRestoredBeforeTheRefusal`).
- Adoption is by phase, while W-1 and W-2 are several transactions. A phase adopted by one of them is
  never finished (`WaiverRunEnds.SkippedForGood`): adopting W-1 by its deposit skips its draw. And a
  deposit the preflight finds missing is made by W-1 alone: with W-1 adopted it is not made, and a balance
  below the draw of W-5 stops the run.
- `WaiverRunEnds.CompletesExactlyWhen` says exactly when an attempt that nobody disturbs leaves every
  wanted phase whole, over all of this.
- A facility setup call mined as a failure stays executed and unrecorded, and every later run of the
  provisioning script throws at it (`FacilitySetup.Provisioning.Attempt`).
- `performSend` journals the hash after the send. A sent hash is missing from the journal exactly when the
  signer threw although `cast` had sent, or the process died or the journal failed between the two
  (`SendPath.Accounted`, which `SendPath.SendContext.PerformSend` ensures). The waiver broadcast journals
  first and loses nothing (`WaiverBroadcast.BroadcastContext.BroadcastCommand`).
- An empty body is signed as the empty string. Over parsed JSON this confuses `{}`, `[]` and `""`, and
  nothing else (`Payload.OnlyEmptyBodiesCollapse`). A body whose members are all undefined prints like
  `{}` but is not taken for empty (`Payload.UndefinedMemberIsNotEmpty`).
- Restarting a `JsonFileStore` is invisible as long as no save moves a held action to another instant,
  which the service never does. Otherwise the order of ties can change
  (`Store.ResaveAtAnotherTimeShows`).
- The dashboard's `decimal` is the client's printer exactly on amounts that are not negative and on
  whole negative ones (`Amounts.PrintersAgreeExactlyWhen`).
- The desk checks the target, calldata, chain, nonce and value of the transaction, the RPC method and
  the intent. It does not read gas, fees, type, HTTP method or URL: those are bound by the service's
  own check. `Desk.DeskReadsTheRequest` is the exact condition under which it passes.
- The adapter's `canonicalJson` is the signing printer exactly where nothing is undefined
  (`AdapterJson.AdapterAgreesExactlyWhen`).

## Model

| member | source | states |
|---|---|---|
| JsonLaws.PrintsIffEncodable | packages/privy-waiver/src/authorization.ts:58-66 | `canonicalize` throws exactly when the value is, or keeps at some depth, something JSON cannot carry |
| JsonLaws.RoundTrip | packages/privy-waiver/src/authorization.ts:58-81 | parsing canonical text gives the value back, members in code-unit order and undefined members dropped, for every value that can be encoded |
| JsonLaws.PrintedParses | packages/privy-waiver/src/authorization.ts:58-81 | the same inside any larger text: the parser reads exactly the printed value and leaves what follows |
| JsonLaws.OrderedIncreasing | packages/privy-waiver/src/authorization.ts:76-79 | the members are written in strictly increasing UTF-16 code-unit order |
| JsonLaws.EscapedParses | packages/privy-waiver/src/authorization.ts:63 | every string, lone surrogates and control characters included, survives escaping and reading |
| JsonShortest.CanonicalIsShortest | packages/privy-waiver/src/authorization.ts:54-81 | canonical text is the shortest text of its value: no text that parses to the same value is shorter, for every value whose strings are well-formed |
| JsonShortest.NoShorterText | packages/privy-waiver/src/authorization.ts:54-81 | nor is any text of the value that the grammar of RFC 8259 allows |
| JsonShortest.ShortEscapes | packages/privy-waiver/src/authorization.ts:63 | quote, backslash and five controls are written by their short escapes, and every other printable unit as itself |
| JsonShortest.HexEscapes | packages/privy-waiver/src/authorization.ts:63 | the remaining controls and lone surrogates are written as four lower-case hexadecimal digits of their value |
| JsonMeaning.SameTextIffSame | packages/privy-waiver/src/authorization.ts:54-81 | two values print alike if and only if they are the same JSON value: insertion order and undefined members never show, every other difference does |
| JsonMeaning.NormalPrintsAlike | packages/privy-waiver/src/authorization.ts:58-81 | canonicalizing is idempotent: the parsed value prints the same text |
| JsonMeaning.NormalGet | packages/privy-waiver/src/authorization.ts:76-80 | reading a member by name from the parsed text reads that member of the printed value |
| JsonMeaning.CanonicalOrder | packages/privy-waiver/src/authorization.ts:76-79 | the members parsed from canonical text stand in increasing order of their names, each first by the first unit where they part |
| Utf16.BeforeIsPrecedes | packages/privy-waiver/src/authorization.ts:77 | that order is by the first differing code unit, and a prefix comes first |
| JsonGrammar.ParseExactly | apps/dashboard/src/data/approver.ts:115 | the parser reads a text as a value if and only if it is JSON text of it in the grammar of RFC 8259, whole numbers only: no other text is taken, and none of these refused |
| JsonReading.StringExactly | apps/dashboard/src/data/approver.ts:115 | a string literal reads as a text if and only if it spells it unit by unit: plainly, by a short escape, or by four hexadecimal digits of either case |
| JsonReading.PutLast | apps/dashboard/src/data/approver.ts:115 | of a repeated name the later value counts, and no other name is affected |
| SignedText.ArrayTextIs | packages/privy-waiver/src/authorization.ts:70-75 | an array is its items between brackets with commas between them, undefined ones as null |
| SignedText.NumberTextIs | packages/privy-waiver/src/authorization.ts:63 | a number is its decimal numeral without leading zeros, after a minus sign if negative |
| AdapterJson.AdapterAgrees | packages/provider-adapter/src/index.ts:211-221 | the adapter's `canonicalJson` writes the signing printer's text on every value without undefined |
| AdapterJson.AdapterAgreesExactlyWhen | packages/provider-adapter/src/index.ts:211-221 | and on no other encodable value: one undefined at any depth makes the texts differ |
| AdapterJson.AdapterUndefined | packages/provider-adapter/src/index.ts:211-221 | an undefined member is written by that name, an undefined item as nothing |
| Utf8.EncodeDecodes | packages/privy-waiver/src/authorization.ts:87 | decoding what `TextEncoder` wrote gives the text with lone surrogates replaced |
| Utf8.EncodeInverts | packages/privy-waiver/src/authorization.ts:87 | so bytes determine text exactly when every surrogate is paired |
| CanonicalBytes.CanonicalWellFormed | packages/privy-waiver/src/authorization.ts:58-87 | canonical text never holds a lone surrogate, whatever strings it carries |
| CanonicalBytes.BytesInvert | packages/privy-waiver/src/authorization.ts:84-88 | the signed bytes decode to the canonical text |
| Vectors.Utf8Vectors | packages/privy-waiver/src/authorization.ts:87 | texts of one, two, three and four bytes encode as section 3 of RFC 3629 gives them, and a lone surrogate as the replacement character |
| Payload.PayloadReadsBack | packages/privy-waiver/src/authorization.ts:84-119 | a payload is produced for every signable request, and its bytes, decoded and parsed, are the payload |
| Payload.PayloadSays | packages/privy-waiver/src/authorization.ts:84-119 | parsed, the signed text is an object with exactly the seven members, named and valued one by one: version 1, method, URL, body (an empty one as the empty string), the one header, intent and timestamp |
| SignedText.PayloadTextIs | packages/privy-waiver/src/authorization.ts:84-119 | the signed text character by character, for every intent, request, application and time: those members in sorted order with nothing but commas between them |
| SignedText.ProposedTextIs | packages/privy-waiver/src/arc.ts:364-377 | the text of the proposed body, character by character: the method, then the nine members of the transaction, sorted, quantities as hexadecimal strings |
| SignedText.RecordedTextIs | packages/privy-waiver/src/authorization.ts:84-88 | in whatever order Privy records the members, the body is signed as that text |
| Payload.SameBytesIffSamePayload | packages/privy-waiver/src/authorization.ts:84-119 | two payloads have equal bytes if and only if intent, timestamp, application, method, URL and signed body are the same |
| Payload.OnlyEmptyBodiesCollapse | packages/privy-waiver/src/authorization.ts:85-87 | among parsed bodies the empty-body rule confuses the three empty ones and no others |
| Payload.UndefinedMemberIsNotEmpty | packages/privy-waiver/src/authorization.ts:85-87 | a body with one undefined member is the same JSON as the empty object but is signed differently |
| Der.DerInteger | packages/privy-waiver/src/authorization.ts:197-203 | the loop writes the minimal non-negative INTEGER of section 8.3 of ITU-T X.690 |
| Der.P1363ToDer | packages/privy-waiver/src/authorization.ts:188-195 | converts exactly the 64-byte signatures, to the ECDSA-Sig-Value of section 2.2.3 of RFC 3279 |
| Der.DerRoundTrip | packages/privy-waiver/src/authorization.ts:188-203 | a strict DER decoder written from the standard turns the result back into the 64 bytes; it is 8 to 72 bytes long |
| Der.DerInjective | packages/privy-waiver/src/authorization.ts:188-203 | distinct signatures have distinct encodings |
| Der.DecodeAcceptsOnlySequences | packages/privy-waiver/src/authorization.ts:188-203 | the strict decoder accepts nothing but what the encoder writes |
| Vectors.DerVector | packages/privy-waiver/test/authorization.test.ts:169-178 | the repository's vector, for every s with its high bit set: leading zeros go and the high bit is padded |
| Transactions.PinnedRoundTrip | packages/privy-waiver/src/store.ts:77-97 | what is read from the store is what was pinned; its large quantities are stored as decimal text of their value |
| Transactions.VerifySignedTransaction | packages/privy-waiver/src/arc.ts:382-412 | accepts exactly the transaction that carries every pinned field, a zero one present or absent, signed by the pinned wallet; otherwise names exactly the fields that differ |
| Transactions.NothingMismatched | packages/privy-waiver/src/arc.ts:391-404 | the eight comparisons all pass exactly when the transaction is the pinned one, whoever signed it |
| Transactions.SignedMeansCarried | packages/privy-waiver/src/arc.ts:391-408 | field by field: a quantity is present with the pinned value or absent and pinned as zero, addresses and calldata agree but for case |
| Numerals.BigIntOfExactly | packages/privy-waiver/src/service.ts:503-513 | `BigInt` reads a text as n if and only if, trimmed, it is empty and n is 0, a decimal with or without a sign, or digits after 0x, 0o or 0b |
| Store.AllIsStableSort | packages/privy-waiver/src/store.ts:106-108 | `all()` lists every action once, latest first, and keeps insertion order among equals |
| Store.ReloadSame | packages/privy-waiver/src/store.ts:127-154 | reloading what the last flush wrote gives the same `all()`, ties included, and the same `get` for every id |
| Store.RestartsInvisible | packages/privy-waiver/src/store.ts:103-154 | over any sequence of saves and records, restarts at any operation boundary change neither `all()` nor any `get` |
| Store.ResaveAtAnotherTimeShows | packages/privy-waiver/src/store.ts:106-116 | the condition is needed: a save that moves a held action to the instant of another shows the restart |
| JsonStore.JsonFileStore.constructor | packages/privy-waiver/src/store.ts:128-135 | loads the file entry by entry, later entries replacing earlier ones, and keeps the file's own order |
| JsonStore.JsonFileStore.Save | packages/privy-waiver/src/store.ts:137-140 | memory takes the action at once; the file becomes the whole new store or stays as it was |
| JsonStore.JsonFileStore.RecordBroadcast | packages/privy-waiver/src/store.ts:118-124 | changes only the record of that action; an unknown id is refused and changes nothing |
| JsonStore.JsonFileStore.Flush | packages/privy-waiver/src/store.ts:148-153 | a crash or failure before, inside or after the temporary write leaves exactly the previous file |
| JsonStore.Restart | packages/privy-waiver/src/store.ts:127-135 | a new process after a completed flush cannot be told from the old one |
| Intents.FieldsCompared | packages/privy-waiver/src/service.ts:408-411 | comparing the nine fields Privy was sent, quantities by value and text without case, compares exactly what reaches the chain |
| Intents.IntentProblems | packages/privy-waiver/src/service.ts:399-415 | lists exactly what is wrong: HTTP method, URL, RPC method and each field that misreads, by name; nothing if and only if the request asks this wallet to sign the pinned transaction |
| Intents.RecordsMeansAsks | packages/privy-waiver/src/service.ts:399-415 | that check, by the names and values the request must have: POST, the wallet's path, `eth_signTransaction`, and nine members that read as pinned |
| Intents.SentAsPinned | packages/privy-waiver/src/arc.ts:364-377 | Privy is sent nine members: target and calldata, no value, chain and type 2 as numbers, and each quantity as lower-case hexadecimal without leading zeros |
| Intents.HonestRecordingMatches | packages/privy-waiver/src/service.ts:366-371 | an honest recording is never refused: any request at the wallet's path whose body is the proposed JSON value, members in any order, records what was pinned |
| ProtocolSafety.StepKeeps | packages/privy-waiver/src/service.ts:256-396 | every step of service, store, Privy, Arc and crash keeps the invariant |
| ProtocolSafety.ReachableInv | packages/privy-waiver/src/service.ts:256-396 | so the invariant holds in every reachable state |
| ProtocolSafety.PinSettles | packages/privy-waiver/src/service.ts:365-366 | once no action is open, a nonce Arc reports as pending is above every nonce stored |
| Protocol.WaiverInIs | packages/privy-waiver/src/service.ts:321-355 | a waiver record is made if and only if exactly one event of the receipt is from the approved vault, and it says what that event says of facility and reason |
| Protocol.RecordIs | packages/privy-waiver/src/service.ts:302-311 | the record of a mined transaction holds its hash, signer, block and status, and for a waiver that one event |
| WaiverTheorems.AtMostOneOpen | packages/privy-waiver/src/service.ts:384-396 | in every reachable state at most one stored action is unsent and open, in memory and in the file |
| WaiverTheorems.NoncesIncrease | packages/privy-waiver/src/service.ts:358-396 | the pinned nonces of recorded actions strictly increase in proposal order |
| WaiverTheorems.EndToEndAgreement | packages/privy-waiver/src/service.ts:290-319 | behind every record stands one mined, successful transaction of the quorum wallet; it, the request the approvers signed and the call they were shown carry what was pinned |
| WaiverTheorems.OnlyPinnedIsSent | packages/privy-waiver/src/service.ts:300-302 | nothing is handed to Arc but the pinned transaction of that action, signed by the wallet |
| WaiverTheorems.ForwardedFitsOneIntent | packages/privy-waiver/src/service.ts:252-278 | a forwarded signature verifies under a member key of that very intent, within 300 seconds of the clock, and under no intent's member key for another intent or time |
| WaiverTheorems.RecordedHashNeverChanges | packages/privy-waiver/src/service.ts:290-319 | whenever an action has a record, before or after any crashes, it is of one and the same transaction |
| WaiverTheorems.NoSendOnceRecorded | packages/privy-waiver/src/service.ts:293-294 | once a record is in the file it stays, and nothing is sent for that action again |
| WaiverTheorems.NonceConsumedOnce | packages/privy-waiver/src/arc.ts:418-430 | the nonce pinned for a recorded action was consumed by that transaction and by no other |
| WaiverRecovery.ExecuteAgainFinishes | packages/privy-waiver/src/service.ts:290-319 | while only this store's actions use the wallet, each sent from the file, a crash and one more `execute` can bring any signed action of the file to its record, unless its transaction was mined as a failure |
| WaiverRecovery.AlwaysMineable | packages/privy-waiver/src/service.ts:384-396 | under that discipline Arc always takes the transaction of a signed action in the file: no other transaction of the wallet has its nonce |
| WaiverRecovery.UnsavedActionTakesTheNonce | packages/privy-waiver/src/store.ts:137-154 | without it, an action sent from memory after a failed flush takes the nonce of the next one, which then can never be recorded |
| WaiverRecovery.RecordedExactlyWhen | packages/privy-waiver/src/service.ts:300-311 | some run of a service with or without a facility records a signed action of the file if and only if Arc has or will take its transaction, and it is no waiver or the service has a facility |
| WaiverRecovery.UnconfiguredServiceMissesTheRecord | packages/privy-waiver/src/service.ts:302-329 | a waiver filed with a facility and executed without one is mined and never recorded by that service, in no run; a service with a facility then records it |
| WaiverRecovery.HonestRunCompletes | packages/privy-waiver/src/service.ts:358-396 | with nothing open, whatever was rejected or expired before, if Privy records and signs what was pinned the proposal ends recorded |
| WaiverRecovery.ReachableExtends | packages/privy-waiver/src/service.ts:256-396 | what a run reaches from a reachable state is reachable |
| QuorumService.ArcNode.WaitForReceipt | packages/privy-waiver/src/arc.ts:426-429 | a wait ends with the receipt of that transaction or with none, and mines nothing else |
| QuorumService.PinAdminTransaction | packages/privy-waiver/src/arc.ts:341-361 | pins exactly on Arc Testnet and after a permitted simulation, at the pending nonce, with a fifth of gas headroom rounded down |
| QuorumService.PinnedCall | packages/privy-waiver/src/arc.ts:345-361 | what is pinned, as stored: chain 5042002, this wallet, the call's target and data, the quoted nonce, the gas, twice the quoted fee cap and the quoted tip |
| QuorumService.PinnedIsPayable | packages/privy-waiver/src/arc.ts:355-360 | a quoted tip within the quoted cap stays within the pinned one, and neither gas nor cap falls below its quote |
| QuorumService.WaiverRefusals | packages/privy-waiver/src/service.ts:467-493 | lists each of the four reasons exactly when it holds: another facility's vault, another admin, a waiver already active, cover already sufficient |
| QuorumService.QuorumAdminService.constructor | packages/privy-waiver/src/service.ts:126-134 | a service over an empty store is an initial state of the protocol |
| QuorumService.QuorumAdminService.Restarted | packages/privy-waiver/src/store.ts:127-135 | a new process over the old one's file is the protocol's crash step |
| QuorumService.QuorumAdminService.AssertNoOpenAction | packages/privy-waiver/src/service.ts:384-396 | passes if and only if every stored action is broadcast or failed, expired, rejected or dismissed at Privy; the action it names is open |
| QuorumService.QuorumAdminService.SaveProposed | packages/privy-waiver/src/service.ts:372-380 | the action is held at once and in the file exactly if the flush completes; saving it is two steps of the protocol |
| QuorumService.QuorumAdminService.Propose | packages/privy-waiver/src/service.ts:358-382 | stores the action exactly when none is open, the call pins and Privy recorded what was pinned; what is stored is the call as asked for, pinned as quoted, unsent; otherwise the store is untouched and the error is the first thing that stopped it; the call is a run of the protocol |
| QuorumService.QuorumAdminService.ProposeWaiver | packages/privy-waiver/src/service.ts:142-179 | proposes only a waiver the contract would accept: configured facility, positive duration within the cap, stated reason, no refusal, and names the first of these that fails; it stores the trimmed reason and the call to the facility's vault, pinned as quoted |
| QuorumService.QuorumAdminService.Reject | packages/privy-waiver/src/service.ts:280-283 | changes nothing but that intent at Privy, and nothing at all for an unknown action |
| QuorumService.QuorumAdminService.PendingIntent | packages/privy-waiver/src/service.ts:241-262 | succeeds exactly for a known action whose intent is pending and records what was pinned; the error is the first check that fails |
| QuorumService.QuorumAdminService.SigningPayloadFor | packages/privy-waiver/src/service.ts:241-250 | gives a text for exactly the pending actions whose request is as pinned; it says, member by member, what that intent records, for this application and now |
| QuorumService.QuorumAdminService.FindMemberKey | packages/privy-waiver/src/service.ts:263-264 | finds the approver's key if and only if it is among the intent's members |
| QuorumService.QuorumAdminService.ToDer | packages/privy-waiver/src/service.ts:268-271 | a DER signature stays as it is; a P1363 one converts exactly if it is 64 bytes, to DER that decodes to it |
| QuorumService.QuorumAdminService.Approve | packages/privy-waiver/src/service.ts:256-278 | forwards a signature if and only if the intent is pending and as pinned, the key a member, the time within 300,000 ms, and the DER form of the signature valid over a text that says so; a P1363 signature is forwarded as DER that decodes to it, a DER one as it is; every refusal is by the first check that fails |
| QuorumService.QuorumAdminService.ReadyToSend | packages/privy-waiver/src/service.ts:290-301 | the checks before a send pass exactly when the unsent action is executed at Privy and signed as pinned, and name the first that fails otherwise |
| QuorumService.QuorumAdminService.BroadcastAndConfirm | packages/privy-waiver/src/arc.ts:418-430 | hands the transaction over once, mines at most it, and ends with its receipt exactly if Arc did not refuse it and it is mined with success; the error says whether it was refused, not mined, or reverted |
| QuorumService.QuorumAdminService.RecordReceipt | packages/privy-waiver/src/service.ts:302-317 | records a successful receipt unless it is a waiver's and no facility is configured; reports success exactly when the flush completes and the waiver's event matches |
| QuorumService.QuorumAdminService.SendAndRecord | packages/privy-waiver/src/service.ts:301-317 | sends once; records exactly on a successful receipt that can be recorded |
| QuorumService.QuorumAdminService.Execute | packages/privy-waiver/src/service.ts:290-319 | returns the record once there is one; sends at most once and only when every check passes; on a success it can record, that action and no other gets the record the receipt shows, and the call succeeds exactly if the file is written and, for a waiver, the receipt holds exactly one event of the approved vault, for this facility and reason |
| QuorumService.SettlesRecording | packages/privy-waiver/src/service.ts:302-317 | that account of the record, from the functions the code computes with |
| Desk.InspectPayload | apps/dashboard/src/data/approver.ts:111-136 | passes exactly the payloads that parse, with whole numbers a double holds, and satisfy all seven checks; every check it lists is told truly |
| Desk.PassesMeans | apps/dashboard/src/data/approver.ts:119-129 | the seven checks by the names the payload has its members under |
| Desk.NumberIs | apps/dashboard/src/data/approver.ts:127-129 | a member counts as n if it is that number, a truth value of 1 or 0, or a string or array whose text `BigInt` reads as n |
| Desk.StringIs | apps/dashboard/src/data/approver.ts:120 | the texts members are compared as: arrays joined by commas, the other values as the language writes them |
| Desk.DeskReadsTheRequest | apps/dashboard/src/data/approver.ts:111-136 | the text signed for an intent passes the desk if and only if it is that proposal's intent and the recorded request makes the call shown |
| Desk.HonestPayloadPasses | apps/dashboard/src/data/approver.ts:111-136 | in every reachable state, the text the service gives out for a stored action passes every check against that action's view |
| Desk.StoredRequestShows | packages/privy-waiver/src/service.ts:417-447 | in every reachable state, what Privy recorded for a stored action makes the call its view shows |
| WaiverBroadcast.ResolveProposal | packages/cli/src/waiver.ts:146-160 | with none named, finds the one action in flight, and the branch for more than one is unreachable |
| WaiverBroadcast.OneInFlight | packages/cli/src/waiver.ts:142-160 | any two stored actions in flight are the same action |
| WaiverBroadcast.BroadcastContext.BroadcastCommand | packages/cli/src/cli.ts:892-921 | write-ahead, at every moment of its life: nothing is sent before a journal line with its hash, at most one transaction is sent, in every world inside the execution too, and the record it reports has that hash |
| WaiverBroadcast.WriteAheadPrefix | packages/cli/src/cli.ts:904-912 | and so at every kill point: whatever part of its effects the command lives for, the line precedes the send |
| WaiverBroadcast.BroadcastContext.ExecuteSigned | packages/cli/src/cli.ts:908-912 | after every effect of `execute` at most the transaction whose hash was read beforehand has been sent, and that hash is recorded |
| WaiverBroadcast.BroadcastContext.Append | packages/cli/src/journal.ts:81-89 | the line is written and logged as an effect, or neither |
| WaiverBroadcast.BroadcastContext.Conclude | packages/cli/src/cli.ts:908-921 | what execute came to is journalled under the same hash, and the command succeeds only with that line |
| WaiverBroadcast.RecordIsOfSigned | packages/cli/src/waiver.ts:162-176 | the hash of what Privy signed is the hash of any record of that action |
| SendPath.SendContext.AwaitReceipt | packages/client/src/receipts.ts:134-152 | for every clock, timeout and positive poll: at most ceil(timeout/poll)+1 lookups, no sleep past the deadline as the clock really stands, and pending only if every lookup found nothing and the timeout has passed |
| Journals.Journal.Append | packages/cli/src/journal.ts:81-89 | adds one line at the end, or none when the file cannot be written |
| SendPath.SendContext.Append | packages/cli/src/journal.ts:81-89 | the line is written and logged as an effect, or neither |
| SendPath.SendContext.Send | packages/cli/src/signer.ts:141-148 | a hash comes back only if `cast` returned one; a transaction may have been sent although it throws |
| SendPath.SendContext.Conclude | packages/cli/src/operations.ts:102-126 | the wait, then its outcome in the journal, then the verdict that outcome has |
| SendPath.SendContext.PerformSend | packages/cli/src/operations.ts:87-131 | killed anywhere, its effects in the order they happened are the beginning of one life: simulated, sent, hash journalled, waited for, outcome journalled; a value comes only from a journalled success; and a sent hash is unjournalled exactly when the signer threw after sending, or it died or the journal failed between |
| SendPath.SendContext.PerformAll | packages/cli/src/operations.ts:87-131 | over any sequence of calls, each killed anywhere: nothing is sent but right after its permitted simulation, at most one send a call, no wait before its hash is journalled, and the journal is exactly what the effects wrote |
| SendPath.Accounts | packages/cli/src/operations.ts:98-118 | how far a call gets determines what it sent and journalled, for every answer of the signer and the journal |
| SendPath.OrderlyPreceded | packages/cli/src/operations.ts:98-118 | the beginning of a life sends at most once, right after the permitted simulation, and waits only for a journalled hash |
| SendPath.CallsPreceded | packages/cli/src/operations.ts:87-131 | and lives one after another keep that order |
| FacilitySetup.StepIsFirstMissing | packages/privy-waiver/src/facility-setup.ts:74-130 | the step named is the first of the missing calls and doing it leaves exactly the others; freeze comes only with both issuers approved; a foreign admin is refused |
| FacilitySetup.Provisioning.Execute | packages/privy-waiver/src/arc.ts:418-430 | sends whether or not it was sent before; the call takes effect exactly if this send mined it with success, because Arc takes a nonce once |
| FacilitySetup.Provisioning.Drive | packages/privy-waiver/scripts/provision-facility.ts:61-86 | lands the open call unless an earlier run did, and where nothing goes wrong it finishes exactly if the call was not mined as a failure |
| FacilitySetup.Provisioning.Attempt | packages/privy-waiver/scripts/provision-facility.ts:88-103 | a run in which nothing goes wrong ends complete, in at most five drives inside the bound of six, exactly if no open call was mined as a failure; what landed is always a beginning of the missing calls |
| FacilitySetup.Attempts | packages/privy-waiver/scripts/provision-facility.ts:88-103 | over any number of interrupted runs, the calls take effect in order and none twice, and after a failed call none gets further |
| FacilitySetup.MissingOnce | packages/privy-waiver/src/facility-setup.ts:74-130 | the missing calls are distinct |
| RunPlan.PlanDecidesOnce | scenarios/run-plan.ts:30-39 | for every combination of flags, each wanted phase is sent or skipped and never both, nothing adopted is sent, and both lists follow the sequence |
| RunPlan.PlanSends | scenarios/run-plan.ts:30-39 | with everything on chain adopted, the plan sends exactly the wanted phases that come after it |
| Vaults.LapsedLeavesNoTrace | contracts/src/CovenantVault.sol:157-230 | once a waiver lapsed, a sync finds the covenant where it would have been without it, however cover and the cure period went in between |
| Vaults.WaivableExactlyWhen | contracts/src/CovenantVault.sol:157-174 | a waiver can be created exactly while none is active and cover is short, whatever covenant is stored |
| Vaults.CovenantMoves | contracts/src/CovenantVault.sol:196-230 | how an evaluation moves the covenant: not at all under an active waiver; to compliant exactly with cover; without, a breach stays, a cure whose period is over becomes one, anything else starts a cure; twice is once |
| Vaults.WaiverPermits | contracts/src/CovenantVault.sol:113-186 | draws within the balance go through while a waiver is active and not after it while cover is short; revoking it gives the covenant it interrupted |
| WaiverRun.Scenario.Attempt | scenarios/arc-waiver-run.ts:300-350 | after the preflight it has the effects of the script, transaction by transaction, on chain and vault, as far as it lives; it stops short of a draw that must go through and would not, of the draw that must be refused and would not be, and of a waiver that would be refused, and at a receipt that is not the one asserted |
| WaiverRun.Scenario.FundAndDraw | scenarios/arc-waiver-run.ts:306-315 | W-1 approves and deposits what is missing, then draws |
| WaiverRun.Scenario.Waive | scenarios/arc-waiver-run.ts:632-671 | W-4 checks readiness, adopting or not; then it adopts the waiver, or finishes the proposal that is open, or makes one; mining and recording are two effects |
| WaiverRun.DrawsAsAsserted | scenarios/arc-waiver-run.ts:306-341 | the first draw goes through exactly by cover or waiver, the second is as asserted exactly by a waiver below cover, the refused one exactly where an evaluation leaves the covenant in cure |
| WaiverRun.DepositWhenShort | scenarios/arc-waiver-run.ts:406-409 | a deposit is found missing exactly when the balance does not allow two draws, one if resumed, none if the waiver is adopted |
| WaiverRun.FreshScript | scenarios/arc-waiver-run.ts:300-350 | the whole script of a first attempt, effect by effect |
| WaiverRun.Scenario.Attempts | scenarios/arc-waiver-run.ts:300-350 | any sequence of attempts, lapses, revocations, changes of cover and balance, cure periods running out, syncs by others, closed intents and executions elsewhere |
| WaiverRun.OutsideEvents | contracts/src/CovenantVault.sol:176-186 | a revocation without a waiver changes nothing, and after one or a lapse none is active; of the events outside the run only an execution elsewhere adds to the chain, and it closes the proposal |
| WaiverRunLaws.RunIsOrderly | scenarios/arc-waiver-run.ts:300-350 | over any such sequence, each attempt adopting everything: once anything of a phase landed no later attempt sends that phase, phases are sent in order without gaps, nothing lands twice, and no second proposal is made unless Privy closed the first |
| WaiverRunLaws.NoPhaseTwice | scenarios/arc-waiver-run.ts:113-139 | if every receipt is the one asserted, no phase is sent in two attempts |
| WaiverRunEnds.CompletesExactlyWhen | scenarios/arc-waiver-run.ts:300-350 | an accepted attempt that lives to its end and that nobody disturbs leaves every wanted phase whole if and only if no earlier one left a wanted phase in part and the script can pass: no waiver wasted, one landed before has its draw behind it, cover suffices before W-1 and is short from the hedge on, the balance allows W-5, no other action is open, and the cure period outlasts W-6 |
| WaiverRunEnds.StopsExactlyWhen | scenarios/arc-waiver-run.ts:300-350 | that condition is exactly when nothing stops the script, whatever earlier attempts left in part |
| WaiverRunEnds.TooLateForTheDraw | contracts/src/CovenantVault.sol:113-133 | an attempt that ends after the waiver landed and before W-5 did is the end of the run: over any later history, with attempts accepted or not, nothing more is sent |
| WaiverRunEnds.NothingLandsWhileCovered | scenarios/arc-waiver-run.ts:632-634 | once W-2 was reached, and while cover suffices, nothing lands over any later history |
| WaiverRunEnds.SkippedForGood | scenarios/arc-waiver-run.ts:303-315 | a transaction of a phase that was adopted without it never lands |
| WaiverRunResumes.ResumableExactlyWhen | scenarios/arc-waiver-run.ts:376-469 | some choice of flags is accepted if and only if the rest is ready, no waiver is active, and the covenant is compliant with nothing open and a draw that is covered or to be funded, or in cure with the proposal open, or waived with the waiver recorded |
| WaiverRunResumes.ResumableByTheChain | scenarios/arc-waiver-run.ts:376-469 | if nobody else touches covenant or cover, this is told by the run's transactions: before the first sync nothing is open; between first sync and waiver the proposal is; from the waiver to the last sync it is recorded; never after |
| WaiverRunResumes.KilledBeforeTheRecord | scenarios/arc-waiver-run.ts:376-444 | an attempt killed after the waiver is mined and before it is recorded leaves a state no flags can resume, until the action is executed elsewhere; and nothing more is sent even then |
| WaiverRunResumes.KilledBeforeTheDraw | scenarios/arc-waiver-run.ts:327-341 | a kill between W-4 and W-5 ends the run: every phase reached is whole, after the lapse an attempt is accepted, and nothing more is sent |
| WaiverRunResumes.CoverRestoredBeforeTheRefusal | scenarios/arc-waiver-run.ts:852-868 | a kill between W-2 and W-3 and cover restored: every phase reached is whole, an attempt is accepted, and nothing lands until cover changes |
| WaiverRunResumes.AdoptingTheDepositSkipsTheDraw | scenarios/arc-waiver-run.ts:307-315 | a run killed after the deposit goes on when W-1 is adopted, and its first draw is never sent |
| Amounts.UnitsAreExact | packages/provider-adapter/src/index.ts:177-178 | the units are exactly the decimal value of the text times 10^6 |
| Amounts.SplitsExactly | packages/provider-adapter/src/index.ts:174-177 | exactly the texts of the pattern split, into exactly their parts |
| Amounts.SixDecimalAcceptsExactly | packages/provider-adapter/src/index.ts:173-183 | accepts exactly the texts of the pattern within uint128, with exactly their value |
| Amounts.DeskAcceptsExactly | apps/dashboard/src/data/format.ts:2-8 | the desk accepts exactly the texts of the pattern without a leading zero, above zero and within uint256, with exactly their value, and calls a text malformed exactly if it is not of the pattern or has a leading zero |
| Amounts.AmountTextIs | packages/client/src/amounts.ts:15-19 | an amount prints as its sign, its whole part without leading zeros, a point and six digits, which together write its units; so does the desk from zero up |
| Amounts.AmountRoundTrip | packages/client/src/amounts.ts:15-19 | parsing a printed amount gives it back for every uint128 and is refused above |
| Amounts.DeskRoundTrip | apps/dashboard/src/data/format.ts:2-20 | the desk's printer and parser are inverse on every positive uint256 |
| Amounts.ParsersAgree | apps/dashboard/src/data/format.ts:2-8 | where both parsers accept a text they agree, and each acceptance carries over except for leading zeros, zero and range |
| Amounts.PrintersAgreeExactlyWhen | apps/dashboard/src/data/format.ts:18-20 | the two printers agree if and only if the amount is not negative or is whole |
| Amounts.SignTwice | apps/dashboard/src/data/format.ts:18-20 | minus one and a half USDC shows as -1.-500000 on the desk |
| Amounts.UintExactly | packages/client/src/envelope.ts:208-214 | an unsigned field accepts a text as n if and only if it is the numeral of n and n fits |
| AmountScale.CanonicalIsFloor | packages/credentials/src/decimals.ts:78-82 | narrowing is the floor of the true value, for every source scale from 6 up |
| AmountScale.CanonicalIsMonotone | packages/credentials/src/decimals.ts:78-82 | larger amounts never narrow to smaller ones |
| AmountScale.ExactUndoesScaling | packages/credentials/src/decimals.ts:90-102 | exact narrowing gives c if and only if the amount is c scaled up, and then agrees with truncation |
| AmountScale.NeverWidens | packages/credentials/src/decimals.ts:78-102 | negative amounts and scales below 6 are refused |
| AmountScale.CanonicalScaleExactly | packages/credentials/src/decimals.ts:112-124 | an amount passes, unchanged, exactly from zero to a thousand million USDC |
| AmountScale.NativeAmountsCaught | packages/credentials/src/decimals.ts:112-124 | a native-scaled amount c * 10^12 is rejected if and only if c exceeds 1,000 units, a thousandth of a USDC |
| CoverageShortfall.RatioReached | apps/dashboard/src/data/format.ts:25 | the rounded-down ratio reaches the requirement exactly when the exact fraction does |
| CoverageShortfall.ShortfallIsLeast | apps/dashboard/src/data/reasons.ts:29 | the shortfall shown is the least cover that restores the covenant, is positive exactly below it, and never asks beyond the exposure |

## Left out

- The Solidity contracts (vault, engine, registries) and the coverage evaluation: Arc is a nonce, a set of mined transactions and receipts, and for the waiver run the vault's covenant, waiver, cure period and balance, with the evaluation of coverage as one truth value.
- Keccak-256, P-256, RLP, ABI and EIP-712 encoding: a hash is an injective constructor, verification a relation, a signed transaction its parsed fields and signer.
- Key import, PEM and base64 normalisation, `encodeURIComponent`: keys compare as normalised text, signatures are bytes, the RPC path is part of the configuration.
- Numbers that are not safe integers and `toJSON` hooks in canonical JSON: the payload carries neither.
- The enumeration order of integer-like keys: it does not show after sorting, and insertion order stands for it elsewhere.
- JSON text of the store file: the file holds the list of actions itself; the context shown beside a waiver is not part of an action.
- Lower-casing outside ASCII: the texts compared are hexadecimal.
- Clocks, I/O, Privy's REST client, RPC transport, the `cast` subprocess and keystores: parameters, or outcomes a call may have.
- Two services on one store, or a console and a command at once: the store is read once at start, and calls are serialised. Changes at Privy and Arc inside a call exist in the state machine; the class methods let Arc mine only while they wait for a receipt.
- `view` beyond the call it shows, explorer links, `list`, `get`, and formatting of durations, money and percentages: presentation.
- `simulateCall`'s decoding, `describeReceipt`, `readTransaction`: each is one of the outcomes of its step.
- Errors while a mined receipt is described: a lookup finds a receipt or none, as `receiptOrNull` makes it.
- `gitWorkingCopy`, `journalPath` and the envelope's hex, address and key checks: they would only add easy members.
- `parseDrawAmount`: a bound check over `parseSixDecimalAmount`.
- Privy's policy evaluator: its rules are not in the repository.
- FacilitySetup.Provisioning.Drive: the approvals and Privy's signing are one input of the drive; the service's own guarantees are proved in `QuorumService`.
- Desk.InspectPayload: a payload whose JSON holds a fraction, an exponent or an integer beyond 2^53 counts as unreadable, because conversion to doubles is not modelled; the `decoded` line shown beside the checks is left out.
- WaiverRun.Scenario.Attempt: the operator adopts a phase by a transaction that phase sent; a hash labelled with another phase, and a transaction still unmined when the next attempt starts, are not modelled.
- WaiverRunResumes.ResumableExactlyWhen: code, gas, roles, credentials, wallet, the operator's own balance and the other simulations are one answer, `ready`.
- WaiverRunEnds.CompletesExactlyWhen: the approvers sign, Privy and Arc answer, and the registries take the credentials the run submits; within one attempt nobody else acts and time passes only in its wait, so anything else between two of its transactions shows as a kill or as a transaction mined as a failure.
- FacilitySetup.Provisioning.Execute: the wallet is used by this store alone, and its signed call is reduced to signer and nonce.
- QuorumService.QuorumAdminService.Propose: an intent created at Privy just before a crash or before a failed match is never stored, as in the code, so the claims are about stored actions.
