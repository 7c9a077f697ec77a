# Model of the KERI engine

A Dafny model of how a key event log is verified, produced, serialized, parsed, stored, judged and
escrowed, and the theorems that hold of it. `dafny verify dfyconfig.toml` checks everything.

## What is modelled

- **Verification.** `KeyState` and its three transitions (`KeyStates`), signature thresholds with
  checked 64-bit fractions (`Thresholds`), signature and receipt counting (`Signatures`), the `Kever`
  object and its checks (`Kevers`), delegation by seals (`Delegations`). `Acceptance` says exactly which
  events are accepted and with what state; `Histories` and `Chains` give the theorems about whole logs,
  `DelegatedSystems` and `DelegatedLives` those about many logs that delegate to each other.
- **Serialization.** Bodies are JSON values with a concrete, injective rendering (`JsonValues`), of
  which the well-formed ones are those serde can read back (`WireValues`); version strings, SAIDs and
  the length and digest fixed points are in `Versions`, `Saids`, `Serders`.
- **Streams.** Counters, the recursive parser and its loops, what holds of all that parses, the composer
  and the round trip between them (`Counters`, `Parsers`, `ParserLoops`, `GroupLaws`, `Composers`).
- **Direct mode and the store.** String-keyed tables with an atomic, possibly failing `store_event`
  (`Stores`), `process_parsed` and what it accepts (`DirectMode`, `DirectAcceptance`), whole runs
  (`DirectRuns`), the tables they leave (`ProofTables`), the listing and rebuilding of logs from the
  store (`StoreRefinement`, `Rebuilding`), and agreement of two verifiers (`Agreement`).
- **The controller.** `Hab` with its key generations and resumption (`Habs`, `HabRuns`), when its calls
  succeed (`Emissions`), and the proof that a verifier fed the bytes it emits accepts every event
  (`HabEvents`, `Simulation`, `Lifetimes`) and, with receipts, ends up with its whole log (`Deliveries`).
  The registry `Habery`, its stored records and what resuming from them leads to (`HabRecords`,
  `Haberies`, `HaberyRuns`, `Interruptions`).
- **Judge and escrow.** First-seen policy and duplicity evidence (`Judges`, `JudgeRuns`), what the
  evidence proves and who is accused (`EvidenceRuns`), bounded shelves of pending events (`Escrows`,
  `EscrowRuns`).

## Conventions

- A Rust string or byte buffer is a Dafny string with one character per UTF-8 byte.
- Cryptography and the CESR code tables are a record of uninterpreted functions (`Primitives.Suite`,
  `Habs.Keyring`). The laws a theorem needs (44-character Base64 digests, qb64 text, decoding undoes
  rendering of well-formed values, derived keys sign) are named in its `requires`. `Consistency` gives
  concrete primitives that meet them all and whose digests and signatures tell messages and keys
  apart; `Instances` runs a rotated life on them, `Accusations` a judge past its cap and one that
  flags an honest key. Freedom from collisions is only ever asked of the finitely many messages at
  hand; for bodies that are not JSON it includes that their serializations differ.
- A Rust error is one of the classes of `Wrappers.Error`, without its text.
- Code that loops or changes state is a method or a class, proved against a function of its inputs or
  its old state; the theorems are about those functions. An owned `Kever` or `Hab` in a map is its
  `KeyState` or `Habitat`.
- `verify_update`, `update` and `verify_update_owned` make the same checks and differ in the error for
  an unreadable sequence number, a parameter of the function they share, and in the serialization
  the SAID is checked under: the message's own, or JSON for a body taken out of its message, as in
  direct mode. It is part of a `Kevers.Entry`.
- Salts (given, or drawn by the call), clock readings, cutoffs and the outcome of a store transaction
  are parameters. A call without a store behaves as one whose store commits.

## Promises kept on a condition

What the code, its documentation or its names promise and do not always keep, each with the input
that shows it and the exact condition.

- A weighted clause is documented as a sum of weights reaching 1, but a sum that overflows 64 bits
  fails it (`WeightedExact`), so that more signatures can do harm (`MoreSignaturesCanFail`): they do
  none iff every clause still fits (`MoreSignaturesExactly`).
- The judge is documented to keep `duplicitous` and `del` equal as sets of prefixes. They are iff at
  most 10000 prefixes are flagged (`EveryFlagHasEvidence`), and runs go past that
  (`EvidenceCanFallShort`).
- A conflicting event that passes its trial is called genuine duplicity. For a key prefix it need not
  be, since any key listed beside the first can sign another inception (`HonestKeyAccused`).
  `FlaggedExactly` says of every run who is flagged, `JudgedExactly` what is answered. An identifier
  with honest keys is flagged iff such an inception has been judged (`HonestFlaggedExactly`), so a
  self-addressing one never is (`NoFalseAccusation`).
- `Habery::resume` is documented to resume an identifier from the store. The record there is written
  at inception and never again (`RecordsAreOfBirth`), so it resumes the identifier as it was incepted:
  the one that was interrupted iff its number is still 0 and its next keys are not lost
  (`ResumedExactly`, `RotatedIsNotResumed`). One that is resumed so after interacting makes a second
  event of number 1, and judges flag it unless that is the same event (`ResumedIsJudged`). Resuming
  from state that the application saved at the time is exact at any point (`ResumeAnywhere`).
- The escrow's total cap does not bound the total (`WitnessedIsUnbounded`); it does iff no entry
  awaiting witnesses is added under a new key at the cap (`CapStep`, `CapHoldsExactly`).
- Receipts are counted once per witness, but the place of an unreadable one can decide the outcome
  (`UnreadableReceiptOrderMatters`); it does not iff `OrderFree` (`OrderIrrelevantExactly`).
- The store is meant to hold the accepted events, but committed messages of other types replace the
  body under the SAID they claim (`OtherTypesOverwrite`), and there is one for every accepted event
  (`AnyBodyCanBeReplaced`); a log is rebuilt from the store iff none of its bodies has been replaced
  so (`StoreRebuildsExactly`).
- `rotate` is documented to sign with the current signers; it signs with the pre-rotated ones, as the
  verifier demands (`RotationSimulated`), and an error on the way, a store that cannot commit for
  instance (`StoreFailureLosesNextKeys`), loses them, iff there are any to lose (`FailedRotation`).

## Model

| member | source | states |
|---|---|---|
| Thresholds.IsSatisfied | crates/affinidi-keri-core/src/threshold.rs:179-225 | the running checked fraction loop: a simple threshold is met iff 0 < count <= signatures; a weighted one as the next two rows say |
| Thresholds.WeightedExact | crates/affinidi-keri-core/src/threshold.rs:179-225 | with key positions counted along the concatenation of all clauses, a weighted threshold is met iff in each clause the exact rational sum of its weights at signed in-range positions is at least 1 and its numerator over the product of the signed denominators fits in 64 bits |
| Thresholds.EveryClauseSigned | crates/affinidi-keri-core/src/threshold.rs:190-216 | so every clause of a met threshold has a signature by one of its own keys, at a position behind all weights of the clauses before it |
| Thresholds.WeightedExactWhenSmall | crates/affinidi-keri-core/src/threshold.rs:195-218 | when each clause has (product of denominators) x (1 + sum of numerators) < 2^64 the fit condition disappears and the test is exact |
| Thresholds.SatisfiedNeedsASignature | crates/affinidi-keri-core/src/threshold.rs:179-225 | no threshold is met by an empty set of signatures |
| Thresholds.MoreSignaturesExactly | crates/affinidi-keri-core/src/threshold.rs:179-225 | the test is not monotone: signatures added to a satisfying set keep it satisfied iff the threshold is a count or every clause's checked sum over the larger set still fits in 64 bits |
| Thresholds.MoreSignaturesCanFail | crates/affinidi-keri-core/src/threshold.rs:195-212 | the input that shows it: a concrete clause that one signature meets and three do not, because the sum then overflows |
| Thresholds.WeightRoundTrip | crates/affinidi-keri-core/src/threshold.rs:39-69 | a weight's fraction text parses back to the weight |
| Thresholds.ThresholdRoundTrip | crates/affinidi-keri-core/src/threshold.rs:92-175 | every threshold that parsing can produce is read back unchanged from its JSON form |
| Thresholds.ParsedThresholdValid | crates/affinidi-keri-core/src/threshold.rs:92-150 | what parses has a positive count, or non-empty clauses of weights with positive denominators |
| Versions.VersionRoundTrip | crates/affinidi-keri-core/src/version.rs:108-176 | parsing a rendered 17-byte version string gives the version back |
| JsonValues.PrintInjective | crates/affinidi-keri-core/src/said.rs:134-146 | compact rendering of bodies is injective, so two bodies with one rendering are one body |
| Saids.Document.FillSaid | crates/affinidi-keri-core/src/said.rs:35-98 | `compute_said` in place, for any field, digest code and serialization: the body is blanked, serialized, digested and filled, a self-addressing prefix with it; an error before blanking leaves it untouched, one after it leaves the placeholders |
| Saids.Document.CheckSaid | crates/affinidi-keri-core/src/said.rs:105-131 | `verify_said`, for the same parameters, works on a copy and leaves the body alone |
| Saids.ComputedSaidVerifiesFor | crates/affinidi-keri-core/src/said.rs:35-131 | for every field, digest code and serialization, a freshly filled-in SAID is in its field and verifies, unless the field is `d` and the body named that very SAID as a foreign prefix |
| Saids.ComputedSaidVerifies | crates/affinidi-keri-core/src/said.rs:62-131 | the same for the labels, code and kind that events use |
| Saids.ExcludedPrefixNeedsCollision | crates/affinidi-keri-core/src/said.rs:62-79 | in that excluded case it verifies iff the digest takes one value on two different blanked bodies |
| Saids.BlankDetermines | crates/affinidi-keri-core/src/said.rs:71-95 | a body whose prefix is not the dummy is determined by its blanked form and its SAID |
| Serders.FixVersion | crates/affinidi-keri/src/hab.rs:68-91 | `fix_version_string` on the body in place equals the function the fixed-point theorems are about |
| Serders.NewSerder | crates/affinidi-keri-core/src/serder.rs:40-94 | the two sizing passes of `Serder::new` for every serialization kind, against the function below |
| Serders.NewIsFixedPoint | crates/affinidi-keri-core/src/serder.rs:40-94 | the declared size becomes the real size, building again changes nothing, no field but `v` is touched |
| Serders.SelfDescription | crates/affinidi-keri/src/hab.rs:247-254 | size, SAID, `Serder::new`: the event declares its own length, carries its SAID, is left alone by `Serder::new`, keeps every other field, and is cut back off any stream it starts |
| Serders.FinishedSaidVerifies | crates/affinidi-keri/src/hab.rs:247-254 | its SAID verifies, provided the draft did not already name it as a foreign prefix |
| Serders.FinishedWellFormed | crates/affinidi-keri/src/hab.rs:247-254 | sizing, SAID and self-addressing prefix keep a body among the values that the decoder is relied on for: UTF-8 texts, no repeated key, bounded depth |
| Serders.ReadBack | crates/affinidi-keri-core/src/serder.rs:103-153 | `from_raw` cuts a self-declaring body off a stream exactly, whatever follows |
| Serders.ReadWhole | crates/affinidi-keri-core/src/serder.rs:103-153 | a body without a version string in front is taken to be all of what is read, as JSON |
| Serders.VersionFound | crates/affinidi-keri-core/src/serder.rs:268-281 | the declared version is found behind the opening bytes of a body, whatever follows |
| Counters.CounterRoundTrip | crates/affinidi-keri-core/src/parser.rs:286-330 | a counter is read back from the front of any text with its code, count and size |
| ParserLoops.IndexedSigs | crates/affinidi-keri-core/src/parser.rs:515-593 | the offset loop over indexed signatures returns exactly the list and length the recursive reading gives |
| ParserLoops.Qb64Pairs | crates/affinidi-keri-core/src/parser.rs:476-512 | the same for pairs of primitives |
| ParserLoops.ReceiptCouplesOf | crates/affinidi-keri-core/src/parser.rs:596-644 | the same for receipt couples |
| ParserLoops.Group | crates/affinidi-keri-core/src/parser.rs:285-403 | one counted group, by kind, nested wrappers and transferable groups included |
| ParserLoops.Attachments | crates/affinidi-keri-core/src/parser.rs:270-407 | the attachment loop, terminating on the remaining length, consumes at most what there is |
| ParserLoops.TransGroupsOf | crates/affinidi-keri-core/src/parser.rs:409-471 | transferable groups, mutually recursive with the attachment loop |
| ParserLoops.NextMessage | crates/affinidi-keri-core/src/parser.rs:154-258 | one body and its attachments |
| ParserLoops.AllMessages | crates/affinidi-keri-core/src/parser.rs:192-230 | the message loop over a whole stream, whitespace skipped |
| Parsers.ParseAttachments | crates/affinidi-keri-core/src/parser.rs:270-407 | parsing terminates at any nesting depth and consumes no more than is available |
| Composers.ComposeSigned | crates/affinidi-keri-core/src/composer.rs:46-133 | the composing loops append the counter and then every signature, in order |
| Composers.ComposeReceipt | crates/affinidi-keri-core/src/composer.rs:79-103 | a receipt is the counter of one, the witness prefix and its signature |
| Composers.PieceRead | crates/affinidi-keri-core/src/parser.rs:232-258 | one composed message, a receipt or an event with signatures and any groups of receipt, seal-source and first-seen couples and transferable signatures, in front of any further ASCII text is received as it was sent, every byte of it consumed |
| Composers.GroupRead | crates/affinidi-keri-core/src/parser.rs:285-403 | a group of each interpreted kind, with any number of members up to the counter's, is parsed to exactly what it carries and no more of the text is consumed |
| Composers.GroupsThenUnknown | crates/affinidi-keri-core/src/parser.rs:351-402 | behind any such groups, one whose code the table does not interpret is an error in strict mode and otherwise keeps the whole rest of the message |
| Composers.StreamRoundTrip | crates/affinidi-keri-core/src/composer.rs:46-133 | for every list of such messages, with whitespace between, `parse_all` returns exactly those bodies and attachments, in both counter tables |
| Composers.CutParses | crates/affinidi-keri-core/src/parser.rs:192-230 | whatever was composed or not: a stream that is a list of messages, each consumed whole behind its whitespace, parses to those messages |
| Composers.ParsedIsCut | crates/affinidi-keri-core/src/parser.rs:192-230 | and every stream that parses is such a list: nothing but whitespace is skipped and nothing is left over |
| Composers.WrapperTransparent | crates/affinidi-keri-core/src/parser.rs:306-349 | material that parses completely contributes the same attachments when wrapped in a quadlet counter, followed by whatever the rest of the stream gives |
| Composers.WrapperOnlyWhole | crates/affinidi-keri-core/src/parser.rs:306-349 | and a wrapper is accepted only around material that parses completely |
| GroupLaws.CountedMembers | crates/affinidi-keri-core/src/parser.rs:285-403 | every other group that parses has exactly as many members as its counter says, at most 4096 of them, and no transferable signer without a signature |
| GroupLaws.StrictExactly | crates/affinidi-keri-core/src/parser.rs:154-230 | strict parsing of a stream succeeds iff lenient parsing does and leaves nothing uninterpreted in any message, and then the messages are the same |
| Composers.HeadedIsReadable | crates/affinidi-keri-core/src/serder.rs:103-153 | every self-declaring ASCII body meets what the stream theorem asks of a body |
| KeyStates.VerifyNextKeyCommitment | crates/affinidi-keri-core/src/key_state.rs:340-377 | the early-exit loop accepts iff the lists are equally long and each key digests to the committed digest at its position |
| KeyStates.ComputeBackers | crates/affinidi-keri-core/src/key_state.rs:206-215 | retain and push compute the specified list |
| KeyStates.BackerAlgebra | crates/affinidi-keri-core/src/key_state.rs:206-221 | the new backer set is (old minus removed) plus added, repeat-free if the old list was, survivors in their old order |
| KeyStates.BackersFollow | crates/affinidi-keri-core/src/key_state.rs:206-215 | and backers that are new follow the survivors, in the order in which they are added |
| KeyStates.RotateState | crates/affinidi-keri-core/src/key_state.rs:175-238 | `apply_rotation` with its loops: all checks in order and the whole resulting state |
| Signatures.VerifySigsStatic | crates/affinidi-keri-core/src/kever.rs:647-677 | the counting loop: an uncheckable in-range signature is fatal, otherwise the threshold is put to the set of distinct validly signed positions |
| Signatures.SigsExactly | crates/affinidi-keri-core/src/kever.rs:647-677 | signatures are accepted iff no in-range one is uncheckable and the set of positions with a valid signature meets the threshold, as a count or clause by clause along the flat list |
| Signatures.SignatureOrderIrrelevant | crates/affinidi-keri-core/src/kever.rs:647-677 | reordering or repeating signatures never changes the outcome |
| Signatures.AcceptedMeansSigned | crates/affinidi-keri-core/src/kever.rs:647-677 | accepted signatures contain a valid one by an in-range key |
| Signatures.VerifyWitnessReceiptsStatic | crates/affinidi-keri-core/src/kever.rs:537-578 | the receipt loop, with its skip and early-error order |
| Signatures.QuorumReached | crates/affinidi-keri-core/src/kever.rs:537-578 | acceptance means at least threshold distinct designated witnesses with a valid receipt; with readable receipts, exactly that |
| Signatures.ReceiptOrderIrrelevant | crates/affinidi-keri-core/src/kever.rs:537-578 | with readable receipts, order and repetition are irrelevant |
| Signatures.CountErrs | crates/affinidi-keri-core/src/kever.rs:551-569 | the receipt loop errs iff some unreadable receipt of a designated witness comes before any valid receipt of that witness |
| Signatures.OrderIrrelevantExactly | crates/affinidi-keri-core/src/kever.rs:537-578 | every rearrangement of the receipts has one outcome iff the threshold is 0, or no designated witness has an unreadable receipt, or one of them has an unreadable receipt and no valid one |
| Signatures.OrderFreeAgrees | crates/affinidi-keri-core/src/kever.rs:537-578 | under that condition repetition is irrelevant too: one set of receipts, one outcome |
| Signatures.OrderMatters | crates/affinidi-keri-core/src/kever.rs:537-578 | otherwise two rearrangements are constructed, of which one errs and the other does not |
| Signatures.UnreadableReceiptOrderMatters | crates/affinidi-keri-core/src/kever.rs:551-569 | the input that shows it: one pair of receipts passes in one order and errs in the other |
| Kevers.CheckedIncept | crates/affinidi-keri-core/src/kever.rs:43-96 | `Kever::new`: the checks in order, the SAID under the message's own serialization, the error of the first check that fails, the whole first state |
| Kevers.CheckedUpdate | crates/affinidi-keri-core/src/kever.rs:236-295 | the update checks in order for rotation and interaction, the SAID under the message's own serialization, and the whole next state |
| Kevers.Kever.New | crates/affinidi-keri-core/src/kever.rs:43-96 | a new verifier holds exactly the incepted state, or there is none and the error says why |
| Kevers.Kever.NewFromParts | crates/affinidi-keri-core/src/kever.rs:171-230 | the same from a body apart from its message, whose SAID is checked under JSON whatever the message was |
| Kevers.Kever.Update | crates/affinidi-keri-core/src/kever.rs:236-295 | the state advances in place exactly when every check passes, and is untouched otherwise |
| Kevers.Kever.VerifyUpdate | crates/affinidi-keri-core/src/kever.rs:303-356 | the same checks, proposing the next state without taking it |
| Kevers.Kever.VerifyUpdateOwned | crates/affinidi-keri-core/src/kever.rs:361-434 | proposes the next state from a body apart from its message, whose SAID is checked under JSON |
| Kevers.Kever.ApplyVerifiedUpdate | crates/affinidi-keri-core/src/kever.rs:486-488 | takes a proposed state and nothing else changes |
| Histories.AcceptedStarts | crates/affinidi-keri-core/src/kever.rs:113-230 | every way of accepting a first event, plain or delegated, is one start relation |
| Histories.AcceptedAdvances | crates/affinidi-keri-core/src/kever.rs:303-483 | every way of accepting a later event is one advance relation |
| Histories.StartFacts | crates/affinidi-keri-core/src/kever.rs:43-169 | what any accepted first event has established: SAID, prefix derivation, sequence number 0, signatures by its own keys |
| Histories.AdvanceFacts | crates/affinidi-keri-core/src/kever.rs:236-483 | what any accepted later event has established: link, sequence number, commitment, family, signatures by the keys it leaves in force |
| Events.ListExactly | crates/affinidi-keri-core/src/event.rs:18-60 | the key, digest, backer and trait lists are read exactly from an array of those texts and nothing else |
| Acceptance.InceptExactly | crates/affinidi-keri-core/src/kever.rs:37-104 | `Kever::new` and `new_from_parts` accept exactly the plain first events that carry their SAID, are signed to their own threshold by their own keys, are bound to their prefix and have readable fields, and the state is exactly what the fields say, next threshold and configuration included |
| Acceptance.InceptDelegatedExactly | crates/affinidi-keri-core/src/kever.rs:113-169 | the same of delegated inceptions, with the anchor |
| Acceptance.NextStateExactly | crates/affinidi-keri-core/src/kever.rs:175-383 | the three plain update paths accept exactly the rotations and interactions that extend the state, and every field of the next state is stated |
| Acceptance.UpdateDelegatedExactly | crates/affinidi-keri-core/src/kever.rs:442-483 | the same of delegated rotations, with the anchor |
| Acceptance.GapExactly | crates/affinidi-keri-core/src/kever.rs:236-300 | an event is reported out of order iff it carries its SAID and a type and its number is another than the next; the report has both numbers |
| Acceptance.StartExactly | crates/affinidi-keri-core/src/kever.rs:37-169 | a log starts with an event iff it is such a first event |
| Acceptance.AdvanceExactly | crates/affinidi-keri-core/src/kever.rs:175-483 | and goes on with an event iff it is such a later event |
| Chains.PrefixIsNotDummy | crates/affinidi-keri-core/src/kever.rs:620-644 | no accepted prefix is the '#' placeholder, nor contains a dot |
| Chains.TipDeterminesHistory | crates/affinidi-keri-core/src/key_state.rs:191-196 | two accepted logs with one last digest are the same events, whatever each is serialized as, if their SAIDs do not collide |
| Chains.PreRotation | crates/affinidi-keri-core/src/kever.rs:257-279 | at every point of every log: the sequence number counts the events, keys are the latest establishment event's, each establishment honours the previous commitment position by position and is signed by the keys it installs |
| Chains.FirstRotationIsForced | crates/affinidi-keri-core/src/key_state.rs:340-377 | the first rotations of any two accepted continuations of one log install one key list |
| Chains.BackersNeverRepeat | crates/affinidi-keri-core/src/key_state.rs:96-102 | from a repeat-free inception list every later list is repeat-free and long enough for its threshold |
| Chains.LogShape | crates/affinidi-keri-core/src/kever.rs:594-601 | every accepted log is icp(rot|ixn)* or dip(drt|ixn)* under one prefix and one delegator |
| Delegations.FromSealSourceCouple | crates/affinidi-keri-core/src/delegation.rs:49-77 | reading the low eight bytes with zero high bytes is reading the whole big-endian number, and fails exactly when it needs more than 64 bits |
| Delegations.DelegationExactly | crates/affinidi-keri-core/src/delegation.rs:114-160 | a delegation is authorised iff the delegator is named and not the delegatee, the lookup finds the claimed event, and among its anchors is a JSON seal, object or triple, with that prefix, lower-case hex number and SAID in that order of fields |
| DelegatedSystems.ReachableIsSound | crates/affinidi-keri-core/src/delegation.rs:114-160 | the invariant of many logs side by side, over every mix of accepted and refused events |
| DelegatedSystems.DelegationIsAnchored | crates/affinidi-keri-core/src/kever.rs:442-483 | every dip and drt in every reachable system is sealed, by a JSON value whose prefix, hex number and SAID fields are its own, in its one delegator's verified log, and that delegator came first |
| DelegatedSystems.NoDelegationCycle | crates/affinidi-keri-core/src/kever.rs:113-169 | the delegates-to relation is acyclic |
| DelegatedLives.AnchorGoesThrough | crates/affinidi-keri/src/hab.rs:592-659 | the interaction a `Hab` emits with the seal `{i, s, d}` of an event among its anchors is parsed and accepted into the system, which stays sound, and then every lookup over the verified logs authorises that event |
| DelegatedLives.DelegatedInceptionGoesThrough | crates/affinidi-keri-core/src/kever.rs:113-169 | so a delegated inception that passes its other checks is accepted after that interaction |
| DelegatedLives.DelegatedRotationGoesThrough | crates/affinidi-keri-core/src/kever.rs:442-483 | and so is a delegated rotation of an identifier already accepted |
| Stores.SnKeyInjective | crates/affinidi-keri-db/src/keys.rs:12-14 | different (prefix, number) pairs never share a key |
| Stores.SnKeyOrdered | crates/affinidi-keri-db/src/keys.rs:12-14 | one identifier's keys are in byte order as their numbers are |
| Stores.SplitSnKey | crates/affinidi-keri-db/src/keys.rs:36-43 | a dot-free identifier's number is read back from its key |
| Stores.OwnKeysOnly | crates/affinidi-keri-db/src/lmdb.rs:211-227 | the keys that `get_kel` attributes to a prefix are exactly that prefix's |
| Stores.LmdbStore.StoreEvent | crates/affinidi-keri-db/src/lmdb.rs:382-400 | one transaction: all four tables change, or none and an error |
| Stores.LmdbStore.StoreEventWithHab | crates/affinidi-keri-db/src/lmdb.rs:402-424 | the four tables and the hab record change together, or nothing does and the error says so |
| Stores.LmdbStore.GetKel | crates/affinidi-keri-db/src/lmdb.rs:211-227 | lists every key of the prefix once, ordered by sequence number, and nothing else |
| Stores.LmdbStore.LatestSn | crates/affinidi-keri-db/src/lmdb.rs:377-380 | the last number of that listing, if any |
| DirectMode.CollectAttachments | crates/affinidi-keri/src/direct.rs:92-124 | the accumulating loops gather controller signatures and receipts in order and notice uninterpreted groups |
| DirectMode.GatheredInOrder | crates/affinidi-keri/src/direct.rs:92-124 | what is gathered is the concatenation over the groups, however the attachments are divided |
| DirectMode.Process | crates/affinidi-keri/src/direct.rs:82-228 | an error leaves key states and store exactly as they were |
| DirectMode.DirectVerifier.AssessMessage | crates/affinidi-keri/src/direct.rs:126-186 | the decision on a message, branch by branch; `AssessExactly` says what is accepted |
| DirectMode.DirectVerifier.ProcessParsed | crates/affinidi-keri/src/direct.rs:82-228 | persist first, then take the new state: the whole new state of both, for commits and failures; `ProcessTakes` says when an event is taken |
| DirectAcceptance.AssessExactly | crates/affinidi-keri/src/direct.rs:82-186 | a message is accepted with a state iff its header reads, nothing in it is uninterpreted, its receipts meet the quorum of that state and it is a first event of an unknown prefix or extends the state held, interactions included |
| DirectAcceptance.ProcessTakes | crates/affinidi-keri/src/direct.rs:158-201 | such a message, committed, is taken: the state installed and the event stored |
| DirectAcceptance.ProcessTakesOnly | crates/affinidi-keri/src/direct.rs:82-201 | and nothing else changes a state |
| DirectRuns.LogInvariant | crates/affinidi-keri/src/direct.rs:126-201 | in every run each state held is the replay of its identifier's accepted log, every event of which had its witness quorum |
| DirectRuns.TablesInvariant | crates/affinidi-keri-db/src/lmdb.rs:382-400 | in every run the log and first-seen tables hold exactly the accepted logs |
| ProofTables.SigsStored | crates/affinidi-keri-db/src/lmdb.rs:382-400 | in every collision-free run the signature table holds, under the SAID of every accepted event, the qb64 texts of its signatures, and nothing under any other |
| ProofTables.ReceiptsStored | crates/affinidi-keri/src/direct.rs:188-202 | in every run the receipt table holds under each SAID the couples of the last committed receipt message that names it and carries any, and nothing else |
| StoreRefinement.KelListsLog | crates/affinidi-keri-db/src/lmdb.rs:211-227 | in every run `get_kel` lists numbers 0, 1, 2, ... with the SAIDs of the accepted events |
| StoreRefinement.KelEndsAtTip | crates/affinidi-keri/src/direct.rs:158-201 | the listing ends at the state's number and last digest, and is empty exactly when there is no state |
| Rebuilding.RebuildAgrees | crates/affinidi-keri-core/src/key_state.rs:83-331 | folding bodies through `from_inception` and `apply_*`, without any signature check, reaches the state the checked replay reaches |
| Rebuilding.ParsedRunsAreGenuine | crates/affinidi-keri-core/src/parser.rs:232-258 | in a run over parsed bytes every message carries exactly the body its bytes decode to |
| Rebuilding.BodiesStored | crates/affinidi-keri/src/direct.rs:158-206 | in every collision-free run over genuine messages the k-th accepted body is fetched from the store unchanged unless a message of another type claiming its SAID was committed after it, and then a body of another type is |
| Rebuilding.StoreRebuildsExactly | crates/affinidi-keri/src/direct.rs:158-206 | in every such run, listing, fetching and folding the stored bodies rebuilds exactly the in-memory state iff no accepted body of the identifier has been so overwritten |
| Rebuilding.StoreRebuildsState | crates/affinidi-keri/src/direct.rs:158-201 | so it always does in runs over key events and receipts |
| Rebuilding.OtherTypesOverwrite | crates/affinidi-keri/src/direct.rs:203-206 | when a message of another type is committed after such a run, the k-th stored body survives iff that message's SAID is not the k-th event's |
| Replacements.AnyBodyCanBeReplaced | crates/affinidi-keri/src/direct.rs:203-206 | the input that shows it, for every accepted event in every run: bytes that parse to an `exn` message claiming its SAID, after which the store has that body in place of the event's |
| Agreement.BackersStay | crates/affinidi-keri-core/src/key_state.rs:206-221 | with no backer changes in the messages, every state keeps inception's backers and threshold |
| Agreement.SameInception | crates/affinidi-keri-core/src/kever.rs:620-644 | two verifiers hold one inception event of a self-addressing identifier |
| Agreement.SameEvent | crates/affinidi-keri/src/direct.rs:158-186 | two quorums overlap in an honest witness, so the events at one sequence number are the same |
| Agreement.VerifiersAgree | crates/affinidi-keri/src/direct.rs:158-186 | one verifier's log of a self-addressing identifier is a prefix of the other's, and equally long logs mean equal states, when at most F of n static, repeat-free backers equivocate and 2 bt > n + F |
| Agreement.StoresAgree | crates/affinidi-keri-db/src/lmdb.rs:211-227 | the same of the two stores' listings |
| Judges.Judge.RecordDuplicity | crates/affinidi-keri/src/judge.rs:227-247 | always flags, keeps the evidence while both caps allow |
| Judges.Judge.VerifyForDuplicity | crates/affinidi-keri/src/judge.rs:161-218 | trial verification by type, an inception whole and under its own serialization, evidence from the stored first-seen body, no change on any error |
| Judges.Judge.ProcessParsed | crates/affinidi-keri/src/judge.rs:115-157 | receipts pass, flagged prefixes are refused, first-seen decides between accepting, repeating and challenging; the whole new state |
| Judges.Judge.Process | crates/affinidi-keri/src/judge.rs:111-157 | the same from bytes; what does not parse changes nothing |
| Judges.Judge.VerdictFor | crates/affinidi-keri/src/judge.rs:250-258 | the flag is looked at first, then the key state; the two rows below say what the answer means |
| JudgeRuns.VerdictMeaning | crates/affinidi-keri/src/judge.rs:250-258 | in every run a verdict is unseen iff no event of the prefix has been accepted, trusted iff some have and it is not flagged, and then the state held replays its log |
| JudgeRuns.VerdictsOnlyAdvance | crates/affinidi-keri/src/judge.rs:250-258 | however a run continues, duplicitous is permanent and trusted never goes back to unseen |
| JudgeRuns.JudgeIsVerifier | crates/affinidi-keri/src/judge.rs:111-157 | what a judge has verified is a direct-mode run of the inputs it passed on |
| JudgeRuns.FirstSeenForever | crates/affinidi-keri/src/judge.rs:129-157 | however a run continues, a first-seen SAID is never overwritten and a flag never lifted |
| JudgeRuns.EvidenceBooks | crates/affinidi-keri/src/judge.rs:199-247 | in every run: evidence is two different SAIDs, the first the first-seen one; one entry per prefix, each flagged; |del| = min(|duplicitous|, 10000) |
| JudgeRuns.EveryFlagHasEvidence | crates/affinidi-keri/src/judge.rs:70-75 | the documented invariant that flagged prefixes are exactly those with evidence holds iff at most 10000 are flagged; the per-prefix cap never acts |
| JudgeRuns.QuarrelsAreFlagged | crates/affinidi-keri/src/judge.rs:161-247 | any n distinct prefixes, each with an acceptable inception and another validly signed one, are a run after which exactly those n are known and flagged |
| JudgeRuns.PastTheCap | crates/affinidi-keri/src/judge.rs:227-247 | so with more than 10000 of them the run keeps exactly 10000 pieces of evidence and the invariant is broken |
| Accusations.EvidenceCanFallShort | crates/affinidi-keri/src/judge.rs:70-75 | such a family exists: a concrete run of messages, each parsed from bytes, with 10001 flagged prefixes and evidence for 10000 |
| EvidenceRuns.EvidenceStands | crates/affinidi-keri/src/judge.rs:161-247 | in every fair run each piece of evidence was found in a judged message: its first event is the accepted one at that number, signed by an accepted key, and stored as accepted iff no message of another type had replaced it by then; its other event has another SAID and is signed by an accepted key, unless it is an inception under a key prefix, signed to its own threshold by its own keys |
| EvidenceRuns.FlaggedExactly | crates/affinidi-keri/src/judge.rs:111-247 | in every run, without any assumption on who signs what, an identifier is flagged iff a message was judged after its log had reached the message's number, with another SAID than the event there, that is an inception `Kever::new` accepts or a rot, ixn or drt signed to the threshold in force by the keys in force |
| EvidenceRuns.JudgedExactly | crates/affinidi-keri/src/judge.rs:111-247 | what a judge answers and becomes, in every run: receipts and new events of identifiers not challenged before go to the verifier, anything else of a challenged one is refused, a repeated event is acknowledged, and a different one is exactly one piece of evidence and a flag, or an error and nothing |
| EvidenceRuns.HonestFlaggedExactly | crates/affinidi-keri/src/judge.rs:161-247 | so an identifier whose accepted keys sign at most one SAID per sequence number is flagged iff another inception of it that passes `Kever::new` has been judged after its log began |
| Accusations.HonestKeyAccused | crates/affinidi-keri/src/judge.rs:174-177 | the input that shows it: two parsed messages by which the judge flags a key prefix whose only key has signed one event; somebody else's key signs the second inception |
| EvidenceRuns.NoFalseAccusation | crates/affinidi-keri/src/judge.rs:161-258 | whatever anybody sends, the verdict on a self-addressing identifier whose accepted keys sign at most one SAID per sequence number is unseen while its log is empty and trusted from then on |
| JudgeRuns.FlaggedLogFrozen | crates/affinidi-keri/src/judge.rs:126-133 | however a run continues, the verified log of a flagged identifier never grows again |
| Habs.DeriveSigners | crates/affinidi-keri/src/hab.rs:198-212 | the derivation loop, path by path; which keys the paths give is in `PathInjective` and `NoKeyComesBack` |
| Habs.SignWithAll | crates/affinidi-keri/src/hab.rs:256-262 | one signature per signer, under its own index, concatenated in order |
| Habs.FinishEvent | crates/affinidi-keri/src/hab.rs:247-275 | size, SAID, signatures, counter and composed bytes |
| Habs.Hab.Incept | crates/affinidi-keri/src/hab.rs:186-340 | the new identifier with its salt, given or drawn, its event, and after one transaction the store with event and hab record; or an error and nothing |
| Habs.RecordDeterminesState | crates/affinidi-keri/src/hab.rs:279-312 | the record stored for a hab is injective: two states with one record are one state |
| Habs.Hab.Rotate | crates/affinidi-keri/src/hab.rs:364-496 | every field after success and after each failure, next signers taken out first, and the store |
| Habs.Hab.Interact | crates/affinidi-keri/src/hab.rs:592-659 | every field after success, nothing changed after failure, and the store |
| Habs.Hab.State | crates/affinidi-keri/src/hab.rs:502-518 | everything but the salt, with the counts of both signer lists in place of the keys |
| Habs.Hab.Resume | crates/affinidi-keri/src/hab.rs:529-566 | the identifier rebuilt from saved state and salt |
| Emissions.InceptionExactly | crates/affinidi-keri/src/hab.rs:186-340 | an inception succeeds iff both generations can be derived, the finished body can be signed by all its keys, fewer than 4096 of them, and the store commits |
| Emissions.RotationExactly | crates/affinidi-keri/src/hab.rs:364-496 | a rotation iff the identifier is transferable, the new next keys can be derived, the pre-rotated keys sign and the store commits |
| Emissions.InteractionExactly | crates/affinidi-keri/src/hab.rs:592-659 | an interaction iff the keys in force sign and the store commits |
| HabRuns.GenerationLaw | crates/affinidi-keri/src/hab.rs:471-481 | after r successful rotations, with interactions, failures and resumptions among them: key_gen = 2r+2, next_gen = 2r+1, signer_gen = max(0, 2r-1), both signer lists as derived there |
| HabRuns.PathInjective | crates/affinidi-keri/src/hab.rs:198-212 | different generations or indices have different derivation paths |
| HabRuns.NoKeyComesBack | crates/affinidi-keri/src/hab.rs:364-496 | over every life of a keyring that gives different keys on different paths: the keys committed to at any time were never in force up to then, and the keys in force, and those committed to, at two times with a successful rotation in between have none in common |
| HabRuns.RotationInstalls | crates/affinidi-keri/src/hab.rs:471-481 | a successful rotation puts in force exactly the keys committed to before it |
| HabRuns.ResumeAnywhere | crates/affinidi-keri/src/hab.rs:502-566 | resuming at any points changes no result of any call, hence no emitted byte |
| HabRuns.FailedRotation | crates/affinidi-keri/src/hab.rs:378-400 | a failed rotation leaves the identifier unchanged iff it is not transferable or has no next keys; otherwise they are lost, from the saved state too |
| HabRecords.RecordRoundTrip | crates/affinidi-keri/src/habery.rs:57-66 | a stored record, whatever the state, is read back as that state, each of the thirteen fields from its own |
| Haberies.Habery.Incept | crates/affinidi-keri/src/habery.rs:32-40 | a taken name is refused; otherwise the identifier is registered and stored, or an error and nothing |
| Haberies.Habery.Resume | crates/affinidi-keri/src/habery.rs:56-70 | the record is read, the keys derived, and the identifier registered unless one already is; no record, an unreadable one or a bad salt is an error |
| Haberies.Habery.Rotate | crates/affinidi-keri/src/habery.rs:85-91 | the registered identifier and the store after success and after each failure |
| Haberies.Habery.Interact | crates/affinidi-keri/src/habery.rs:96-106 | the same for interactions |
| HaberyRuns.RecordsAreOfBirth | crates/affinidi-keri/src/hab.rs:281-312 | in every run, restarts included, the record under a name is the one that its last inception wrote |
| HaberyRuns.ResumedExactly | crates/affinidi-keri/src/habery.rs:43-70 | so an identifier resumed from the store by a new registry is the one its inception made, and that is the one that was registered before iff its number is still 0 and it has as many next keys |
| Instances.RotatedIsNotResumed | crates/affinidi-keri/src/habery.rs:43-70 | the input that shows it: incept, rotate, restart and resume, and the number is 0 again |
| Interruptions.ResumedIsJudged | crates/affinidi-keri/src/judge.rs:111-258 | what that leads to: after any life of interactions that a judge has followed, the resumed identifier's next interaction, delivered, leaves it trusted iff it is the event of number 1 already made, and flagged if it is any other |
| Simulation.Arrives | crates/affinidi-keri/src/hab.rs:247-275 | the bytes of a finished event parse to its draft with `v`, `d` and a self-addressing `i` filled in, a SAID that verifies, and signatures that meet any attainable simple threshold |
| Simulation.InceptionSimulated | crates/affinidi-keri/src/hab.rs:186-340 | the emitted inception is accepted by `Kever::new` from its bytes, the states agree, and thresholds and configuration are those asked for |
| Simulation.RotationSimulated | crates/affinidi-keri/src/hab.rs:364-496 | the emitted rotation is accepted in the agreeing state and they agree again, on the thresholds it asked for |
| Simulation.InteractionSimulated | crates/affinidi-keri/src/hab.rs:592-659 | the same for interactions, whose anchors arrive as given |
| Lifetimes.OtherTypeOtherSaid | crates/affinidi-keri-core/src/said.rs:62-95 | no later event carries the inception's SAID, unless the digest collides on the two |
| Lifetimes.EverythingEmittedIsAccepted | crates/affinidi-keri/src/hab.rs:186-659 | for every run of successful calls with attainable thresholds and bodies under 2^24 bytes, the bytes parse to events that are all accepted, ending in agreement on prefix, number, last SAID, keys, next digests and backers, with the thresholds and configuration of the last establishment |
| Deliveries.LifeIsDelivered | crates/affinidi-keri/src/direct.rs:82-201 | delivery: when the events of such a life come with quorums of receipts to a direct-mode verifier in any state that does not know the identifier, the bytes parse with their receipts, its log is every emitted event in order, and the state it holds agrees with the `Hab`, thresholds and configuration included |
| Deliveries.LifeIsTrusted | crates/affinidi-keri/src/judge.rs:111-258 | and a judge that has seen nothing of the identifier passes them all on, trusts it and holds its log and state |
| Instances.RotatedLifeExists | crates/affinidi-keri/src/hab.rs:186-496 | its premises can be met: under concrete primitives that do not collide on it, a life of one inception and one rotation whose two emitted events are parsed and accepted |
| Instances.RotatedLifeIsTrusted | crates/affinidi-keri/src/judge.rs:111-258 | and those of delivery too: a new judge that is sent that life trusts it and holds its state |
| Lifetimes.UnsignedIsRefused | crates/affinidi-keri-core/src/kever.rs:647-677 | an event without signatures is never accepted, in any state |
| Lifetimes.LostKeysNeverRotate | crates/affinidi-keri/src/hab.rs:378-380 | a rotation emitted after the next keys were lost is refused by every verifier in every state |
| Escrows.CountEntries | crates/affinidi-keri-core/src/escrow.rs:237-244 | the summing loop counts every event on a shelf once |
| Escrows.UniquePrefixes | crates/affinidi-keri-core/src/escrow.rs:193-198 | the loop collects exactly the distinct receipt prefixes |
| Escrows.PruneMap | crates/affinidi-keri-core/src/escrow.rs:226-234 | each key keeps its young events in order, and keys left empty go |
| Escrows.Escrow.EscrowOutOfOrder | crates/affinidi-keri-core/src/escrow.rs:80-100 | appended last at its key, or dropped when either cap is reached |
| Escrows.Escrow.EscrowPartiallySigned | crates/affinidi-keri-core/src/escrow.rs:107-127 | the same on the other shelf |
| Escrows.Escrow.ProcessEscrow | crates/affinidi-keri-core/src/escrow.rs:133-136 | hands out the whole list of the next number, in arrival order, and removes it |
| Escrows.Escrow.EscrowPartiallyWitnessed | crates/affinidi-keri-core/src/escrow.rs:139-156 | replaces any entry at the key, without a cap |
| Escrows.Escrow.AddWitnessReceipt | crates/affinidi-keri-core/src/escrow.rs:163-180 | adds a receipt iff the entry exists and holds fewer than 4096 |
| Escrows.Escrow.CheckAndPromoteWitnessed | crates/affinidi-keri-core/src/escrow.rs:186-205 | promotes and removes exactly when the distinct receipt prefixes reach the threshold |
| Escrows.Escrow.Prune | crates/affinidi-keri-core/src/escrow.rs:216-223 | all three maps keep exactly what is no older than the cutoff |
| EscrowRuns.PruneSplits | crates/affinidi-keri-core/src/escrow.rs:226-234 | pruning removes exactly the entries older than the cutoff |
| EscrowRuns.AlwaysBounded | crates/affinidi-keri-core/src/escrow.rs:80-180 | in every run: both shelves together at most 10000, each key 1 to 16, at most 4096 receipts per entry |
| EscrowRuns.Conservation | crates/affinidi-keri-core/src/escrow.rs:80-234 | in every run and for each of the three maps, the events held plus the events handed out, promoted, pruned or replaced are exactly the events that got in, so each leaves at most once |
| EscrowRuns.PruneWitnessShelf | crates/affinidi-keri-core/src/escrow.rs:216-223 | of the entries awaiting witnesses, pruning removes exactly those older than the cutoff |
| EscrowRuns.ArrivalOrder | crates/affinidi-keri-core/src/escrow.rs:80-136 | in every run, whatever the clock does, the events at a key of a shelf, and so those handed out, are in the order of the operations that brought them, each from an operation of its own |
| EscrowRuns.KeptUntilTaken | crates/affinidi-keri-core/src/escrow.rs:80-136 | below both caps an event is kept, last at its key, and is handed out with the others when its number comes |
| EscrowRuns.ReceiptsGathered | crates/affinidi-keri-core/src/escrow.rs:139-180 | in every run an entry awaiting witnesses is the one last put at its key and holds, in order, the first 4096 receipts offered for the key since |
| EscrowRuns.PromotedExactly | crates/affinidi-keri-core/src/escrow.rs:186-205 | so it is promoted iff at least its threshold of different prefixes are among those receipts |
| EscrowRuns.CapStep | crates/affinidi-keri-core/src/escrow.rs:80-223 | from a total of at most 10000 the next total exceeds it iff the step adds an entry awaiting witnesses under a new key at exactly 10000 |
| EscrowRuns.CapHoldsExactly | crates/affinidi-keri-core/src/escrow.rs:80-223 | the total stays within the cap throughout a run iff no step of it is of that kind |
| EscrowRuns.WitnessedIsUnbounded | crates/affinidi-keri-core/src/escrow.rs:139-156 | the input that shows it: entries awaiting witnesses can reach any number, and from 10000 of them on both shelves refuse every event |

## Left out

- The algorithms behind digests, signatures, key stretching and CESR primitives: foreign code, kept as uninterpreted functions.
- The layout of CBOR and MessagePack: SAIDs, `Serder::new` and the parser take any kind through uninterpreted encoders and decoders; the fixed points and round trips that need a concrete rendering are proved for JSON, the only kind a `Hab` emits.
- serde's number grammar and rounding: a number is a lexeme that the primitives call a number, and well-formed values nest at most 127 deep.
- The letters of the counter tables beyond what the group kinds need, and the wide counter layouts of other codes.
- Error texts, accessors, `ilk.rs`, `seal.rs`, configuration builders, demos and benches: easy or finite.
- LMDB transactions, map sizes and sync flags: the store is a set of maps, each write of which happens or does not.
- `Habery::get_mut` and the calls without a store made through it: registered identifiers change by the registry's own calls only.
- The tables no modelled operation touches (timestamps, witness signatures, states, stored escrows).
- `Hab::receipt`, `receipt_message` and the two witness-receipt helpers: they compose pieces that `Composers` already covers.
- Failing reads of the store in the judge and in `get_kel`: reads always succeed here.
- Wrap-around at sequence number 2^64 - 1: runs in which a `Hab` emits are taken shorter, and a verifier's `sn + 1` is unbounded.
- `get_kel`'s scan order: the table is scanned in any order and kept sorted while scanning instead of sorted at the end.
- `kever.rs` delegated constructors and updates are modelled as functions, since they return values and change nothing.
- serde's own decoding of bodies with duplicate keys or unknown fields: a body is what the uninterpreted decoder returns.
- `DirectMode.Process` is about one message at a time; concurrent callers of one store are not modelled.
