# Verified model of the authentication provisioning validator

The service takes a JSON document with a batch of provisioning changes and the resources they relate to,
checks the changes against rules and against those resources, and answers with the mutated changes or
with a list of errors. This project models that path from the parsed JSON tree to the reply, the blocking
queue used for logging, and the log anonymiser, and proves what they keep, preserve and guarantee.

| module | models |
|---|---|
| `Numerals`, `Sqn`, `Octets` | `std::stoi`, hexadecimal streams, the 48-bit SQN = SEQ \|\| IND of section C.1.1.1 of 3GPP TS 33.102, the LDAP octet reordering |
| `Paths` | the URI patterns as predicates, the captures taken from them, path arithmetic |
| `Entities`, `Members`, `Lists`, `Wrappers` | values, JSON trees, `std::map` order, list lemmas |
| `Rules`, `Batch`, `Engine` | the rules and mutations; the batch as a fold; the class `ValidationData`, proved equal to the fold |
| `Diagnosis`, `Acceptance`, `Migration`, `Admission` | what recorded errors name; what the response holds after any batch; what a CREATE takes over from a legacy subscription; which changes are accepted, in terms of the change and the related resources |
| `Parser`, `Guarantees` | the parser class, and what an error-free document guarantees to the rules |
| `Encoder`, `RoundTrip` | the encoder, and reading back what it writes |
| `Server` | one request, one reply |
| `Answers` | the answer to a change from the text of its path, with the patterns written out |
| `Reading`, `Resources` | what a document says, member by member and by name; what the map holds under a key |
| `EndToEnd`, `Auc`, `Updates` | from the members of a legacy resource, a journal and a stored subscription in the document to what becomes of a CREATE or an UPDATE |
| `Replies` | what a reply says, by name, and which reply a request gets |
| `Deviations` | inputs at which the service does something else than its documentation or its names promise |
| `LockQueue` | the monitor as a step protocol, every interleaving |
| `Anonymiser`, `Redaction` | three rewriting passes over strings of any length; what they make of identifiers, said of the texts |

Code that changes state step by step is a class or a loop here too (`ValidationData`, `Draft`, the parser,
`ObjectValue`, `Queue`, `Stream`, the formatters, `SortLDAPoctetString`, the shift on the bit array). Each
method is proved against a specification function; the lemmas are about those functions. Where the code
reads a variant or an optional without looking (`boost::get`, `.value()`), the class methods use a
destructor, so that no such read can fail is part of what is verified.

`Answers`, `Reading`, `Resources`, `EndToEnd`, `Auc`, `Updates`, `Replies`, `Redaction` and `Diagnosis` state
their results with the texts that stand in paths, documents, replies and logs; where they name a predicate of
the model, another of them says in texts what it is.

An UPDATE that carries no data can make the code throw before there is any verdict
(`src/entities/ValidationData.cpp:671`). `Batch.NeverThrows` says of a batch that this does not happen. The
fold `Batch.Run` has a value for every batch; what is said of verdicts, error lists, replies and
completeness is stated for batches that run through, and `Admission` states it with both sides over the
inputs: the batch runs through and this happens, exactly when. Invariants of the fold are stated without that
hypothesis and are meant of a batch up to the change that throws.

## Where the code differs from what one would expect

The model follows the code in each of these cases; the named lemmas say exactly what holds.

- Order and splitting do not matter to the verdict of a reset-free batch, but they do matter to whether there
  is one: all orders, and all splits, run through alike exactly when no change lacks data
  (`Batch.OrderIsIgnoredExactly`, `Batch.SplittingIsIgnoredExactly`). `Deviations.DocumentReachesThrow` is a
  document, valid by `schema/authprovvalidator.yaml:51-71`, that throws; `Admission.RunsThroughExactly` says
  which batches do not.
- A change that matches no pattern and is a DELETE sets verdict and code to true and 200 whatever came
  before (`src/entities/ValidationData.cpp:68-72`; here: a reset). For batches without resets the verdict is
  what one expects (`Batch.VerdictIsPointwise`); in general the verdict contradicts the error list exactly
  when a reset hides a fault and nothing after it is judged (`Admission.ContradictionExactly`,
  `Server.OkWithErrors`).
- `ReleaseNotes.md:43` promises 200 for every DELETE. The code rejects a DELETE of dynamic data and one below
  authSubscription without an IMSI (`Batch.DeletionRefused`); a batch of deletions gets 200 exactly when a
  reset follows each such one (`Batch.DeletionsSucceed`).
- After an error only DELETE entries are accepted, if every change has one of the three operations
  (`Acceptance.OnlyDeletesAfterError`). The parser does not insist on an operation, and an entry with none can
  be accepted behind a reset, exactly as `Admission.OddEntryByInputs` says. The interface description requires
  the operation (`schema/authprovvalidator.yaml:55-64`), so a request that passes the schema validator cannot
  get there.
- `POS_IMSI` names the capture of the second alternative of the IMSI pattern only, so the IMSI of a path
  that ends in the identifier is empty (`Paths.GetImsiEmpty`).
- An UPDATE whose only path ends in the identifier never carries data (`Guarantees.PrivIdUpdateCarriesNoData`):
  it throws whenever its base path is a related resource and no error is known. A change object with two
  paths can carry data read under the first (`Guarantees.TwoPathsCarryData`).
- The rules check what a request gives, not what the mutation fills in afterwards: an accepted CREATE can
  be incomplete or out of range (`Deviations.IllFormedCreateAccepted`), exactly when the legacy values do
  not fit (`Migration.AcceptedCreateWithLegacy`, `Rules.FilledManagementFieldPattern`).
- AKAALGIND is read when VNUMBER is an integer; the type test names the wrong member
  (`src/ports/json/ValidatorRapidJsonParser.cpp:595-596`). It is lost exactly as `Deviations.AkaAlgIndRead`
  says, and a CREATE that contradicts it passes (`Deviations.AkaAlgIndMissed`,
  `Deviations.ContradictingCreateAccepted`).
- A blank SEQHE, whose length is a multiple of four, is kept by the parser (`Octets.BlankSorted`) and read into
  a variable that has no value (`src/entities/ValidationData.cpp:327-330`); nothing can be said of the SQN
  then. A number is read exactly when some character is not blank (`Numerals.StoredIffText`).
- A `front` caller can use up the notification meant for a `pop` caller; consumers can be stranded exactly
  when `front` is called at all (`LockQueue.StrandedExactly`).
- The quoted form of an identifier can survive the anonymiser, exactly when two quoted identifiers share a
  quote (`Anonymiser.QuotedIdentifierSurvives`); those are also the texts on which it is not idempotent
  (`Anonymiser.AnonymizeJsonIsIdempotent`).

## Model

| member | source | states |
|---|---|---|
| Engine.ValidationData.ApplyValidationRules | src/entities/ValidationData.cpp:14-76 | the loop leaves verdict, code, accepted changes and errors exactly as the fold `Batch.Run` over the batch does, from any error list, and no lookup on the way fails |
| Engine.ValidationData.ApplyToChange | src/entities/ValidationData.cpp:18-73 | the body of the loop is one step of the fold, for every change that does not throw in this state |
| Answers.BranchOfPath | src/entities/ValidationData.hpp:10-25 | for every text: which branch of the loop it falls into, by how it splits into the literal parts of the patterns |
| Answers.AnswerOnList | src/entities/ValidationData.cpp:21-24 | from every state, on the list of subscriptions: a DELETE is passed on, nothing else happens |
| Answers.AnswerOnImsiData | src/entities/ValidationData.cpp:27-43 | from every state, on a child or static data with an IMSI: what is neither CREATE nor UPDATE is passed on while the verdict is true |
| Answers.AnswerWithoutImsi | src/entities/ValidationData.cpp:44-52 | from every state, on a child or static data without an IMSI: false, at least 409, one more error about the IMSI, whatever the operation |
| Answers.AnswerOnDynamicData | src/entities/ValidationData.cpp:53-60 | from every state, on any other path that ends in the dynamic-data name: false, at least 409, one more error about it, whatever the operation |
| Answers.AnswerOnOtherPath | src/entities/ValidationData.cpp:61-72 | from every state, on a path that fits nothing: a DELETE is passed on with true and 200, anything else gets false, 422 and one more error |
| Answers.ChildWithoutImsi | src/entities/ValidationData.cpp:25-52 | for every subscriber id and every slash-free segment that is no IMSI, alone: 409, nothing accepted, the one IMSI error |
| Answers.StaticDataWithoutImsi | src/entities/ValidationData.cpp:25-52 | the same for the static data of such a segment |
| Answers.ShortIdentifierRefused | src/entities/ValidationData.cpp:25-52 | an input: a DELETE of an identifier with four digits gets 409 |
| Answers.AnswerToCreate | src/entities/ValidationData.cpp:627-640 | a CREATE on such a path with an IMSI, alone, gets 200 iff it is creatable, else 422 iff the journal it needs is unknown, else 409, and is returned mutated or not at all |
| Answers.AnswerToOrphanUpdate | src/entities/ValidationData.cpp:648-654 | an UPDATE there whose base path is no related resource gets 422 and the one error about that |
| Answers.AnswerToUpdate | src/entities/ValidationData.cpp:656-665 | any other UPDATE there with data gets 200 iff it is updatable, else 422 iff the journal it needs is unknown, else 409, and is returned unaltered or not at all |
| Batch.VerdictIsPointwise | src/entities/ValidationData.cpp:14-76 | over every reset-free batch that runs through, the verdict is the conjunction and the code the maximum of what each change gets alone, an UPDATE that would throw alone left aside, although earlier errors suppress later rules |
| Batch.VerdictIgnoresOrder | src/entities/ValidationData.cpp:18-76 | reset-free batches with the same changes, in any order and multiplicity, get the same verdict and code if both run through |
| Batch.VerdictIgnoresSplitting | src/entities/ValidationData.cpp:18-76 | when two reset-free parts run through, so does their concatenation, with the conjunction of the verdicts and the maximum of the codes |
| Batch.OrderIsIgnoredExactly | src/entities/ValidationData.cpp:642-680 | every reordering of a reset-free batch runs through with the same verdict and code iff no change of it is an UPDATE that lacks the data the update rules read |
| Batch.SplittingIsIgnoredExactly | src/entities/ValidationData.cpp:642-680 | every split of a reset-free batch runs through and recombines to the same verdict and code iff no change of it lacks data |
| Batch.StepIsPointwise | src/entities/ValidationData.cpp:621-665 | one step that is neither a reset nor throws combines the old status with the status the change gets alone, whatever errors were known before; an UPDATE that lacks data, behind an error, changes neither verdict nor code |
| Batch.StatusFollowsErrors | src/entities/ValidationData.cpp:34-67 | from every consistent state, after every reset-free run: true and 200 iff no error, 422 iff some error is unprocessable, 409 otherwise; the code never goes down |
| Batch.StatusAtEveryPrefix | src/entities/ValidationData.cpp:34-67 | the same after each change of a batch, and the code is monotone between any two of them |
| Batch.CommonStatus | src/entities/ValidationData.cpp:571-610 | the common rules record an unprocessable-entity error exactly when the AuC must be consulted and its journal is missing |
| Batch.RunSplit | src/entities/ValidationData.cpp:18-76 | judging a concatenation is judging the second part from where the first part ended |
| Batch.VerdictIsCode | src/entities/ValidationData.cpp:34-75 | resets included, the verdict is true iff the code is 200, and the code is 200, 409 or 422 |
| Batch.ErrorsIffOneRejected | src/entities/ValidationData.cpp:18-76 | resets included, a batch that runs through records errors exactly when one of its changes that can be judged alone records errors alone |
| Batch.VerdictContradictsErrors | src/entities/ValidationData.cpp:61-72 | resets included, in a batch that runs through a true verdict with recorded errors arises exactly when some reset covers up an earlier error and only unjudged changes follow |
| Batch.NeverThrowsExactly | src/entities/ValidationData.cpp:667-680 | the update rules never read absent static data iff each such UPDATE has a change before it that is rejected alone |
| Batch.SingleDelete | src/entities/ValidationData.cpp:21-72 | a DELETE alone gets 409 iff its path is dynamic data or lacks a valid IMSI below authSubscription, else 200 |
| Batch.DeletionsSucceed | src/entities/ValidationData.cpp:18-76 | a batch of deletions, resets included, gets true and 200 iff a reset follows each rejected one |
| Batch.DeletionRefused | src/entities/ValidationData.cpp:53-60 | the release note is false of a DELETE of dynamic data |
| Acceptance.AppendedWhileClean | src/entities/ValidationData.cpp:18-73 | with readable SEQHEs a step that does not throw appends at most the mutated change, and a CREATE or UPDATE only while the error list is empty before and after |
| Acceptance.StickyErrors | src/entities/ValidationData.cpp:18-73 | from any state with errors, every run, resets included, keeps the accepted entries and appends no CREATE and no UPDATE |
| Acceptance.StickyErrorsInBatch | src/entities/ValidationData.cpp:18-73 | the same from any position of any batch |
| Acceptance.AcceptedBehindReset | src/entities/ValidationData.cpp:27-43 | every entry that is neither CREATE nor UPDATE is accepted behind a rejected change and a reset |
| Acceptance.EntryWithoutOperationAfterError | src/entities/ValidationData.cpp:27-43 | a concrete batch whose response ends in an entry without operation beside recorded errors |
| Acceptance.OddEntryExactly | src/entities/ValidationData.cpp:27-43 | when the changes before it run through, change k adds an entry that is no DELETE after an error iff it has none of the three operations and an IMSI path, and a reset before it covers an error up with nothing judged in between |
| Acceptance.OnlyDeletesAfterError | src/entities/ValidationData.cpp:18-73 | from any state with errors, every run over changes with proper operations, resets included, appends only DELETE entries |
| Acceptance.AcceptedHasSource | src/entities/ValidationData.cpp:27-43 | with readable SEQHEs every accepted CREATE or UPDATE is the mutation of a change of the batch that passed all its rules |
| Acceptance.AcceptedCreateIsWellFormed | src/entities/ValidationData.cpp:362-558 | in every batch, an accepted CREATE with static data and no legacy subscription has valid method, 32-digit key, 4-digit field, numbers in range, an OPc key only off the test algorithm, all five mandatory attributes, and SQN zero |
| Acceptance.AcceptedUpdateKeepsProtected | src/entities/ValidationData.cpp:642-709 | in every batch that runs through, an accepted UPDATE carries static data that agrees as optionals with the stored data on all six protected attributes, has no dynamic data, and is a change of the request unaltered |
| Acceptance.UpdateReturnedUnchanged | src/entities/ValidationData.cpp:236-248 | the mutation of an UPDATE that passed the common rules is the identity |
| Acceptance.ImmutableMeans | src/entities/ValidationData.cpp:682-705 | the update rules record nothing iff all six protected attributes agree |
| Acceptance.AcceptedCreatePassesLegacyAgain | src/entities/ValidationData.cpp:716-804 | in every batch, each accepted CREATE passes the legacy rules again as it stands in the response |
| Acceptance.AcceptedPathsAreNotDynamic | src/entities/ValidationData.cpp:21-60 | in every batch, no accepted entry addresses dynamic data |
| Acceptance.ErrorFreeBatchIsComplete | src/entities/ValidationData.cpp:18-73 | with readable SEQHEs, a batch that runs through without errors has no change that lacks data, is accepted, and returns every change, mutated, in order, but CREATE and UPDATE on whole subscription lists |
| Admission.AdmissibleExactly | src/entities/ValidationData.cpp:18-73 | a change on which the code throws is not admissible, and any other records no error alone iff it is admissible: a condition on its path, operation and data and on the related resources, without running any rule |
| Admission.AloneExactly | src/entities/ValidationData.cpp:14-76 | for every change, resets included: alone it runs through and is accepted iff it is admissible, runs through and is rejected iff it is faulty, and throws iff it lacks data |
| Admission.AdmissibleIsAccepted | src/entities/ValidationData.cpp:27-43 | with readable SEQHEs, the rules run through on an admissible change on an IMSI path, accept it alone and return it mutated |
| Admission.ErrorsExactly | src/entities/ValidationData.cpp:18-76 | resets included, a batch runs through and records errors iff each UPDATE that lacks data has a faulty change before it and some change is faulty |
| Admission.RunsThroughExactly | src/entities/ValidationData.cpp:667-680 | a batch never reads absent data iff each UPDATE that lacks data has a faulty change before it |
| Admission.ContradictionExactly | src/entities/ValidationData.cpp:61-72 | resets included, a batch runs through with a true verdict beside errors iff each UPDATE that lacks data has a faulty change before it and a reset stands behind a faulty change and before unjudged changes only |
| Admission.OddEntryByInputs | src/entities/ValidationData.cpp:27-43 | change k is reached and adds an entry that is no DELETE after an error iff it has none of the three operations and an IMSI path, and the changes before it run through with a fault hidden by a reset |
| Admission.AcceptedExactly | src/entities/ValidationData.cpp:14-76 | a reset-free batch runs through and gets true iff every change is admissible |
| Diagnosis.CommonErrorsNameFaults | src/entities/ValidationData.cpp:362-611 | an attribute is reported by the common rules exactly when it is wrong |
| Diagnosis.JournalAskedFor | src/entities/ValidationData.cpp:578-611 | the common rules ask for the journal exactly when an algorithm indicator is given and the related resources hold no journal of the subscriber |
| Diagnosis.EveryErrorNamesAFault | src/entities/ValidationData.cpp:362-611 | the common rules record nothing but those reports and that request for the journal, all about the path of the change |
| Diagnosis.CommonErrorsInOrder | src/entities/ValidationData.cpp:362-611 | the errors of the common rules on static data are exactly one per wrong attribute, in this order, with the indicator and its journal last |
| Diagnosis.PlainTexts | src/entities/ValidationData.hpp:30-47 | keys and fields are texts over the 22 hexadecimal characters, numbers non-empty texts over the ten digits |
| Diagnosis.KeyVersions | src/entities/ValidationData.hpp:58-59 | the key-version pattern holds of exactly the numerals of 0 to 31 |
| Diagnosis.AttributeReported | src/entities/ValidationData.cpp:370-610 | the block about one attribute records an error under that attribute's name iff its value, not its text alone, is wrong |
| Diagnosis.OpcKeyReported | src/entities/ValidationData.cpp:525-558 | an OPc key is reported iff it is not hexadecimal, has no algorithm, or has the test algorithm or one out of range as a number of any length |
| Diagnosis.UpdateErrorsNameFaults | src/entities/ValidationData.cpp:682-705 | an attribute of an UPDATE is reported exactly when it is protected and differs from the stored one |
| Diagnosis.UpdateErrorsInOrder | src/entities/ValidationData.cpp:682-705 | the errors of the update rules are exactly one per changed protected attribute, in this order |
| Diagnosis.LegacyErrorsNameFaults | src/entities/ValidationData.cpp:745-800 | an attribute of a CREATE is reported exactly when both sides have it and they differ |
| Diagnosis.LegacyErrorsInOrder | src/entities/ValidationData.cpp:727-800 | the errors of the legacy rules are the AKATYPE first, then one per contradicting attribute, in this order |
| Diagnosis.ManagementFieldComparison | src/entities/ValidationData.cpp:776-786 | a four-digit management field agrees with AMFVALUE iff their values are equal, so never with a negative or wide one |
| Migration.LegacyCheckMeans | src/entities/ValidationData.cpp:716-804 | the legacy rules accept static data iff AKATYPE is 1 and filling it makes it carry every compared legacy attribute |
| Migration.FilledIsWellFormed | src/entities/ValidationData.cpp:253-310 | filling well-formed static data leaves it well formed iff every legacy integer or key that is filled in is in range |
| Migration.AcceptedCreateWithLegacy | src/entities/ValidationData.cpp:200-288 | in every batch, an accepted static-data CREATE with a legacy subscription has AKATYPE 1, carries the legacy attributes, and is well formed and complete under exactly the stated conditions on request and legacy |
| Deviations.IllFormedCreateAccepted | src/entities/ValidationData.cpp:228-229 | the condition is needed: on every static-data path with an IMSI, legacy FSETIND 99 is accepted as algorithm 99, without a permanent key |
| Migration.KeyVersionOfInt | src/entities/ValidationData.hpp:58-62 | the decimal text of a 32-bit integer matches the key-version pattern iff it is 0 to 31 and the AKA-algorithm pattern iff it is 0 to 2 |
| Rules.LookupsSucceed | src/entities/ValidationData.cpp:205-248 | in a map whose keys fit their variants every lookup of rules and mutations finds the variant it takes for granted, for every path |
| Rules.StaticErrorsMean | src/entities/ValidationData.cpp:362-611 | the common rules record nothing iff the data is well formed, complete unless a legacy subscription exists, and the AuC knows the user of an algorithm indicator |
| Rules.RangeErrorsAreMathematical | src/entities/ValidationData.cpp:441-523 | for digit strings of any length the range blocks equal the mathematical range, where `stoi` overflows too |
| Rules.OpcKeyErrorsMean | src/entities/ValidationData.cpp:525-558 | with an algorithm in range the OPc rule is silent iff the key is hexadecimal and the algorithm is present and not 1 |
| Rules.MutationClosesLegacyCheck | src/entities/ValidationData.cpp:200-288 | for every 32-bit AMFVALUE, negative ones included, the legacy rules still record nothing on the mutated change |
| Rules.FilledManagementFieldPattern | src/entities/ValidationData.cpp:269-277 | a filled-in management field has four digits iff AMFVALUE fits sixteen bits |
| Rules.MutationIsIdempotent | src/entities/ValidationData.cpp:200-288 | with readable SEQHEs, mutating twice is mutating once |
| Rules.MutationIsConservative | src/entities/ValidationData.cpp:253-310 | no given attribute, path, operation or vendor value is overwritten, and an absent attribute becomes exactly the legacy text for it if the change is a static-data CREATE with a legacy subscription, else stays absent |
| Rules.DynamicDataOfCreate | src/entities/ValidationData.cpp:203-235 | unless its SEQHE is blank, the dynamic data of a CREATE depends on the legacy subscription alone: time-based without SQN iff SEQHE is absent or all F, otherwise twelve upper-case digits |
| Engine.ValidationData.CheckForCommonAuthSubscriptionRules | src/entities/ValidationData.cpp:358-625 | appends the common errors, succeeds iff no error is known old or new, and reports 422 exactly for a missing journal |
| Engine.ValidationData.CheckAkaAlgorithmInd | src/entities/ValidationData.cpp:571-610 | the journal read and the bit test succeed on every readable map; records whether the journal is missing |
| Engine.ValidationData.CheckEncOpcKey | src/entities/ValidationData.cpp:525-558 | appends exactly the OPc key errors and changes nothing else |
| Engine.ValidationData.CheckNumber | src/entities/ValidationData.cpp:441-523 | appends exactly the range errors of one of the three number attributes |
| Engine.ValidationData.CheckEncPermanentKey | src/entities/ValidationData.cpp:390-417 | appends exactly the permanent-key errors |
| Engine.ValidationData.CheckAuthenticationManagementField | src/entities/ValidationData.cpp:419-439 | appends exactly the management-field errors |
| Engine.ValidationData.CheckAuthenticationMethod | src/entities/ValidationData.cpp:365-377 | appends an error iff the method is not an AKA method |
| Engine.ValidationData.CheckA4KeyV | src/entities/ValidationData.cpp:560-569 | appends an error iff a given key version does not match its pattern |
| Engine.ValidationData.CheckForLegacyAuthSubscriptionRules | src/entities/ValidationData.cpp:716-804 | appends the legacy errors and succeeds iff there are none, with the legacy lookup proved safe |
| Engine.ValidationData.CheckAkaType | src/entities/ValidationData.cpp:727-743 | appends one error iff AKATYPE is absent or not 1 |
| Engine.ValidationData.CheckOptionalAttributeWithLegacy | src/entities/ValidationData.cpp:806-837 | fails, with one error, iff both texts are given and differ |
| Engine.ValidationData.CheckManagementFieldWithLegacy | src/entities/ValidationData.cpp:776-786 | fails, with one error, iff the field read as a 32-bit hexadecimal number differs from AMFVALUE as unsigned |
| Engine.ValidationData.CheckForUpdateAuthSubscriptionRules | src/entities/ValidationData.cpp:667-709 | appends the update errors and succeeds iff there are none, with both `.value()` reads proved safe |
| Engine.ValidationData.OptionalAttributeHasChanged | src/entities/ValidationData.cpp:854-877 | fails, with one error, iff the two optionals differ |
| Engine.ValidationData.CheckForCreationAuthSubscription | src/entities/ValidationData.cpp:627-640 | is the judgement of a CREATE given the errors known before |
| Engine.ValidationData.CheckForUpdateAuthSubscription | src/entities/ValidationData.cpp:642-665 | is the judgement of an UPDATE given the errors known before; demands data only where the code reads it |
| Engine.ValidationData.FillOptionalAuthSubscriptionStaticAttributes | src/entities/ValidationData.cpp:253-288 | writes exactly the filled static data into the change and leaves the rest of it alone |
| Engine.ValidationData.FillOptionalAttribute | src/entities/ValidationData.cpp:290-310 | keeps a given attribute and takes the legacy one otherwise |
| Engine.ValidationData.MutateCreation | src/entities/ValidationData.cpp:202-235 | writes the dynamic data computed from the legacy SEQHE and the filled static data into the change |
| Engine.ValidationData.ComputeMutations | src/entities/ValidationData.cpp:200-251 | leaves the change as the mutation function makes it, with both lookups proved safe |
| Engine.ValidationData.AddError | src/entities/ValidationData.cpp:879-888 | appends one error and changes nothing else |
| Sqn.ComputeSqnFromSeqHe | src/entities/ValidationData.cpp:312-323 | read, shift in place and print compose to the SQN function |
| Sqn.LeftShift | src/entities/ValidationData.cpp:336-338 | in place, bit i moves to i + n, the top n bits are lost, the low n bits become 0 |
| Sqn.FromHexStringToBitset | src/entities/ValidationData.cpp:325-334 | on text that is not blank, the low 48 bits of the number read, saturated at 64 bits |
| Sqn.FromBitsetToHexString | src/entities/ValidationData.cpp:340-356 | twelve digits; the unsigned count of zeroes never underflows |
| Sqn.SqnOfSeqHe | src/entities/ValidationData.cpp:312-356 | for every non-empty hexadecimal text the SQN is 32 times its value modulo 2^48 below 2^64, and constant from there on |
| Sqn.SqnOfAnyText | src/entities/ValidationData.cpp:312-356 | for every text that is not blank: exactly twelve upper-case digits worth 32 times the number read, modulo 2^48 |
| Sqn.SameSqn | src/entities/ValidationData.cpp:312-356 | two SEQHE values give the same SQN iff they agree modulo 2^43 |
| Sqn.ValueOfShifted | src/entities/ValidationData.cpp:336-338 | the bit-level shift multiplies what is left of the value by 2^n |
| Sqn.ValueOfBitsOf | src/entities/ValidationData.cpp:331-331 | taking n bits of a number and reading them back is reduction modulo 2^n |
| Octets.SortLDAPoctetString | src/ports/json/ValidatorRapidJsonParser.cpp:651-686 | the loop over three remembered characters computes the padded text with positions 0,1 and 2,3 of every group of four exchanged |
| Octets.Involution | src/ports/json/ValidatorRapidJsonParser.cpp:651-686 | reordering twice gives back the padded text |
| Octets.CharactersKept | src/ports/json/ValidatorRapidJsonParser.cpp:651-686 | nothing but padding zeroes is added and nothing is lost |
| Octets.BlankSorted | src/ports/json/ValidatorRapidJsonParser.cpp:660-685 | the reordered text is blank iff the given one is and needs no padding |
| Octets.ExchangedValue | src/ports/json/ValidatorRapidJsonParser.cpp:635-643 | on hexadecimal text of any number of words the value is the one with the octets of each 16-bit word exchanged |
| Octets.SortedValue | src/ports/json/ValidatorRapidJsonParser.cpp:651-686 | for hexadecimal text of every length the padding keeps the value and reordering exchanges the octets of each of its words |
| Octets.SqnOfReorderedSeqHe | src/ports/json/ValidatorRapidJsonParser.cpp:575-581 | a twelve-digit SEQHE, reordered by the parser and shifted by the mutation, is 32 times the octet-exchanged value modulo 2^48 |
| EndToEnd.SeqHeToSqn | src/ports/json/ValidatorRapidJsonParser.cpp:575-581 | parser, batch and mutation together: for every list of related resources and every batch, the SQN of an accepted CREATE is 32 times the octet-exchanged value of the twelve-digit SEQHE, plain or encoded, of the first legacy resource of that IMSI, modulo 2^48, or it is time-based iff that SEQHE is all F |
| EndToEnd.NoSeqHeIsTimeBased | src/entities/ValidationData.cpp:213-221 | without a SEQHE, plain or encoded, an accepted CREATE is time-based and has no SQN |
| EndToEnd.NoLegacyStartsAtZero | src/entities/ValidationData.cpp:231-235 | without a legacy resource an accepted CREATE starts from twelve zeroes |
| EndToEnd.CreateIsMadeOfDocument | src/ports/json/ValidatorRapidJsonParser.cpp:530-601 | for every list of related resources and every batch: attribute by attribute, and by the member names in the document, an accepted CREATE is made of a change of the batch and the first legacy resource of its IMSI, which has AKATYPE 1 |
| EndToEnd.CreateAgreesWithDocument | src/entities/ValidationData.cpp:716-804 | a CREATE that the common rules have nothing against, of a subscriber with a legacy resource, is accepted iff that resource has AKATYPE 1 and contradicts none of its attributes, by member name |
| EndToEnd.LegacyRead | src/ports/json/ValidatorRapidJsonParser.cpp:530-601 | each legacy attribute is read from the member of its name, texts plain before encoded, AKAALGIND only beside an integer VNUMBER |
| Resources.FirstPlainCounts | src/ports/json/ValidatorRapidJsonParser.cpp:411-424 | the map holds the first journal or legacy resource of a name, whatever other resources surround it |
| Resources.FirstGiverCounts | src/ports/json/ValidatorRapidJsonParser.cpp:388-410 | under the key of a child the map holds the child of the first resource that gives it |
| Auc.MaskDecides | src/entities/ValidationData.cpp:116-124 | for every journal mask and every indicator 0, 1 or 2: the indicator is reported iff the fifth character of the mask from the end is no 1, the mask being that of the first journal of the subscriber in the document |
| Auc.MaskDecidesCreate | src/entities/ValidationData.cpp:583-599 | a CREATE that would be accepted without an indicator, of a subscriber without a legacy resource, is accepted with one iff that character is a 1 |
| Auc.NoJournalIsUnprocessable | src/entities/ValidationData.cpp:600-609 | without a journal of the subscriber a CREATE with an indicator gets 422 and the error about the journal |
| Auc.IndicatorReported | src/entities/ValidationData.cpp:571-599 | an indicator is reported iff it is none of three texts, or its journal is known and the user not in the AuC |
| Updates.UpdateAgreesWithDocument | src/entities/ValidationData.cpp:667-709 | an UPDATE that the common rules have nothing against is accepted, unaltered, iff its six protected attributes are the texts the document stores for that child, by member name |
| Updates.UpdateOfNobody | src/entities/ValidationData.cpp:648-654 | an UPDATE of a child that no related resource gives gets 422 |
| Reading.StaticAttributes | src/ports/json/ValidatorRapidJsonParser.cpp:81-228 | each attribute of static data is the text of the member of its name |
| Reading.VendorValues | src/ports/json/ValidatorRapidJsonParser.cpp:688-699 | the vendor-specific values are the members with the prefix, the first of a name counting |
| Reading.StaticComplaints | src/ports/json/ValidatorRapidJsonParser.cpp:88-227 | the errors of static data are exactly one for a method that is absent or no text and one per other attribute that is no text, in order |
| Reading.DynamicAttributes | src/ports/json/ValidatorRapidJsonParser.cpp:230-290 | scheme, number and indexes are read from the members of their names |
| Reading.IndexValues | src/ports/json/ValidatorRapidJsonParser.cpp:265-285 | the index of a name is the first integer under it |
| Reading.SubscriptionParts | src/ports/json/ValidatorRapidJsonParser.cpp:28-79 | a stored subscription has the static data of its object, and dynamic data only beside it |
| Reading.SubscriptionComplaints | src/ports/json/ValidatorRapidJsonParser.cpp:32-64 | the static data of a stored subscription must be an object, and then its own errors and those of the dynamic data follow |
| Reading.ReadableChange | src/ports/json/ValidatorRapidJsonParser.cpp:313-370 | a change object is taken iff every operation is one of three texts, every path a text that is not empty and every data an object, and the last operation and path count |
| Reading.ChangesOfDocument | src/ports/json/ValidatorRapidJsonParser.cpp:292-377 | a document is taken iff its changes are absent or a list of readable objects, and gives one change per element, in order |
| Reading.ErrorsOfDocument | src/ports/json/ValidatorRapidJsonParser.cpp:292-427 | the errors of a readable document are those of its changes, each by the path known when its data stands, in order, and then those of its resources and their children |
| Numerals.RangeCheckIsMathematical | src/entities/ValidationData.cpp:144-183 | `stoi` and compare equals the mathematical range for digit strings of any length |
| Numerals.ParsePrintHex | src/entities/ValidationData.cpp:185-198 | reading what was printed in any width is the identity on unsigned 32-bit values |
| Numerals.UnsignedHexString | src/entities/ValidationData.cpp:193-198 | the printed text is upper-case hexadecimal of the same value, and as long as asked iff the value fits |
| Numerals.ExtractHexOfHex | src/entities/ValidationData.cpp:185-191 | reading non-empty hexadecimal text gives its value, saturated at the width of the target |
| Numerals.StoredIffText | src/entities/ValidationData.cpp:185-191 | an extraction stores a number iff some character of the text is not blank |
| Numerals.PrefixedHex | src/entities/ValidationData.cpp:185-191 | a blank, a plus sign and 0x before hexadecimal text make no difference, and a minus sign negates modulo the width |
| Paths.AuthSubscriptionPattern | src/entities/ValidationData.hpp:10-13 | the predicate holds iff the path splits as the pattern says |
| Paths.PrivIdPattern | src/entities/ValidationData.hpp:14-17 | the predicate holds iff the path splits as the pattern says, the last part without a slash |
| Paths.StaticDataPattern | src/entities/ValidationData.hpp:18-21 | the predicate holds iff the path splits as the pattern says |
| Paths.MscIdIsShortest | src/entities/ValidationData.cpp:101-108 | the non-greedy capture is a split of the path and a prefix of the identifier of every other split |
| Paths.MscIdOfPlainPath | src/entities/ValidationData.cpp:101-108 | for slash-free identifiers the capture is the identifier |
| Paths.AlternativesExclusive | src/entities/ValidationData.hpp:22-26 | no path matches both alternatives of the IMSI pattern |
| Paths.GetImsiExact | src/entities/ValidationData.cpp:135-142 | the capture is exactly d for every 5 to 15 digits d, every subscriber id, slashes included, and every last segment |
| Paths.GetImsiEmpty | src/entities/ValidationData.cpp:135-142 | the capture is empty on every path that ends in the identifier |
| Paths.LegacyPathIsLegacy | src/entities/ValidationData.cpp:711-714 | no legacy lookup can land on a subscription or journal key |
| Paths.CapturedJournalPathIsJournal | src/entities/ValidationData.cpp:583-587 | no journal lookup can land on a flattened subscription or legacy key, because the capture is the shortest |
| Paths.ImsiBaseIsSubscription | src/entities/ValidationData.cpp:675-680 | the base path of a path with an IMSI can only hold a subscription |
| Paths.StaticDataIsSubscription | src/entities/ValidationData.cpp:240-243 | a static-data path can only hold a subscription |
| Parser.ValidatorRapidJsonParser.GetValidationData | src/ports/json/ValidatorRapidJsonParser.cpp:603-616 | fails iff the text or the changes are malformed; otherwise the data holds what the document means, errors in order |
| Parser.ValidatorRapidJsonParser.GetChangesToValidate | src/ports/json/ValidatorRapidJsonParser.cpp:292-377 | the nested loops read exactly the changes up to the first malformed one, with the errors of each |
| Parser.ValidatorRapidJsonParser.GetChange | src/ports/json/ValidatorRapidJsonParser.cpp:311-370 | the member loop is the fold over members in document order, later members overwriting earlier ones |
| Parser.ValidatorRapidJsonParser.GetMember | src/ports/json/ValidatorRapidJsonParser.cpp:321-369 | one member: operation, path, data by the path known so far, or a parse error |
| Parser.ValidatorRapidJsonParser.GetRelatedResources | src/ports/json/ValidatorRapidJsonParser.cpp:379-427 | the loop builds exactly the map and the errors that the resources mean, the first entry of a key winning |
| Parser.ValidatorRapidJsonParser.AddResource | src/ports/json/ValidatorRapidJsonParser.cpp:386-424 | one resource by its path: subscription or children, journal, legacy, or nothing |
| Parser.ValidatorRapidJsonParser.AddChildren | src/ports/json/ValidatorRapidJsonParser.cpp:398-409 | each child becomes a flattened entry |
| Parser.ValidatorRapidJsonParser.GetAuthSubscription | src/ports/json/ValidatorRapidJsonParser.cpp:28-79 | reads static and dynamic data into the given subscription, unchanged on an error |
| Parser.ValidatorRapidJsonParser.GetAuthSubscriptionStaticData | src/ports/json/ValidatorRapidJsonParser.cpp:81-228 | reads method, texts and vendor members, with one error per member of the wrong type and for a missing method |
| Parser.ValidatorRapidJsonParser.GetAuthSubscriptionDynamicData | src/ports/json/ValidatorRapidJsonParser.cpp:230-290 | reads scheme, number and indexes, with an error per entry that is no integer |
| Parser.ValidatorRapidJsonParser.GetLastIndexes | src/ports/json/ValidatorRapidJsonParser.cpp:265-287 | the loop keeps integer entries, the first of a name winning, and records one error for each other |
| Parser.ValidatorRapidJsonParser.GetAuthSubscriptionLegacy | src/ports/json/ValidatorRapidJsonParser.cpp:530-601 | reads the legacy attributes, plain before encoded, AKAALGIND only when VNUMBER is an integer |
| Parser.ValidatorRapidJsonParser.GetString | src/ports/json/ValidatorRapidJsonParser.cpp:618-649 | a string member, decoded and reordered as asked, or nothing |
| Parser.ValidatorRapidJsonParser.GetVendorSpecific | src/ports/json/ValidatorRapidJsonParser.cpp:688-699 | the loop collects the vendor members, the first of a name winning |
| Guarantees.ParsedRelatedIsReadable | src/ports/json/ValidatorRapidJsonParser.cpp:379-427 | every document that parses without errors, its journal masks empty or long enough and its SEQHEs not blank, gives a map in which every lookup of the rules succeeds |
| Guarantees.FlattenAndLookupAgree | src/ports/json/ValidatorRapidJsonParser.cpp:388-410 | for slash-free identifiers the base-path lookup of a static-data path hits iff the related resources give that subscriber that child, and the IMSI capture is exact |
| Guarantees.StaticDataNeedsPathFirst | src/ports/json/ValidatorRapidJsonParser.cpp:313-370 | a change carries static data iff some data member stands behind a resource path that accepts it |
| Guarantees.PrivIdUpdateCarriesNoData | src/ports/json/ValidatorRapidJsonParser.cpp:349-368 | an UPDATE on a path ending in the identifier lacks the data the update rules read iff its base path is a related resource and no data was read under another path; with a single path none ever is |
| Guarantees.LacksDataExactly | src/ports/json/ValidatorRapidJsonParser.cpp:313-370 | for every change object: which documents yield an UPDATE that the update rules cannot take, in terms of its members |
| Guarantees.TwoPathsCarryData | src/ports/json/ValidatorRapidJsonParser.cpp:339-368 | data read under a first, static-data path stays when a second path follows |
| Guarantees.StaticDataUpdateCarriesData | src/ports/json/ValidatorRapidJsonParser.cpp:349-368 | with the path first, an UPDATE of static data always carries it |
| Deviations.AkaAlgIndRead | src/ports/json/ValidatorRapidJsonParser.cpp:595-600 | AKAALGIND is read as the document has it iff it is no integer or VNUMBER is one |
| Deviations.AkaAlgIndMissed | src/ports/json/ValidatorRapidJsonParser.cpp:595-600 | the legacy rules differ from those on AKAALGIND as written iff VNUMBER is no integer and the indicator given contradicts AKAALGIND |
| Deviations.ContradictingCreateAccepted | src/entities/ValidationData.cpp:794-799 | an input: indicator 2 against AKAALGIND 1 with a textual VNUMBER is accepted, and would be rejected as written |
| Deviations.DocumentReachesThrow | src/entities/ValidationData.cpp:667-671 | for every subscriber and identifier, a document that parses without errors, with readable masks and SEQHEs, on which the update rules read absent data |
| Encoder.ValidatorResponseToJson | src/ports/json/ValidatorRapidJsonEncoder.cpp:102-203 | errors if there are any, else the expanded changes if there are any, else an empty object |
| Encoder.ChangesToJson | src/ports/json/ValidatorRapidJsonEncoder.cpp:131-192 | the loop emits the in-order expansion of the accepted changes |
| Encoder.ErrorsToJson | src/ports/json/ValidatorRapidJsonEncoder.cpp:108-129 | one element per error, in order, with message, path and what it is about |
| Encoder.ChangeToJson | src/ports/json/ValidatorRapidJsonEncoder.cpp:135-161 | operation, path, and data unless it is a DELETE |
| Encoder.SiblingToJson | src/ports/json/ValidatorRapidJsonEncoder.cpp:163-187 | the dynamic-data sibling of a CREATE |
| Encoder.AuthSubscriptionStaticDataToJson | src/ports/json/ValidatorRapidJsonEncoder.cpp:15-64 | appends vendor members in key order, then the nine written attributes that are not empty |
| Encoder.AuthSubscriptionDynamicDataToJson | src/ports/json/ValidatorRapidJsonEncoder.cpp:66-100 | appends scheme and number if not empty, and always the indexes |
| Encoder.VendorSpecificToJson | src/ports/json/ValidatorRapidJsonEncoder.cpp:267-274 | the walk over the map appends its members in key order |
| Encoder.StrToJson | src/ports/json/ValidatorRapidJsonEncoder.cpp:232-240 | an empty text is not written |
| RoundTrip.StaticDataRoundTrip | src/ports/json/ValidatorRapidJsonEncoder.cpp:15-64 | static data with a method and proper vendor keys is written and read back without error, up to exactly encTopcKey and present-but-empty texts |
| RoundTrip.DynamicDataRoundTrip | src/ports/json/ValidatorRapidJsonEncoder.cpp:66-100 | every dynamic data is written and read back without error, up to exactly present-but-empty texts and an absent index list, which becomes an empty one |
| RoundTrip.EmptyMethodIsRefused | src/ports/json/ValidatorRapidJsonParser.cpp:88-108 | without a method exactly one error is recorded: the condition is needed |
| RoundTrip.ChangeRoundTrip | src/ports/json/ValidatorRapidJsonEncoder.cpp:134-161 | an emitted static-data change, read as a request, is the accepted change without dynamic data and up to the same erasure |
| RoundTrip.ExpansionPositions | src/ports/json/ValidatorRapidJsonEncoder.cpp:134-188 | the list has one element per change and one more per CREATE, each change's elements adjacent and in order |
| Replies.CreateInResponse | src/ports/json/ValidatorRapidJsonEncoder.cpp:134-187 | in every response an accepted static-data CREATE stands with its attributes under their names, and right behind it, under the sibling path, its dynamic data under theirs |
| Replies.ErrorsInResponse | src/ports/json/ValidatorRapidJsonEncoder.cpp:107-129 | a response with errors lists them all, in order, with message, path and what they are about, and no changes |
| Members.OrderIsAscending | src/ports/json/ValidatorRapidJsonEncoder.cpp:87-94 | a walk over a map meets its keys in dictionary order |
| RoundTrip.EmittedChange | src/ports/json/ValidatorRapidJsonEncoder.cpp:135-187 | operation and path are kept, data is there iff it is no DELETE, and the sibling has the same base path and ends in the dynamic-data segment |
| RoundTrip.HeadsOfExpansion | src/ports/json/ValidatorRapidJsonEncoder.cpp:134-188 | deleting the dynamic-data siblings gives back operations and paths exactly |
| RoundTrip.ResponseOfErrorFreeBatch | src/ports/json/ValidatorRapidJsonEncoder.cpp:130-192 | rules and encoder together, with readable SEQHEs: the response to every batch that runs through without errors lists exactly the changes that had to be accepted |
| Server.HandleHttp2Request | src/ports/server/ValidatorHttp2AsyncServer.cpp:123-173 | every request gets exactly one reply, the one its text and the libraries' answers determine; the rules start from an empty error list |
| Server.SendResponse | src/ports/server/ValidatorHttp2AsyncServer.cpp:100-121 | ends the stream once; the mutual recursion terminates because the flag drops |
| Server.CheckInvalidResponse | src/ports/server/ValidatorHttp2AsyncServer.cpp:83-98 | answers 500 instead, once, iff the schema validator objects |
| Server.CheckInvalidRequest | src/ports/server/ValidatorHttp2AsyncServer.cpp:66-81 | answers 400, once, iff the schema validator objects |
| Server.ParsedDocumentIsTotal | src/ports/server/ValidatorHttp2AsyncServer.cpp:138-160 | with readable journal masks and SEQHEs the rules are total on a parsed document iff each UPDATE without data that would be compared comes behind a faulty change |
| Replies.ReplyToInvalid | src/ports/server/ValidatorHttp2AsyncServer.cpp:133-136 | a request the schema validator rejects gets 400 |
| Replies.ReplyToUnreadable | src/ports/server/ValidatorHttp2AsyncServer.cpp:142-150 | a request that is no JSON or has unreadable changes gets 400, or 500 if the validator objects to that |
| Replies.ReplyToFaultyData | src/ports/server/ValidatorHttp2AsyncServer.cpp:152-157 | a readable request with errors in its data gets 409 and a body that lists them all |
| Replies.ReplyOfRules | src/ports/server/ValidatorHttp2AsyncServer.cpp:159-172 | any other request on which the rules do not throw gets 200 or the code of the rules, and a body with their errors or with the expansion of what they accepted |
| Replies.RelatedOfDocument | src/ports/json/ValidatorRapidJsonParser.cpp:603-616 | the rules see the related resources of the document, whatever its changes |
| Replies.SqnInReply | src/ports/server/ValidatorHttp2AsyncServer.cpp:123-173 | from request to reply: behind an accepted CREATE of d the body of a 200 holds a sqn of twelve digits worth 32 times the octet-exchanged SEQHE of the first legacy resource of d, modulo 2^48 |
| Server.StatusOfResetFreeRequest | src/ports/server/ValidatorHttp2AsyncServer.cpp:159-172 | a reset-free request on which the rules run through, its own reply not objected to, gets 200 iff every change is admissible, and reports errors iff not |
| Server.OkWithErrors | src/ports/server/ValidatorHttp2AsyncServer.cpp:159-172 | a request on which the rules run through, its own reply not objected to, gets 200 with errors in its body iff a reset hides a fault |
| LockQueue.EveryReachableState | src/entities/lockqueue.hpp:13-36 | in every state of every interleaving, spurious wake-ups included: mutual exclusion, items pushed are items popped followed by the queue in order, and the accounting of wake-ups |
| LockQueue.NoLostWakeUpWithPopOnly | src/entities/lockqueue.hpp:21-36 | when all consumers pop, a sleeper implies no more items queued than notifications under way and woken consumers still to run |
| LockQueue.NeverStuckWithPopOnly | src/entities/lockqueue.hpp:21-36 | then from every reachable state with an item and a consumer, threads already inside can take the front item next |
| LockQueue.ItemCanAlwaysBeTaken | src/entities/lockqueue.hpp:21-36 | gives that continuation from every state that keeps the invariants |
| LockQueue.FrontAbsorbsNotification | src/entities/lockqueue.hpp:13-19 | for any three threads and any item a run with one `front` call strands a `pop` caller: an item queued, the caller asleep, nothing under way |
| LockQueue.StrandedExactly | src/entities/lockqueue.hpp:13-36 | with at least three threads and `pop` and `push` permitted, a stranded state is reachable iff `front` is permitted |
| LockQueue.TakenSoon | src/entities/lockqueue.hpp:13-36 | from any state with an item, every run, spurious wake-ups and `front` callers included, takes one within at most four steps per thread and four more per call begun |
| LockQueue.TakenBeforeRest | src/entities/lockqueue.hpp:21-36 | from every reachable state with an item and a `pop` caller, no run of `pop` and `push` calls comes to rest before an item is taken |
| LockQueue.SafeStep | src/entities/lockqueue.hpp:13-36 | every step keeps mutual exclusion and the order of items |
| LockQueue.NoLostWakeUpStep | src/entities/lockqueue.hpp:13-36 | every step keeps the accounting of wake-ups |
| LockQueue.Queue.PopTurn | src/entities/lockqueue.hpp:21-29 | under the lock: sleeps on an empty queue, else takes and returns the front item, keeping all invariants |
| LockQueue.Queue.FrontTurn | src/entities/lockqueue.hpp:13-19 | under the lock: sleeps on an empty queue, else returns the front item and keeps it |
| LockQueue.Queue.PushAndUnlock | src/entities/lockqueue.hpp:31-34 | appends its item and gives up the lock |
| LockQueue.Queue.NotifyOne | src/entities/lockqueue.hpp:35-35 | wakes one sleeper iff there is one |
| LockQueue.Queue.Lock | src/entities/lockqueue.hpp:14-14 | takes the free lock, keeping all invariants |
| LockQueue.Queue.CallPush | src/entities/lockqueue.hpp:31-36 | an uninterrupted push appends its item and leaves the lock free |
| LockQueue.Queue.CallPop | src/entities/lockqueue.hpp:21-29 | an uninterrupted pop takes and returns the front item, or sleeps on an empty queue |
| LockQueue.Queue.CallFront | src/entities/lockqueue.hpp:13-19 | an uninterrupted front returns the front item and keeps the queue, or sleeps on an empty one |
| Anonymiser.DelimitedFormatter | src/ports/logs/formatter.hpp:20-34 | the loop over the split text stars every second character of each part but the first |
| Anonymiser.JsonFormatter | src/ports/logs/formatter.hpp:43-63 | blanks and quotes are erased part by part, every second character is starred, and quotes are put back |
| Anonymiser.EraseAll | src/ports/logs/formatter.hpp:48-54 | find, erase and find again leaves the text without that character |
| Anonymiser.ReplaceEven | src/ports/logs/formatter.hpp:26-28 | stars the characters at even positions only |
| Anonymiser.PassIsExact | src/ports/logs/logwrapper.cpp:17-31 | a dash or '=' pass stars exactly the masked positions of all matches, wherever they start, and changes nothing else |
| Anonymiser.ThirdPassIsExact | src/ports/logs/logwrapper.cpp:30-31 | the third pass copies a text up to its first quoted match, writes the name, a colon, a quote, the digits with every second one starred and a quote, blanks dropped, and goes on behind it |
| Anonymiser.NothingToReplace | src/ports/logs/logwrapper.cpp:17-31 | a pass leaves a text without a match as it is |
| Anonymiser.PassRemovesMatches | src/ports/logs/logwrapper.cpp:17-31 | after a dash or '=' pass nothing in the text matches its pattern |
| Anonymiser.OnlyDigitsOfMatches | src/ports/logs/logwrapper.cpp:17-21 | what the dash pass changes is a digit of a match |
| Anonymiser.AnonymizeStringIsComplete | src/ports/logs/logwrapper.cpp:17-21 | for every text: same length, only stars put in, no dash-form identifier left, idempotent |
| Anonymiser.AnonymizeJsonIsComplete | src/ports/logs/logwrapper.cpp:23-32 | for every text no dash-form and no '='-form identifier is left after all three passes |
| Anonymiser.QuotedSurvives | src/ports/logs/logwrapper.cpp:30-31 | the third pass leaves no quoted identifier iff no two of them share a quote |
| Anonymiser.QuotedIdentifierSurvives | src/ports/logs/logwrapper.cpp:23-32 | the same of all three passes, as a condition on the original text |
| Anonymiser.AnonymizeJsonIsIdempotent | src/ports/logs/logwrapper.cpp:23-32 | anonymising twice is anonymising once iff no two quoted identifiers of the text share a quote |
| Anonymiser.QuotedIdentifierSurvivesOnce | src/ports/logs/logwrapper.cpp:23-32 | a concrete text from which a quoted identifier survives |
| Redaction.NoDashFormLeft | src/ports/logs/logwrapper.cpp:17-21 | no result of anonymizeString contains imsi or IMSI, a dash and five digits |
| Redaction.NoDashFormInJson | src/ports/logs/logwrapper.cpp:23-32 | nor does any result of anonymizeJson |
| Redaction.NoUrlFormInJson | src/ports/logs/logwrapper.cpp:23-32 | nor imsi or IMSI, blanks, an equals sign, blanks and five digits |
| Redaction.DashFormStarred | src/ports/logs/logwrapper.cpp:17-21 | wherever either name, a dash and five digits or more stand in a text, name and dash stay and of the first fifteen digits every second one is a star |
| Redaction.DashFormStarredInJson | src/ports/logs/logwrapper.cpp:23-32 | and the later passes change nothing of that |
| Redaction.UrlFormStarred | src/ports/logs/logwrapper.cpp:23-32 | wherever either name, blanks, an equals sign, blanks and five digits or more stand in a text, name, blanks and sign stay through all passes and every second character behind, up to the fifteenth digit, is a star |
| Redaction.QuotedFormStarred | src/ports/logs/logwrapper.cpp:23-32 | wherever a quoted name, a colon and five to fifteen quoted digits stand in a text, and their first quote closes no other identifier, they become the name, the colon without blanks and the digits with every second one starred |
| Redaction.NamelessIsKept | src/ports/logs/logwrapper.cpp:17-32 | a text in which neither name occurs is left as it is |

## Left out

- HTTP/2, headers, tracing context, readiness probe, signals, environment variables and overload control: plumbing around the handler.
- The OpenAPI validator: an oracle that may answer anything (`Server.World`).
- RapidJSON text parsing and printing, base64 decoding and Boost's regular-expression engine: the model starts from JSON trees, takes the decoder as a parameter and states each pattern as a predicate proved equal to its split.
- Line breaks inside paths, where Boost's ^ and $ also match inside the text; only the search in `getMscId` could tell. NUL characters likewise.
- Encoder.ErrorsToJson: writes what an error is about in place of the sentence of the code, because the texts are not modelled.
- Error descriptions: an error keeps its message kind, its path and what it is about; two texts about the same attribute are one error here. Parse-error strings and the details of the handler's own errors are not kept either.
- Fields of a journal other than `imsiMask`: no rule reads them.
- Related resources that are not objects, and AKAALGIND without VNUMBER: RapidJSON asserts on them (`Parser.Navigable` is the precondition).
- Journal masks of one to four characters: the code reads before the start of the text; `Rules.MasksReadable` is the precondition.
- Blank SEQHE texts: the code reads a variable without a value; `Rules.SeqHesReadable` is the precondition. `Rules.CreatedDynamicData` has a placeholder there; what is stated of dynamic data is stated under that precondition.
- Batches in which an UPDATE without data reaches the update rules: the code throws; `Batch.NeverThrows` is the precondition and `Batch.NeverThrowsExactly` says when it holds.
- Lifetimes of vendor-specific values, which the code stores as references into the document.
- A change and its parts are values here: the parser and the fill helper for one optional return what the code writes through a reference; the mutations write to a copy of the change as the code does, through `Engine.Draft`.
- Octets.SortLDAPoctetString: does not model overflow of the `int` loop counter, which needs a text of 2^31 characters.
- LockQueue.NeverStuckWithPopOnly: says that a continuation exists; `LockQueue.TakenSoon` and `LockQueue.TakenBeforeRest` say that every run gets there, but for calls that keep beginning. Fairness among consumers is not modelled.
- `LockQueue::empty`, which reads the queue without the lock, and the C++ memory model.
- Accessors and helpers that only pass values on (`toHttp2Headers`, `ProblemDetails`, `Context`, `validatorEnvHandler`).
