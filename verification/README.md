# Verification of the interoperability platform's read models and agreement service

A Dafny model of the parts of the platform where a wrong step stays unnoticed:

- **The token-generation read model.** The purpose, agreement, catalog and authorization
  platform-state writers each consume one topic. Together they keep `platform-states`, one row per
  client, purpose, agreement and descriptor, and `token-generation-states`, a denormalised join of
  those rows with one entry per key and purpose. The validation of a client assertion reads nothing but
  such an entry. Proved: the join is right after every run, in any interleaving, with repetition and
  crashes, under paging, and, call by call, under the races that the second reads are there for; and
  the validation decides as the event streams say it should.
- **The agreement life cycle.** Attributes, the state machine, the suspension flags, the operations of
  the service over its event store, and the read model folded from the events.
- **Three loops.** The IPA reconciliation, the ANAC batch import, the numbering of migrated events.

| file | contents |
|---|---|
| `Domain.dfy`, `Tables.dfy`, `Effects.dfy`, `Keys.dfy` | entities, the two tables, what a handler does to them whole or cut short, the key strings |
| `PurposeWriter.dfy`, `AgreementWriter.dfy`, `CatalogWriter.dfy`, `AuthorizationWriter.dfy` | what each V2 message makes a writer do |
| `Coherence.dfy`, `Gate.dfy` | the join over whole runs, the validation of an assertion |
| `WriterOutcomes.dfy`, `ClientOutcomes.dfy`, `DescriptorArchival.dfy` | what each V2 message makes of rows and entries, told from the message alone; what shuts the gate |
| `RowEffects.dfy`, `PlatformTruth.dfy` | what a plan does to one row, the rows against the event streams |
| `CrashConvergence.dfy` | attempts cut anywhere and then repeated |
| `DynamoTables.dfy` | a class with one method per table call; paged walks; the V2 handlers built from them |
| `SecondRetrieval.dfy`, `SecondRetrievalPromise.dfy`, `SecondRetrievalLimits.dfy` | joins against upstream writers, call by call; what that promises of a run; runs that show what it does not answer for |
| `SecondCatalogRead.dfy` | the agreement writer's double read against the catalog writer, call by call |
| `UpstreamV1.dfy`, `UpstreamV1Outcomes.dfy` | the V1 messages of the purpose and agreement writers, and what each makes of the tables |
| `AgreementConfluence.dfy` | the agreement row under every interleaving of streams |
| `ClientShape.dfy`, `ClientTables.dfy`, `MigrationShape.dfy` | the V1 authorization writer with crashes, and V2 after it |
| `AttributeSatisfaction.dfy`, `AgreementFsm.dfy`, `AgreementProcess.dfy` | attributes, state machine, operations |
| `AgreementDecisions.dfy` | when each operation of the service succeeds and what it stores, told from the attributes and the read model |
| `AgreementEventStore.dfy`, `AgreementLifecycle.dfy`, `AgreementOperations.dfy` | events and read model, invariants of runs, single operations and pairs |
| `IpaReconciliation.dfy`, `AnacImport.dfy`, `EventMigration.dfy` | the three loops |

How to read it. Each V2 handler is a function from rows and message to a plan of at most four writes
or propagations (`PlanOf`), and a method of `DynamoTables.Database` made of table calls and paged
loops. The method's postcondition is that the two tables change as the plan says; everything else is
proved about plans. The V1 handlers of the authorization writer are methods with a budget of writes, at
the end of which the attempt crashes.

What is assumed of the events and stated where it is used:

- a purpose keeps its consumer and e-service, a client's consumer is that of its purposes, an archived
  purpose has no active version, voucher lifespans are positive, a descriptor is published by one
  message (which may be delivered again) and changed by others (`Coherence.Admissible`);
- ids of different kinds differ and kids contain no `#`. Then key strings can be read back
  (`Keys.KeysAreReadable`), and the index attributes, which repeat parts of the key, are read off the
  key. The V1 writer finds the entries of a key by prefix; the model looks for the kid itself, which is
  the same if and only if no kid of the client extends the deleted one (`Keys.KidDeletionIsExact`);
- an agreement has one timestamp that no other agreement of its consumer and e-service has, and the
  versions of each agreement's messages do not go back (`AgreementConfluence.Known`, `InOrder`). The
  agreement with the greatest timestamp is asked to have been activated or upgraded
  (`AgreementConfluence.Raised`) where its row is claimed; not every agreement is, see below.

What the code does where its documentation or its evident intent says otherwise:

- the agreement and purpose writers compare audiences by reference, so the descriptor columns are
  rewritten whenever a catalog row exists;
- a put leaves out attributes with a falsy value, among them a voucher lifespan of 0
  (`AuthorizationWriter.Stored`);
- a crash between the two halves of a quotas update is never repaired; the exact condition under which
  that is harmless is `CrashConvergence.QuotasConvergence`;
- a crash within a V1 activation of a purpose without row is not repaired either, since the retry takes
  the branch for an existing row; the exact condition is `UpstreamV1.PurposeV1Convergence`;
- an upgrade to a descriptor that has no catalog row leaves the gate as it was
  (`Gate.UpgradeWithoutCatalogRow`);
- an agreement can become live without a message that activates or upgrades it: the draft of a
  suspended agreement, activated while the other party's suspension stands, becomes suspended and is
  announced as unsuspended, and never gets an activation stamp
  (`AgreementOperations.FirstActivationIsAnnounced`). The read model then keeps the row of the earlier
  agreement, with its id and descriptor, under states that depend on the interleaving of the streams
  (`AgreementConfluence.UnraisedDefeatsConfluence`);
- the second retrieval is defeated by two writes of one row
  (`SecondRetrievalLimits.TwoWritesDefeatTheCheck`), and by one write of each of two rows when the entry
  gets an index key only from the final update (`LateKeyDefeatsTheCheck`,
  `LateDescriptorDefeatsTheCheck`);
- a propagation may write what was outdated between the read of its page and the update
  (`SecondRetrievalLimits.StalePageDefeatsTheWalk`, `OldPageDefeatsTheUpgrade`);
- the join walk of a purpose decides whether to write the agreement columns of an entry by what its page
  showed; if a join has put the entry again since, the walk leaves older columns alone and writes the
  descriptor state over them, and the gate may stay open on an inactive descriptor although every read
  of the join was in time (`SecondRetrievalLimits.SkippedColumnsDefeatTheCheck`);
- the ANAC import compares every record with tenants that were read before the batch, so an
  organisation listed twice ends differently, or makes the import fail, depending on the batch size
  (`AnacImport.BatchSizeMatters`); the exact condition is `AnacImport.FileIsExact`;
- a draft made of a suspended agreement keeps the suspension flags and its submission ignores them,
  as a comment in the service says; the exact condition is in `AgreementLifecycle.SubmissionKeepsFlags`
  and `UpgradeKeepsFlags`.

## Model

| member | source | states |
|---|---|---|
| `Coherence.ViewCoherence` | packages/authorization-platformstate-writer/src/utils.ts:894-954 | after every run of V2 messages of the four topics, in any interleaving, order and repetition, each consumer entry agrees with every row its own keys name: purpose state and version, agreement id, state and descriptor key, descriptor state, audience and lifespan; partial entries carry nothing |
| `Coherence.PurposeMessageKeepsCoherence` | packages/purpose-platformstate-writer/src/consumerServiceV2.ts:34-162 | each purpose message keeps the whole table coherent: its propagation reaches exactly the entries that its row write made wrong |
| `Coherence.AgreementMessageKeepsCoherence` | packages/agreement-platformstate-writer/src/consumerServiceV2.ts:32-270 | the same for agreement messages, including an upsert that takes over the row of another agreement |
| `Coherence.CatalogMessageKeepsCoherence` | packages/catalog-platformstate-writer/src/consumerServiceV2.ts:36-267 | the same for catalog messages, including the clean-up of the previous descriptor and the update of lifespans alone |
| `Coherence.ClientMessageKeepsCoherence` | packages/authorization-platformstate-writer/src/consumerServiceV2.ts:50-411 | the same for client messages: entries are built from the rows and rechecked, no row other than the client's is touched |
| `Coherence.JoinedEntryCoherent` | packages/authorization-platformstate-writer/src/utils.ts:1185-1246 | an entry built from a first retrieval and then rechecked shows the three rows, although the put loses falsy attributes and the recheck leaves the agreement id and included audiences alone |
| `WriterOutcomes.PurposeMessageIgnored` | packages/purpose-platformstate-writer/src/utils.ts:573-589 | a purpose message fails if and only if it is an activation without active or suspended version; one older than the row, or a change of a purpose without row, does nothing |
| `WriterOutcomes.PurposeActivated` | packages/purpose-platformstate-writer/src/consumerServiceV2.ts:34-90 | an activation gives row and entries the id of the first active or suspended version, ACTIVE if and only if some version is active, and the entries their agreement key |
| `WriterOutcomes.PurposeVersionChanged` | packages/purpose-platformstate-writer/src/consumerServiceV2.ts:91-143 | a change of version gives row and entries of the purpose the state and the version of the message, and touches nothing else |
| `WriterOutcomes.PurposeArchived` | packages/purpose-platformstate-writer/src/consumerServiceV2.ts:144-162 | the archival takes the row and gives the entries the state and version |
| `WriterOutcomes.AgreementRaised` | packages/agreement-platformstate-writer/src/consumerServiceV2.ts:32-91 | an activation or upgrade fails if and only if its stamp is missing; unless message or agreement is older than what the row shows, it replaces the row and moves every entry of the agreement key to the agreement and its descriptor, with that descriptor's row if there is one |
| `WriterOutcomes.AgreementRestated` | packages/agreement-platformstate-writer/src/consumerServiceV2.ts:92-161 | a suspension or its end changes the state of row and entries if and only if the agreement, dated by its upgrade, else its activation, else its creation, is not older than the row |
| `WriterOutcomes.AgreementArchived` | packages/agreement-platformstate-writer/src/consumerServiceV2.ts:228-270 | an archival does so if and only if the row is the agreement's own and not newer |
| `WriterOutcomes.SuspensionShutsTheGate` | packages/agreement-platformstate-writer/src/utils.ts:739-742 | after the suspension or archival of the agreement in the row, dated and numbered no earlier, row and entries are INACTIVE and no entry of it is accepted |
| `WriterOutcomes.SuspensionFollowsRaise` | packages/agreement-platformstate-writer/src/consumerServiceV2.ts:92-161 | so it is when an activation or upgrade has just put the agreement in the row and it is then suspended or archived with the stamps it had |
| `WriterOutcomes.DescriptorStateChanged` | packages/catalog-platformstate-writer/src/consumerServiceV2.ts:142-189 | a change of state gives row and entries of the descriptor ACTIVE if and only if it is published or deprecated, unless the message is older than the row or there is none |
| `WriterOutcomes.DescriptorArchived` | packages/catalog-platformstate-writer/src/consumerServiceV2.ts:190-215 | the archival takes the row and gives its entries the state INACTIVE |
| `WriterOutcomes.QuotasUpdated` | packages/catalog-platformstate-writer/src/consumerServiceV2.ts:216-267 | a quotas update changes the lifespan of row and entries, if it differs from that of the row |
| `WriterOutcomes.DescriptorPublished` | packages/catalog-platformstate-writer/src/consumerServiceV2.ts:36-141 | a publication writes the row and gives the entries of the descriptor its state, audience and lifespan, unless it is older than the row |
| `WriterOutcomes.PredecessorRow` | packages/catalog-platformstate-writer/src/consumerServiceV2.ts:101-139 | and takes the row of the descriptor with the version before if that one is archived, and no other row |
| `WriterOutcomes.PredecessorEntry` | packages/catalog-platformstate-writer/src/consumerServiceV2.ts:101-139 | whose entries become INACTIVE, while those of other descriptors stay as they are |
| `ClientOutcomes.ClientMessageIgnored` | packages/authorization-platformstate-writer/src/consumerServiceV2.ts:50-70 | a client message fails if and only if it adds a key that the client lacks or that has no material; one older than the client's row does nothing but delete |
| `ClientOutcomes.RecheckShows` | packages/authorization-platformstate-writer/src/utils.ts:1030-1183 | an entry put from one retrieval and rechecked with any other shows the rows of the second wherever that found them, column by column; but for the agreement id, an audience that lost nothing, and a lifespan of zero |
| `ClientOutcomes.ConsumerKeyAdded` | packages/authorization-platformstate-writer/src/consumerServiceV2.ts:91-196 | an added key of a consumer client gets one entry for each purpose with the client's consumer and the material of the first key with that kid; no other entry changes |
| `ClientOutcomes.ApiKeyAdded` | packages/authorization-platformstate-writer/src/consumerServiceV2.ts:197-219 | one of an API client gets one entry with that material |
| `ClientOutcomes.KeyEntriesRemoved` | packages/authorization-platformstate-writer/src/consumerServiceV2.ts:221-254 | a deleted key loses one entry per purpose, or its partial one if the client has no purpose, and no other entry goes |
| `ClientOutcomes.PurposeEntriesAdded` | packages/authorization-platformstate-writer/src/consumerServiceV2.ts:255-365 | an added purpose gives every key of the client an entry with the material of that key and takes its partial one |
| `ClientOutcomes.PurposeEntriesRemoved` | packages/authorization-platformstate-writer/src/consumerServiceV2.ts:366-400 | a removed purpose takes the entries of the client's keys for it |
| `ClientOutcomes.ClientDeletedWhole` | packages/authorization-platformstate-writer/src/consumerServiceV2.ts:401-411 | a deleted client loses its row and the entries of its keys, by purpose or partial |
| `Tables.PatchIdempotent` | packages/purpose-platformstate-writer/src/utils.ts:234-435 | applying a propagation to an entry twice is applying it once, although it may rewrite columns that indexes select on |
| `Gate.ValidationIsExact` | packages/client-assertion-validation/src/validation.ts:245-265 | an API entry is accepted whatever the assertion says; a consumer entry if and only if its three states are ACTIVE and a purpose id is given; otherwise each failing check is reported once, in order, and nothing else |
| `Gate.FlattenedPair` | packages/client-assertion-validation/src/utils.ts:217-232 | flattening the nested, partly undefined error lists keeps every error and the order |
| `Gate.GateSoundness` | packages/client-assertion-validation/src/utils.ts:186-208 | in every reachable state an accepted consumer entry has an ACTIVE purpose row and an ACTIVE agreement row, and an ACTIVE descriptor row whenever there is a descriptor row |
| `Gate.GateExactness` | packages/client-assertion-validation/src/validation.ts:245-265 | where the three rows exist, the decision on the entry is the decision that the rows would give, both ways |
| `Gate.UpgradeWithoutCatalogRow` | packages/agreement-platformstate-writer/src/utils.ts:517-585 | an upgrade to a descriptor without catalog row leaves an accepted entry accepted, its descriptor key naming no row: why soundness cannot say more |
| `PlatformTruth.PurposeRowShowsLast` | packages/purpose-platformstate-writer/src/consumerServiceV2.ts:34-162 | for an in-order stream of purpose messages the row is gone if and only if the last is the archival, and else shows the last message's version number, is ACTIVE if and only if that message has an active version, and after an activation names the first version that is active or suspended |
| `PlatformTruth.RunOfPurposeStream` | packages/purpose-platformstate-writer/src/utils.ts:185-232 | over whole platform runs the purpose row is what the purpose's own stream makes of it, whatever else is delivered in between |
| `PlatformTruth.CatalogRowShowsLast` | packages/catalog-platformstate-writer/src/consumerServiceV2.ts:36-267 | for an in-order stream the catalog row is gone if and only if the descriptor was archived or retired by its successor, and else is ACTIVE if and only if it was last seen published or deprecated, with the last lifespan |
| `PlatformTruth.RunOfCatalogStream` | packages/catalog-platformstate-writer/src/utils.ts:121-196 | over whole platform runs the catalog row is what the messages concerning the descriptor make of it |
| `PlatformTruth.GateFollowsEvents` | packages/client-assertion-validation/src/validation.ts:245-265 | end to end: the entry of a purpose is accepted if and only if the last purpose message has an active version, the agreement with the greatest timestamp, which was activated or upgraded, is active at its last message, and its descriptor was last seen published or deprecated |
| `PlatformTruth.GateShutsAfterArchival` | packages/purpose-platformstate-writer/src/consumerServiceV2.ts:144-162 | after a purpose is archived no entry of it is accepted |
| `DescriptorArchival.ArchivalIsEffective` | packages/catalog-platformstate-writer/src/consumerServiceV2.ts:190-215 | after a message that archives a descriptor, or a publication that retires its archived predecessor, its row is gone and every entry whose key named it is INACTIVE |
| `DescriptorArchival.ArchivalShutsTheGate` | packages/catalog-platformstate-writer/src/consumerServiceV2.ts:101-139 | and the validation accepts no such entry |
| `DescriptorArchival.GateShutsAfterDescriptorArchival` | packages/catalog-platformstate-writer/src/consumerServiceV2.ts:36-267 | nor does it after any further messages, as long as the entry keeps that descriptor key and no message concerns the descriptor but further archivals |
| `AgreementConfluence.HandlerWritesNextRow` | packages/agreement-platformstate-writer/src/consumerServiceV2.ts:32-270 | an agreement message changes the row of its consumer and e-service only, as the timestamp and version guards say, and no other row |
| `AgreementConfluence.RunOfStream` | packages/agreement-platformstate-writer/src/utils.ts:45-79 | over whole platform runs the agreement row is what the messages of its key make of it |
| `AgreementConfluence.GreatestTimestampWins` | packages/agreement-platformstate-writer/src/utils.ts:503-515 | the row left by in-order streams in any interleaving is that of the last message of the agreement with the greatest timestamp if and only if that agreement was ever activated or upgraded |
| `AgreementConfluence.Confluence` | packages/agreement-platformstate-writer/src/consumerServiceV2.ts:32-270 | two runs of the platform that deliver the same agreement streams, each in order, leave the same row, whatever the interleaving, if the agreement with the greatest timestamp was activated or upgraded; the others' streams may begin as they like |
| `AgreementConfluence.UnraisedDefeatsConfluence` | packages/agreement-platformstate-writer/src/consumerServiceV2.ts:92-158 | and why that is asked: for every agreement that is first heard of as unsuspended, two interleavings with the activation of an earlier one leave different rows, and a third message makes the earlier one's row ACTIVE with its id and descriptor |
| `CrashConvergence.CrashConvergence` | packages/kafka-iam-auth/src/index.ts:364-379 | for every V2 message but the quotas update, any number of attempts cut after any part of their writes followed by one full attempt gives the state of a single full attempt |
| `CrashConvergence.PurposeRetry` | packages/purpose-platformstate-writer/src/consumerServiceV2.ts:34-162 | one crashed attempt at a purpose message leaves no trace after the retry, which plans from the rows that the crash left |
| `CrashConvergence.AgreementRetry` | packages/agreement-platformstate-writer/src/consumerServiceV2.ts:32-270 | the same for agreement messages, the archival, which propagates before it writes, included |
| `CrashConvergence.CatalogRetry` | packages/catalog-platformstate-writer/src/consumerServiceV2.ts:36-215 | the same for catalog messages with two rows and two propagations |
| `CrashConvergence.ClientRetry` | packages/authorization-platformstate-writer/src/consumerServiceV2.ts:50-411 | the same for client messages, where puts, deletes and rechecks may each have been done in part |
| `CrashConvergence.QuotasConvergence` | packages/catalog-platformstate-writer/src/consumerServiceV2.ts:216-267 | crashes of a quotas update converge if and only if no entry of the descriptor waits for the new lifespan |
| `CrashConvergence.LifespanIsLost` | packages/catalog-platformstate-writer/src/consumerServiceV2.ts:239-265 | and otherwise the attempt that stops after its row write is one that the retry does not repair |
| `CrashConvergence.CrashesLeaveNoTrace` | packages/kafka-iam-auth/src/index.ts:364-379 | a whole run with crashed attempts before each message ends where the run without them ends |
| `CrashConvergence.CoherenceDespiteCrashes` | packages/kafka-iam-auth/src/index.ts:364-379 | so view coherence holds after every run with crashes |
| `DynamoTables.Database.QueryPage` | packages/purpose-platformstate-writer/src/utils.ts:137-183 | one page of an index query: the selected entries between two cursors, page boundaries being up to the service, empty pages and a last key with nothing behind it included |
| `DynamoTables.Database.Propagate` | packages/agreement-platformstate-writer/src/utils.ts:287-372 | a paged propagation ends, updates every entry that the index selects exactly once and no other, although its updates change what the index selects |
| `DynamoTables.Database.PropagateJoin` | packages/purpose-platformstate-writer/src/utils.ts:234-435 | the walk that reads agreement and catalog row for every page changes the table as if it had read them once |
| `DynamoTables.Database.UpdateLatestAgreement` | packages/agreement-platformstate-writer/src/utils.ts:517-585 | the walk, the second catalog read and the conditional second walk together equal one propagation when nobody else writes |
| `DynamoTables.Database.DeleteTokens` | packages/authorization-platformstate-writer/src/utils.ts:145-177 | deletes by key: exactly the named entries go |
| `DynamoTables.Database.RecheckEntries` | packages/authorization-platformstate-writer/src/utils.ts:1030-1120 | the second retrieval of every entry just put repairs exactly those entries |
| `DynamoTables.Database.HandlePurpose` | packages/purpose-platformstate-writer/src/consumerServiceV2.ts:28-177 | the handler built from table calls changes the tables as the plan of its message, and fails exactly when that is an error |
| `DynamoTables.Database.HandleAgreement` | packages/agreement-platformstate-writer/src/consumerServiceV2.ts:26-285 | the same; its conditional updates never fail when messages are handled one at a time |
| `DynamoTables.Database.HandleCatalog` | packages/catalog-platformstate-writer/src/consumerServiceV2.ts:30-293 | the same, with the current and the previous descriptor of a publication |
| `DynamoTables.Database.HandleKeyAdded` | packages/authorization-platformstate-writer/src/consumerServiceV2.ts:50-220 | the same: client row, puts for every purpose, second retrieval |
| `DynamoTables.Database.HandleKeyDeleted` | packages/authorization-platformstate-writer/src/consumerServiceV2.ts:221-254 | the same: client row, then the entries of the key with every purpose, or its partial entry |
| `DynamoTables.Database.HandlePurposeAdded` | packages/authorization-platformstate-writer/src/consumerServiceV2.ts:255-365 | the same: a put for every key in the client's order, each followed by the removal of the partial entry, then the second retrieval |
| `DynamoTables.Database.HandlePurposeRemoved` | packages/authorization-platformstate-writer/src/consumerServiceV2.ts:366-400 | the same: the row's purposes, then the entries of the purpose with every key |
| `DynamoTables.Database.HandleClient` | packages/authorization-platformstate-writer/src/consumerServiceV2.ts:43-429 | the same for every client message, deletion included |
| `DynamoTables.Database.HandleMessage` | packages/kafka-iam-auth/src/index.ts:364-379 | one message of any topic, handled to its end, is one step of a run |
| `SecondRetrieval.RaceClosure` | packages/authorization-platformstate-writer/src/utils.ts:1030-1120 | any number of joins (three reads, put, three reads, conditional update; begun anew after a crash) interleaved call by call with upstream handlers and any page boundaries. Once all are done, an entry has its agreement key if its purpose has a row; and its purpose columns, agreement columns and descriptor state each agree with their row unless last written by a final update out of time, or by a propagation that carried an outdated row or left outdated columns alone. In time means: the purpose row not deleted and written at most once since the first read; the same for the agreement row, or not written since the second read if the purpose row was only found then; the same for the catalog row while the agreement stays on its descriptor, and otherwise the first descriptor's row not written since the first read and the second's not since the second. The windows are those of the entry's own join; what was written before does not matter |
| `SecondRetrieval.InTimeRunsAreRight` | packages/authorization-platformstate-writer/src/utils.ts:894-954 | the same for a whole run: if every write of the entry is in time, the entry of a purpose that has a row ends with the states of its three rows and with the keys that lead to them |
| `SecondRetrievalPromise.OneWriteIsRepaired` | packages/authorization-platformstate-writer/src/utils.ts:1030-1183 | the promise of the second retrieval, from the run alone: if each join of an entry sees at most one write, and no deletion, of the rows of its purpose, agreement and e-service, whichever row and at whatever call, and propagations update it with rows and entry as just read, then it ends showing its three rows, with keys that lead to them |
| `SecondRetrievalPromise.OneWriteIsInTime` | packages/authorization-platformstate-writer/src/utils.ts:1030-1183 | one write at most puts the final update of a join in time for all three rows |
| `SecondRetrievalPromise.MarksAreCleared` | packages/authorization-platformstate-writer/src/utils.ts:612-730 | what an entry was last written with out of time does not stay: the next put, and the next propagation of a row to the entry as read, are answered for again |
| `SecondRetrieval.StepKeepsRaces` | packages/authorization-platformstate-writer/src/consumerServiceV2.ts:99-195 | every single call, by whichever handler and whatever was created, deleted, activated or upgraded, keeps the race invariants of the key, the purpose, agreement and descriptor columns of every entry |
| `SecondRetrieval.StepKeepsSane` | packages/purpose-platformstate-writer/src/utils.ts:437-500 | every single call keeps what does not depend on the races: propagations under way carry their row as it stands, entries and rows name the purpose's own consumer and e-service |
| `SecondRetrieval.UninterruptedJoin` | packages/authorization-platformstate-writer/src/utils.ts:894-954 | eight calls of a join with nothing in between give the entry of the one-step join that the V2 handlers are proved with |
| `SecondRetrieval.UpdateOfUnchanged` | packages/purpose-platformstate-writer/src/utils.ts:298-420 | an entry that stayed as its page showed it gets from every walk the update that the whole handlers are proved with |
| `SecondRetrievalLimits.TwoWritesDefeatTheCheck` | packages/authorization-platformstate-writer/src/utils.ts:1030-1120 | a run that shows the limit: two writes of the purpose row within the window leave a stale entry |
| `SecondRetrievalLimits.LateKeyDefeatsTheCheck` | packages/authorization-platformstate-writer/src/utils.ts:1030-1120 | one write of the purpose row and one of the agreement row do too, when the entry's agreement key comes with the final update |
| `SecondRetrievalLimits.LateDescriptorDefeatsTheCheck` | packages/authorization-platformstate-writer/src/utils.ts:1030-1120 | one write of the agreement row and one of the new descriptor's row do too, when the new descriptor key comes with the final update, although the first descriptor's row was never written |
| `SecondRetrievalLimits.StalePageDefeatsTheWalk` | packages/purpose-platformstate-writer/src/utils.ts:234-435 | without any join: an agreement written between the read of a page of the purpose's join walk and the page's updates is lost on an entry that had no agreement key |
| `SecondRetrievalLimits.OldPageDefeatsTheUpgrade` | packages/catalog-platformstate-writer/src/utils.ts:198-270 | without any join: the walk of a descriptor updates an entry that an upgrade moved to another descriptor since the page was read, and leaves the old one's state there |
| `SecondRetrievalLimits.SkippedColumnsDefeatTheCheck` | packages/purpose-platformstate-writer/src/utils.ts:298-326 | a run with a join in time in all its windows: the update of a purpose's join walk skips agreement columns that its page had shown right, on an entry put since, and the entry ends ACTIVE throughout on a descriptor whose row is INACTIVE |
| `SecondCatalogRead.DoubleReadClosure` | packages/agreement-platformstate-writer/src/utils.ts:517-585 | the agreement writer's read, walk, second read and second walk against a catalog writer, call by call: all entries end on the new agreement and descriptor, and show the descriptor row's state if it was written at most once, and not deleted, meanwhile |
| `SecondCatalogRead.HandlerCanEnd` | packages/agreement-platformstate-writer/src/utils.ts:517-585 | from wherever it stands the handler can come to its end, whatever the catalog writer did before |
| `SecondCatalogRead.WriterCanWrite` | packages/catalog-platformstate-writer/src/utils.ts:121-196 | and the catalog writer to its next write of the row, whatever that is |
| `SecondCatalogRead.MoveKeepsEntryRace` | packages/agreement-platformstate-writer/src/utils.ts:199-285 | every single call of either writer keeps the invariant of each entry |
| `ClientTables.ClientDatabase.DropWhere` | packages/authorization-platformstate-writer/src/utils.ts:61-120 | a paged delete that may crash: it deletes a subset of the selected entries and nothing else, all of them if it completes |
| `ClientTables.ClientDatabase.ReadClient` | packages/authorization-platformstate-writer/src/utils.ts:778-838 | a paged read returns every key of the client once |
| `ClientTables.ClientDatabase.Convert` | packages/authorization-platformstate-writer/src/utils.ts:415-478 | the conversion walk, which inserts an entry for each that it deletes, ends, by matching keys ahead and then keys ahead, and converts every matching entry once; a crash leaves at most one converted by half |
| `ClientTables.ClientDatabase.HandleClientAdded` | packages/authorization-platformstate-writer/src/consumerServiceV1.ts:56-84 | the client's row, with the purposes of the message: an attempt keeps between the client before and after; a complete one reaches the client after |
| `ClientTables.ClientDatabase.AddPartialKey` | packages/authorization-platformstate-writer/src/consumerServiceV1.ts:124-244 | a key of a purposeless client gets its one partial entry |
| `ClientTables.ClientDatabase.AddCompleteKey` | packages/authorization-platformstate-writer/src/consumerServiceV1.ts:124-244 | a key of a client with purposes gets one entry per purpose, rechecked |
| `ClientTables.ClientDatabase.DeleteKey` | packages/authorization-platformstate-writer/src/consumerServiceV1.ts:268-306 | the entries of a key go, in both forms, and no other |
| `ClientTables.ClientDatabase.AddPurpose` | packages/authorization-platformstate-writer/src/consumerServiceV1.ts:307-457 | the first purpose makes every partial entry complete, a further one adds an entry per kid |
| `ClientTables.ClientDatabase.RemovePurpose` | packages/authorization-platformstate-writer/src/consumerServiceV1.ts:458-511 | a purpose's entries go; with the last purpose they become partial, and no key is ever without an entry |
| `ClientTables.ClientDatabase.HandleClientDeleted` | packages/authorization-platformstate-writer/src/consumerServiceV1.ts:512-522 | row and entries of the client go, other clients keep theirs |
| `ClientTables.ClientDatabase.Attempt` | packages/authorization-platformstate-writer/src/consumerServiceV1.ts:50-533 | one attempt at any V1 message, cut after any number of writes: row and entries stay between those before and after, other clients are untouched, completion means row and entries are exactly those after, and only running out of writes keeps an attempt from completing |
| `ClientTables.ClientDatabase.Deliver` | packages/kafka-iam-auth/src/index.ts:364-379 | a message attempted until it completes reaches the client after, wherever the earlier attempts stopped |
| `ClientTables.ClientDatabase.Consume` | packages/authorization-platformstate-writer/src/consumerServiceV1.ts:85-522 | crash-proof shape: after every V1 run, with crashes anywhere, the entries of each consumer client are exactly keys times purposes, or one partial entry per key if it has none |
| `ClientTables.AddingKeepsBetween` | packages/authorization-platformstate-writer/src/consumerServiceV1.ts:368-456 | wherever the puts and deletes for a new purpose stop, every key keeps an entry and all are old or new ones |
| `ClientTables.ConvertingKeepsBetween` | packages/authorization-platformstate-writer/src/utils.ts:415-478 | the same wherever the conversion stops |
| `MigrationShape.MigrationKeepsShape` | packages/authorization-platformstate-writer/src/consumerServiceV2.ts:50-411 | a V1 run followed by any V2 run keeps the shape: complete entries exactly keys times purposes, partial ones only for current keys of a purposeless client, none after the deletion |
| `MigrationShape.MigrationKeepsMaterial` | packages/authorization-platformstate-writer/src/consumerServiceV2.ts:53-58 | and in such a run every complete entry of the client carries the client's consumer and the material of the key with its kid |
| `MigrationShape.OwnMessage` | packages/authorization-platformstate-writer/src/utils.ts:219-257 | which keys the table has after a client message that is not outdated |
| `MigrationShape.OtherMessagesSpare` | packages/authorization-platformstate-writer/src/utils.ts:357-378 | messages about anything else leave the client's row and keys alone |
| `UpstreamV1.MixedRunsStayCoherent` | packages/agreement-platformstate-writer/src/consumerServiceV1.ts:31-132 | view coherence over runs that mix V1 messages of purposes and agreements with V2 messages of all topics |
| `UpstreamV1.PurposeV1KeepsCoherence` | packages/purpose-platformstate-writer/src/consumerServiceV1.ts:25-161 | each V1 purpose message keeps the table coherent, by the join when the row is new and by an update when it exists |
| `UpstreamV1.AgreementV1KeepsCoherence` | packages/agreement-platformstate-writer/src/consumerServiceV1.ts:142-315 | and so does each V1 agreement message: activations, suspensions and upgrades take over the row, archivals and deletions only mark it |
| `UpstreamV1.DeletionKeepsEntry` | packages/agreement-platformstate-writer/src/utils.ts:587-737 | a deletion, which names the agreement alone, sets by two scans exactly the entries whose row it sets |
| `UpstreamV1.AgreementV1Retry` | packages/agreement-platformstate-writer/src/consumerServiceV1.ts:142-315 | a crashed attempt at a V1 agreement message leaves no trace after the retry |
| `UpstreamV1.DeletionRetry` | packages/agreement-platformstate-writer/src/utils.ts:587-737 | nor does one at a deletion, wherever its two scans stop |
| `UpstreamV1.PurposeV1Convergence` | packages/purpose-platformstate-writer/src/consumerServiceV1.ts:31-92 | crashes of a V1 purpose message converge if and only if it does not find the purpose without row while some entry of the purpose lacks what the join adds |
| `UpstreamV1.JoinIsLost` | packages/purpose-platformstate-writer/src/consumerServiceV1.ts:43-91 | and otherwise the attempt that stops after its row write is one that the retry does not repair |
| `UpstreamV1Outcomes.PurposeV1Ignored` | packages/purpose-platformstate-writer/src/consumerServiceV1.ts:31-135 | a V1 purpose message fails if and only if it is an activation without active or suspended version; an activation or suspension older than the row, or a suspension without row, does nothing |
| `UpstreamV1Outcomes.KnownPurposeActivatedV1` | packages/purpose-platformstate-writer/src/consumerServiceV1.ts:43-71 | an activation that finds a row gives row and entries the first active or suspended version and the state |
| `UpstreamV1Outcomes.NewPurposeActivatedV1` | packages/purpose-platformstate-writer/src/consumerServiceV1.ts:71-92 | one that finds none does what the V2 activation does |
| `UpstreamV1Outcomes.PurposeSuspendedV1` | packages/purpose-platformstate-writer/src/consumerServiceV1.ts:93-134 | a suspension changes the state and keeps the version of the row |
| `UpstreamV1Outcomes.PurposeArchivedV1` | packages/purpose-platformstate-writer/src/consumerServiceV1.ts:135-150 | an archival takes the row and marks the entries |
| `UpstreamV1Outcomes.AgreementRaisedV1` | packages/agreement-platformstate-writer/src/consumerServiceV1.ts:142-207 | activations, suspensions, and creations and updates of an agreement that is active or suspended replace the row and move its entries, unless message or agreement is older than the row |
| `UpstreamV1Outcomes.AgreementArchivedV1` | packages/agreement-platformstate-writer/src/consumerServiceV1.ts:209-252 | deactivations, and updates that say archived, change the state if and only if the row is the agreement's own and not newer |
| `UpstreamV1Outcomes.OtherAgreementV1Message` | packages/agreement-platformstate-writer/src/consumerServiceV1.ts:51-100 | all other messages about an agreement do nothing |
| `UpstreamV1Outcomes.AgreementDeletedV1` | packages/agreement-platformstate-writer/src/consumerServiceV1.ts:105-122 | a deletion marks exactly the rows and entries that show the agreement |
| `Keys.KeysAreReadable` | packages/models/src/token-generation-readmodel/commons.ts:62-84 | key strings are injective and give back the kid |
| `Keys.RowKeysAreReadable` | packages/models/src/token-generation-readmodel/commons.ts:21-51 | keys of the four kinds of rows, which share a table, are injective and never clash |
| `Keys.IndexKeysAreReadable` | packages/models/src/token-generation-readmodel/commons.ts:53-93 | index keys are injective, so an index query selects the entries of one agreement or descriptor key and no other |
| `Keys.KidScan` | packages/authorization-platformstate-writer/src/utils.ts:122-143 | the two prefix scans of a key's deletion find exactly the client's entries whose kid begins with the given one |
| `Keys.KidDeletionIsExact` | packages/authorization-platformstate-writer/src/utils.ts:122-143 | so they find exactly that key's entries if and only if no kid of the client's entries extends it |
| `AttributeSatisfaction.SatisfiedExactly` | packages/agreement-lifecycle/src/validator/attributesValidator.ts:13-22 | requirements are a conjunction of disjunctions, empty groups aside |
| `AttributeSatisfaction.KeptExactly` | packages/agreement-lifecycle/src/filters/attributesFilter.ts:14-58 | a filter lists an id if and only if the tenant has such an attribute that counts |
| `AttributeSatisfaction.GainingSatisfiesMore` | packages/agreement-lifecycle/src/validator/attributesValidator.ts:24-60 | a tenant that gains attributes of any kind satisfies at least what it satisfied |
| `AgreementFsm.MonotoneLifecycle` | packages/agreement-process/src/services/agreementStateProcessor.ts:42-146 | from any state and for every descriptor, more attributes never lower the next state: missing < draft < pending < active and suspended < active |
| `AgreementFsm.UpdateIsFixpoint` | packages/agreement-process/src/services/agreementStateProcessor.ts:194-298 | an emitted event makes an allowed transition and changes the platform flag, the error branch is never taken, and updating again emits nothing |
| `AgreementFsm.RecomputeIsFixpoint` | packages/agreement-process/src/services/agreementStateProcessor.ts:315-359 | for every list of agreements, recomputing after the emitted events emits nothing |
| `AgreementDecisions.SatisfactionExactly` | packages/agreement-lifecycle/src/validator/attributesValidator.ts:13-60 | the certified, declared and verified tests hold if and only if of every group that is not empty the consumer has an attribute that counts: unrevoked, or verified by the producer, not revoked by it and not expired |
| `AgreementDecisions.NextStateExactly` | packages/agreement-process/src/services/agreementStateProcessor.ts:42-146 | the next state from every state, in terms of which of the three kinds are satisfied, the approval policy and whether consumer and producer are the same |
| `AgreementDecisions.RecomputationExactly` | packages/agreement-process/src/services/agreementStateProcessor.ts:215-290 | which event the recomputation of one agreement emits, if any, and with what flag and state |
| `AgreementDecisions.ConcernedExactly` | packages/agreement-process/src/services/agreementStateProcessor.ts:299-345 | the recomputation for an attribute is about the consumer's agreements that are neither archived nor rejected, on e-services with a descriptor that asks for the attribute |
| `AgreementDecisions.EventsRecomputed` | packages/agreement-process/src/services/agreementStateProcessor.ts:346-359 | it emits one event for each agreement that it changes, and no other |
| `AgreementDecisions.RecomputationFails` | packages/agreement-process/src/services/agreementStateProcessor.ts:315-336 | and fails if and only if the e-service of one of the agreements is not found |
| `AgreementDecisions.SubmissionExactly` | packages/agreement-process/src/services/agreementService.ts:370-540 | a submission that may go ahead ends active if and only if consumer and producer are the same, or approval is automatic and all three kinds are satisfied; ends pending if and only if certified and declared ones are and it is not active; else it fails, setting the agreement aside if the certified ones are missing |
| `AgreementDecisions.PendingActivationExactly` | packages/agreement-process/src/services/agreementActivationProcessor.ts:41-112 | the activation of a pending agreement succeeds if and only if certified, declared and verified attributes are all satisfied; otherwise it fails and stores nothing, but for setting the agreement aside when certified ones are missing |
| `AgreementDecisions.FirstActivationExactly` | packages/agreement-process/src/services/agreementActivationProcessor.ts:41-223 | what a first activation stores: state, stamps, flags and the attributes held |
| `AgreementDecisions.ReactivationExactly` | packages/agreement-process/src/services/agreementActivationProcessor.ts:114-274 | the activation of a suspended agreement by a party: active again if and only if the consumer is entitled and the other party has not suspended it; it announces who unsuspended it, then a change of the platform flag if it stays suspended, and archives the other live agreements |
| `AgreementDecisions.OthersGiveWay` | packages/agreement-process/src/services/agreementActivationProcessor.ts:225-245 | after a submission or activation that makes an agreement live, exactly the other live agreements of consumer and e-service are archived |
| `AgreementDecisions.CreationExactly` | packages/agreement-process/src/services/agreementService.ts:234-285 | a creation succeeds if and only if the newest descriptor that was ever published is the one asked for and is published, there is no other live or pending agreement, and the certified attributes are satisfied or consumer and producer are the same; it stores a fresh draft |
| `AgreementDecisions.SubmissionIsGuarded` | packages/agreement-process/src/services/agreementService.ts:370-440 | who may submit what, and when: by the consumer, from a draft, without another such agreement, on the newest descriptor |
| `AgreementDecisions.ActivationIsGuarded` | packages/agreement-process/src/services/agreementService.ts:963-1030 | who may activate what: a party or the delegate, a pending or suspended agreement, not the consumer a pending one, on a descriptor in an allowed state |
| `AgreementDecisions.SuspensionExactly` | packages/agreement-process/src/services/agreementService.ts:776-836 | a suspension by a party or the delegate succeeds if and only if the agreement is active or suspended, and sets that party's flag and stamp |
| `AgreementDecisions.UpgradeExactly` | packages/agreement-process/src/services/agreementService.ts:542-648 | an upgrade goes to the first published descriptor, if that is newer, and stores the two events of a move or the draft |
| `AgreementDecisions.UpgradeRefused` | packages/agreement-process/src/services/agreementService.ts:542-600 | and is refused without one |
| `AgreementDecisions.ArchivalExactly` | packages/agreement-process/src/services/agreementService.ts:1128-1160 | an archival by the consumer succeeds if and only if the agreement is active or suspended |
| `AgreementDecisions.DeletionExactly` | packages/agreement-process/src/services/agreementService.ts:343-369 | a deletion by the consumer if and only if it is a draft or lacks certified attributes |
| `AgreementDecisions.RejectionExactly` | packages/agreement-process/src/services/agreementService.ts:890-962 | a rejection by the producer or its delegate if and only if it is pending |
| `AgreementDecisions.CloningExactly` | packages/agreement-process/src/services/agreementService.ts:650-720 | a clone by the consumer if and only if it is rejected, no other agreement stands in the way and the certified attributes are satisfied; it is a fresh draft without stamps |
| `AgreementEventStore.InsertIsExact` | packages/commons/src/repositories/EventRepository.ts:19-74 | optimistic lock: an event is stored if and only if the writer read the stream's last version, and numbering goes on without gap or repeat |
| `AgreementEventStore.EventStore.CreateEvents` | packages/commons/src/repositories/EventRepository.ts:19-74 | all events of a transaction or none |
| `AgreementEventStore.ReadModelIsLatest` | packages/agreement-readmodel-writer/src/consumerServiceV2.ts:9-61 | every document of the folded read model is of the last version of its stream |
| `AgreementEventStore.ChangedByTransaction` | packages/agreement-readmodel-writer/src/consumerServiceV2.ts:41-59 | a stored transaction changes the read model as its events say, the version guard letting all of them pass |
| `AgreementEventStore.UpToDateEventsAreStored` | packages/commons/src/repositories/EventRepository.ts:42-58 | events of different streams, each with the version read, are all stored |
| `AgreementLifecycle.SingleLiveAgreement` | packages/agreement-process/src/services/agreementService.ts:466-538 | over every run of create, submit, activate, suspend, upgrade, archive, reject, clone, delete and recompute, a consumer has at most one active or suspended agreement for an e-service |
| `AgreementLifecycle.FlagsAgreeWithState` | packages/agreement-process/src/services/agreementStateProcessor.ts:148-192 | over every run in which no draft is made of a suspended agreement, active means no flag is set, suspended that one is or that the platform's is undefined |
| `AgreementLifecycle.SubmissionKeepsFlags` | packages/agreement-process/src/services/agreementService.ts:370-540 | a submission ends with flags that agree with the state if and only if neither party's flag is set on the draft |
| `AgreementLifecycle.UpgradeKeepsFlags` | packages/agreement-process/src/services/agreementUpgradeProcessor.ts:149-190 | a new draft agrees if and only if neither party had suspended the agreement; an upgrade at once always does |
| `AgreementLifecycle.ActivationKeepsFlags` | packages/agreement-process/src/services/agreementActivationProcessor.ts:41-112 | every outcome of an activation, failing ones included, keeps flags and state in agreement |
| `AgreementLifecycle.SuspensionKeepsFlags` | packages/agreement-process/src/services/agreementSuspensionProcessor.ts:31-107 | and so does a suspension, whatever the flags were |
| `AgreementLifecycle.ExecuteKeeps` | packages/agreement-process/src/services/agreementService.ts:1161-1185 | one request of any kind keeps the event numbering, the single live agreement and, but for the draft of a suspended agreement, the flags; a new stream's id cannot be one in use |
| `AgreementLifecycle.EventsRebuildResult` | packages/agreement-process/src/services/agreementActivationProcessor.ts:114-223 | the one or two activation events have consecutive versions, and folding them gives exactly the agreement returned |
| `AgreementLifecycle.ActivationFits` | packages/agreement-process/src/services/agreementActivationProcessor.ts:225-274 | the transaction of an activation, archivals included, is never turned down when the read model is up to date |
| `AgreementLifecycle.ActivationIsRebuilt` | packages/agreement-process/src/services/agreementService.ts:963-1126 | after a successful activation the read model shows the very agreement returned, and no other agreement of its parties is live |
| `AgreementLifecycle.RecomputeTwice` | packages/agreement-process/src/services/agreementService.ts:1161-1185 | on the stored events: the recomputation's events are all stored, and recomputing again stores nothing |
| `AgreementLifecycle.Serve` | packages/agreement-process/src/services/agreementService.ts:234-285 | a request against the event store, recomputations storing their events one transaction each, is one step of a run |
| `AgreementOperations.SuspensionIsUndone` | packages/agreement-process/src/services/agreementStampUtils.ts:22-54 | suspending an agreement and then activating it as the same party gives the agreement back, in the stored events: own flag and stamp cleared, the other party's as they were, active unless the other party or the consumer's attributes stand in the way |
| `AgreementOperations.ActivationBringsBack` | packages/agreement-process/src/services/agreementActivationProcessor.ts:41-112 | what an activation of a suspended agreement gives, field by field, by who asks and what the consumer is entitled to |
| `AgreementOperations.SuspensionShown` | packages/agreement-process/src/services/agreementSuspensionProcessor.ts:31-137 | a suspension always ends suspended and loses nothing that the activation needs to undo it |
| `AgreementOperations.FirstActivationIsAnnounced` | packages/agreement-process/src/services/agreementActivationProcessor.ts:41-223 | a successful activation is announced as such and stamped if and only if the agreement was pending and the other party has not suspended it; otherwise a pending agreement becomes suspended and is announced as unsuspended |
| `AgreementOperations.SuspendedDraftIsNotAnnounced` | packages/agreement-process/src/services/agreementService.ts:370-540 | a draft that the other party had suspended, submitted and then activated, becomes suspended, is announced as unsuspended and gets no activation stamp |
| `AgreementOperations.UpgradeMovesOrDrafts` | packages/agreement-process/src/services/agreementUpgradeProcessor.ts:66-190 | an upgrade goes to a published, newer descriptor; it archives the agreement and has another go on in the same state, suspensions and activation, if and only if declared and verified attributes allow it, and else leaves it alone and adds a draft; nothing else changes |
| `AgreementOperations.MatchingAttributesExactly` | packages/agreement-process/src/model/domain/agreement-validators.ts:445-487 | the attributes listed on an agreement are exactly those of its descriptor that the consumer has |
| `AgreementOperations.LatestDescriptorExactly` | packages/agreement-process/src/model/domain/agreement-validators.ts:268-308 | the descriptor that creation and submission compare with is the first one of the greatest version among those published, suspended, deprecated or archived, and there is none if and only if there are no such |
| `IpaReconciliation.ImportMatchesRegistry` | packages/ipa-certified-attributes-importer/src/index.ts:404-461 | against the registry itself: every call succeeds, and each public tenant ends with exactly the IPA attributes that the registry lists for its institution (that of its category, its own if it is an agency, that of its kind if kinds of that sort count); attributes of other origins and other tenants are left alone |
| `IpaReconciliation.ReconciliationMatchesRegistry` | packages/ipa-certified-attributes-importer/src/index.ts:198-361 | the same from the tenant seeds: assigning and revoking leaves exactly the seed's attributes |
| `IpaReconciliation.AssignAndRevokeAreDisjoint` | packages/ipa-certified-attributes-importer/src/index.ts:198-361 | no attribute is assigned to and revoked from the same tenant |
| `IpaReconciliation.SecondRunIsEmpty` | packages/ipa-certified-attributes-importer/src/index.ts:198-361 | a second run finds nothing to assign and nothing to revoke |
| `IpaReconciliation.ToAssignExactly` | packages/ipa-certified-attributes-importer/src/index.ts:198-259 | a tenant is listed for assignment if and only if it lacks attributes of its seed, and with exactly those |
| `IpaReconciliation.ToRevokeExactly` | packages/ipa-certified-attributes-importer/src/index.ts:281-361 | a revocation is listed if and only if a tenant holds, unrevoked, an IPA attribute that its seed does not have |
| `IpaReconciliation.SeedsAreUnique` | packages/ipa-certified-attributes-importer/src/index.ts:85-143 | one seed for each institution with an id that is a tenant, and for no other |
| `IpaReconciliation.NewAttributesExactly` | packages/ipa-certified-attributes-importer/src/index.ts:167-196 | the attributes to create are exactly those of the registry that a seed needs and the platform lacks |
| `IpaReconciliation.AssignAllExactly` | packages/tenant-process/src/services/tenantService.ts:1363-1394 | attributes not held, never assigned or revoked before, can be assigned together, and nothing else changes |
| `IpaReconciliation.AssignOneExactly` | packages/tenant-process/src/services/tenantService.ts:1767-1812 | assigning one attribute adds it to what is held, whether it is new or had been revoked |
| `IpaReconciliation.RevokeKeyExactly` | packages/tenant-process/src/services/tenantService.ts:967-1050 | revoking one attribute takes it from what is held and leaves it listed |
| `IpaReconciliation.AssignmentAnswer` | packages/tenant-process/src/services/tenantService.ts:1767-1812 | an assignment adds an attribute that the tenant never had at the end, refuses one that it holds, and takes the revocation from one that was revoked; all other attributes stay as they are |
| `IpaReconciliation.UpsertRefused` | packages/tenant-process/src/services/tenantService.ts:1322-1394 | an assignment of several is refused if and only if the tenant or an attribute is unknown or one of them is held; other tenants are not touched |
| `IpaReconciliation.RevocationAnswer` | packages/tenant-process/src/services/tenantService.ts:967-1016 | a revocation dates the attribute and nothing else, or is refused if the tenant never had it |
| `IpaReconciliation.TenantService.UpsertTenant` | packages/tenant-process/src/services/tenantService.ts:1322-1421 | unknown tenant, unknown attribute or attribute held already: an error, and nothing changes |
| `IpaReconciliation.TenantService.RevokeAttribute` | packages/tenant-process/src/services/tenantService.ts:967-1050 | unknown tenant or attribute, or one that the tenant never had: an error, and nothing changes |
| `IpaReconciliation.AssignNewAttributes` | packages/ipa-certified-attributes-importer/src/index.ts:261-279 | the calls before the first that fails stay done, the rest are not made |
| `IpaReconciliation.RevokeAttributes` | packages/ipa-certified-attributes-importer/src/index.ts:363-390 | the same for revocations |
| `IpaReconciliation.Import` | packages/ipa-certified-attributes-importer/src/index.ts:404-461 | the import over a tenant service runs to its end and leaves it as the registry says |
| `AnacImport.Importer.ProcessFile` | packages/anac-certified-attributes-importer/src/service/processor.ts:68-146 | for every file and batch size the loop ends; it comes to its batches handled one after the other, fails if and only if one of them does, and returns the codes of every valid record, as a multiset |
| `AnacImport.Importer.ProcessBatch` | packages/anac-certified-attributes-importer/src/service/processor.ts:103-139 | handling the public bodies of a batch before the private ones, each against the tenants read before, comes to handling its records in order |
| `AnacImport.Importer.ProcessTenants` | packages/anac-certified-attributes-importer/src/service/processor.ts:259-348 | every record of a tenant is compared with the tenant as read before the first call; the calls are those for the attributes that differ, and assigning one that was assigned since is an error |
| `AnacImport.Importer.UnassignMissing` | packages/anac-certified-attributes-importer/src/service/processor.ts:148-197 | tenants whose code is not in the file lose all three attributes, others keep theirs |
| `AnacImport.Importer.Import` | packages/anac-certified-attributes-importer/src/service/processor.ts:20-66 | the whole import: it succeeds if and only if the file has a valid record and no batch fails, and then tenants that are not listed lose the attributes; a file without valid record changes nothing |
| `AnacImport.ImportedAt` | packages/anac-certified-attributes-importer/src/service/processor.ts:20-66 | what an import that ends as asked comes to for one tenant and attribute: what its last record asks; without one, none, unless an organisation of the other kind has its code |
| `AnacImport.BatchesJoin` | packages/anac-certified-attributes-importer/src/service/processor.ts:423-457 | for every batch size every valid record is in exactly one batch, in the order of the file |
| `AnacImport.BatchIsExact` | packages/anac-certified-attributes-importer/src/service/processor.ts:259-348 | one batch leaves every tenant as the last of its records asks if and only if no assignment is asked for twice and the last record differs from what was read whenever one does |
| `AnacImport.FileIsExact` | packages/anac-certified-attributes-importer/src/service/processor.ts:68-146 | the file does the same if and only if no batch asks twice for an assignment and, for each tenant and attribute, the last batch with records of it ends as the last of them asks |
| `AnacImport.BatchSizesAgree` | packages/anac-certified-attributes-importer/src/service/processor.ts:103-139 | two batch sizes for which that holds leave the same tenants |
| `AnacImport.ListedOnceEndsAsAsked` | packages/anac-certified-attributes-importer/src/service/processor.ts:103-139 | it holds for every batching in which no batch lists an organisation twice |
| `AnacImport.BatchSizeMatters` | packages/tenant-process/src/services/tenantService.ts:1767-1812 | an organisation listed twice, for every organisation: in one batch it keeps what its second record takes away, one by one it does not; given an attribute twice the import fails in one batch and not one by one |
| `EventMigration.Migrate` | packages/event-migration/src/index.ts:358-479 | the rows inserted are exactly the kept journal entries, in order, each continuing its stream's numbering; the loop stops at the first entry that does not decode, and only there |
| `EventMigration.KeptExactly` | packages/event-migration/src/index.ts:358-444 | kept are, in journal order, all entries with a type other than the four that are not migrated in the authorization journal, with a payload that decodes and, in the tenant journal, of a known tenant; and no other |
| `EventMigration.StreamsAreNumbered` | packages/event-migration/src/index.ts:153-153 | for every journal and every pattern of skipped events each stream has the versions 0, 1, 2, … without gap or repeat |
| `EventMigration.LastVersionsCount` | packages/event-migration/src/index.ts:445-479 | the version map holds, for every stream, one less than the number of its rows |

## Left out

- Table engine: DynamoDB, Mongo, Kafka and HTTP clients, parsing, logging and configuration are not modelled; secondary indexes are taken to be up to date.
- `updatedAt`, correlation ids and messages without payload (which fail before any write) are not modelled; descriptor versions are integers, dates are integers.
- SecondRetrieval.RaceClosure: the agreement id and the audience list are not claimed, since the second retrieval does not rewrite the one and compares the other by inclusion. Of an entry last written out of time nothing is claimed until its next write in time; `SecondRetrievalLimits` has a run for each of the conditions.
- SecondRetrieval.RaceClosure: upstream handlers that propagate before they write their row (the archival of an agreement by its consumer) and the quotas update, which does not touch a state, are no part of the step system.
- SecondRetrieval.RaceClosure: each row has one handler at work at a time. Two agreements of one consumer and e-service share a row but are different streams, so two consumers may handle them at once; that is not modelled, nor are two attempts at one join at once.
- SecondCatalogRead.DoubleReadClosure: audience and lifespan are not claimed, the second walk being run for a changed state only.
- CrashConvergence.CrashConvergence: a publication is covered when the descriptors of the e-service with different versions have different ids.
- ClientTables.ClientDatabase.Consume: consumer clients only; API clients have no purposes and one entry per key. The columns of the join are not followed in V1.
- ClientTables.ClientDatabase.HandleClientAdded: the message is only delivered again to a client as it was added or updated since.
- V1 messages of the catalog writer, which propagate a lifespan and an audience that they do not write to an existing row, and so keep no more than the descriptor state coherent.
- UpstreamV1.MixedRunsStayCoherent: these V1 handlers are given as plans only, on values; the table calls that they are made of, pages included, are those of the V2 handlers.
- UpstreamV1.PurposeV1KeepsCoherence: which version was archived last is a parameter of the message, since versions carry no dates in the model.
- AgreementLifecycle.FlagsAgreeWithState: runs in which a draft is made of an agreement that a party suspended are excluded; the two exact conditions are stated in `SubmissionKeepsFlags` and `UpgradeKeepsFlags`.
- AgreementLifecycle.SingleLiveAgreement: the read model is up to date when a request is handled; requests that read a stale one are turned down by the event store if they touch the same stream and are not modelled otherwise.
- AgreementLifecycle.EventsRebuildResult: between the two events of an activation the first event's document may be suspended with no flag set; both are stored in one transaction.
- Agreement documents, contracts, consumer notes and mails, and the update of a draft's notes, which change no field of the model.
- Version guard of the read-model writer: an outdated message leaves the document alone; what an upsert of it would do to an existing document depends on an index that is not part of this model.
- The operations of the agreement service are functions from the read model to events; the service keeps no state of its own besides the event store, which is a class.
- Tenant kind, which the tenant service recomputes after each change of attributes, and its events.
- IpaReconciliation.ImportMatchesRegistry: the hash of an institution's kind is a parameter; attributes created for the import are held by nobody when it assigns them.
- IpaReconciliation.Import: the tenant service's read model is up to date when a call is handled. It reads tenant and version from there, and of two calls for one tenant the event store turns the second down if the first is not shown yet; such runs, which stop at that call, are not modelled.
- AnacImport.Importer.ProcessTenants: the calls of one kind, which the source starts together, are made in order. All calls for one tenant and attribute in a batch go the same way, so their order does not matter; after a call that fails the source's other calls may still go through, here none is made. Lower-casing of codes and the parsing of lines are not modelled.
- EventMigration.Migrate: decoding of payloads is a parameter (a payload that does not decode stops the loop), and the sanitising of keys in it is not modelled.
- Signatures, token parsing, the API gateway, notifications and the other read-model writers.
