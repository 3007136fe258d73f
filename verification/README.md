# Pattern manager of the agreement bot

The agreement bot keeps a `PatternManager`. It is an index from organisation
to pattern name to a *pattern entry*: the pattern definition, a 32-byte hash of
it, and the names of the policy files generated from it on disk. Two
operations keep this index and the policy directory in step with the exchange:

- `SetCurrentPatterns` takes the *served* feed (`org_pattern` keys to
  `{org, pattern}`). It adds each newly served organisation with no entries
  yet, drops every organisation that is no longer served, drops every
  pattern that is no longer served, and deletes the policy files of what it
  drops.
- `UpdatePatternPolicies` takes one organisation and its *defined* patterns
  (keys `org/pattern`):
  - a served pattern whose hash changed, or that is new, is regenerated: its
    old files are deleted and new ones written. A pattern whose stored hash
    matches its definition is left alone, and none of its files is written;
  - a pattern that is no longer defined is deleted with its files;
  - an empty definition set deletes the whole organisation.

`hasOrg` and `hasPattern` query the index. `hashPattern` hashes the serialised
pattern, so the hash depends only on field values.

The index only ever holds patterns named in the last served feed. A pattern
that is defined but not served gets no entry and no files.

The model has six modules:

- `Patterns` (`patterns.dfy`): the pattern datatype and a canonical token
  encoding that stands in for the serializer, with a proved decode round
  trip. Also a 32-byte digest of that encoding, which is `HashPattern`.
- `PatternEntries` (`entries.dfy`): pattern entries, `NewPatternEntry`, and
  the policy files one pattern generates. There is one file per workload or
  service version, each named under its organisation and pattern.
- `PatternIndex` (`index.dfy`): the index as a map of maps, plus the
  specification functions.
  - `Pruned` is the index after `SetCurrentPatterns`.
  - `Updated` is the index after `UpdatePatternPolicies`.
  - It also holds the invariants relating the index to the files on disk, and
    the intermediate states of the loops.
- `Manager` (`manager.dfy`): the `PatternManager` class.
  - Fields: the index, the served set of the last feed, the policy directory
    as a ghost set of files, and a ghost log of every file written, in order.
    The log is what lets the contracts say which files a call writes, and
    that a call with nothing stale writes none.
  - Both reconciliations are imperative methods proved against `Pruned` and
    `Updated`.
  - `Valid()` is kept by every method. It says that the disk holds exactly
    the files the index lists, that each entry owns its files, that each
    stored hash is the hash of the stored pattern, and that only served
    patterns are indexed.
- `Reconcile` (`reconcile.dfy`): lemmas about `Pruned` and `Updated`.
- `Rounds` and `Scenarios` (`rounds.dfy`, `scenarios.dfy`): the repeated pass
  over the served feed and every organisation's definitions, and the
  unit-test sequences, stated for any names and definitions.

Source paths below are relative to the repository root. Only
`agreementbot/pattern_manager_test.go` is cited. The implementation file
`agreementbot/pattern_manager.go` is not part of this model. Its behaviour is
taken from what the tests exercise and from the design of the manager
described above.

## Model

| member | source | states |
|---|---|---|
| Patterns.HashPattern | agreementbot/pattern_manager_test.go:35-40 | every pattern hash is exactly 32 bytes long |
| Patterns.PatternRoundTrip | agreementbot/pattern_manager_test.go:778-789 | the serialisation that is hashed loses nothing: decoding the encoding of any pattern gives that pattern back |
| Patterns.EncodingCanonical | agreementbot/pattern_manager_test.go:778-789 | two patterns serialise identically if and only if they are equal, so the hashed text depends only on field values and not on how a pattern literal is written |
| Patterns.HashIgnoresFieldOrder | agreementbot/pattern_manager_test.go:778-789 | the test pattern and the same pattern written with its fields in another order have the same 32-byte hash |
| PatternEntries.NewPatternEntry | agreementbot/pattern_manager_test.go:23-44 | a new entry keeps the pattern (so its label), carries a 32-byte hash equal to the pattern's hash, and lists no files yet |
| PatternEntries.PolicyFilesFor | agreementbot/pattern_manager_test.go:181-184 | the generated policy files are exactly one for each version of each workload and service reference: every such file is present, every file present is one of them, and each is named under the entry's organisation and pattern |
| PatternEntries.GeneratedEntry | agreementbot/pattern_manager_test.go:175-184 | a regenerated entry holds the definition and its hash, and lists exactly the files of the definition's versions, all under its organisation and pattern |
| PatternIndex.ServedByOrg | agreementbot/pattern_manager_test.go:76-96 | grouping the served feed by organisation yields each served organisation with exactly the names served for it, and nothing else |
| PatternIndex.DefinedByName | agreementbot/pattern_manager_test.go:881-889 | a defined-pattern feed keyed `org/name` becomes a map keyed by name with the same definitions, and holds a name exactly when `org/name` is defined |
| PatternIndex.QualifyRoundTrip | agreementbot/pattern_manager_test.go:889 | an `org/name` key belongs to `org`, and the name can be taken back out of it |
| Manager.PatternManager.constructor | agreementbot/pattern_manager_test.go:47-55 | a new manager has no organisations, no served patterns, no policy files and nothing written, and satisfies the invariant |
| Manager.PatternManager.HasOrg | agreementbot/pattern_manager_test.go:181-182 | true exactly when the organisation is indexed; an indexed organisation is served |
| Manager.PatternManager.HasPattern | agreementbot/pattern_manager_test.go:897-902 | true exactly when the pattern is indexed under the organisation; implies HasOrg; an indexed pattern is served |
| Manager.PatternManager.SetCurrentPatterns | agreementbot/pattern_manager_test.go:185-200 | the manager records the feed grouped by organisation, and the index becomes `Pruned` of the old one. Afterwards no unserved organisation is present or has a file on disk, every listed file of an indexed pattern exists, no file is created or written, and the invariant is kept |
| Manager.PatternManager.UpdatePatternPolicies | agreementbot/pattern_manager_test.go:338-351 | the index becomes `Updated`. The organisation holds a pattern exactly when it is defined and served, and is present exactly when one such pattern exists. Every listed file exists, and other organisations keep their entries and their files. Every file written belongs to a defined and served pattern that was stale (no entry, or a stored hash other than its definition's), and when nothing was stale no file is written |
| Manager.PatternManager.ApplyDefinitions | agreementbot/pattern_manager_test.go:718-724 | the two branches of UpdatePatternPolicies (an empty definition set deletes the organisation, otherwise it is reconciled) both make the index `Updated` of the old one, write only files of stale patterns, and write nothing when nothing is stale |
| Manager.PatternManager.AddOrReplacePatterns | agreementbot/pattern_manager_test.go:873-888 | the first step of `ReconcileOrg`: every defined and served pattern is reconciled, so the organisation's map becomes the reconciled one, other organisations are unchanged, and every file written belongs to a stale, defined and served pattern |
| Manager.PatternManager.DropUndefined | agreementbot/pattern_manager_test.go:710-716 | the second step of `ReconcileOrg`: entries whose pattern is no longer defined are deleted with their files, nothing else changes, and nothing is written |
| Manager.PatternManager.DropIfEmpty | agreementbot/pattern_manager_test.go:718-724 | the last step of `ReconcileOrg`: an organisation left with no entry is removed, any other index is kept, and nothing is written |
| Manager.PatternManager.DeletePattern | agreementbot/pattern_manager_test.go:710-716 | removes one entry and exactly its files, writes nothing, and changes nothing else |
| Manager.PatternManager.DeleteOrg | agreementbot/pattern_manager_test.go:718-728 | removes the organisation and exactly the files of its entries, and writes nothing |
| Manager.PatternManager.PruneOrgPatterns | agreementbot/pattern_manager_test.go:352-369 | keeps only the listed patterns of one organisation, deleting the others' files and writing nothing |
| Manager.PatternManager.ReconcilePattern | agreementbot/pattern_manager_test.go:873-888 | an entry whose stored hash equals the definition's hash is kept as it is and no file is written; otherwise its files are deleted, a regenerated entry replaces it, and exactly its new files are written; other organisations are untouched |
| Manager.PatternManager.ReconcileOrg | agreementbot/pattern_manager_test.go:338-341 | the non-empty branch of UpdatePatternPolicies: the index becomes `Updated` of the old one, and every file written belongs to a stale, defined and served pattern |
| Reconcile.EmptyFeedNoOrgs | agreementbot/pattern_manager_test.go:58-73 | an empty served feed leaves zero organisations |
| Reconcile.OneServedOneOrg | agreementbot/pattern_manager_test.go:76-96 | a feed of one served pattern leaves exactly one organisation, the served one |
| Reconcile.PrunedDropsOrg | agreementbot/pattern_manager_test.go:185-200 | an organisation omitted from the feed is gone and no indexed file lies under it |
| Reconcile.PrunedDropsPattern | agreementbot/pattern_manager_test.go:352-369 | a pattern omitted from the feed is gone and none of its files remain indexed |
| Reconcile.PrunedKeepsServed | agreementbot/pattern_manager_test.go:527-544 | a pattern still served keeps its entry unchanged, and its files stay indexed |
| Reconcile.PrunedIdempotent | agreementbot/pattern_manager_test.go:875-880 | applying the same feed twice gives the same index as applying it once |
| Reconcile.UpdatedServes | agreementbot/pattern_manager_test.go:338-351 | after the update the organisation holds exactly its defined and served names, and is present exactly when there is one |
| Reconcile.UpdatedFrame | agreementbot/pattern_manager_test.go:725-728 | every other organisation keeps its presence, its entries and the files under it |
| Reconcile.UpdatedRemovesUndefined | agreementbot/pattern_manager_test.go:710-716 | a pattern that is no longer defined is removed with all its files |
| Reconcile.UpdatedEmptyRemovesOrg | agreementbot/pattern_manager_test.go:718-724 | an empty definition set removes the organisation and every file under it |
| Reconcile.UpdatedKeepsUnchanged | agreementbot/pattern_manager_test.go:873-888 | a served pattern whose definition hashes to the stored hash keeps its entry, files included |
| Reconcile.UpdatedRegenerates | agreementbot/pattern_manager_test.go:175-184 | a new or changed served pattern gets a regenerated entry whose files are all indexed, and the old files it no longer lists are gone |
| Reconcile.UpdatedDropsRemovedVersion | agreementbot/pattern_manager_test.go:175-184 | when a changed definition no longer has a workload or service version, no file for that version stays indexed under the pattern |
| Reconcile.UpdatedIdempotent | agreementbot/pattern_manager_test.go:875-906 | repeating the same update gives the same index |
| Reconcile.UpdatedLeavesNothingStale | agreementbot/pattern_manager_test.go:875-906 | after the update every defined and served pattern of the organisation has an entry carrying its definition's hash |
| Reconcile.UpdatedNothingDefined | agreementbot/pattern_manager_test.go:718-724 | updating with no definitions gives the index without the organisation |
| Reconcile.WritesRegenerated | agreementbot/pattern_manager_test.go:873-888 | appending one pattern's reconciliation writes to a log of regenerated files keeps every logged file regenerated |
| Reconcile.WrittenOnlyIfStale | agreementbot/pattern_manager_test.go:873-888 | if any file was written as a regeneration, some defined and served pattern was stale |
| Reconcile.WritesOnlyIfStale | agreementbot/pattern_manager_test.go:873-888 | when nothing is stale, a write log that grew only by regenerated files did not grow at all |
| Reconcile.PrunedKeepsNothingStale | agreementbot/pattern_manager_test.go:875-880 | applying the served feed again keeps an up-to-date organisation up to date |
| Reconcile.UpdatedConverges | agreementbot/pattern_manager_test.go:875-906 | from an index of generated entries, and absent a hash collision, the organisation ends up as if built from nothing, whatever it held before |
| Reconcile.ServedByOrgMember | agreementbot/pattern_manager_test.go:897-902 | a name is served for an organisation exactly when some feed entry serves it |
| Rounds.SettledMeans | agreementbot/pattern_manager_test.go:893-902 | a reconciled organisation is present exactly when one of its defined patterns is served, and holds exactly its defined and served patterns |
| Rounds.SettledAfterUpdate | agreementbot/pattern_manager_test.go:881-891 | reconciling one organisation leaves it settled and up to date, and keeps the organisations already done that way |
| Rounds.UpToDateAfterUpdate | agreementbot/pattern_manager_test.go:881-891 | reconciling one organisation leaves the others as up to date as they were |
| Rounds.PrunedAllUpToDate | agreementbot/pattern_manager_test.go:875-880 | re-applying the same served feed keeps every up-to-date organisation up to date |
| Rounds.DoneAll | agreementbot/pattern_manager_test.go:881-905 | once no organisation is left to do, each holds exactly its defined and served patterns, all up to date |
| Rounds.SettleNext | agreementbot/pattern_manager_test.go:881-891 | one organisation's UpdatePatternPolicies settles it, and writes nothing when the organisations still to do were up to date |
| Rounds.SettleOrgs | agreementbot/pattern_manager_test.go:881-905 | after UpdatePatternPolicies on every organisation in turn, each holds exactly its defined and served patterns, all up to date, and nothing is written when all were up to date before |
| Rounds.ServeRound | agreementbot/pattern_manager_test.go:876-905 | after one pass, each organisation is present exactly when one of its defined patterns is served, holds a pattern exactly when it is defined and served, and is up to date; a pass over a feed and definitions already applied writes no file |
| Rounds.RepeatRounds | agreementbot/pattern_manager_test.go:875-906 | further passes with a feed and definitions already applied keep the same organisations and patterns present, keep every organisation up to date, and write no file |
| Rounds.ServeRounds | agreementbot/pattern_manager_test.go:875-906 | the same holds after any positive number of passes with the same feed and definitions; it is one pass followed by `RepeatRounds`, so passes after the first write no file, and from an already applied state no pass writes one |
| Scenarios.ServeOne | agreementbot/pattern_manager_test.go:76-96 | serving and defining one pattern leaves only its organisation, holding that pattern with its files on disk, and no files under any other organisation |
| Scenarios.ReplaceServedOrg | agreementbot/pattern_manager_test.go:99-200 | after serving one organisation and then only another, one organisation is left: the new one is present with its pattern and files, and the old one is absent with no files |
| Scenarios.ServeTwoOrgs | agreementbot/pattern_manager_test.go:334-351 | two organisations served and defined hold exactly their served patterns |
| Scenarios.RemoveOnePattern | agreementbot/pattern_manager_test.go:710-716 | redefining an organisation without one of its two patterns deletes that pattern's files and leaves one pattern |
| Scenarios.RemoveOrg | agreementbot/pattern_manager_test.go:718-728 | defining nothing for an organisation removes it and every file under it, and leaves the others |
| Scenarios.UpdateTwice | agreementbot/pattern_manager_test.go:875-906 | calling UpdatePatternPolicies twice with the same definitions has the effect of one call: the index is `Updated` once, and only files of patterns stale before the first call are written |
| Scenarios.RemovePatternThenOrg | agreementbot/pattern_manager_test.go:551-735 | the whole sequence ends with the first organisation gone with no files left, and the second present with its pattern and files |

## Left out

- Input and output: the policy directory is a ghost set of file names. Writing and deleting files never fail, so the error returns of both reconciliations and the partial progress after a failed write are not modelled. File contents are not modelled.
- Patterns.HashPattern: total. In the program `hashPattern` returns an error when the pattern cannot be serialised; the canonical encoding here cannot fail, so that error path is not modelled.
- PatternEntries.NewPatternEntry: total, for the same reason; the program's error return when hashing fails is not modelled.
- Directories: only policy files are modelled. The program keeps an organisation's policy directory after deleting its files, and listing it afterwards succeeds with no files; the model has no directories, so it states only that no file lies under the organisation.
- The mutex that guards the manager and all logging: the model is single-threaded.
- The serializer and the cryptographic hash: the pattern is hashed through a canonical token encoding and a 32-byte digest that are stand-ins for JSON and the real hash. Collision resistance cannot hold of a stand-in. `Reconcile.UpdatedConverges` therefore assumes, in its requires, that no stored hash collides with a different definition.
- Pattern fields data verification, node health, priority, upgrade policy and blockchains: they are not represented in the pattern datatype. In the program they are serialised and hashed, so a change confined to them changes the hash and regenerates the pattern's files. The model cannot express such a change.
- The `LastUpdated` time of a served pattern: it is carried in `ServedPattern` and never read.
- The `policyPath` argument of `SetCurrentPatterns`: it is accepted and not used.
- The unit tests use literal organisation and pattern names. The `Scenarios` and `Rounds` members prove the same outcomes for any names and definitions (names distinct where the tests' names are distinct).
- Clearing the test directory and listing it for `.policy` files are test-harness steps. They appear here as statements about the ghost file set.
