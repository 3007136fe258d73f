/**
  The pattern manager's index, organisation -> pattern name -> entry, the
  files it accounts for, and the two reconciliations stated as functions of
  the index.
 */
module PatternIndex {
  import opened Patterns
  import opened PatternEntries

  type OrgIndex = map<string, PatternEntry>
  type Index = map<string, OrgIndex>

  /** One record of the served-pattern feed; its key in the feed is opaque. */
  datatype ServedPattern = ServedPattern(org: string, pattern: string, lastUpdated: string)

  function FileSet(fs: seq<PolicyFile>): set<PolicyFile>
  {
    set f | f in fs
  }

  /** The policy files listed by the entries of one organisation. */
  ghost function OrgFiles(m: OrgIndex): set<PolicyFile>
  {
    set n, f | n in m && f in m[n].policyFileNames :: f
  }

  /** The policy files listed by every entry of the index. */
  ghost function IndexedFiles(idx: Index): set<PolicyFile>
  {
    set o, f | o in idx && f in OrgFiles(idx[o]) :: f
  }

  /** The files of a set that lie in the directory of `org`. */
  ghost function FilesUnder(files: set<PolicyFile>, org: string): set<PolicyFile>
  {
    set f | f in files && f.org == org
  }

  /** The files of an entry are in its organisation's directory and were generated for its pattern. */
  ghost predicate EntryOwned(org: string, name: string, e: PatternEntry)
  {
    forall f :: f in e.policyFileNames ==> f.org == org && f.pattern == name
  }

  ghost predicate OrgOwned(org: string, m: OrgIndex)
  {
    forall n :: n in m ==> EntryOwned(org, n, m[n])
  }

  ghost predicate Owned(idx: Index)
  {
    forall o :: o in idx ==> OrgOwned(o, idx[o])
  }

  /** Every entry carries the hash of the definition it holds. */
  ghost predicate Hashed(idx: Index)
  {
    forall o, n :: o in idx && n in idx[o] ==> idx[o][n].hash == HashPattern(idx[o][n].pattern)
  }

  /** Only served organisations and served patterns are indexed. */
  ghost predicate ServedOnly(idx: Index, served: map<string, set<string>>)
  {
    forall o :: o in idx ==> o in served && idx[o].Keys <= served[o]
  }

  function Current(idx: Index, org: string): OrgIndex
  {
    if org in idx then idx[org] else map[]
  }

  function ServedIn(served: map<string, set<string>>, org: string): set<string>
  {
    if org in served then served[org] else {}
  }

  // ---------------------------------------------------------------------------
  // Served patterns and qualified pattern names.
  // ---------------------------------------------------------------------------

  function ServedOrgs(sp: map<string, ServedPattern>): set<string>
  {
    set k | k in sp :: sp[k].org
  }

  /** The served feed grouped by organisation: each served organisation with
      the names of its served patterns, and nothing else. */
  function ServedByOrg(sp: map<string, ServedPattern>): (w: map<string, set<string>>)
    ensures forall k :: k in sp ==> sp[k].org in w && sp[k].pattern in w[sp[k].org]
    ensures forall o :: o in w ==> exists k :: k in sp && sp[k].org == o
    ensures forall o, n :: o in w && n in w[o] ==> exists k :: k in sp && sp[k] .org == o && sp[k].pattern == n
  {
    map o | o in ServedOrgs(sp) :: set k | k in sp && sp[k].org == o :: sp[k].pattern
  }

  /** A key of the defined-pattern feed, `org/name`, that belongs to `org`. */
  predicate QualifiedIn(org: string, key: string)
  {
    |key| > |org| && key[..|org|] == org && key[|org|] == '/'
  }

  function Qualify(org: string, name: string): string
  {
    org + "/" + name
  }

  function PatternName(org: string, key: string): string
    requires QualifiedIn(org, key)
  {
    key[|org| + 1..]
  }

  lemma QualifiedKey(org: string, key: string)
    requires QualifiedIn(org, key)
    ensures key == Qualify(org, PatternName(org, key))
  {
    assert key == key[..|org|] + [key[|org|]] + key[|org| + 1..];
  }

  /** Qualifying a name and taking the name back out is the identity. */
  lemma QualifyRoundTrip(org: string, name: string)
    ensures QualifiedIn(org, Qualify(org, name))
    ensures PatternName(org, Qualify(org, name)) == name
  {
    var key := Qualify(org, name);
    assert key[..|org|] == org;
    assert key[|org| + 1..] == name;
  }

  ghost predicate AllQualifiedIn(org: string, defined: map<string, Pattern>)
  {
    forall k :: k in defined ==> QualifiedIn(org, k)
  }

  /** The defined-pattern feed of one organisation keyed by pattern name. */
  function DefinedByName(org: string, defined: map<string, Pattern>): (d: map<string, Pattern>)
    requires AllQualifiedIn(org, defined)
    ensures forall name :: name in d <==> Qualify(org, name) in defined
    ensures forall name :: name in d ==> d[name] == defined[Qualify(org, name)]
  {
    forall k | k in defined ensures k == Qualify(org, PatternName(org, k)) {
      QualifiedKey(org, k);
    }
    forall name ensures Qualify(org, name) in defined ==> QualifiedIn(org, Qualify(org, name)) && PatternName(org, Qualify(org, name)) == name {
      QualifyRoundTrip(org, name);
    }
    map k | k in defined :: PatternName(org, k) := defined[k]
  }

  // ---------------------------------------------------------------------------
  // The reconciliations as functions of the index.
  // ---------------------------------------------------------------------------

  function PruneOrg(m: OrgIndex, names: set<string>): OrgIndex
  {
    map n | n in m && n in names :: m[n]
  }

  /** The index after SetCurrentPatterns: exactly the served organisations,
      each keeping those of its entries whose pattern is still served. */
  function Pruned(idx: Index, want: map<string, set<string>>): Index
  {
    map o | o in want :: PruneOrg(Current(idx, o), want[o])
  }

  /** The entries of `org` after UpdatePatternPolicies: one per pattern that is
      both defined and served; an entry whose hash matches the definition is
      kept as it is, any other is generated afresh. */
  function ReconciledOrg(current: OrgIndex, org: string, defs: map<string, Pattern>,
                         names: set<string>, base: string): OrgIndex
  {
    map n | n in defs && n in names :: ReconciledEntry(current, org, n, defs[n], base)
  }

  /** Whether reconciling pattern `n` with definition `p` generates its files
      afresh: there is no entry for it yet, or the entry's hash is not the
      definition's. */
  predicate Stale(current: OrgIndex, n: string, p: Pattern)
  {
    !(n in current && current[n].hash == HashPattern(p))
  }

  /** Every defined and served pattern already has an entry carrying its
      definition's hash: reconciling regenerates nothing. */
  predicate NothingStale(current: OrgIndex, defs: map<string, Pattern>, names: set<string>)
  {
    forall n :: n in defs && n in names ==> !Stale(current, n, defs[n])
  }

  /** Dropping other patterns does not change whether a kept one is stale. */
  lemma StaleAfterPrune(c: OrgIndex, keep: set<string>, n: string, p: Pattern)
    requires n in keep
    ensures Stale(PruneOrg(c, keep), n, p) == Stale(c, n, p)
  {
  }

  /** A file that reconciling `org` may write: one generated for a defined and
      served pattern that is stale in `current`. */
  ghost predicate Regenerated(current: OrgIndex, org: string, defs: map<string, Pattern>, names: set<string>,
                              base: string, f: PolicyFile)
  {
    f.org == org && f.pattern in defs && f.pattern in names && Stale(current, f.pattern, defs[f.pattern]) &&
    f in PolicyFilesFor(base, org, f.pattern, defs[f.pattern])
  }

  /** The entry of pattern `n` after reconciling it with definition `p`. */
  function ReconciledEntry(current: OrgIndex, org: string, n: string, p: Pattern, base: string): PatternEntry
  {
    if n in current && current[n].hash == HashPattern(p) then current[n]
    else GeneratedEntry(base, org, n, p)
  }

  /** The index after UpdatePatternPolicies on `org`: its reconciled entries,
      or no `org` at all when none is left. */
  function Updated(idx: Index, org: string, defs: map<string, Pattern>,
                   names: set<string>, base: string): Index
  {
    var m := ReconciledOrg(Current(idx, org), org, defs, names, base);
    if |m| == 0 then idx - {org} else idx[org := m]
  }

  // ---------------------------------------------------------------------------
  // Which files the index accounts for.
  // ---------------------------------------------------------------------------

  lemma OrgFilesMember(org: string, m: OrgIndex, f: PolicyFile)
    requires OrgOwned(org, m)
    ensures f in OrgFiles(m) <==> f.org == org && f.pattern in m && f in m[f.pattern].policyFileNames
  {
    if f in OrgFiles(m) {
      var n :| n in m && f in m[n].policyFileNames;
      assert EntryOwned(org, n, m[n]);
    }
  }

  lemma IndexedFilesMember(idx: Index, f: PolicyFile)
    requires Owned(idx)
    ensures f in IndexedFiles(idx) <==> f.org in idx && f in OrgFiles(idx[f.org])
  {
    if f in IndexedFiles(idx) {
      var o :| o in idx && f in OrgFiles(idx[o]);
      OrgFilesMember(o, idx[o], f);
    }
  }

  /** Removing an organisation removes exactly its files, and none of its files remain. */
  lemma RemoveOrgFiles(idx: Index, org: string)
    requires Owned(idx)
    ensures Owned(idx - {org})
    ensures IndexedFiles(idx - {org}) == IndexedFiles(idx) - OrgFiles(Current(idx, org))
    ensures FilesUnder(IndexedFiles(idx - {org}), org) == {}
  {
    var r := idx - {org};
    forall f ensures f in IndexedFiles(r) <==> f in IndexedFiles(idx) && f !in OrgFiles(Current(idx, org)) {
      IndexedFilesMember(idx, f);
      IndexedFilesMember(r, f);
      if org in idx {
        OrgFilesMember(org, idx[org], f);
      }
    }
    forall f | f in IndexedFiles(r) ensures f.org != org {
      IndexedFilesMember(r, f);
    }
  }

  /** Removing one entry removes exactly the files it lists. */
  lemma RemoveEntryFiles(idx: Index, org: string, n: string)
    requires Owned(idx) && org in idx && n in idx[org]
    ensures Owned(idx[org := idx[org] - {n}])
    ensures IndexedFiles(idx[org := idx[org] - {n}]) == IndexedFiles(idx) - FileSet(idx[org][n].policyFileNames)
  {
    var m := idx[org];
    var r := idx[org := m - {n}];
    assert OrgOwned(org, m);
    assert EntryOwned(org, n, m[n]);
    forall f ensures f in IndexedFiles(r) <==> f in IndexedFiles(idx) && f !in FileSet(m[n].policyFileNames) {
      IndexedFilesMember(idx, f);
      IndexedFilesMember(r, f);
      OrgFilesMember(org, m, f);
      OrgFilesMember(org, m - {n}, f);
      if f.org in idx && f.org != org {
        assert r[f.org] == idx[f.org];
      }
    }
  }

  /** Adding an entry for a pattern that has none adds exactly the files it lists. */
  lemma AddEntryFiles(idx: Index, org: string, n: string, e: PatternEntry)
    requires Owned(idx) && n !in Current(idx, org) && EntryOwned(org, n, e)
    ensures Owned(idx[org := Current(idx, org)[n := e]])
    ensures IndexedFiles(idx[org := Current(idx, org)[n := e]]) == IndexedFiles(idx) + FileSet(e.policyFileNames)
  {
    var m := Current(idx, org);
    var r := idx[org := m[n := e]];
    assert OrgOwned(org, m);
    assert OrgOwned(org, m[n := e]);
    forall f ensures f in IndexedFiles(r) <==> f in IndexedFiles(idx) || f in FileSet(e.policyFileNames) {
      IndexedFilesMember(idx, f);
      IndexedFilesMember(r, f);
      OrgFilesMember(org, m, f);
      OrgFilesMember(org, m[n := e], f);
      if f.org in idx && f.org != org {
        assert r[f.org] == idx[f.org];
      }
    }
  }

  /** Adding organisations with no entries adds no files. */
  lemma AddEmptyOrgsFiles(idx: Index, seeds: Index)
    requires Owned(idx)
    requires forall o :: o in seeds ==> o !in idx && seeds[o] == map[]
    ensures Owned(idx + seeds)
    ensures IndexedFiles(idx + seeds) == IndexedFiles(idx)
  {
    var r := idx + seeds;
    assert Owned(r);
    forall f ensures f in IndexedFiles(r) <==> f in IndexedFiles(idx) {
      IndexedFilesMember(idx, f);
      IndexedFilesMember(r, f);
      if f.org in seeds {
        assert OrgFiles(r[f.org]) == {};
      }
    }
  }

  // ---------------------------------------------------------------------------
  // Intermediate states of the reconciliation loops.
  // ---------------------------------------------------------------------------

  /** The entries of `m0` still to be looked at (`names`) or to be kept (`keep`). */
  function KeepOrg(m0: OrgIndex, names: set<string>, keep: set<string>): OrgIndex
  {
    map n | n in m0 && (n in names || n in keep) :: m0[n]
  }

  lemma KeepOrgStart(m0: OrgIndex, keep: set<string>)
    ensures KeepOrg(m0, m0.Keys, keep) == m0
  {
  }

  lemma KeepOrgStep(m0: OrgIndex, names: set<string>, keep: set<string>, n: string)
    requires n in names
    ensures n in keep ==> KeepOrg(m0, names - {n}, keep) == KeepOrg(m0, names, keep)
    ensures n !in keep ==> KeepOrg(m0, names - {n}, keep) == KeepOrg(m0, names, keep) - {n}
  {
  }

  lemma KeepOrgEnd(m0: OrgIndex, keep: set<string>)
    ensures KeepOrg(m0, {}, keep) == PruneOrg(m0, keep)
  {
  }

  /** The index while SetCurrentPatterns runs: organisations in `todo` are not
      yet looked at, the others are already pruned or dropped. */
  function PartlyPruned(idx: Index, want: map<string, set<string>>, todo: set<string>): Index
  {
    map o | o in idx && (o in todo || o in want) ::
      if o in todo then idx[o] else PruneOrg(idx[o], want[o])
  }

  lemma PartlyPrunedStart(idx: Index, want: map<string, set<string>>)
    ensures PartlyPruned(idx, want, idx.Keys) == idx
  {
  }

  lemma PartlyPrunedStep(idx: Index, want: map<string, set<string>>, todo: set<string>, org: string)
    requires org in todo && org in idx
    ensures org !in want ==>
      PartlyPruned(idx, want, todo - {org}) == PartlyPruned(idx, want, todo) - {org}
    ensures org in want ==>
      PartlyPruned(idx, want, todo - {org}) == PartlyPruned(idx, want, todo)[org := PruneOrg(idx[org], want[org])]
  {
  }

  lemma PartlyPrunedEnd(idx: Index, want: map<string, set<string>>, seeds: Index)
    requires seeds == map o | o in want && o !in PartlyPruned(idx, want, {}) :: map[]
    ensures PartlyPruned(idx, want, {}) + seeds == Pruned(idx, want)
  {
    var r := PartlyPruned(idx, want, {}) + seeds;
    assert r.Keys == Pruned(idx, want).Keys;
    forall o | o in r ensures r[o] == Pruned(idx, want)[o] {
      if o !in idx {
        assert PruneOrg(Current(idx, o), want[o]) == map[];
      }
    }
  }

  /** Pruning keeps entries as they were and only served ones. */
  lemma PrunedKeepsInvariants(idx: Index, want: map<string, set<string>>)
    requires Hashed(idx)
    ensures Hashed(Pruned(idx, want))
    ensures ServedOnly(Pruned(idx, want), want)
  {
  }

  /** Reconciling only consults the entries of defined patterns. */
  lemma ReconciledIgnoresUndefined(c0: OrgIndex, org: string, defs: map<string, Pattern>,
                                   names: set<string>, base: string)
    ensures ReconciledOrg(PruneOrg(c0, defs.Keys), org, defs, names, base) == ReconciledOrg(c0, org, defs, names, base)
  {
  }

  /** Assembling the index from the untouched organisations and the reconciled one. */
  lemma UpdatedFromParts(idx0: Index, x: Index, org: string, target: OrgIndex)
    requires x - {org} == idx0 - {org}
    requires Current(x, org) == target
    ensures (if org in x && |x[org]| == 0 then x - {org} else x) ==
            (if |target| == 0 then idx0 - {org} else idx0[org := target])
  {
    if |target| == 0 {
      if org !in x {
        assert x == x - {org};
      }
    } else {
      assert x == (x - {org})[org := target];
      assert idx0[org := target] == (idx0 - {org})[org := target];
    }
  }

  /** The entries of `org` while UpdatePatternPolicies runs: patterns in `todo`
      are not yet looked at, the others are already reconciled. */
  function PartlyReconciled(c0: OrgIndex, org: string, defs: map<string, Pattern>,
                            names: set<string>, todo: set<string>, base: string): OrgIndex
    requires todo <= defs.Keys
  {
    map n | n in c0.Keys + defs.Keys && ((n in c0 && n in todo) || (n in defs && n in names && n !in todo)) ::
      if n in todo then c0[n] else ReconciledEntry(c0, org, n, defs[n], base)
  }

  lemma PartlyReconciledStart(c0: OrgIndex, org: string, defs: map<string, Pattern>,
                              names: set<string>, base: string)
    requires c0.Keys <= defs.Keys
    ensures PartlyReconciled(c0, org, defs, names, defs.Keys, base) == c0
  {
  }

  lemma PartlyReconciledStep(c0: OrgIndex, org: string, defs: map<string, Pattern>,
                             names: set<string>, todo: set<string>, base: string, n: string)
    requires todo <= defs.Keys && n in todo
    requires c0.Keys <= names
    ensures n in names ==>
      PartlyReconciled(c0, org, defs, names, todo - {n}, base) ==
      PartlyReconciled(c0, org, defs, names, todo, base)[n :=
        ReconciledEntry(PartlyReconciled(c0, org, defs, names, todo, base), org, n, defs[n], base)]
    ensures n !in names ==>
      PartlyReconciled(c0, org, defs, names, todo - {n}, base) ==
      PartlyReconciled(c0, org, defs, names, todo, base)
  {
    if n in names {
      PartlyReconciledKeepsPending(c0, org, defs, names, todo, base, n);
      PartlyReconciledAdds(c0, org, defs, names, todo, base, n);
    } else {
      PartlyReconciledSkips(c0, org, defs, names, todo, base, n);
    }
  }

  /** A pattern still to be reconciled keeps its original entry, so
      reconciling it against the partial map or the original map agrees. */
  lemma PartlyReconciledKeepsPending(c0: OrgIndex, org: string, defs: map<string, Pattern>,
                                     names: set<string>, todo: set<string>, base: string, n: string)
    requires todo <= defs.Keys && n in todo
    ensures ReconciledEntry(PartlyReconciled(c0, org, defs, names, todo, base), org, n, defs[n], base) ==
            ReconciledEntry(c0, org, n, defs[n], base)
    ensures Stale(PartlyReconciled(c0, org, defs, names, todo, base), n, defs[n]) == Stale(c0, n, defs[n])
  {
    var before := PartlyReconciled(c0, org, defs, names, todo, base);
    assert n in before <==> n in c0;
    assert n in c0 ==> before[n] == c0[n];
  }

  /** Reconciling a served pattern sets its entry and changes nothing else. */
  lemma PartlyReconciledAdds(c0: OrgIndex, org: string, defs: map<string, Pattern>,
                             names: set<string>, todo: set<string>, base: string, n: string)
    requires todo <= defs.Keys && n in todo && n in names
    requires c0.Keys <= names
    ensures PartlyReconciled(c0, org, defs, names, todo - {n}, base) ==
            PartlyReconciled(c0, org, defs, names, todo, base)[n := ReconciledEntry(c0, org, n, defs[n], base)]
  {
    var before := PartlyReconciled(c0, org, defs, names, todo, base);
    var after := PartlyReconciled(c0, org, defs, names, todo - {n}, base);
    var e := ReconciledEntry(c0, org, n, defs[n], base);
    forall k ensures k in after <==> k in before || k == n {
      assert k in before <==> k in c0.Keys + defs.Keys && ((k in c0 && k in todo) || (k in defs && k in names && k !in todo));
    }
    assert after.Keys == before.Keys + {n};
    forall k | k in after ensures after[k] == before[n := e][k] {
    }
  }

  /** Reconciling a pattern that is not served leaves the partial map alone. */
  lemma PartlyReconciledSkips(c0: OrgIndex, org: string, defs: map<string, Pattern>,
                              names: set<string>, todo: set<string>, base: string, n: string)
    requires todo <= defs.Keys && n in todo && n !in names
    requires c0.Keys <= names
    ensures PartlyReconciled(c0, org, defs, names, todo - {n}, base) ==
            PartlyReconciled(c0, org, defs, names, todo, base)
  {
    var before := PartlyReconciled(c0, org, defs, names, todo, base);
    var after := PartlyReconciled(c0, org, defs, names, todo - {n}, base);
    forall k ensures k in after <==> k in before {
      assert k in before <==> k in c0.Keys + defs.Keys && ((k in c0 && k in todo) || (k in defs && k in names && k !in todo));
    }
    assert after.Keys == before.Keys;
    forall k | k in after ensures after[k] == before[k] {
    }
  }

  lemma PartlyReconciledEnd(c0: OrgIndex, org: string, defs: map<string, Pattern>,
                            names: set<string>, base: string)
    requires c0.Keys <= defs.Keys && c0.Keys <= names
    ensures PartlyReconciled(c0, org, defs, names, {}, base) == ReconciledOrg(c0, org, defs, names, base)
  {
  }

  /** Storing entry `e` as pattern `n` of `org` changes that one entry only. */
  lemma SetEntry(idx: Index, org: string, n: string, e: PatternEntry)
    requires Hashed(idx) && e.hash == HashPattern(e.pattern)
    ensures Hashed(idx[org := Current(idx, org)[n := e]])
    ensures idx[org := Current(idx, org)[n := e]] - {org} == idx - {org}
    ensures Current(idx[org := Current(idx, org)[n := e]], org) == Current(idx, org)[n := e]
  {
    var r: Index := idx[org := Current(idx, org)[n := e]];
    forall o: string, k: string | o in r && k in r[o] ensures r[o][k].hash == HashPattern(r[o][k].pattern) {
      if o != org {
        assert r[o] == idx[o];
      }
    }
  }

  /** Removing pattern `n` of `org` changes that one organisation only. */
  lemma RemoveEntry(idx: Index, org: string, n: string)
    requires Hashed(idx) && org in idx
    ensures Hashed(idx[org := idx[org] - {n}])
    ensures idx[org := idx[org] - {n}] - {org} == idx - {org}
    ensures Current(idx[org := idx[org] - {n}], org) == Current(idx, org) - {n}
  {
    var r: Index := idx[org := idx[org] - {n}];
    forall o: string, k: string | o in r && k in r[o] ensures r[o][k].hash == HashPattern(r[o][k].pattern) {
      if o != org {
        assert r[o] == idx[o];
      }
    }
  }

  lemma ReplaceAfterRemove(m: OrgIndex, n: string, e: PatternEntry)
    ensures (m - {n})[n := e] == m[n := e]
  {
  }

  /** The reconciliation of one organisation keeps every entry hashed and
      indexes only served patterns. */
  lemma UpdatedKeepsInvariants(idx: Index, served: map<string, set<string>>, org: string,
                               defs: map<string, Pattern>, base: string)
    requires Hashed(idx) && ServedOnly(idx, served)
    ensures Hashed(Updated(idx, org, defs, ServedIn(served, org), base))
    ensures ServedOnly(Updated(idx, org, defs, ServedIn(served, org), base), served)
  {
    var names := ServedIn(served, org);
    var c := Current(idx, org);
    var m := ReconciledOrg(c, org, defs, names, base);
    var r: Index := Updated(idx, org, defs, names, base);
    forall n | n in m ensures m[n].hash == HashPattern(m[n].pattern) {
      if n in c && c[n].hash == HashPattern(defs[n]) {
        assert org in idx && n in idx[org];
      }
    }
    forall o: string, k: string | o in r && k in r[o] ensures r[o][k].hash == HashPattern(r[o][k].pattern) {
      if o != org {
        assert r[o] == idx[o];
      }
    }
    forall o | o in r ensures o in served && r[o].Keys <= served[o] {
      if o != org {
        assert r[o] == idx[o];
      }
    }
  }

  lemma RemoveEntriesKeepsHashed(idx: Index, org: string, keep: set<string>)
    requires Hashed(idx) && org in idx
    ensures Hashed(idx[org := PruneOrg(idx[org], keep)])
    ensures Current(idx[org := PruneOrg(idx[org], keep)], org) == PruneOrg(Current(idx, org), keep)
  {
    var r: Index := idx[org := PruneOrg(idx[org], keep)];
    forall o: string, k: string | o in r && k in r[o] ensures r[o][k].hash == HashPattern(r[o][k].pattern) {
      if o != org {
        assert r[o] == idx[o];
      }
    }
  }

  lemma RemoveOrgKeepsHashed(idx: Index, org: string)
    requires Hashed(idx)
    ensures Hashed(idx - {org})
  {
  }
}
