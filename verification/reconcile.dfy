/**
  What the two reconciliations promise, stated about the functions that
  describe them: Pruned (SetCurrentPatterns) and Updated
  (UpdatePatternPolicies).
 */
module Reconcile {
  import opened Patterns
  import opened PatternEntries
  import opened PatternIndex

  // ---------------------------------------------------------------------------
  // Files of an index.
  // ---------------------------------------------------------------------------

  /** Every file an entry lists is among the files of the index: with the disk
      equal to those files, every listed policy file exists. */
  lemma EntryFilesIndexed(idx: Index, org: string, n: string)
    requires org in idx && n in idx[org]
    ensures FileSet(idx[org][n].policyFileNames) <= IndexedFiles(idx)
  {
    forall f | f in FileSet(idx[org][n].policyFileNames) ensures f in IndexedFiles(idx) {
      assert f in OrgFiles(idx[org]);
    }
  }

  /** A pattern that has no entry has no file among the files of the index. */
  lemma AbsentEntryNoFiles(idx: Index, org: string, n: string, f: PolicyFile)
    requires Owned(idx)
    requires org !in idx || n !in idx[org]
    requires f.org == org && f.pattern == n
    ensures f !in IndexedFiles(idx)
  {
    IndexedFilesMember(idx, f);
    if f.org in idx {
      OrgFilesMember(f.org, idx[f.org], f);
    }
  }

  /** An organisation that is not indexed has no file among the files of the index. */
  lemma AbsentOrgNoFiles(idx: Index, org: string)
    requires Owned(idx) && org !in idx
    ensures FilesUnder(IndexedFiles(idx), org) == {}
  {
    forall f | f in IndexedFiles(idx) ensures f.org != org {
      IndexedFilesMember(idx, f);
    }
  }

  /** Two indexes that agree on an organisation's entries agree on the files in its directory. */
  lemma SameOrgSameFiles(a: Index, b: Index, org: string)
    requires Owned(a) && Owned(b)
    requires org in a <==> org in b
    requires org in a ==> a[org] == b[org]
    ensures FilesUnder(IndexedFiles(a), org) == FilesUnder(IndexedFiles(b), org)
  {
    forall f: PolicyFile | f.org == org ensures f in IndexedFiles(a) <==> f in IndexedFiles(b) {
      IndexedFilesMember(a, f);
      IndexedFilesMember(b, f);
    }
  }

  // ---------------------------------------------------------------------------
  // SetCurrentPatterns.
  // ---------------------------------------------------------------------------

  /** After pruning the organisations are exactly the served ones, and each
      keeps exactly those of its entries whose pattern is still served. */
  lemma PrunedShape(idx: Index, want: map<string, set<string>>, o: string)
    ensures o in Pruned(idx, want) <==> o in want
    ensures o in want ==> Pruned(idx, want)[o].Keys == Current(idx, o).Keys * want[o]
    ensures o in want ==> forall n :: n in Pruned(idx, want)[o] ==> Pruned(idx, want)[o][n] == idx[o][n]
  {
  }

  /** Pruning keeps every file in the directory of its organisation and pattern. */
  lemma PrunedOwned(idx: Index, want: map<string, set<string>>)
    requires Owned(idx)
    ensures Owned(Pruned(idx, want))
  {
    var r := Pruned(idx, want);
    forall o | o in r ensures OrgOwned(o, r[o]) {
      if o in idx {
        assert OrgOwned(o, idx[o]);
      }
    }
  }

  /** An empty served feed leaves no organisation. */
  lemma EmptyFeedNoOrgs(idx: Index)
    ensures |Pruned(idx, ServedByOrg(map[]))| == 0
  {
    assert ServedByOrg(map[]).Keys == {};
  }

  /** A feed serving one pattern leaves exactly that pattern's organisation. */
  lemma OneServedOneOrg(idx: Index, key: string, sp: ServedPattern)
    ensures Pruned(idx, ServedByOrg(map[key := sp])).Keys == {sp.org}
    ensures |Pruned(idx, ServedByOrg(map[key := sp]))| == 1
  {
    var feed := map[key := sp];
    var w := ServedByOrg(feed);
    assert key in feed && feed[key].org == sp.org;
    assert ServedOrgs(feed) == {sp.org};
    assert w.Keys == {sp.org};
    assert Pruned(idx, w).Keys == {sp.org};
  }

  /** An organisation the feed no longer serves is gone, and no file is left
      in its directory. */
  lemma PrunedDropsOrg(idx: Index, want: map<string, set<string>>, org: string)
    requires Owned(idx) && org !in want
    ensures org !in Pruned(idx, want)
    ensures FilesUnder(IndexedFiles(Pruned(idx, want)), org) == {}
  {
    PrunedOwned(idx, want);
    AbsentOrgNoFiles(Pruned(idx, want), org);
  }

  /** A pattern the feed no longer serves loses its entry and all its files. */
  lemma PrunedDropsPattern(idx: Index, want: map<string, set<string>>, org: string, n: string, f: PolicyFile)
    requires Owned(idx) && (org !in want || n !in want[org])
    requires f.org == org && f.pattern == n
    ensures org in Pruned(idx, want) ==> n !in Pruned(idx, want)[org]
    ensures f !in IndexedFiles(Pruned(idx, want))
  {
    PrunedOwned(idx, want);
    AbsentEntryNoFiles(Pruned(idx, want), org, n, f);
  }

  /** A pattern that stays served keeps its entry and every file it lists. */
  lemma PrunedKeepsServed(idx: Index, want: map<string, set<string>>, org: string, n: string)
    requires org in idx && n in idx[org] && org in want && n in want[org]
    ensures org in Pruned(idx, want) && n in Pruned(idx, want)[org]
    ensures Pruned(idx, want)[org][n] == idx[org][n]
    ensures FileSet(idx[org][n].policyFileNames) <= IndexedFiles(Pruned(idx, want))
  {
    EntryFilesIndexed(Pruned(idx, want), org, n);
  }

  /** Applying the same served feed twice is the same as applying it once. */
  lemma PrunedIdempotent(idx: Index, want: map<string, set<string>>)
    ensures Pruned(Pruned(idx, want), want) == Pruned(idx, want)
  {
    var r := Pruned(idx, want);
    forall o | o in want ensures PruneOrg(Current(r, o), want[o]) == r[o] {
      assert Current(r, o) == r[o];
    }
  }

  /** Applying the feed that is already applied keeps every entry of a served
      pattern, so an organisation with nothing stale still has nothing stale. */
  lemma PrunedKeepsNothingStale(idx: Index, want: map<string, set<string>>, o: string, defs: map<string, Pattern>)
    requires NothingStale(Current(idx, o), defs, ServedIn(want, o))
    ensures NothingStale(Current(Pruned(idx, want), o), defs, ServedIn(want, o))
  {
    forall n | n in defs && n in ServedIn(want, o)
      ensures !Stale(Current(Pruned(idx, want), o), n, defs[n])
    {
      assert !Stale(Current(idx, o), n, defs[n]);
      PrunedShape(idx, want, o);
    }
  }

  // ---------------------------------------------------------------------------
  // UpdatePatternPolicies.
  // ---------------------------------------------------------------------------

  /** Reconciling keeps every file in the directory of its organisation and pattern. */
  lemma UpdatedOwned(idx: Index, org: string, defs: map<string, Pattern>, names: set<string>, base: string)
    requires Owned(idx)
    ensures Owned(Updated(idx, org, defs, names, base))
  {
    var c := Current(idx, org);
    var m := ReconciledOrg(c, org, defs, names, base);
    forall n | n in m ensures EntryOwned(org, n, m[n]) {
      if n in c && c[n].hash == HashPattern(defs[n]) {
        assert OrgOwned(org, idx[org]);
      }
    }
    var r := Updated(idx, org, defs, names, base);
    forall o | o in r ensures OrgOwned(o, r[o]) {
      if o != org {
        assert r[o] == idx[o];
      }
    }
  }

  /** Reconciling one organisation leaves every other organisation, its
      entries and the files in its directory as they were. */
  lemma UpdatedFrame(idx: Index, org: string, defs: map<string, Pattern>, names: set<string>, base: string,
                     o: string)
    requires o != org
    ensures o in Updated(idx, org, defs, names, base) <==> o in idx
    ensures o in idx ==> Updated(idx, org, defs, names, base)[o] == idx[o]
    ensures Owned(idx) ==>
      FilesUnder(IndexedFiles(Updated(idx, org, defs, names, base)), o) == FilesUnder(IndexedFiles(idx), o)
  {
    if Owned(idx) {
      UpdatedOwned(idx, org, defs, names, base);
      SameOrgSameFiles(Updated(idx, org, defs, names, base), idx, o);
    }
  }

  /** After reconciling, the organisation holds an entry for exactly the
      patterns that are both defined and served, and it is indexed exactly
      when there is at least one. */
  lemma UpdatedServes(idx: Index, org: string, defs: map<string, Pattern>, names: set<string>, base: string)
    ensures Current(Updated(idx, org, defs, names, base), org).Keys == defs.Keys * names
    ensures org in Updated(idx, org, defs, names, base) <==> defs.Keys * names != {}
  {
    var m := ReconciledOrg(Current(idx, org), org, defs, names, base);
    assert m.Keys == defs.Keys * names;
    if |m| == 0 {
      assert m.Keys == {};
    } else {
      assert m.Keys != {};
    }
  }

  lemma SetThenRemove(idx: Index, org: string, m: OrgIndex)
    ensures idx[org := m] - {org} == idx - {org}
  {
    forall k ensures k in idx[org := m] - {org} <==> k in idx - {org} { }
  }

  lemma UpdatedRest(idx: Index, org: string, defs: map<string, Pattern>, names: set<string>, base: string)
    ensures Updated(idx, org, defs, names, base) - {org} == idx - {org}
  {
    var m := ReconciledOrg(Current(idx, org), org, defs, names, base);
    SetThenRemove(idx, org, m);
  }

  /** UpdatePatternPolicies in terms of the qualified defined-pattern keys:
      the organisation holds exactly its defined and served patterns, is
      present exactly when there is one, and no other organisation changes. */
  lemma UpdatedSummary(idx: Index, org: string, defined: map<string, Pattern>, names: set<string>, base: string)
    requires AllQualifiedIn(org, defined)
    ensures var r := Updated(idx, org, DefinedByName(org, defined), names, base);
      r - {org} == idx - {org} &&
      (forall n :: (org in r && n in r[org]) <==> Qualify(org, n) in defined && n in names) &&
      (org in r <==> exists n :: Qualify(org, n) in defined && n in names)
  {
    var defs := DefinedByName(org, defined);
    var r := Updated(idx, org, defs, names, base);
    UpdatedRest(idx, org, defs, names, base);
    UpdatedServes(idx, org, defs, names, base);
    forall n ensures (org in r && n in r[org]) <==> Qualify(org, n) in defined && n in names {
      assert (org in r && n in r[org]) <==> n in Current(r, org).Keys;
    }
    if org in r {
      var n :| n in defs.Keys * names;
      assert Qualify(org, n) in defined && n in names;
    }
  }

  /** A pattern that is no longer defined loses its entry and all its files. */
  lemma UpdatedRemovesUndefined(idx: Index, org: string, defs: map<string, Pattern>, names: set<string>,
                                base: string, n: string, f: PolicyFile)
    requires Owned(idx) && n !in defs
    requires f.org == org && f.pattern == n
    ensures n !in Current(Updated(idx, org, defs, names, base), org)
    ensures f !in IndexedFiles(Updated(idx, org, defs, names, base))
  {
    UpdatedOwned(idx, org, defs, names, base);
    AbsentEntryNoFiles(Updated(idx, org, defs, names, base), org, n, f);
  }

  /** With no pattern defined, the organisation is removed and no file is
      left in its directory. */
  lemma UpdatedEmptyRemovesOrg(idx: Index, org: string, names: set<string>, base: string)
    requires Owned(idx)
    ensures org !in Updated(idx, org, map[], names, base)
    ensures FilesUnder(IndexedFiles(Updated(idx, org, map[], names, base)), org) == {}
  {
    assert ReconciledOrg(Current(idx, org), org, map[], names, base) == map[];
    UpdatedOwned(idx, org, map[], names, base);
    AbsentOrgNoFiles(Updated(idx, org, map[], names, base), org);
  }

  /** An entry whose hash matches its definition is kept as it is: no file of
      it is regenerated. */
  lemma UpdatedKeepsUnchanged(idx: Index, org: string, defs: map<string, Pattern>, names: set<string>,
                              base: string, n: string)
    requires n in defs && n in names
    requires org in idx && n in idx[org] && idx[org][n].hash == HashPattern(defs[n])
    ensures org in Updated(idx, org, defs, names, base)
    ensures Updated(idx, org, defs, names, base)[org][n] == idx[org][n]
  {
    var m := ReconciledOrg(Current(idx, org), org, defs, names, base);
    assert n in m;
  }

  /** A new pattern, or one whose definition changed, gets a freshly
      generated entry; each old file it no longer lists is gone and each file
      it lists exists. */
  lemma UpdatedRegenerates(idx: Index, org: string, defs: map<string, Pattern>, names: set<string>,
                           base: string, n: string)
    requires Owned(idx)
    requires n in defs && n in names
    requires n !in Current(idx, org) || Current(idx, org)[n].hash != HashPattern(defs[n])
    ensures org in Updated(idx, org, defs, names, base)
    ensures Updated(idx, org, defs, names, base)[org][n] == GeneratedEntry(base, org, n, defs[n])
    ensures FileSet(PolicyFilesFor(base, org, n, defs[n])) <= IndexedFiles(Updated(idx, org, defs, names, base))
    ensures n in Current(idx, org) ==>
      forall f :: f in idx[org][n].policyFileNames && f !in PolicyFilesFor(base, org, n, defs[n]) ==>
        f !in IndexedFiles(Updated(idx, org, defs, names, base))
  {
    var r := Updated(idx, org, defs, names, base);
    var m := ReconciledOrg(Current(idx, org), org, defs, names, base);
    assert n in m;
    EntryFilesIndexed(r, org, n);
    UpdatedOwned(idx, org, defs, names, base);
    if n in Current(idx, org) {
      assert OrgOwned(org, idx[org]) && EntryOwned(org, n, idx[org][n]);
      forall f | f in idx[org][n].policyFileNames && f !in PolicyFilesFor(base, org, n, defs[n])
        ensures f !in IndexedFiles(r)
      {
        IndexedFilesMember(r, f);
        OrgFilesMember(org, r[org], f);
      }
    }
  }

  /** A pattern whose files are regenerated keeps no file of a version that
      its new definition no longer has, whether it is still served or not. */
  lemma UpdatedDropsRemovedVersion(idx: Index, org: string, defs: map<string, Pattern>, names: set<string>,
                                   base: string, n: string, f: PolicyFile)
    requires Owned(idx)
    requires n in defs && Stale(Current(idx, org), n, defs[n])
    requires f.org == org && f.pattern == n
    requires forall r, v :: r in defs[n].workloads + defs[n].services && v in r.versions ==>
      f != FileFor(base, org, n, r, v)
    ensures f !in IndexedFiles(Updated(idx, org, defs, names, base))
  {
    var res := Updated(idx, org, defs, names, base);
    UpdatedOwned(idx, org, defs, names, base);
    UpdatedServes(idx, org, defs, names, base);
    if n in names {
      UpdatedRegenerates(idx, org, defs, names, base, n);
      IndexedFilesMember(res, f);
      OrgFilesMember(org, res[org], f);
    } else {
      AbsentEntryNoFiles(res, org, n, f);
    }
  }

  // ---------------------------------------------------------------------------
  // Which files a reconciliation writes.
  // ---------------------------------------------------------------------------

  /** Reconciling one more defined and served pattern appends only its own
      generated files, and only when it is stale. */
  lemma WritesRegenerated(c0: OrgIndex, org: string, defs: map<string, Pattern>, names: set<string>,
                          base: string, n: string, w0: seq<PolicyFile>, w1: seq<PolicyFile>, w2: seq<PolicyFile>)
    requires n in defs && n in names
    requires w0 <= w1
    requires forall f :: f in w1[|w0|..] ==> Regenerated(c0, org, defs, names, base, f)
    requires w2 == w1 + if Stale(c0, n, defs[n]) then PolicyFilesFor(base, org, n, defs[n]) else []
    ensures w0 <= w2
    ensures forall f :: f in w2[|w0|..] ==> Regenerated(c0, org, defs, names, base, f)
  {
    var added := if Stale(c0, n, defs[n]) then PolicyFilesFor(base, org, n, defs[n]) else [];
    assert w2[|w0|..] == w1[|w0|..] + added;
  }

  /** A reconciliation writes a file only for a defined and served pattern
      that is stale: when none is, it writes nothing. */
  lemma WrittenOnlyIfStale(c: OrgIndex, org: string, defs: map<string, Pattern>, names: set<string>,
                           base: string, ws: seq<PolicyFile>)
    requires ws != []
    requires forall f :: f in ws ==> Regenerated(c, org, defs, names, base, f)
    ensures exists n :: n in defs && n in names && Stale(c, n, defs[n])
  {
    assert Regenerated(c, org, defs, names, base, ws[0]);
  }

  /** A log that grew only by files of stale patterns did not grow when no
      defined and served pattern is stale. */
  lemma WritesOnlyIfStale(c: OrgIndex, org: string, defs: map<string, Pattern>, names: set<string>,
                          base: string, w0: seq<PolicyFile>, w: seq<PolicyFile>)
    requires w0 <= w
    requires forall f :: f in w[|w0|..] ==> Regenerated(c, org, defs, names, base, f)
    ensures NothingStale(c, defs, names) ==> w == w0
  {
    if w[|w0|..] != [] {
      WrittenOnlyIfStale(c, org, defs, names, base, w[|w0|..]);
    }
    assert w == w0 + w[|w0|..];
  }

  /** With no pattern defined, the update is the removal of the organisation. */
  lemma UpdatedNothingDefined(idx: Index, org: string, names: set<string>, base: string)
    ensures Updated(idx, org, map[], names, base) == idx - {org}
  {
    assert ReconciledOrg(Current(idx, org), org, map[], names, base) == map[];
  }

  /** After a reconciliation no defined and served pattern is stale, so the
      same reconciliation repeated writes nothing. */
  lemma UpdatedLeavesNothingStale(idx: Index, org: string, defs: map<string, Pattern>, names: set<string>,
                                  base: string)
    ensures NothingStale(Current(Updated(idx, org, defs, names, base), org), defs, names)
  {
    forall n | n in defs && n in names
      ensures !Stale(Current(Updated(idx, org, defs, names, base), org), n, defs[n])
    {
      UpdatedServes(idx, org, defs, names, base);
      assert n in Current(Updated(idx, org, defs, names, base), org);
    }
  }

  /** Every reconciled entry carries the hash of its definition, so a second
      reconciliation keeps them all. */
  lemma ReconciledStable(c: OrgIndex, org: string, defs: map<string, Pattern>, names: set<string>, base: string)
    ensures ReconciledOrg(ReconciledOrg(c, org, defs, names, base), org, defs, names, base) ==
            ReconciledOrg(c, org, defs, names, base)
  {
    var m := ReconciledOrg(c, org, defs, names, base);
    forall n | n in m ensures m[n].hash == HashPattern(defs[n]) {
    }
  }

  /** The organisation's entries after one reconciliation are stable under a second. */
  lemma UpdatedStable(idx: Index, org: string, defs: map<string, Pattern>, names: set<string>, base: string)
    ensures ReconciledOrg(Current(Updated(idx, org, defs, names, base), org), org, defs, names, base) ==
            ReconciledOrg(Current(idx, org), org, defs, names, base)
  {
    var m := ReconciledOrg(Current(idx, org), org, defs, names, base);
    ReconciledStable(Current(idx, org), org, defs, names, base);
    if |m| == 0 {
      assert m.Keys == {};
      assert Current(Updated(idx, org, defs, names, base), org) == map[];
    } else {
      assert Current(Updated(idx, org, defs, names, base), org) == m;
    }
  }

  /** Reconciling twice with the same definitions is the same as once. */
  lemma UpdatedIdempotent(idx: Index, org: string, defs: map<string, Pattern>, names: set<string>, base: string)
    ensures Updated(Updated(idx, org, defs, names, base), org, defs, names, base) ==
            Updated(idx, org, defs, names, base)
  {
    var r := Updated(idx, org, defs, names, base);
    var m := ReconciledOrg(Current(idx, org), org, defs, names, base);
    UpdatedStable(idx, org, defs, names, base);
    UpdatedShape(idx, org, defs, names, base);
    Reassembled(r, org, m);
  }

  lemma UpdatedShape(idx: Index, org: string, defs: map<string, Pattern>, names: set<string>, base: string)
    ensures var m := ReconciledOrg(Current(idx, org), org, defs, names, base);
      (|m| == 0 ==> org !in Updated(idx, org, defs, names, base)) &&
      (|m| != 0 ==> org in Updated(idx, org, defs, names, base) && Updated(idx, org, defs, names, base)[org] == m)
  {
  }

  lemma Reassembled(r: Index, org: string, m: OrgIndex)
    requires |m| == 0 ==> org !in r
    requires |m| != 0 ==> org in r && r[org] == m
    ensures (if |m| == 0 then r - {org} else r[org := m]) == r
  {
  }

  // ---------------------------------------------------------------------------
  // Convergence.
  // ---------------------------------------------------------------------------

  /** Every entry was generated under `base` from the definition it holds. */
  ghost predicate Generated(idx: Index, base: string)
  {
    forall o, n :: o in idx && n in idx[o] ==> idx[o][n] == GeneratedEntry(base, o, n, idx[o][n].pattern)
  }

  /** No entry of `c` carries the hash of a different definition of its pattern. */
  ghost predicate NoCollision(c: OrgIndex, defs: map<string, Pattern>)
  {
    forall n :: n in c && n in defs && c[n].hash == HashPattern(defs[n]) ==> c[n].pattern == defs[n]
  }

  lemma GeneratedPruned(idx: Index, want: map<string, set<string>>, base: string)
    requires Generated(idx, base)
    ensures Generated(Pruned(idx, want), base)
  {
  }

  lemma GeneratedUpdated(idx: Index, org: string, defs: map<string, Pattern>, names: set<string>, base: string)
    requires Generated(idx, base)
    ensures Generated(Updated(idx, org, defs, names, base), base)
  {
    var r: Index := Updated(idx, org, defs, names, base);
    forall o: string, n: string | o in r && n in r[o] ensures r[o][n] == GeneratedEntry(base, o, n, r[o][n].pattern) {
      if o != org {
        assert r[o] == idx[o];
      }
    }
  }

  /** An organisation reconciled from any earlier state generated under the
      same base path ends with the entries a new manager would have: there
      is no residue of earlier definitions. */
  lemma UpdatedConverges(idx: Index, org: string, defs: map<string, Pattern>, names: set<string>, base: string)
    requires Generated(idx, base) && NoCollision(Current(idx, org), defs)
    ensures Current(Updated(idx, org, defs, names, base), org) ==
            Current(Updated(map[], org, defs, names, base), org)
  {
    var c := Current(idx, org);
    var m := ReconciledOrg(c, org, defs, names, base);
    var m0 := ReconciledOrg(map[], org, defs, names, base);
    forall n | n in m ensures m[n] == m0[n] {
      if n in c && c[n].hash == HashPattern(defs[n]) {
        assert c[n] == GeneratedEntry(base, org, n, c[n].pattern);
      }
    }
    assert m == m0;
  }

  // ---------------------------------------------------------------------------
  // The served feed.
  // ---------------------------------------------------------------------------

  /** Some record of the feed serves pattern `n` of `org`. */
  predicate Serves(feed: map<string, ServedPattern>, org: string, n: string)
  {
    exists k :: k in feed && feed[k].org == org && feed[k].pattern == n
  }

  /** Grouping the feed by organisation loses and invents nothing. */
  lemma ServedByOrgMember(feed: map<string, ServedPattern>, org: string, n: string)
    ensures n in ServedIn(ServedByOrg(feed), org) <==> Serves(feed, org, n)
  {
    if Serves(feed, org, n) {
      var k :| k in feed && feed[k].org == org && feed[k].pattern == n;
      assert feed[k].org in ServedByOrg(feed);
    }
  }
}
