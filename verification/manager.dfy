/**
  The pattern manager: the index of served patterns and the policy files on
  disk, kept in step by SetCurrentPatterns and UpdatePatternPolicies.
 */
module Manager {
  import opened Patterns
  import opened PatternEntries
  import opened PatternIndex
  import opened Reconcile

  class PatternManager {
    /** organisation -> pattern name -> entry */
    var orgPatterns: Index
    /** the served pattern names of each organisation, from the last SetCurrentPatterns */
    var served: map<string, set<string>>
    /** the policy files that exist on disk */
    ghost var disk: set<PolicyFile>
    /** every policy file written so far, in the order of writing */
    ghost var written: seq<PolicyFile>

    /** The disk holds exactly the files the entries list: none is missing and
        none is left over, and each entry's files belong to its organisation and pattern. */
    ghost predicate Stored()
      reads this
    {
      Owned(orgPatterns) && disk == IndexedFiles(orgPatterns)
    }

    ghost predicate Valid()
      reads this
    {
      Stored() && Hashed(orgPatterns) && ServedOnly(orgPatterns, served)
    }

    /** A new manager over an empty policy directory. */
    constructor ()
      ensures Valid()
      ensures orgPatterns == map[] && served == map[] && disk == {} && written == []
    {
      orgPatterns := map[];
      served := map[];
      disk := {};
      written := [];
    }

    function HasOrg(org: string): (b: bool)
      reads this
      ensures b <==> org in orgPatterns
      ensures b && Valid() ==> org in served
    {
      org in orgPatterns
    }

    function HasPattern(org: string, name: string): (b: bool)
      reads this
      ensures b ==> HasOrg(org)
      ensures b <==> org in orgPatterns && name in orgPatterns[org]
      ensures b && Valid() ==> name in ServedIn(served, org)
    {
      org in orgPatterns && name in orgPatterns[org]
    }

    /** Removes the given policy files from disk, one at a time. */
    method DeleteFiles(files: seq<PolicyFile>)
      modifies this`disk
      ensures disk == old(disk) - FileSet(files)
    {
      var i := 0;
      while i < |files|
        invariant 0 <= i <= |files|
        invariant disk == old(disk) - FileSet(files[..i])
      {
        disk := disk - {files[i]};
        assert FileSet(files[..i + 1]) == FileSet(files[..i]) + {files[i]} by {
          assert files[..i + 1] == files[..i] + [files[i]];
        }
        i := i + 1;
      }
      assert files[..i] == files;
    }

    /** Writes the given policy files to disk, one at a time. */
    method WriteFiles(files: seq<PolicyFile>)
      modifies this`disk, this`written
      ensures disk == old(disk) + FileSet(files)
      ensures written == old(written) + files
    {
      var i := 0;
      while i < |files|
        invariant 0 <= i <= |files|
        invariant disk == old(disk) + FileSet(files[..i])
        invariant written == old(written) + files[..i]
      {
        disk := disk + {files[i]};
        written := written + [files[i]];
        assert FileSet(files[..i + 1]) == FileSet(files[..i]) + {files[i]} by {
          assert files[..i + 1] == files[..i] + [files[i]];
        }
        i := i + 1;
      }
      assert files[..i] == files;
    }

    /** Removes the entry of one pattern and deletes its policy files. */
    method DeletePattern(org: string, name: string)
      requires Stored() && org in orgPatterns && name in orgPatterns[org]
      modifies this
      ensures Stored()
      ensures orgPatterns == old(orgPatterns)[org := old(orgPatterns)[org] - {name}]
      ensures disk == old(disk) - FileSet(old(orgPatterns)[org][name].policyFileNames)
      ensures served == old(served) && written == old(written)
    {
      RemoveEntryFiles(orgPatterns, org, name);
      DeleteFiles(orgPatterns[org][name].policyFileNames);
      orgPatterns := orgPatterns[org := orgPatterns[org] - {name}];
    }

    /** Removes every entry of `org` whose pattern is not in `keep`, with its files. */
    method PruneOrgPatterns(org: string, keep: set<string>)
      requires Stored() && org in orgPatterns
      modifies this
      ensures Stored()
      ensures orgPatterns == old(orgPatterns)[org := PruneOrg(old(orgPatterns)[org], keep)]
      ensures disk <= old(disk)
      ensures served == old(served) && written == old(written)
    {
      ghost var m0 := orgPatterns[org];
      var names := orgPatterns[org].Keys;
      KeepOrgStart(m0, keep);
      while names != {}
        invariant Stored() && served == old(served) && disk <= old(disk) && written == old(written)
        invariant names <= m0.Keys
        invariant orgPatterns == old(orgPatterns)[org := KeepOrg(m0, names, keep)]
        decreases |names|
      {
        var n :| n in names;
        KeepOrgStep(m0, names, keep, n);
        if n !in keep {
          DeletePattern(org, n);
        }
        names := names - {n};
      }
      KeepOrgEnd(m0, keep);
    }

    /** Removes `org` from the index and deletes all of its policy files. */
    method DeleteOrg(org: string)
      requires Stored()
      modifies this
      ensures Stored()
      ensures orgPatterns == old(orgPatterns) - {org}
      ensures disk == old(disk) - OrgFiles(Current(old(orgPatterns), org))
      ensures served == old(served) && written == old(written)
    {
      ghost var idx0 := orgPatterns;
      RemoveOrgFiles(idx0, org);
      if org in orgPatterns {
        PruneOrgPatterns(org, {});
        RemoveOrgFiles(orgPatterns, org);
        orgPatterns := orgPatterns - {org};
        assert orgPatterns == idx0 - {org};
      }
    }

    /** Takes the served (organisation, pattern) feed: drops every organisation
        that is no longer served together with its files, drops the entries of
        patterns no longer served, and adds each newly served organisation with
        no entries. It never writes a file. */
    method SetCurrentPatterns(servedPatterns: map<string, ServedPattern>, policyPath: string)
      requires Valid()
      modifies this
      ensures Valid()
      ensures served == ServedByOrg(servedPatterns)
      ensures orgPatterns == Pruned(old(orgPatterns), served)
      ensures disk <= old(disk) && written == old(written)
      ensures forall o :: o !in served ==> !HasOrg(o) && FilesUnder(disk, o) == {}
      ensures forall o, n :: HasPattern(o, n) ==> FileSet(orgPatterns[o][n].policyFileNames) <= disk
    {
      var want := ServedByOrg(servedPatterns);
      ghost var idx0 := orgPatterns;
      var todo := orgPatterns.Keys;
      PartlyPrunedStart(idx0, want);
      while todo != {}
        invariant Stored() && disk <= old(disk) && written == old(written)
        invariant todo <= idx0.Keys
        invariant orgPatterns == PartlyPruned(idx0, want, todo)
        decreases |todo|
      {
        var org :| org in todo;
        PartlyPrunedStep(idx0, want, todo, org);
        if org !in want {
          DeleteOrg(org);
        } else {
          PruneOrgPatterns(org, want[org]);
        }
        todo := todo - {org};
      }
      var seeds: Index := map o | o in want && o !in orgPatterns :: map[];
      AddEmptyOrgsFiles(orgPatterns, seeds);
      PartlyPrunedEnd(idx0, want, seeds);
      orgPatterns := orgPatterns + seeds;
      served := want;
      PrunedKeepsInvariants(idx0, want);
      forall o | o !in want ensures FilesUnder(disk, o) == {} {
        PrunedDropsOrg(idx0, want, o);
      }
      forall o, n | HasPattern(o, n) ensures FileSet(orgPatterns[o][n].policyFileNames) <= disk {
        EntryFilesIndexed(orgPatterns, o, n);
      }
    }

    /** Reconciles one served and defined pattern `n` of `org` with its
        definition `p`: when there is no entry yet, or the entry's hash differs
        from the definition's, deletes the old files, generates the new ones and
        stores a new entry; otherwise changes nothing. */
    method ReconcilePattern(org: string, n: string, p: Pattern, policyPath: string)
      requires Stored() && Hashed(orgPatterns)
      modifies this
      ensures Stored() && Hashed(orgPatterns)
      ensures served == old(served)
      ensures orgPatterns - {org} == old(orgPatterns) - {org}
      ensures Current(orgPatterns, org) ==
        Current(old(orgPatterns), org)[n := ReconciledEntry(Current(old(orgPatterns), org), org, n, p, policyPath)]
      ensures written == old(written) +
        if Stale(Current(old(orgPatterns), org), n, p) then PolicyFilesFor(policyPath, org, n, p) else []
    {
      ghost var c0 := Current(orgPatterns, org);
      var hash := HashPattern(p);
      if n in Current(orgPatterns, org) && Current(orgPatterns, org)[n].hash == hash {
        assert c0 == c0[n := c0[n]];
        return;
      }
      ghost var idx0 := orgPatterns;
      if n in Current(orgPatterns, org) {
        RemoveEntry(orgPatterns, org, n);
        DeletePattern(org, n);
      }
      assert orgPatterns - {org} == idx0 - {org};
      assert Current(orgPatterns, org) == c0 - {n};
      var entry := NewPatternEntry(p);
      var files := PolicyFilesFor(policyPath, org, n, p);
      WriteFiles(files);
      entry := entry.(policyFileNames := files);
      assert entry == ReconciledEntry(c0, org, n, p, policyPath);
      AddEntryFiles(orgPatterns, org, n, entry);
      SetEntry(orgPatterns, org, n, entry);
      orgPatterns := orgPatterns[org := Current(orgPatterns, org)[n := entry]];
      ReplaceAfterRemove(c0, n, entry);
    }

    /** The loop of UpdatePatternPolicies over the defined patterns: each one
        that is served is reconciled with its definition. */
    method AddOrReplacePatterns(org: string, defs: map<string, Pattern>, names: set<string>, policyPath: string)
      requires Stored() && Hashed(orgPatterns)
      requires Current(orgPatterns, org).Keys <= defs.Keys && Current(orgPatterns, org).Keys <= names
      modifies this
      ensures Stored() && Hashed(orgPatterns)
      ensures served == old(served)
      ensures orgPatterns - {org} == old(orgPatterns) - {org}
      ensures Current(orgPatterns, org) ==
        ReconciledOrg(Current(old(orgPatterns), org), org, defs, names, policyPath)
      ensures old(written) <= written
      ensures forall f :: f in written[|old(written)|..] ==>
        Regenerated(Current(old(orgPatterns), org), org, defs, names, policyPath, f)
    {
      ghost var c0 := Current(orgPatterns, org);
      ghost var w0 := written;
      var todo := defs.Keys;
      PartlyReconciledStart(c0, org, defs, names, policyPath);
      while todo != {}
        invariant Stored() && Hashed(orgPatterns) && served == old(served)
        invariant orgPatterns - {org} == old(orgPatterns) - {org}
        invariant todo <= defs.Keys
        invariant Current(orgPatterns, org) == PartlyReconciled(c0, org, defs, names, todo, policyPath)
        invariant w0 <= written
        invariant forall f :: f in written[|w0|..] ==> Regenerated(c0, org, defs, names, policyPath, f)
        decreases |todo|
      {
        var n :| n in todo;
        PartlyReconciledStep(c0, org, defs, names, todo, policyPath, n);
        if n in names {
          PartlyReconciledKeepsPending(c0, org, defs, names, todo, policyPath, n);
          ghost var w1 := written;
          ReconcilePattern(org, n, defs[n], policyPath);
          WritesRegenerated(c0, org, defs, names, policyPath, n, w0, w1, written);
        }
        todo := todo - {n};
      }
      PartlyReconciledEnd(c0, org, defs, names, policyPath);
    }

    /** Deletes the entries of `org` whose pattern is not in `keep`, with their files. */
    method DropUndefined(org: string, keep: set<string>)
      requires Stored() && Hashed(orgPatterns)
      modifies this
      ensures Stored() && Hashed(orgPatterns)
      ensures served == old(served)
      ensures orgPatterns - {org} == old(orgPatterns) - {org}
      ensures Current(orgPatterns, org) == PruneOrg(Current(old(orgPatterns), org), keep)
      ensures written == old(written)
    {
      if org in orgPatterns {
        RemoveEntriesKeepsHashed(orgPatterns, org, keep);
        PruneOrgPatterns(org, keep);
      } else {
        assert PruneOrg(map[], keep) == map[];
      }
    }

    /** Removes `org` from the index when it has no entry left. */
    method DropIfEmpty(org: string)
      requires Stored() && Hashed(orgPatterns)
      modifies this
      ensures Stored() && Hashed(orgPatterns)
      ensures served == old(served)
      ensures orgPatterns ==
        if org in old(orgPatterns) && |old(orgPatterns)[org]| == 0 then old(orgPatterns) - {org} else old(orgPatterns)
      ensures written == old(written)
    {
      if org in orgPatterns && |orgPatterns[org]| == 0 {
        RemoveOrgFiles(orgPatterns, org);
        RemoveOrgKeepsHashed(orgPatterns, org);
        orgPatterns := orgPatterns - {org};
      }
    }

    /** Reconciles the entries of `org` with its defined patterns `defs`
        (keyed by pattern name), given its served names: the body of
        UpdatePatternPolicies when at least one pattern is defined. */
    method ReconcileOrg(org: string, defs: map<string, Pattern>, names: set<string>, policyPath: string)
      requires Stored() && Hashed(orgPatterns)
      requires Current(orgPatterns, org).Keys <= names
      modifies this
      ensures Stored() && Hashed(orgPatterns)
      ensures served == old(served)
      ensures orgPatterns == Updated(old(orgPatterns), org, defs, names, policyPath)
      ensures old(written) <= written
      ensures forall f :: f in written[|old(written)|..] ==>
        Regenerated(Current(old(orgPatterns), org), org, defs, names, policyPath, f)
    {
      ghost var idx0 := orgPatterns;
      ghost var target := ReconciledOrg(Current(idx0, org), org, defs, names, policyPath);

      // Delete the entries of patterns that are no longer defined.
      DropUndefined(org, defs.Keys);
      ReconciledIgnoresUndefined(Current(idx0, org), org, defs, names, policyPath);

      // Add the new patterns and regenerate the changed ones.
      AddOrReplacePatterns(org, defs, names, policyPath);
      ghost var x := orgPatterns;

      // An organisation with no patterns left is removed.
      DropIfEmpty(org);
      UpdatedFromParts(idx0, x, org, target);
      forall f | f in written[|old(written)|..]
        ensures Regenerated(Current(idx0, org), org, defs, names, policyPath, f)
      {
        StaleAfterPrune(Current(idx0, org), defs.Keys, f.pattern, defs[f.pattern]);
      }
    }

    /** The body of UpdatePatternPolicies on the defined patterns keyed by
        name: with none defined the organisation is deleted, otherwise it is
        reconciled. Only files of stale defined and served patterns are
        written, so nothing is written when none is stale. */
    method ApplyDefinitions(org: string, defs: map<string, Pattern>, names: set<string>, policyPath: string)
      requires Stored() && Hashed(orgPatterns)
      requires Current(orgPatterns, org).Keys <= names
      modifies this
      ensures Stored() && Hashed(orgPatterns)
      ensures served == old(served)
      ensures orgPatterns == Updated(old(orgPatterns), org, defs, names, policyPath)
      ensures old(written) <= written
      ensures forall f :: f in written[|old(written)|..] ==>
        Regenerated(Current(old(orgPatterns), org), org, defs, names, policyPath, f)
      ensures NothingStale(Current(old(orgPatterns), org), defs, names) ==> written == old(written)
    {
      ghost var idx0 := orgPatterns;
      if |defs| == 0 {
        DeleteOrg(org);
        assert defs == map[];
        UpdatedNothingDefined(idx0, org, names, policyPath);
        assert written[|old(written)|..] == [];
      } else {
        ReconcileOrg(org, defs, names, policyPath);
      }
      WritesOnlyIfStale(Current(idx0, org), org, defs, names, policyPath, old(written), written);
    }

    /** Takes the defined patterns of one organisation, keyed `org/name`:
        deletes the entries (and files) of patterns no longer defined, generates
        files for each defined and served pattern that is new or whose hash
        changed, leaves an entry with an unchanged hash untouched, and removes
        the organisation when it is left with no entry. When no pattern is
        defined at all, the organisation and all its files are deleted. Files
        are written only for stale patterns: when every defined and served
        pattern already has an entry with its definition's hash, nothing is
        written. */
    method UpdatePatternPolicies(org: string, definedPatterns: map<string, Pattern>, policyPath: string)
      requires Valid()
      requires AllQualifiedIn(org, definedPatterns)
      modifies this
      ensures Valid()
      ensures served == old(served)
      ensures orgPatterns ==
        Updated(old(orgPatterns), org, DefinedByName(org, definedPatterns), ServedIn(served, org), policyPath)
      ensures forall n :: HasPattern(org, n) <==> Qualify(org, n) in definedPatterns && n in ServedIn(served, org)
      ensures HasOrg(org) <==> exists n :: Qualify(org, n) in definedPatterns && n in ServedIn(served, org)
      ensures orgPatterns - {org} == old(orgPatterns) - {org}
      ensures forall n :: HasPattern(org, n) ==> FileSet(orgPatterns[org][n].policyFileNames) <= disk
      ensures forall o :: o != org ==> FilesUnder(disk, o) == FilesUnder(old(disk), o)
      ensures old(written) <= written
      ensures forall f :: f in written[|old(written)|..] ==>
        Regenerated(Current(old(orgPatterns), org), org, DefinedByName(org, definedPatterns),
                    ServedIn(served, org), policyPath, f)
      ensures NothingStale(Current(old(orgPatterns), org), DefinedByName(org, definedPatterns), ServedIn(served, org)) ==>
        written == old(written)
    {
      var defs := DefinedByName(org, definedPatterns);
      var names := ServedIn(served, org);
      ghost var idx0 := orgPatterns;
      ApplyDefinitions(org, defs, names, policyPath);
      UpdatedKeepsInvariants(idx0, served, org, defs, policyPath);
      UpdatedSummary(idx0, org, definedPatterns, names, policyPath);
      forall n | HasPattern(org, n) ensures FileSet(orgPatterns[org][n].policyFileNames) <= disk {
        EntryFilesIndexed(orgPatterns, org, n);
      }
      forall o | o != org ensures FilesUnder(disk, o) == FilesUnder(old(disk), o) {
        UpdatedFrame(idx0, org, defs, names, policyPath, o);
      }
    }
  }
}
