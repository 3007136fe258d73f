/**
  The periodic pass of the agent that drives the pattern manager: apply the
  served feed, then the defined patterns of each organisation, one
  organisation at a time; and the same pass repeated.
 */
module Rounds {
  import opened Patterns
  import opened PatternIndex
  import opened Reconcile
  import opened Manager

  /** Every organisation's defined-pattern keys are qualified with that organisation. */
  ghost predicate Qualified(defined: map<string, map<string, Pattern>>)
  {
    forall o :: o in defined ==> AllQualifiedIn(o, defined[o])
  }

  /** After its reconciliation, organisation `o` holds exactly the patterns in
      `names`, and is indexed exactly when there is one. */
  ghost predicate Settled(idx: Index, o: string, names: set<string>)
  {
    (o in idx <==> names != {}) && Current(idx, o).Keys == names
  }

  /** The names of the patterns of `o` that are both defined and served. */
  function ServedDefined(served: map<string, set<string>>, o: string, defs: map<string, Pattern>): set<string>
    requires AllQualifiedIn(o, defs)
  {
    DefinedByName(o, defs).Keys * ServedIn(served, o)
  }

  /** Every organisation of `defined` has an entry carrying its definition's
      hash for each pattern it defines and that is served. */
  ghost predicate AllUpToDate(idx: Index, served: map<string, set<string>>, defined: map<string, map<string, Pattern>>)
    requires Qualified(defined)
  {
    forall o :: o in defined ==> NothingStale(Current(idx, o), DefinedByName(o, defined[o]), ServedIn(served, o))
  }

  /** Every organisation of `defined` in `orgs` is up to date. */
  ghost predicate UpToDateOn(idx: Index, served: map<string, set<string>>,
                             defined: map<string, map<string, Pattern>>, orgs: set<string>)
    requires Qualified(defined)
  {
    forall o :: o in defined && o in orgs ==>
      NothingStale(Current(idx, o), DefinedByName(o, defined[o]), ServedIn(served, o))
  }

  /** Every organisation of `defined` outside `todo` is settled and up to date. */
  ghost predicate DoneOutside(idx: Index, served: map<string, set<string>>,
                              defined: map<string, map<string, Pattern>>, todo: set<string>)
    requires Qualified(defined)
  {
    forall o :: o in defined && o !in todo ==>
      Settled(idx, o, ServedDefined(served, o, defined[o])) &&
      NothingStale(Current(idx, o), DefinedByName(o, defined[o]), ServedIn(served, o))
  }

  /** Reconciling `org` settles it and brings it up to date. */
  lemma SettledAfterUpdate(idx: Index, served: map<string, set<string>>,
                           defined: map<string, map<string, Pattern>>, todo: set<string>, org: string, base: string)
    requires Qualified(defined) && org in defined && org in todo
    requires DoneOutside(idx, served, defined, todo)
    ensures var r := Updated(idx, org, DefinedByName(org, defined[org]), ServedIn(served, org), base);
      DoneOutside(r, served, defined, todo - {org})
  {
    var defs := DefinedByName(org, defined[org]);
    var names := ServedIn(served, org);
    var r := Updated(idx, org, defs, names, base);
    forall o | o in defined && o !in todo - {org}
      ensures Settled(r, o, ServedDefined(served, o, defined[o]))
      ensures NothingStale(Current(r, o), DefinedByName(o, defined[o]), ServedIn(served, o))
    {
      if o == org {
        UpdatedServes(idx, org, defs, names, base);
        UpdatedLeavesNothingStale(idx, org, defs, names, base);
      } else {
        UpdatedFrame(idx, org, defs, names, base, o);
      }
    }
  }

  /** Reconciling `org` leaves every other organisation as up to date as it was. */
  lemma UpToDateAfterUpdate(idx: Index, served: map<string, set<string>>,
                            defined: map<string, map<string, Pattern>>, todo: set<string>, org: string, base: string)
    requires Qualified(defined) && org in defined
    requires UpToDateOn(idx, served, defined, todo)
    ensures UpToDateOn(Updated(idx, org, DefinedByName(org, defined[org]), ServedIn(served, org), base),
                       served, defined, todo - {org})
  {
    var r := Updated(idx, org, DefinedByName(org, defined[org]), ServedIn(served, org), base);
    forall o | o in defined && o in todo - {org}
      ensures NothingStale(Current(r, o), DefinedByName(o, defined[o]), ServedIn(served, o))
    {
      UpdatedFrame(idx, org, DefinedByName(org, defined[org]), ServedIn(served, org), base, o);
    }
  }

  /** A settled organisation is present exactly when one of its defined
      patterns is served, and holds exactly its defined and served patterns. */
  lemma SettledMeans(idx: Index, feed: map<string, ServedPattern>, o: string, defs: map<string, Pattern>)
    requires AllQualifiedIn(o, defs)
    requires Settled(idx, o, ServedDefined(ServedByOrg(feed), o, defs))
    ensures o in idx <==> exists n :: Qualify(o, n) in defs && Serves(feed, o, n)
    ensures forall n :: (o in idx && n in idx[o]) <==> Qualify(o, n) in defs && Serves(feed, o, n)
  {
    var names := ServedDefined(ServedByOrg(feed), o, defs);
    forall n ensures n in names <==> Qualify(o, n) in defs && Serves(feed, o, n) {
      ServedByOrgMember(feed, o, n);
    }
    if o in idx {
      var n :| n in names;
      assert Qualify(o, n) in defs && Serves(feed, o, n);
    }
  }

  /** A served feed applied to an index in which every organisation of
      `defined` is up to date under that same feed leaves them up to date. */
  lemma PrunedAllUpToDate(idx: Index, want: map<string, set<string>>, defined: map<string, map<string, Pattern>>)
    requires Qualified(defined) && AllUpToDate(idx, want, defined)
    ensures AllUpToDate(Pruned(idx, want), want, defined)
  {
    forall o | o in defined
      ensures NothingStale(Current(Pruned(idx, want), o), DefinedByName(o, defined[o]), ServedIn(want, o))
    {
      PrunedKeepsNothingStale(idx, want, o, DefinedByName(o, defined[o]));
    }
  }

  /** Once no organisation is left to do, every organisation of `defined` is
      settled and up to date. */
  lemma DoneAll(idx: Index, served: map<string, set<string>>, defined: map<string, map<string, Pattern>>)
    requires Qualified(defined) && DoneOutside(idx, served, defined, {})
    ensures forall o :: o in defined ==> Settled(idx, o, ServedDefined(served, o, defined[o]))
    ensures AllUpToDate(idx, served, defined)
  {
  }

  /** Reconciles one organisation still to do. Afterwards it is settled and up
      to date; when every organisation still to do was up to date, nothing is
      written and the others still to do remain up to date. */
  method SettleNext(pm: PatternManager, defined: map<string, map<string, Pattern>>, todo: set<string>,
                    org: string, policyPath: string)
    requires pm.Valid() && Qualified(defined) && org in todo && todo <= defined.Keys
    requires DoneOutside(pm.orgPatterns, pm.served, defined, todo)
    modifies pm
    ensures pm.Valid() && pm.served == old(pm.served)
    ensures DoneOutside(pm.orgPatterns, pm.served, defined, todo - {org})
    ensures old(UpToDateOn(pm.orgPatterns, pm.served, defined, todo)) ==>
      pm.written == old(pm.written) && UpToDateOn(pm.orgPatterns, pm.served, defined, todo - {org})
  {
    SettledAfterUpdate(pm.orgPatterns, pm.served, defined, todo, org, policyPath);
    if UpToDateOn(pm.orgPatterns, pm.served, defined, todo) {
      UpToDateAfterUpdate(pm.orgPatterns, pm.served, defined, todo, org, policyPath);
    }
    pm.UpdatePatternPolicies(org, defined[org], policyPath);
  }

  /** Reconciles every organisation of `defined` in turn. Afterwards each holds
      exactly its defined and served patterns, all up to date; when they all
      were up to date already, no file is written. */
  method SettleOrgs(pm: PatternManager, defined: map<string, map<string, Pattern>>, policyPath: string)
    requires pm.Valid() && Qualified(defined)
    modifies pm
    ensures pm.Valid() && pm.served == old(pm.served)
    ensures forall o :: o in defined ==> Settled(pm.orgPatterns, o, ServedDefined(pm.served, o, defined[o]))
    ensures AllUpToDate(pm.orgPatterns, pm.served, defined)
    ensures AllUpToDate(old(pm.orgPatterns), pm.served, defined) ==> pm.written == old(pm.written)
  {
    var todo := defined.Keys;
    while todo != {}
      invariant pm.Valid() && pm.served == old(pm.served)
      invariant todo <= defined.Keys
      invariant DoneOutside(pm.orgPatterns, pm.served, defined, todo)
      invariant AllUpToDate(old(pm.orgPatterns), pm.served, defined) ==> pm.written == old(pm.written) && UpToDateOn(pm.orgPatterns, pm.served, defined, todo)
      decreases |todo|
    {
      var org :| org in todo;
      SettleNext(pm, defined, todo, org, policyPath);
      todo := todo - {org};
    }
    DoneAll(pm.orgPatterns, pm.served, defined);
  }

  /** One pass: applies the served feed, then reconciles every organisation
      of `defined`. Afterwards each of those organisations is present exactly
      when one of its defined patterns is served, holds a pattern exactly when
      it is defined and served, and is up to date. A pass over the feed and
      definitions a previous pass already applied writes no file. */
  method ServeRound(pm: PatternManager, feed: map<string, ServedPattern>,
                    defined: map<string, map<string, Pattern>>, policyPath: string)
    requires pm.Valid() && Qualified(defined)
    modifies pm
    ensures pm.Valid()
    ensures pm.served == ServedByOrg(feed)
    ensures forall o :: o in defined ==>
      (pm.HasOrg(o) <==> exists n :: Qualify(o, n) in defined[o] && Serves(feed, o, n))
    ensures forall o, n :: o in defined ==>
      (pm.HasPattern(o, n) <==> Qualify(o, n) in defined[o] && Serves(feed, o, n))
    ensures AllUpToDate(pm.orgPatterns, pm.served, defined)
    ensures old(pm.served) == ServedByOrg(feed) && AllUpToDate(old(pm.orgPatterns), old(pm.served), defined) ==>
      pm.written == old(pm.written)
  {
    pm.SetCurrentPatterns(feed, policyPath);
    if old(pm.served) == pm.served && AllUpToDate(old(pm.orgPatterns), pm.served, defined) {
      PrunedAllUpToDate(old(pm.orgPatterns), pm.served, defined);
    }
    SettleOrgs(pm, defined, policyPath);
    forall o | o in defined
      ensures pm.HasOrg(o) <==> exists n :: Qualify(o, n) in defined[o] && Serves(feed, o, n)
      ensures forall n :: pm.HasPattern(o, n) <==> Qualify(o, n) in defined[o] && Serves(feed, o, n)
    {
      SettledMeans(pm.orgPatterns, feed, o, defined[o]);
    }
  }

  /** Further passes with the feed and definitions a pass has already
      applied: they keep the same organisations and patterns present, keep
      every organisation up to date, and write no file. */
  method RepeatRounds(pm: PatternManager, feed: map<string, ServedPattern>,
                      defined: map<string, map<string, Pattern>>, policyPath: string, passes: nat)
    requires pm.Valid() && Qualified(defined) && pm.served == ServedByOrg(feed)
    requires forall o :: o in defined ==>
      (pm.HasOrg(o) <==> exists n :: Qualify(o, n) in defined[o] && Serves(feed, o, n))
    requires forall o, n :: o in defined ==>
      (pm.HasPattern(o, n) <==> Qualify(o, n) in defined[o] && Serves(feed, o, n))
    requires AllUpToDate(pm.orgPatterns, pm.served, defined)
    modifies pm
    ensures pm.Valid() && pm.served == ServedByOrg(feed)
    ensures forall o :: o in defined ==>
      (pm.HasOrg(o) <==> exists n :: Qualify(o, n) in defined[o] && Serves(feed, o, n))
    ensures forall o, n :: o in defined ==>
      (pm.HasPattern(o, n) <==> Qualify(o, n) in defined[o] && Serves(feed, o, n))
    ensures AllUpToDate(pm.orgPatterns, pm.served, defined)
    ensures pm.written == old(pm.written)
  {
    var i := 0;
    while i < passes
      invariant pm.Valid() && pm.served == ServedByOrg(feed)
      invariant forall o :: o in defined ==>
        (pm.HasOrg(o) <==> exists n :: Qualify(o, n) in defined[o] && Serves(feed, o, n))
      invariant forall o, n :: o in defined ==>
        (pm.HasPattern(o, n) <==> Qualify(o, n) in defined[o] && Serves(feed, o, n))
      invariant AllUpToDate(pm.orgPatterns, pm.served, defined)
      invariant pm.written == old(pm.written)
    {
      ServeRound(pm, feed, defined, policyPath);
      i := i + 1;
    }
  }

  /** The pass repeated `rounds` times with the same feed and definitions:
      one pass, then `RepeatRounds` for the rest, so after every pass the
      same organisations and patterns are present and no pass after the
      first writes a file. Starting from the state such a pass leaves, no
      file is written at all. */
  method ServeRounds(pm: PatternManager, feed: map<string, ServedPattern>,
                     defined: map<string, map<string, Pattern>>, policyPath: string, rounds: nat)
    requires pm.Valid() && Qualified(defined) && rounds > 0
    modifies pm
    ensures pm.Valid()
    ensures forall o :: o in defined ==>
      (pm.HasOrg(o) <==> exists n :: Qualify(o, n) in defined[o] && Serves(feed, o, n))
    ensures forall o, n :: o in defined ==>
      (pm.HasPattern(o, n) <==> Qualify(o, n) in defined[o] && Serves(feed, o, n))
    ensures AllUpToDate(pm.orgPatterns, pm.served, defined)
    ensures old(pm.served) == ServedByOrg(feed) && AllUpToDate(old(pm.orgPatterns), old(pm.served), defined) ==>
      pm.written == old(pm.written)
  {
    ServeRound(pm, feed, defined, policyPath);
    RepeatRounds(pm, feed, defined, policyPath, rounds - 1);
  }
}
