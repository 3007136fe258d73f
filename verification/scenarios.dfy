/**
  Runs of the pattern manager in the shape of its unit tests, for any
  organisation and pattern names and any pattern definitions: a served
  organisation replaced by another, and a pattern and then a whole
  organisation removed by UpdatePatternPolicies.
 */
module Scenarios {
  import opened Patterns
  import opened PatternIndex
  import opened Reconcile
  import opened Manager

  /** A served-feed entry for pattern `name` of `org`. */
  function Served(org: string, name: string): ServedPattern
  {
    ServedPattern(org, name, "")
  }

  /** Keys built with Qualify belong to their organisation. */
  lemma QualifiedKeys(org: string, n1: string, p1: Pattern, n2: string, p2: Pattern)
    ensures AllQualifiedIn(org, map[Qualify(org, n1) := p1])
    ensures AllQualifiedIn(org, map[Qualify(org, n1) := p1, Qualify(org, n2) := p2])
  {
    QualifyRoundTrip(org, n1);
    QualifyRoundTrip(org, n2);
  }

  lemma QualifyInjective(org: string, a: string, b: string)
    ensures Qualify(org, a) == Qualify(org, b) ==> a == b
  {
    QualifyRoundTrip(org, a);
    QualifyRoundTrip(org, b);
  }

  lemma ServedByOrgOne(key: string, org: string, name: string)
    ensures ServedByOrg(map[key := Served(org, name)]) == map[org := {name}]
  {
    var feed := map[key := Served(org, name)];
    var w := ServedByOrg(feed);
    assert key in feed;
    assert ServedOrgs(feed) == {org};
    assert w[org] == {name} by {
      forall n ensures n in w[org] <==> n == name {
        if n in w[org] {
          var k :| k in feed && feed[k].org == org && feed[k].pattern == n;
        }
      }
    }
  }

  /** Serves exactly one pattern, `name` of `org`, and defines it: afterwards
      `org` is the only organisation, it holds that pattern, the pattern's
      files exist, and no other organisation has a file left. */
  method ServeOne(pm: PatternManager, key: string, org: string, name: string, p: Pattern, policyPath: string)
    requires pm.Valid()
    modifies pm
    ensures pm.Valid()
    ensures pm.orgPatterns.Keys == {org}
    ensures pm.HasPattern(org, name)
    ensures FileSet(pm.orgPatterns[org][name].policyFileNames) <= pm.disk
    ensures forall o :: o != org ==> FilesUnder(pm.disk, o) == {}
  {
    ServedByOrgOne(key, org, name);
    pm.SetCurrentPatterns(map[key := Served(org, name)], policyPath);
    assert pm.orgPatterns.Keys == {org};
    QualifiedKeys(org, name, p, name, p);
    pm.UpdatePatternPolicies(org, map[Qualify(org, name) := p], policyPath);
    assert pm.HasPattern(org, name);
  }

  /** Serving myorg1/pattern1 and defining it gives one organisation whose
      pattern's files exist; serving myorg2/pattern2 instead and defining it
      leaves only myorg2, whose pattern's files exist, and no file of myorg1. */
  method ReplaceServedOrg(org1: string, name1: string, p1: Pattern,
                          org2: string, name2: string, p2: Pattern, policyPath: string)
    returns (pm: PatternManager)
    requires org1 != org2
    ensures pm.Valid()
    ensures |pm.orgPatterns| == 1
    ensures pm.HasOrg(org2) && !pm.HasOrg(org1)
    ensures pm.HasPattern(org2, name2)
    ensures FileSet(pm.orgPatterns[org2][name2].policyFileNames) <= pm.disk
    ensures FilesUnder(pm.disk, org1) == {}
  {
    pm := new PatternManager();
    ServeOne(pm, org1 + "_" + name1, org1, name1, p1, policyPath);
    assert |pm.orgPatterns| == 1 && pm.HasOrg(org1) && pm.HasPattern(org1, name1);
    ServeOne(pm, org2 + "_" + name2, org2, name2, p2, policyPath);
    assert pm.orgPatterns.Keys == {org2};
  }

  lemma ServedByOrgThree(k1: string, k2: string, k3: string, o1: string, o2: string, n1: string, n2: string)
    requires k1 != k2 && k1 != k3 && k2 != k3 && o1 != o2
    ensures ServedByOrg(map[k1 := Served(o1, n1), k2 := Served(o1, n2), k3 := Served(o2, n2)]) ==
            map[o1 := {n1, n2}, o2 := {n2}]
  {
    var feed := map[k1 := Served(o1, n1), k2 := Served(o1, n2), k3 := Served(o2, n2)];
    ThreeFeedOrgs(feed, k1, k2, k3, o1, o2, n1, n2);
    ThreeFeedFirst(feed, k1, k2, k3, o1, o2, n1, n2);
    ThreeFeedSecond(feed, k1, k2, k3, o1, o2, n1, n2);
  }

  /** The three-entry feed serves exactly `o1` and `o2`. */
  lemma ThreeFeedOrgs(feed: map<string, ServedPattern>, k1: string, k2: string, k3: string,
                      o1: string, o2: string, n1: string, n2: string)
    requires k1 != k2 && k1 != k3 && k2 != k3
    requires feed == map[k1 := Served(o1, n1), k2 := Served(o1, n2), k3 := Served(o2, n2)]
    ensures ServedByOrg(feed).Keys == {o1, o2}
  {
    var w := ServedByOrg(feed);
    assert feed[k1].org == o1 && feed[k3].org == o2;
    forall o | o in w ensures o == o1 || o == o2 {
      var k :| k in feed && feed[k].org == o;
    }
  }

  /** The three-entry feed serves `n1` and `n2` of `o1`. */
  lemma ThreeFeedFirst(feed: map<string, ServedPattern>, k1: string, k2: string, k3: string,
                       o1: string, o2: string, n1: string, n2: string)
    requires k1 != k2 && k1 != k3 && k2 != k3 && o1 != o2
    requires feed == map[k1 := Served(o1, n1), k2 := Served(o1, n2), k3 := Served(o2, n2)]
    ensures o1 in ServedByOrg(feed) && ServedByOrg(feed)[o1] == {n1, n2}
  {
    var w := ServedByOrg(feed);
    assert feed[k1] == Served(o1, n1) && feed[k2] == Served(o1, n2);
    forall n | n in w[o1] ensures n == n1 || n == n2 {
      var k :| k in feed && feed[k].org == o1 && feed[k].pattern == n;
    }
  }

  /** The three-entry feed serves only `n2` of `o2`. */
  lemma ThreeFeedSecond(feed: map<string, ServedPattern>, k1: string, k2: string, k3: string,
                        o1: string, o2: string, n1: string, n2: string)
    requires k1 != k2 && k1 != k3 && k2 != k3 && o1 != o2
    requires feed == map[k1 := Served(o1, n1), k2 := Served(o1, n2), k3 := Served(o2, n2)]
    ensures o2 in ServedByOrg(feed) && ServedByOrg(feed)[o2] == {n2}
  {
    var w := ServedByOrg(feed);
    assert feed[k3] == Served(o2, n2);
    forall n | n in w[o2] ensures n == n2 {
      var k :| k in feed && feed[k].org == o2 && feed[k].pattern == n;
    }
  }

  /** Serves patterns `n1` and `n2` of `o1` and `n2` of `o2`. */
  method ServeThree(pm: PatternManager, k1: string, k2: string, k3: string,
                    o1: string, o2: string, n1: string, n2: string, policyPath: string)
    requires pm.Valid()
    requires k1 != k2 && k1 != k3 && k2 != k3 && o1 != o2
    modifies pm
    ensures pm.Valid()
    ensures pm.served == map[o1 := {n1, n2}, o2 := {n2}]
    ensures pm.orgPatterns.Keys == {o1, o2}
  {
    ServedByOrgThree(k1, k2, k3, o1, o2, n1, n2);
    pm.SetCurrentPatterns(map[k1 := Served(o1, n1), k2 := Served(o1, n2), k3 := Served(o2, n2)], policyPath);
  }

  /** Defines `n1` and `n2` for an organisation serving exactly those two, or
      only `n2`: it then holds exactly the served ones, and the other
      organisations do not change. */
  method DefineTwo(pm: PatternManager, org: string, n1: string, a: Pattern, n2: string, b: Pattern,
                   policyPath: string)
    requires pm.Valid() && n1 != n2
    requires ServedIn(pm.served, org) == {n1, n2} || ServedIn(pm.served, org) == {n2}
    modifies pm
    ensures pm.Valid() && pm.served == old(pm.served)
    ensures org in pm.orgPatterns && pm.orgPatterns[org].Keys == ServedIn(pm.served, org)
    ensures pm.orgPatterns - {org} == old(pm.orgPatterns) - {org}
  {
    QualifiedKeys(org, n1, a, n2, b);
    var defined := map[Qualify(org, n1) := a, Qualify(org, n2) := b];
    pm.UpdatePatternPolicies(org, defined, policyPath);
    assert Qualify(org, n2) in defined;
    TwoKeysServed(org, n1, a, n2, b, ServedIn(pm.served, org), pm.orgPatterns[org].Keys);
  }

  lemma TwoKeysServed(org: string, n1: string, a: Pattern, n2: string, b: Pattern,
                      names: set<string>, keys: set<string>)
    requires forall n :: n in keys <==> Qualify(org, n) in map[Qualify(org, n1) := a, Qualify(org, n2) := b] && n in names
    requires names <= {n1, n2}
    ensures keys == names
  {
    forall n ensures n in keys <==> n in names {
      QualifyInjective(org, n, n1);
      QualifyInjective(org, n, n2);
    }
  }

  /** Serves patterns `n1` and `n2` of `o1` and `n2` of `o2`, then defines
      `n1` and `n2` in both: `o1` holds both patterns and `o2` only the
      served one. */
  method ServeTwoOrgs(pm: PatternManager, k1: string, k2: string, k3: string,
                      o1: string, o2: string, n1: string, n2: string,
                      a: Pattern, b: Pattern, c: Pattern, d: Pattern, policyPath: string)
    requires pm.Valid()
    requires k1 != k2 && k1 != k3 && k2 != k3 && o1 != o2 && n1 != n2
    modifies pm
    ensures pm.Valid()
    ensures pm.served == map[o1 := {n1, n2}, o2 := {n2}]
    ensures pm.orgPatterns.Keys == {o1, o2}
    ensures pm.orgPatterns[o1].Keys == {n1, n2} && pm.orgPatterns[o2].Keys == {n2}
  {
    ServeThree(pm, k1, k2, k3, o1, o2, n1, n2, policyPath);
    ghost var x0 := pm.orgPatterns;
    DefineTwo(pm, o1, n1, a, n2, b, policyPath);
    ghost var x1 := pm.orgPatterns;
    DefineTwo(pm, o2, n1, c, n2, d, policyPath);
    TwoOrgsDefined(x0, x1, pm.orgPatterns, o1, o2, {n1, n2}, {n2});
  }

  /** Two organisations reconciled one after the other, each leaving the other alone. */
  lemma TwoOrgsDefined(x0: Index, x1: Index, x2: Index, o1: string, o2: string,
                       names1: set<string>, names2: set<string>)
    requires o1 != o2 && x0.Keys == {o1, o2}
    requires o1 in x1 && x1[o1].Keys == names1 && x1 - {o1} == x0 - {o1}
    requires o2 in x2 && x2[o2].Keys == names2 && x2 - {o2} == x1 - {o2}
    ensures x2.Keys == {o1, o2} && x2[o1].Keys == names1
  {
    assert o2 in x0 - {o1};
    assert o1 in x1 - {o2};
    assert x2[o1] == (x2 - {o2})[o1];
    forall o ensures o in x2 <==> o == o1 || o == o2 {
      if o != o1 && o != o2 {
        assert o in x2 <==> o in x2 - {o2};
        assert o in x1 <==> o in x1 - {o1};
        assert o !in x0 - {o1};
      }
    }
  }

  /** With `o1` holding `n1` and `n2` and `o2` holding `n2`: redefining `o1`
      with `n1` only deletes the files of `n2` and leaves one pattern;
      redefining it with nothing removes `o1` and every file of `n1`, while
      `o2` keeps its pattern and its files. */
  method RemovePatternThenOrg(k1: string, k2: string, k3: string,
                              o1: string, o2: string, n1: string, n2: string,
                              a: Pattern, b: Pattern, c: Pattern, d: Pattern, policyPath: string)
    returns (pm: PatternManager)
    requires k1 != k2 && k1 != k3 && k2 != k3 && o1 != o2 && n1 != n2
    ensures pm.Valid()
    ensures !pm.HasOrg(o1) && pm.HasOrg(o2) && pm.HasPattern(o2, n2)
    ensures FilesUnder(pm.disk, o1) == {}
    ensures FileSet(pm.orgPatterns[o2][n2].policyFileNames) <= pm.disk
  {
    pm := new PatternManager();
    ServeTwoOrgs(pm, k1, k2, k3, o1, o2, n1, n2, a, b, c, d, policyPath);
    RemoveOnePattern(pm, o1, n1, a, n2, policyPath);
    RemoveOrg(pm, o1, policyPath);
    assert o2 in pm.orgPatterns && n2 in pm.orgPatterns[o2];
    EntryFilesIndexed(pm.orgPatterns, o2, n2);
  }

  /** `org` holds `keep` and `drop`: defining only `keep` deletes every file
      of `drop` and leaves `org` with one pattern. */
  method RemoveOnePattern(pm: PatternManager, org: string, keep: string, p: Pattern, drop: string,
                          policyPath: string)
    requires pm.Valid() && keep != drop
    requires org in pm.orgPatterns && pm.orgPatterns[org].Keys == {keep, drop}
    modifies pm
    ensures pm.Valid() && pm.served == old(pm.served)
    ensures forall f :: f in old(pm.orgPatterns[org][drop].policyFileNames) ==> f !in pm.disk
    ensures org in pm.orgPatterns && |pm.orgPatterns[org]| == 1
    ensures pm.orgPatterns - {org} == old(pm.orgPatterns) - {org}
  {
    ghost var dropped := pm.orgPatterns[org][drop].policyFileNames;
    assert OrgOwned(org, pm.orgPatterns[org]) && EntryOwned(org, drop, pm.orgPatterns[org][drop]);
    assert keep in ServedIn(pm.served, org);
    QualifiedKeys(org, keep, p, keep, p);
    var defined := map[Qualify(org, keep) := p];
    pm.UpdatePatternPolicies(org, defined, policyPath);
    OneKeyServed(org, keep, p, ServedIn(pm.served, org), Current(pm.orgPatterns, org).Keys);
    forall f | f in dropped ensures f !in pm.disk {
      AbsentEntryNoFiles(pm.orgPatterns, org, drop, f);
    }
  }

  lemma OneKeyServed(org: string, n1: string, a: Pattern, names: set<string>, keys: set<string>)
    requires forall n :: n in keys <==> Qualify(org, n) in map[Qualify(org, n1) := a] && n in names
    requires n1 in names
    ensures keys == {n1}
  {
    forall n ensures n in keys <==> n == n1 {
      QualifyInjective(org, n, n1);
    }
  }

  /** Defining nothing for `org` removes it and every file in its directory,
      and no other organisation changes. */
  method RemoveOrg(pm: PatternManager, org: string, policyPath: string)
    requires pm.Valid()
    modifies pm
    ensures pm.Valid()
    ensures !pm.HasOrg(org) && FilesUnder(pm.disk, org) == {}
    ensures pm.orgPatterns == old(pm.orgPatterns) - {org}
  {
    ghost var idx := pm.orgPatterns;
    assert AllQualifiedIn(org, map[]);
    assert DefinedByName(org, map[]) == map[];
    pm.UpdatePatternPolicies(org, map[], policyPath);
    UpdatedEmptyRemovesOrg(idx, org, ServedIn(pm.served, org), policyPath);
    assert pm.orgPatterns == idx - {org};
  }

  /** The same definitions applied twice in a row: the second call changes
      nothing and writes no file, so the two calls together leave the index
      and write the files that one call does. */
  method UpdateTwice(pm: PatternManager, org: string, definedPatterns: map<string, Pattern>, policyPath: string)
    requires pm.Valid() && AllQualifiedIn(org, definedPatterns)
    modifies pm
    ensures pm.Valid() && pm.served == old(pm.served)
    ensures pm.orgPatterns ==
      Updated(old(pm.orgPatterns), org, DefinedByName(org, definedPatterns), ServedIn(pm.served, org), policyPath)
    ensures old(pm.written) <= pm.written
    ensures forall f :: f in pm.written[|old(pm.written)|..] ==>
      Regenerated(Current(old(pm.orgPatterns), org), org, DefinedByName(org, definedPatterns),
                  ServedIn(pm.served, org), policyPath, f)
  {
    var defs := DefinedByName(org, definedPatterns);
    var names := ServedIn(pm.served, org);
    pm.UpdatePatternPolicies(org, definedPatterns, policyPath);
    UpdatedLeavesNothingStale(old(pm.orgPatterns), org, defs, names, policyPath);
    UpdatedIdempotent(old(pm.orgPatterns), org, defs, names, policyPath);
    ghost var once := pm.written;
    pm.UpdatePatternPolicies(org, definedPatterns, policyPath);
    assert pm.written == once;
  }
}
