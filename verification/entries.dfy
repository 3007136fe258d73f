/**
  Pattern entries and the policy files generated from a pattern.
 */
module PatternEntries {
  import opened Patterns

  /** The path of a generated policy file. A file lives in the directory of
      its organisation under the base policy path and is named after the
      pattern, the reference and the version it was generated for. */
  datatype PolicyFile = PolicyFile(
    base: string,
    org: string,
    pattern: string,
    refUrl: string,
    refOrg: string,
    arch: string,
    version: string)

  function FileFor(base: string, org: string, name: string, r: Reference, v: WorkloadChoice): PolicyFile
  {
    PolicyFile(base, org, name, r.url, r.org, r.arch, v.version)
  }

  function ReferenceFiles(base: string, org: string, name: string, r: Reference, vs: seq<WorkloadChoice>)
    : (fs: seq<PolicyFile>)
    ensures forall v :: v in vs ==> FileFor(base, org, name, r, v) in fs
    ensures forall f :: f in fs ==> exists v :: v in vs && f == FileFor(base, org, name, r, v)
    ensures forall f :: f in fs ==> f.base == base && f.org == org && f.pattern == name
  {
    if vs == [] then []
    else [FileFor(base, org, name, r, vs[0])] + ReferenceFiles(base, org, name, r, vs[1..])
  }

  function ReferencesFiles(base: string, org: string, name: string, rs: seq<Reference>)
    : (fs: seq<PolicyFile>)
    ensures forall r, v :: r in rs && v in r.versions ==> FileFor(base, org, name, r, v) in fs
    ensures forall f :: f in fs ==> exists r, v :: r in rs && v in r.versions && f == FileFor(base, org, name, r, v)
    ensures forall f :: f in fs ==> f.base == base && f.org == org && f.pattern == name
  {
    if rs == [] then []
    else ReferenceFiles(base, org, name, rs[0], rs[0].versions) + ReferencesFiles(base, org, name, rs[1..])
  }

  /** The policy files generated for pattern `name` of `org` from definition `p`:
      one per (workload or service reference, version) pair and no other, all
      in the organisation's directory under `base`. */
  function PolicyFilesFor(base: string, org: string, name: string, p: Pattern): (fs: seq<PolicyFile>)
    ensures forall r, v :: r in p.workloads + p.services && v in r.versions ==>
      FileFor(base, org, name, r, v) in fs
    ensures forall f :: f in fs ==>
      exists r, v :: r in p.workloads + p.services && v in r.versions && f == FileFor(base, org, name, r, v)
    ensures forall f :: f in fs ==> f.base == base && f.org == org && f.pattern == name
  {
    ReferencesFiles(base, org, name, p.workloads + p.services)
  }

  /** What the manager keeps for one pattern: the definition, its content hash
      and the policy files generated from it. */
  datatype PatternEntry = PatternEntry(pattern: Pattern, hash: seq<byte>, policyFileNames: seq<PolicyFile>)

  /** A fresh entry for a definition: it keeps the definition, carries the
      definition's 32-byte hash, and has no policy files yet. */
  function NewPatternEntry(p: Pattern): (e: PatternEntry)
    ensures e.pattern == p
    ensures |e.hash| == 32 && e.hash == HashPattern(p)
    ensures e.policyFileNames == []
  {
    PatternEntry(p, HashPattern(p), [])
  }

  /** The entry the manager stores after generating the policy files of a
      definition: it lists the file of every version of every reference of
      the definition, and no other file. */
  function GeneratedEntry(base: string, org: string, name: string, p: Pattern): (e: PatternEntry)
    ensures e.pattern == p && e.hash == HashPattern(p)
    ensures forall f :: f in e.policyFileNames ==> f.org == org && f.pattern == name
    ensures forall r, v :: r in p.workloads + p.services && v in r.versions ==>
      FileFor(base, org, name, r, v) in e.policyFileNames
    ensures forall f :: f in e.policyFileNames ==>
      exists r, v :: r in p.workloads + p.services && v in r.versions && f == FileFor(base, org, name, r, v)
  {
    NewPatternEntry(p).(policyFileNames := PolicyFilesFor(base, org, name, p))
  }
}
