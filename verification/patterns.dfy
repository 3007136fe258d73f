/**
  Pattern definitions as the exchange delivers them, their canonical
  encoding, and the 32-byte content hash the pattern manager uses to decide
  whether a pattern changed.
 */
module Patterns {

  newtype byte = x: int | 0 <= x < 256

  datatype Option<T> = None | Some(value: T)

  /** One version a workload or service reference may be deployed at. */
  datatype WorkloadChoice = WorkloadChoice(
    version: string,
    deploymentOverrides: string,
    deploymentOverridesSignature: string)

  /** A workload reference or a service reference of a pattern: both have this shape. */
  datatype Reference = Reference(url: string, org: string, arch: string, versions: seq<WorkloadChoice>)

  datatype AgreementProtocol = AgreementProtocol(name: string, protocolVersion: int)

  /** A pattern definition. It is a value: two definitions with the same content are equal,
      however the fields were written when the value was built. */
  datatype Pattern = Pattern(
    owner: string,
    labelText: string,
    description: string,
    public: bool,
    workloads: seq<Reference>,
    services: seq<Reference>,
    agreementProtocols: seq<AgreementProtocol>)

  // ---------------------------------------------------------------------------
  // Canonical encoding. Fields are emitted in declaration order and lists are
  // emitted positionally after their length, so the encoding depends on the
  // content of a pattern only.
  // ---------------------------------------------------------------------------

  datatype Token = Str(s: string) | Flag(b: bool) | Int(i: int) | Count(n: nat)

  function EncodeItems<T>(xs: seq<T>, enc: T -> seq<Token>): seq<Token>
  {
    if xs == [] then [] else enc(xs[0]) + EncodeItems(xs[1..], enc)
  }

  function EncodeList<T>(xs: seq<T>, enc: T -> seq<Token>): seq<Token>
  {
    [Count(|xs|)] + EncodeItems(xs, enc)
  }

  function EncodeChoice(c: WorkloadChoice): seq<Token>
  {
    [Str(c.version), Str(c.deploymentOverrides), Str(c.deploymentOverridesSignature)]
  }

  function EncodeReference(r: Reference): seq<Token>
  {
    [Str(r.url), Str(r.org), Str(r.arch)] + EncodeList(r.versions, EncodeChoice)
  }

  function EncodeProtocol(a: AgreementProtocol): seq<Token>
  {
    [Str(a.name), Int(a.protocolVersion)]
  }

  function EncodePattern(p: Pattern): seq<Token>
  {
    [Str(p.owner), Str(p.labelText), Str(p.description), Flag(p.public)]
    + EncodeList(p.workloads, EncodeReference)
    + EncodeList(p.services, EncodeReference)
    + EncodeList(p.agreementProtocols, EncodeProtocol)
  }

  // ---------------------------------------------------------------------------
  // Decoding, the inverse of the encoding: it shows that the encoding keeps
  // every field of the pattern.
  // ---------------------------------------------------------------------------

  function DecodeItems<T>(n: nat, ts: seq<Token>, dec: seq<Token> -> Option<(T, seq<Token>)>)
    : Option<(seq<T>, seq<Token>)>
    decreases n
  {
    if n == 0 then Some(([], ts))
    else match dec(ts)
      case None => None
      case Some((x, rest)) =>
        match DecodeItems(n - 1, rest, dec)
        case None => None
        case Some((xs, rest')) => Some(([x] + xs, rest'))
  }

  function DecodeList<T>(ts: seq<Token>, dec: seq<Token> -> Option<(T, seq<Token>)>)
    : Option<(seq<T>, seq<Token>)>
  {
    if |ts| > 0 && ts[0].Count? then DecodeItems(ts[0].n, ts[1..], dec) else None
  }

  function DecodeChoice(ts: seq<Token>): Option<(WorkloadChoice, seq<Token>)>
  {
    if |ts| >= 3 && ts[0].Str? && ts[1].Str? && ts[2].Str?
    then Some((WorkloadChoice(ts[0].s, ts[1].s, ts[2].s), ts[3..]))
    else None
  }

  function DecodeReference(ts: seq<Token>): Option<(Reference, seq<Token>)>
  {
    if |ts| >= 3 && ts[0].Str? && ts[1].Str? && ts[2].Str? then
      match DecodeList(ts[3..], DecodeChoice)
      case None => None
      case Some((vs, rest)) => Some((Reference(ts[0].s, ts[1].s, ts[2].s, vs), rest))
    else None
  }

  function DecodeProtocol(ts: seq<Token>): Option<(AgreementProtocol, seq<Token>)>
  {
    if |ts| >= 2 && ts[0].Str? && ts[1].Int?
    then Some((AgreementProtocol(ts[0].s, ts[1].i), ts[2..]))
    else None
  }

  function DecodePattern(ts: seq<Token>): Option<Pattern>
  {
    if |ts| >= 4 && ts[0].Str? && ts[1].Str? && ts[2].Str? && ts[3].Flag? then
      match DecodeList(ts[4..], DecodeReference)
      case None => None
      case Some((ws, rest1)) =>
        match DecodeList(rest1, DecodeReference)
        case None => None
        case Some((ss, rest2)) =>
          match DecodeList(rest2, DecodeProtocol)
          case None => None
          case Some((as_, rest3)) =>
            if rest3 == [] then Some(Pattern(ts[0].s, ts[1].s, ts[2].s, ts[3].b, ws, ss, as_))
            else None
    else None
  }

  lemma {:induction false} ItemsRoundTrip<T>(
    xs: seq<T>, enc: T -> seq<Token>, dec: seq<Token> -> Option<(T, seq<Token>)>, rest: seq<Token>)
    requires forall x, r :: x in xs ==> dec(enc(x) + r) == Some((x, r))
    ensures DecodeItems(|xs|, EncodeItems(xs, enc) + rest, dec) == Some((xs, rest))
  {
    if xs != [] {
      var tail := EncodeItems(xs[1..], enc) + rest;
      assert EncodeItems(xs, enc) + rest == enc(xs[0]) + tail;
      assert dec(enc(xs[0]) + tail) == Some((xs[0], tail));
      assert forall x :: x in xs[1..] ==> x in xs;
      ItemsRoundTrip(xs[1..], enc, dec, rest);
      assert [xs[0]] + xs[1..] == xs;
    } else {
      assert EncodeItems(xs, enc) + rest == rest;
    }
  }

  lemma ListRoundTrip<T>(
    xs: seq<T>, enc: T -> seq<Token>, dec: seq<Token> -> Option<(T, seq<Token>)>, rest: seq<Token>)
    requires forall x, r :: x in xs ==> dec(enc(x) + r) == Some((x, r))
    ensures DecodeList(EncodeList(xs, enc) + rest, dec) == Some((xs, rest))
  {
    var ts := EncodeList(xs, enc) + rest;
    assert ts[1..] == EncodeItems(xs, enc) + rest;
    ItemsRoundTrip(xs, enc, dec, rest);
  }

  lemma ChoicesRoundTrip(cs: seq<WorkloadChoice>, rest: seq<Token>)
    ensures DecodeList(EncodeList(cs, EncodeChoice) + rest, DecodeChoice) == Some((cs, rest))
  {
    forall c, r | c in cs ensures DecodeChoice(EncodeChoice(c) + r) == Some((c, r)) {
      assert (EncodeChoice(c) + r)[3..] == r;
    }
    ListRoundTrip(cs, EncodeChoice, DecodeChoice, rest);
  }

  lemma ReferenceRoundTrip(x: Reference, rest: seq<Token>)
    ensures DecodeReference(EncodeReference(x) + rest) == Some((x, rest))
  {
    var ts := EncodeReference(x) + rest;
    assert ts[3..] == EncodeList(x.versions, EncodeChoice) + rest;
    ChoicesRoundTrip(x.versions, rest);
  }

  lemma ReferencesRoundTrip(xs: seq<Reference>, rest: seq<Token>)
    ensures DecodeList(EncodeList(xs, EncodeReference) + rest, DecodeReference) == Some((xs, rest))
  {
    forall x, r | x in xs ensures DecodeReference(EncodeReference(x) + r) == Some((x, r)) {
      ReferenceRoundTrip(x, r);
    }
    ListRoundTrip(xs, EncodeReference, DecodeReference, rest);
  }

  lemma ProtocolsRoundTrip(xs: seq<AgreementProtocol>, rest: seq<Token>)
    ensures DecodeList(EncodeList(xs, EncodeProtocol) + rest, DecodeProtocol) == Some((xs, rest))
  {
    forall x, r | x in xs ensures DecodeProtocol(EncodeProtocol(x) + r) == Some((x, r)) {
      assert (EncodeProtocol(x) + r)[2..] == r;
    }
    ListRoundTrip(xs, EncodeProtocol, DecodeProtocol, rest);
  }

  /** Decoding the canonical encoding of a pattern gives the pattern back. */
  lemma PatternRoundTrip(p: Pattern)
    ensures DecodePattern(EncodePattern(p)) == Some(p)
  {
    var ps := EncodeList(p.agreementProtocols, EncodeProtocol);
    var ss := EncodeList(p.services, EncodeReference);
    var ws := EncodeList(p.workloads, EncodeReference);
    var ts := EncodePattern(p);
    assert ts[4..] == ws + (ss + ps);
    ReferencesRoundTrip(p.workloads, ss + ps);
    ReferencesRoundTrip(p.services, ps + []);
    assert ps + [] == ps;
    ProtocolsRoundTrip(p.agreementProtocols, []);
  }

  /** The encoding is canonical: patterns with the same encoding have the same content,
      and patterns with different content have different encodings. */
  lemma EncodingCanonical(p: Pattern, q: Pattern)
    ensures EncodePattern(p) == EncodePattern(q) <==> p == q
  {
    if EncodePattern(p) == EncodePattern(q) {
      PatternRoundTrip(p);
      PatternRoundTrip(q);
    }
  }

  // ---------------------------------------------------------------------------
  // The 32-byte digest over the canonical encoding.
  // ---------------------------------------------------------------------------

  const DigestSize: nat := 32

  function Absorb(state: seq<byte>, x: int): (r: seq<byte>)
    requires |state| == DigestSize
    ensures |r| == DigestSize
  {
    state[1..] + [((state[0] as int * 31 + x) % 256) as byte]
  }

  function AbsorbChars(state: seq<byte>, s: string): (r: seq<byte>)
    requires |state| == DigestSize
    ensures |r| == DigestSize
    decreases |s|
  {
    if s == [] then state else AbsorbChars(Absorb(state, s[0] as int), s[1..])
  }

  function AbsorbToken(state: seq<byte>, t: Token): (r: seq<byte>)
    requires |state| == DigestSize
    ensures |r| == DigestSize
  {
    match t
    case Str(s) => AbsorbChars(Absorb(state, 1), s)
    case Flag(b) => Absorb(Absorb(state, 2), if b then 1 else 0)
    case Int(i) => Absorb(Absorb(state, 3), i)
    case Count(n) => Absorb(Absorb(state, 4), n)
  }

  function AbsorbTokens(state: seq<byte>, ts: seq<Token>): (r: seq<byte>)
    requires |state| == DigestSize
    ensures |r| == DigestSize
    decreases |ts|
  {
    if ts == [] then state else AbsorbTokens(AbsorbToken(state, ts[0]), ts[1..])
  }

  function Digest(ts: seq<Token>): (h: seq<byte>)
    ensures |h| == DigestSize
  {
    AbsorbTokens(seq(DigestSize, _ => 0), ts)
  }

  /** The content hash of a pattern: a digest of its canonical encoding. */
  function HashPattern(p: Pattern): (h: seq<byte>)
    ensures |h| == 32
  {
    Digest(EncodePattern(p))
  }

  // ---------------------------------------------------------------------------
  // The two test patterns of the hash test, built with their fields named in
  // two different orders.
  // ---------------------------------------------------------------------------

  function CoreServices(): seq<Reference>
  {
    [ Reference("https://internetofthings.ibmcloud.com/services/core-iot", "IBM", "amd64",
                [WorkloadChoice("3.0.0", "", "ng/uu...")]),
      Reference("https://internetofthings.ibmcloud.com/services/core", "IBM", "arm64",
                [WorkloadChoice("3.0.0", "", "N4gkO...")]),
      Reference("https://internetofthings.ibmcloud.com/services/core", "IBM", "arm",
                [WorkloadChoice("3.0.0", "", "p2Rwa...")]) ]
  }

  function TestPattern(): Pattern
  {
    Pattern(owner := "u1/u1", labelText := "Pattern",
            description := "Pattern for the service version of Core", public := true,
            workloads := [], services := CoreServices(),
            agreementProtocols := [AgreementProtocol("Basic", 0)])
  }

  function TestPattern2(): Pattern
  {
    Pattern(agreementProtocols := [AgreementProtocol("Basic", 0)],
            description := "Pattern for the service version of Core", public := true,
            owner := "u1/u1", labelText := "Pattern", workloads := [], services := CoreServices())
  }

  /** The same pattern written with its fields in another order hashes to the same 32 bytes. */
  lemma HashIgnoresFieldOrder()
    ensures HashPattern(TestPattern()) == HashPattern(TestPattern2())
    ensures |HashPattern(TestPattern())| == 32
  {
  }
}
