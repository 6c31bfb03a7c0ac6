/** The hashed values as JSON (the object types of verifier.ts, boundary.ts, simulate.ts, candidate-review.ts,
    history-store.ts and runtime/answers/candidate.ts), and why no two values share a canonical text. */
module JsonEncoding {
  import opened Collections
  import opened PolicyTypes
  import opened CanonicalJson

  /** How digests and times are written: `sha256:` with hexadecimal digits, and an ISO 8601 time. */
  datatype Spelling = Spelling(digest: Digest -> Units, date: int -> Units)

  /** No two digests are written alike, which for the real texts is the collision resistance of SHA-256. */
  ghost predicate CollisionFree(digest: Digest -> Units) {
    forall d, e :: digest(d) == digest(e) ==> d == e
  }

  ghost predicate Distinguishes(sp: Spelling) {
    && CollisionFree(sp.digest)
    && forall a, b :: sp.date(a) == sp.date(b) ==> a == b
  }

  // ---------- strings ----------

  function Unicode(c: CodePoint): Units {
    if c < 0x10000 then [c]
    else if c < 0x110000 then [0xd800 + (c - 0x10000) / 0x400, 0xdc00 + (c - 0x10000) % 0x400]
    else []
  }

  /** A string from its code points. */
  function CodeUnits(t: Text): Units {
    if t == [] then [] else Unicode(t[0]) + CodeUnits(t[1..])
  }

  predicate Halves(c: CodePoint, d: CodePoint) { 0xd800 <= c < 0xdc00 && 0xdc00 <= d < 0xe000 }

  /** What Array.from makes of a string: code points, surrogates only where they do not pair up. */
  ghost predicate Proper(t: Text) {
    && (forall c | c in t :: c < 0x110000)
    && (forall i | 0 <= i < |t| - 1 :: !Halves(t[i], t[i + 1]))
  }

  lemma ProperTail(t: Text)
    requires Proper(t) && t != []
    ensures Proper(t[1..]) && t[0] < 0x110000
  {
    assert t[0] in t;
    assert forall c | c in t[1..] :: c in t;
    forall i | 0 <= i < |t[1..]| - 1 ensures !Halves(t[1..][i], t[1..][i + 1]) {
      assert t[1..][i] == t[i + 1] && t[1..][i + 1] == t[i + 2];
    }
  }

  lemma FirstUnits(t: Text)
    requires Proper(t) && t != [] && t[0] < 0x110000
    ensures |CodeUnits(t)| > 0 && CodeUnits(t)[0] == Unicode(t[0])[0]
    ensures t[0] >= 0x10000 ==> Lead(CodeUnits(t)[0]) && |CodeUnits(t)| > 1 && Trail(CodeUnits(t)[1])
    ensures t[0] < 0x10000 ==> CodeUnits(t)[0] == t[0] && !(Lead(t[0]) && |CodeUnits(t)| > 1 && Trail(CodeUnits(t)[1]))
    ensures CodeUnits(t[1..]) == CodeUnits(t)[|Unicode(t[0])|..]
  {
    ProperTail(t);
    if t[0] < 0x10000 && |t| > 1 {
      assert t[1..][0] == t[1] && t[1] in t && !Halves(t[0], t[0 + 1]);
      assert CodeUnits(t)[1] == CodeUnits(t[1..])[0] == Unicode(t[1])[0];
    }
  }

  lemma {:induction false} CodeUnitsDiffer(t: Text, u: Text)
    requires Proper(t) && Proper(u) && CodeUnits(t) == CodeUnits(u)
    ensures t == u
  {
    if t != [] { ProperTail(t); FirstUnits(t); }
    if u != [] { ProperTail(u); FirstUnits(u); }
    if t != [] && u != [] {
      assert t[0] == u[0];
      CodeUnitsDiffer(t[1..], u[1..]);
      assert t == [t[0]] + t[1..] && u == [u[0]] + u[1..];
    }
  }

  function Codes(s: string): Text {
    seq(|s|, i requires 0 <= i < |s| => s[i] as int)
  }

  function Key(s: string): Units { CodeUnits(Codes(s)) }

  function String(s: string): Json { Str(Key(s)) }

  lemma KeysDiffer(s: string, r: string)
    requires Key(s) == Key(r)
    ensures s == r
  {
    assert Proper(Codes(s)) && Proper(Codes(r));
    CodeUnitsDiffer(Codes(s), Codes(r));
    assert |s| == |Codes(s)| == |Codes(r)| == |r|;
    forall i | 0 <= i < |s| ensures s[i] == r[i] { assert Codes(s)[i] == Codes(r)[i]; }
  }

  lemma StringsDiffer()
    ensures forall s, r {:trigger String(s), String(r)} | Same(String(s), String(r)) :: s == r
  {
    forall s, r | Same(String(s), String(r)) ensures s == r { KeysDiffer(s, r); }
  }

  function Number(n: int): Json { Num(n) }

  function Truth(b: bool): Json { Bool(b) }

  function Spelled(u: Units): Json { Str(u) }


  /** Strings, numbers and truth values have no keys. */
  lemma Scalars()
    ensures forall s :: UniqueKeys(String(s))
    ensures forall b, s, r :: UniqueKeys(Either(b, s, r))
    ensures forall n :: UniqueKeys(Number(n))
    ensures forall b :: UniqueKeys(Truth(b))
    ensures forall u :: UniqueKeys(Spelled(u))
  {}

  // ---------- arrays and objects ----------

  function ListOf(vs: seq<Json>): Items {
    if vs == [] then NoItems else Item(vs[0], ListOf(vs[1..]))
  }

  function Array(vs: seq<Json>): Json { Arr(ListOf(vs)) }

  lemma {:induction false} ArrayUnique(vs: seq<Json>)
    requires forall i | 0 <= i < |vs| :: UniqueKeys(vs[i])
    ensures UniqueKeys(Array(vs))
  {
    if vs != [] { ArrayUnique(vs[1..]); }
  }

  ghost predicate AllSame(vs: seq<Json>, ws: seq<Json>) {
    |vs| == |ws| && forall i | 0 <= i < |vs| :: Same(vs[i], ws[i])
  }

  lemma {:induction false} SameArrays(vs: seq<Json>, ws: seq<Json>)
    requires Same(Array(vs), Array(ws))
    ensures AllSame(vs, ws)
  {
    if vs != [] && ws != [] {
      SameArrays(vs[1..], ws[1..]);
      forall i | 0 <= i < |vs| ensures Same(vs[i], ws[i]) {
        if i > 0 { assert vs[i] == vs[1..][i - 1] && ws[i] == ws[1..][i - 1]; }
      }
    }
  }

  function Fields(names: seq<string>, vs: seq<Json>): Members {
    if names == [] || vs == [] then NoMembers else Member(Key(names[0]), vs[0], Fields(names[1..], vs[1..]))
  }

  function Object(names: seq<string>, vs: seq<Json>): Json { Obj(Fields(names, vs)) }

  lemma {:induction false} FieldNames(names: seq<string>, vs: seq<Json>, name: string)
    requires |names| == |vs|
    ensures HasKey(Fields(names, vs), Key(name)) <==> name in names
  {
    if names != [] {
      FieldNames(names[1..], vs[1..], name);
      if Key(names[0]) == Key(name) { KeysDiffer(names[0], name); }
    }
  }

  lemma {:induction false} ObjectUnique(names: seq<string>, vs: seq<Json>)
    requires |names| == |vs| && Distinct(names) && forall i | 0 <= i < |vs| :: UniqueKeys(vs[i])
    ensures UniqueKeys(Object(names, vs))
  {
    if names != [] {
      assert names[0] !in names[1..];
      ObjectUnique(names[1..], vs[1..]);
      FieldNames(names[1..], vs[1..], names[0]);
    }
  }

  lemma {:induction false} FieldAt(names: seq<string>, vs: seq<Json>, i: nat)
    requires |names| == |vs| && Distinct(names) && i < |names|
    ensures HasKey(Fields(names, vs), Key(names[i])) && Lookup(Fields(names, vs), Key(names[i])) == vs[i]
  {
    FieldNames(names, vs, names[i]);
    if i > 0 {
      if Key(names[0]) == Key(names[i]) { KeysDiffer(names[0], names[i]); }
      FieldAt(names[1..], vs[1..], i - 1);
    }
  }

  /** Objects of one shape are the same exactly field by field. */
  lemma SameObjects(names: seq<string>, vs: seq<Json>, ws: seq<Json>)
    requires |names| == |vs| == |ws| && Distinct(names)
    requires Same(Object(names, vs), Object(names, ws))
    ensures AllSame(vs, ws)
  {
    forall i | 0 <= i < |vs| ensures Same(vs[i], ws[i]) {
      FieldAt(names, vs, i);
      FieldAt(names, ws, i);
    }
  }

  lemma SameNames(names: seq<string>, vs: seq<Json>, others: seq<string>, ws: seq<Json>, name: string)
    requires |names| == |vs| && |others| == |ws| && Same(Object(names, vs), Object(others, ws))
    ensures name in names <==> name in others
  {
    FieldNames(names, vs, name);
    FieldNames(others, ws, name);
  }

  // ---------- words ----------

  function RoleWord(role: Role): string {
    match role
    case User => "user"
    case DomainReviewer => "domain_reviewer"
    case GovernanceOfficer => "governance_officer"
    case EngineeringMaintainer => "engineering_maintainer"
    case AccessAdministrator => "access_administrator"
  }

  function ModeWord(mode: Mode): string {
    match mode
    case DefaultMode => "DEFAULT"
    case GovernanceMode => "GOVERNANCE"
    case ArchitectMode => "ARCHITECT"
  }

  function ClassWord(c: ResourceClass): string {
    match c
    case Public => "public"
    case DomainRestricted => "domain_restricted"
    case EngineeringSandbox => "engineering_sandbox"
    case Protected => "protected"
  }

  function OperationWord(op: Operation): string {
    match op
    case Read => "read"
    case RequestReview => "request_review"
    case Test => "test"
    case Debug => "debug"
    case ProposeChange => "propose_change"
    case ReviewEvidence => "review_evidence"
    case ReviewRelease => "review_release"
  }

  function KindWord(kind: Kind): string { if kind == SnapshotKind then "snapshot" else "review" }
  function DecisionWord(d: Decision): string { if d == Approve then "APPROVE" else "REJECT" }

  function FindingWord(f: Finding): string {
    match f
    case Supported => "SUPPORTED"
    case Unsupported => "UNSUPPORTED"
    case UncertainFinding => "UNCERTAIN"
  }

  function FlagWord(f: Flag, cleared: string, not: string): string {
    match f
    case Cleared => cleared
    case NotCleared => not
    case UncertainFlag => "UNCERTAIN"
  }

  /** One of two words. */
  function Either(b: bool, yes: string, no: string): Json { String(if b then yes else no) }

  lemma RoleWordsDiffer(a: Role, b: Role)
    requires RoleWord(a) == RoleWord(b)
    ensures a == b
  {}

  lemma ModeWordsDiffer(a: Mode, b: Mode)
    requires ModeWord(a) == ModeWord(b)
    ensures a == b
  {}

  lemma KindWordsDiffer(a: Kind, b: Kind)
    requires KindWord(a) == KindWord(b)
    ensures a == b
  {}

  lemma DecisionWordsDiffer(a: Decision, b: Decision)
    requires DecisionWord(a) == DecisionWord(b)
    ensures a == b
  {}

  lemma FlagWordsDiffer(a: Flag, b: Flag, cleared: string, not: string)
    requires FlagWord(a, cleared, not) == FlagWord(b, cleared, not) && cleared != not && "UNCERTAIN" !in {cleared, not}
    ensures a == b
  {}

  lemma EitherDiffers(a: bool, b: bool, yes: string, no: string)
    requires Same(Either(a, yes, no), Either(b, yes, no)) && yes != no
    ensures a == b
  {
    hide Key, String;
    StringsDiffer();
  }

  // ---------- lists of words ----------

  function StringList(s: seq<string>): seq<Json> { seq(|s|, i requires 0 <= i < |s| => String(s[i])) }

  function Strings(s: seq<string>): Json { Array(StringList(s)) }

  lemma StringsUnique(s: seq<string>)
    ensures UniqueKeys(Strings(s))
  {
    ArrayUnique(StringList(s));
  }

  lemma StringListsDiffer(a: seq<string>, b: seq<string>)
    requires Same(Strings(a), Strings(b))
    ensures a == b
  {
    StringsDiffer();
    SameArrays(StringList(a), StringList(b));
    forall i | 0 <= i < |a| ensures a[i] == b[i] { assert Same(StringList(a)[i], StringList(b)[i]); }
  }

  function RoleList(s: seq<Role>): seq<Json> { seq(|s|, i requires 0 <= i < |s| => String(RoleWord(s[i]))) }

  function Roles(s: seq<Role>): Json { Array(RoleList(s)) }

  lemma RolesUnique(s: seq<Role>)
    ensures UniqueKeys(Roles(s))
  {
    ArrayUnique(RoleList(s));
  }

  lemma RolesDiffer(a: seq<Role>, b: seq<Role>)
    requires Same(Roles(a), Roles(b))
    ensures a == b
  {
    StringsDiffer();
    SameArrays(RoleList(a), RoleList(b));
    forall i | 0 <= i < |a| ensures a[i] == b[i] { assert Same(RoleList(a)[i], RoleList(b)[i]); }
  }

  function ModeList(s: seq<Mode>): seq<Json> { seq(|s|, i requires 0 <= i < |s| => String(ModeWord(s[i]))) }

  function Modes(s: seq<Mode>): Json { Array(ModeList(s)) }

  lemma ModesUnique(s: seq<Mode>)
    ensures UniqueKeys(Modes(s))
  {
    ArrayUnique(ModeList(s));
  }

  lemma ModesDiffer(a: seq<Mode>, b: seq<Mode>)
    requires Same(Modes(a), Modes(b))
    ensures a == b
  {
    StringsDiffer();
    SameArrays(ModeList(a), ModeList(b));
    forall i | 0 <= i < |a| ensures a[i] == b[i] { assert Same(ModeList(a)[i], ModeList(b)[i]); }
  }

  function OperationList(s: seq<Operation>): seq<Json> { seq(|s|, i requires 0 <= i < |s| => String(OperationWord(s[i]))) }

  function Operations(s: seq<Operation>): Json { Array(OperationList(s)) }

  lemma OperationsUnique(s: seq<Operation>)
    ensures UniqueKeys(Operations(s))
  {
    ArrayUnique(OperationList(s));
  }

  lemma OperationsDiffer(a: seq<Operation>, b: seq<Operation>)
    requires Same(Operations(a), Operations(b))
    ensures a == b
  {
    StringsDiffer();
    SameArrays(OperationList(a), OperationList(b));
    forall i | 0 <= i < |a| ensures a[i] == b[i] { assert Same(OperationList(a)[i], OperationList(b)[i]); }
  }

  function KindList(s: seq<Kind>): seq<Json> { seq(|s|, i requires 0 <= i < |s| => String(KindWord(s[i]))) }

  function Kinds(s: seq<Kind>): Json { Array(KindList(s)) }

  lemma KindsUnique(s: seq<Kind>)
    ensures UniqueKeys(Kinds(s))
  {
    ArrayUnique(KindList(s));
  }

  lemma KindsDiffer(a: seq<Kind>, b: seq<Kind>)
    requires Same(Kinds(a), Kinds(b))
    ensures a == b
  {
    StringsDiffer();
    SameArrays(KindList(a), KindList(b));
    forall i | 0 <= i < |a| ensures a[i] == b[i] { assert Same(KindList(a)[i], KindList(b)[i]); }
  }
}
