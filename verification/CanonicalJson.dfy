/** Canonical JSON (scripts/review-policy/simulate.ts): the text under every binding and digest. Strings are
    sequences of UTF-16 code units, as in JavaScript; numbers are integers. */
module CanonicalJson {
  type Unit = u: int | 0 <= u < 0x10000
  type Units = seq<Unit>

  datatype Json = Null | Bool(b: bool) | Num(n: int) | Str(s: Units) | Arr(items: Items) | Obj(members: Members)
  datatype Items = NoItems | Item(head: Json, tail: Items)

  /** The members of an object in the order of its keys' insertion. */
  datatype Members = NoMembers | Member(key: Units, value: Json, rest: Members)

  const QUOTE: Unit := 0x22
  const COMMA: Unit := 0x2c
  const MINUS: Unit := 0x2d
  const ZERO: Unit := 0x30
  const COLON: Unit := 0x3a
  const LEFT_BRACKET: Unit := 0x5b
  const BACKSLASH: Unit := 0x5c
  const RIGHT_BRACKET: Unit := 0x5d
  const LEFT_BRACE: Unit := 0x7b
  const RIGHT_BRACE: Unit := 0x7d
  const LETTER_U: Unit := 0x75
  const NULL_WORD: Units := [0x6e, 0x75, 0x6c, 0x6c]
  const TRUE_WORD: Units := [0x74, 0x72, 0x75, 0x65]
  const FALSE_WORD: Units := [0x66, 0x61, 0x6c, 0x73, 0x65]

  // ---------- objects as maps ----------

  predicate HasKey(m: Members, k: Units) {
    m.Member? && (m.key == k || HasKey(m.rest, k))
  }

  function Lookup(m: Members, k: Units): (v: Json)
    requires HasKey(m, k)
    ensures m decreases to v
  {
    if m.key == k then m.value else Lookup(m.rest, k)
  }

  /** No key twice, at any depth: what a JavaScript object cannot have. */
  predicate UniqueKeys(v: Json) {
    match v
    case Arr(items) => UniqueKeysIn(items)
    case Obj(members) => UniqueMembers(members)
    case _ => true
  }

  predicate UniqueKeysIn(items: Items) {
    items.Item? ==> UniqueKeys(items.head) && UniqueKeysIn(items.tail)
  }

  predicate UniqueMembers(m: Members) {
    m.Member? ==> !HasKey(m.rest, m.key) && UniqueKeys(m.value) && UniqueMembers(m.rest)
  }

  /** The same value up to the order of keys, at any depth. */
  ghost predicate Same(v: Json, w: Json)
    decreases v
  {
    match (v, w)
    case (Arr(a), Arr(b)) => SameItems(a, b)
    case (Obj(m), Obj(n)) =>
      && (forall k :: HasKey(m, k) <==> HasKey(n, k))
      && (forall k | HasKey(m, k) && HasKey(n, k) :: Same(Lookup(m, k), Lookup(n, k)))
    case _ => v == w
  }

  ghost predicate SameItems(a: Items, b: Items)
    decreases a
  {
    if a.NoItems? || b.NoItems? then a == b else Same(a.head, b.head) && SameItems(a.tail, b.tail)
  }

  // ---------- strings ----------

  predicate Lead(u: Unit) { 0xd800 <= u < 0xdc00 }
  predicate Trail(u: Unit) { 0xdc00 <= u < 0xe000 }

  function HexDigit(d: int): Unit
    requires 0 <= d < 16
  {
    if d < 10 then 0x30 + d else 0x57 + d
  }

  function Hex4(u: Unit): Units {
    [HexDigit(u / 4096), HexDigit(u / 256 % 16), HexDigit(u / 16 % 16), HexDigit(u % 16)]
  }

  /** JSON.stringify on one code unit that is not half of a surrogate pair. */
  function EscapeUnit(u: Unit): Units {
    if u == QUOTE || u == BACKSLASH then [BACKSLASH, u]
    else if u == 8 then [BACKSLASH, 0x62]
    else if u == 9 then [BACKSLASH, 0x74]
    else if u == 10 then [BACKSLASH, 0x6e]
    else if u == 12 then [BACKSLASH, 0x66]
    else if u == 13 then [BACKSLASH, 0x72]
    else if u < 32 || Lead(u) || Trail(u) then [BACKSLASH, LETTER_U] + Hex4(u)
    else [u]
  }

  function Escaped(s: Units): Units {
    if s == [] then []
    else if |s| >= 2 && Lead(s[0]) && Trail(s[1]) then s[..2] + Escaped(s[2..])
    else EscapeUnit(s[0]) + Escaped(s[1..])
  }

  function Quoted(s: Units): Units { [QUOTE] + Escaped(s) + [QUOTE] }

  // ---------- numbers ----------

  function Digits(n: nat): (r: Units)
    ensures |r| > 0 && forall i | 0 <= i < |r| :: IsDigit(r[i])
    ensures r[0] == ZERO ==> n == 0 && |r| == 1
  {
    if n < 10 then [ZERO + n] else Digits(n / 10) + [ZERO + n % 10]
  }

  predicate IsDigit(u: Unit) { ZERO <= u <= ZERO + 9 }

  function Decimal(n: int): Units {
    if n < 0 then [MINUS] + Digits(-n) else Digits(n)
  }

  // ---------- the printers ----------

  /** JSON.stringify: members in their own order. */
  function Print(v: Json): Units {
    match v
    case Null => NULL_WORD
    case Bool(b) => if b then TRUE_WORD else FALSE_WORD
    case Num(n) => Decimal(n)
    case Str(s) => Quoted(s)
    case Arr(items) => [LEFT_BRACKET] + PrintItems(items) + [RIGHT_BRACKET]
    case Obj(members) => [LEFT_BRACE] + PrintMembers(members) + [RIGHT_BRACE]
  }

  function PrintItems(items: Items): Units {
    match items
    case NoItems => []
    case Item(head, tail) => Print(head) + (if tail.NoItems? then [] else [COMMA] + PrintItems(tail))
  }

  function PrintMembers(m: Members): Units {
    match m
    case NoMembers => []
    case Member(key, value, rest) =>
      Quoted(key) + [COLON] + Print(value) + (if rest.NoMembers? then [] else [COMMA] + PrintMembers(rest))
  }

  /** A key and the canonical text of its value. */
  datatype Entry = Entry(key: Units, text: Units)

  /** canonical: like JSON.stringify, but with the keys of every object sorted by code units. */
  function Canonical(v: Json): Units {
    match v
    case Null => NULL_WORD
    case Bool(b) => if b then TRUE_WORD else FALSE_WORD
    case Num(n) => Decimal(n)
    case Str(s) => Quoted(s)
    case Arr(items) => [LEFT_BRACKET] + CanonicalItems(items) + [RIGHT_BRACKET]
    case Obj(members) => [LEFT_BRACE] + JoinEntries(SortedEntries(members)) + [RIGHT_BRACE]
  }

  function CanonicalItems(items: Items): Units {
    match items
    case NoItems => []
    case Item(head, tail) => Canonical(head) + (if tail.NoItems? then [] else [COMMA] + CanonicalItems(tail))
  }

  function SortedEntries(m: Members): seq<Entry> {
    match m
    case NoMembers => []
    case Member(key, value, rest) => InsertEntry(Entry(key, Canonical(value)), SortedEntries(rest))
  }

  function InsertEntry(e: Entry, es: seq<Entry>): seq<Entry> {
    if es == [] || Before(e.key, es[0].key) then [e] + es else [es[0]] + InsertEntry(e, es[1..])
  }

  function JoinEntries(es: seq<Entry>): Units {
    if es == [] then [] else
    Quoted(es[0].key) + [COLON] + es[0].text + (if |es| == 1 then [] else [COMMA] + JoinEntries(es[1..]))
  }

  /** The order of Array.prototype.sort on strings. */
  predicate Before(a: Units, b: Units) {
    if a == [] then b != []
    else b != [] && (a[0] < b[0] || (a[0] == b[0] && Before(a[1..], b[1..])))
  }

  // ---------- the value with sorted keys ----------

  function Normal(v: Json): Json {
    match v
    case Arr(items) => Arr(NormalItems(items))
    case Obj(members) => Obj(NormalMembers(members))
    case _ => v
  }

  function NormalItems(items: Items): Items {
    match items
    case NoItems => NoItems
    case Item(head, tail) => Item(Normal(head), NormalItems(tail))
  }

  function NormalMembers(m: Members): Members {
    match m
    case NoMembers => NoMembers
    case Member(key, value, rest) => InsertMember(key, Normal(value), NormalMembers(rest))
  }

  function InsertMember(key: Units, value: Json, m: Members): Members {
    if m.NoMembers? || Before(key, m.key) then Member(key, value, m)
    else Member(m.key, m.value, InsertMember(key, value, m.rest))
  }

  function Entries(m: Members): seq<Entry> {
    match m
    case NoMembers => []
    case Member(key, value, rest) => [Entry(key, Print(value))] + Entries(rest)
  }

  lemma {:induction false} InsertionAlike(key: Units, value: Json, m: Members)
    ensures Entries(InsertMember(key, value, m)) == InsertEntry(Entry(key, Print(value)), Entries(m))
  {
    if m.Member? && !Before(key, m.key) {
      InsertionAlike(key, value, m.rest);
      assert Entries(m)[1..] == Entries(m.rest);
    }
  }

  lemma {:induction false} JoinedAlike(m: Members)
    ensures JoinEntries(Entries(m)) == PrintMembers(m)
  {
    if m.Member? {
      JoinedAlike(m.rest);
      assert Entries(m)[1..] == Entries(m.rest);
    }
  }

  /** Sorting while printing is printing the value with sorted keys. */
  lemma {:induction false} CanonicalIsSortedPrint(v: Json)
    ensures Canonical(v) == Print(Normal(v))
  {
    match v
    case Arr(items) => ItemsAlike(items);
    case Obj(members) =>
      MembersAlike(members);
      JoinedAlike(NormalMembers(members));
    case _ =>
  }

  lemma {:induction false} ItemsAlike(items: Items)
    ensures CanonicalItems(items) == PrintItems(NormalItems(items))
  {
    if items.Item? {
      CanonicalIsSortedPrint(items.head);
      ItemsAlike(items.tail);
    }
  }

  lemma {:induction false} MembersAlike(m: Members)
    ensures SortedEntries(m) == Entries(NormalMembers(m))
  {
    if m.Member? {
      CanonicalIsSortedPrint(m.value);
      MembersAlike(m.rest);
      InsertionAlike(m.key, Normal(m.value), NormalMembers(m.rest));
    }
  }
}
