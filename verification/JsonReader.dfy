/** JSON.parse as the history store uses it: what is asked of it, and a reader that meets it. */
module JsonReader {
  import opened Collections
  import opened CanonicalJson
  import opened CanonicalTheorems

  /** Everything the store needs to know about JSON.parse: it reads back what JSON.stringify has printed,
      and no object it returns has a key twice. How it treats all other texts is left open. */
  ghost predicate ReadsJson(parse: Units -> Option<Json>) {
    && (forall v | UniqueKeys(v) :: parse(Print(v)) == Some(v))
    && (forall x | parse(x).Some? :: UniqueKeys(parse(x).value))
  }

  type Reader = parse: Units -> Option<Json> | ReadsJson(parse) ghost witness SomeReader()

  // ---------- a reader: RFC 8259, the last of several equal keys counts ----------

  function Without(m: Members, k: Units): Members {
    match m
    case NoMembers => NoMembers
    case Member(key, value, rest) => if key == k then Without(rest, k) else Member(key, value, Without(rest, k))
  }

  /** A repeated key keeps its first place and its last value. */
  function Deduped(v: Json): Json {
    match v
    case Arr(items) => Arr(DedupedItems(items))
    case Obj(members) => Obj(DedupedMembers(members))
    case _ => v
  }

  function DedupedItems(items: Items): Items {
    match items
    case NoItems => NoItems
    case Item(head, tail) => Item(Deduped(head), DedupedItems(tail))
  }

  function DedupedMembers(m: Members): Members {
    match m
    case NoMembers => NoMembers
    case Member(key, value, rest) =>
      var more := DedupedMembers(rest);
      if HasKey(more, key) then Member(key, Lookup(more, key), Without(more, key)) else Member(key, Deduped(value), more)
  }

  function ParseJson(x: Units): Option<Json> {
    match ParseText(x)
    case None => None
    case Some(v) => Some(Deduped(v))
  }

  lemma {:induction false} WithoutKeeps(m: Members, k: Units)
    requires UniqueMembers(m)
    ensures UniqueMembers(Without(m, k)) && !HasKey(Without(m, k), k)
    ensures forall j :: HasKey(Without(m, k), j) ==> HasKey(m, j)
  {
    if m.Member? { WithoutKeeps(m.rest, k); }
  }

  lemma {:induction false} DedupedIsUnique(v: Json)
    ensures UniqueKeys(Deduped(v))
  {
    match v
    case Arr(items) => DedupedItemsUnique(items);
    case Obj(members) => DedupedMembersUnique(members);
    case _ =>
  }

  lemma {:induction false} DedupedItemsUnique(items: Items)
    ensures UniqueKeysIn(DedupedItems(items))
  {
    if items.Item? {
      DedupedIsUnique(items.head);
      DedupedItemsUnique(items.tail);
    }
  }

  lemma {:induction false} DedupedMembersUnique(m: Members)
    ensures UniqueMembers(DedupedMembers(m))
  {
    if m.Member? {
      DedupedMembersUnique(m.rest);
      var more := DedupedMembers(m.rest);
      if HasKey(more, m.key) {
        WithoutKeeps(more, m.key);
        LookupUnique(more, m.key);
      } else {
        DedupedIsUnique(m.value);
      }
    }
  }

  lemma {:induction false} UniqueStays(v: Json)
    requires UniqueKeys(v)
    ensures Deduped(v) == v
  {
    match v
    case Arr(items) => UniqueItemsStay(items);
    case Obj(members) => UniqueMembersStay(members);
    case _ =>
  }

  lemma {:induction false} UniqueItemsStay(items: Items)
    requires UniqueKeysIn(items)
    ensures DedupedItems(items) == items
  {
    if items.Item? {
      UniqueStays(items.head);
      UniqueItemsStay(items.tail);
    }
  }

  lemma {:induction false} UniqueMembersStay(m: Members)
    requires UniqueMembers(m)
    ensures DedupedMembers(m) == m
  {
    if m.Member? {
      UniqueStays(m.value);
      UniqueMembersStay(m.rest);
    }
  }

  lemma ParseJsonReads()
    ensures ReadsJson(ParseJson)
  {
    forall v | UniqueKeys(v) ensures ParseJson(Print(v)) == Some(v) {
      StringifyRoundTrip(v);
      UniqueStays(v);
    }
    forall x | ParseJson(x).Some? ensures UniqueKeys(ParseJson(x).value) {
      DedupedIsUnique(ParseText(x).value);
    }
  }

  ghost function SomeReader(): (parse: Units -> Option<Json>)
    ensures ReadsJson(parse)
  {
    ParseJsonReads();
    ParseJson
  }

  /** White space before a text is not noticed. */
  lemma LeadingSpaceIsSkipped(x: Units)
    ensures ParseJson([0x20] + x) == ParseJson(x)
  {
    assert ([0x20] + x)[1..] == x;
  }
}
