/** The log with events written as the program writes them: reading them back, and rows that can be respelled. */
module EncodedLog {
  import opened Collections
  import opened PolicyTypes
  import opened CanonicalJson
  import opened CanonicalTheorems
  import opened JsonEncoding
  import opened EncodedValues
  import opened HistoryStore
  import opened EventLog

  ghost predicate Encodes(w: World, sp: Spelling) {
    forall e :: w.jsonOf(e) == EventJson(sp, e)
  }

  ghost function EventIn(sp: Spelling, j: Json): Option<Event> {
    if exists e :: Same(j, EventJson(sp, e)) then
      var e :| Same(j, EventJson(sp, e));
      Some(e)
    else None
  }

  /** Without collisions there is exactly one way to read events, so ReadsEvents asks for nothing more. */
  lemma EventsCanBeRead(w: World, sp: Spelling)
    requires CollisionFree(sp.digest) && Encodes(w, sp)
    ensures ReadsEvents(w) <==> forall j | UniqueKeys(j) :: w.eventOf(j) == EventIn(sp, j)
  {
    hide EventJson, Same;
    forall e ensures UniqueKeys(w.jsonOf(e)) { EventUnique(sp, e); }
    forall j, e | UniqueKeys(j) ensures EventIn(sp, j) == Some(e) <==> Same(j, EventJson(sp, e)) {
      if Same(j, EventJson(sp, e)) {
        var d := EventIn(sp, j).value;
        SameAsBoth(sp, j, d, e);
      }
    }
    if ReadsEvents(w) {
      forall j | UniqueKeys(j) ensures w.eventOf(j) == EventIn(sp, j) {
        var found := EventIn(sp, j);
        if found.Some? { assert w.eventOf(j) == Some(found.value); }
        if w.eventOf(j).Some? { assert found == Some(w.eventOf(j).value); }
      }
    }
  }

  lemma SameAsBoth(sp: Spelling, j: Json, d: Event, e: Event)
    requires UniqueKeys(j) && CollisionFree(sp.digest) && Same(j, EventJson(sp, d)) && Same(j, EventJson(sp, e))
    ensures d == e
  {
    hide EventJson, Same, Normal;
    EventUnique(sp, d);
    EventUnique(sp, e);
    NormalIffSame(j, EventJson(sp, d));
    NormalIffSame(j, EventJson(sp, e));
    NormalIffSame(EventJson(sp, d), EventJson(sp, e));
    EventsDiffer(sp, d, e);
  }

  /** Every row of a log can be respelled without being caught: the first two keys of its event change places. */
  lemma EveryRowCanBeRespelled(w: World, sp: Spelling, c: Config, rows: seq<Row>, meta: Meta, h: seq<Event>, i: nat)
    requires ReadsEvents(w) && Encodes(w, sp) && Stands(w, c, rows, meta, h) && i < |h|
    ensures exists payload :: payload != rows[i].payload && Stands(w, c, rows[i := rows[i].(payload := payload)], meta, h)
  {
    hide EventJson, Chain, Same, UniqueKeys;
    var js: seq<Json> :| Holds(c, rows, meta, js) && Decodes(w, js, h);
    HeldIsUnique(c, rows, js);
    assert UniqueKeys(js[i]) && w.eventOf(js[i]) == Some(h[i]);
    EventHasTwoKeys(w, sp, js[i], h[i]);
    var m := js[i].members;
    SwappedKeysAreAccepted(c, rows, meta, js, i, m);
    var swapped := Obj(Member(m.rest.key, m.rest.value, Member(m.key, m.value, m.rest.rest)));
    var edited := rows[i := rows[i].(payload := Print(swapped))];
    EditedLogIsTheSameLog(w, c, rows, meta, h, edited);
    assert Print(swapped) == rows[i].payload ==> edited == rows;
  }

  lemma OneKeyAtMost(m: Members, k: Units, l: Units)
    requires HasKey(m, k) && HasKey(m, l) && k != l
    ensures m.rest.Member?
  {}

  lemma EventHasTwoKeys(w: World, sp: Spelling, j: Json, e: Event)
    requires ReadsEvents(w) && Encodes(w, sp) && UniqueKeys(j) && w.eventOf(j) == Some(e)
    ensures j.Obj? && j.members.Member? && j.members.rest.Member?
  {
    hide EventFields, Key;
    EventKeys(sp, e);
    assert Same(j, EventJson(sp, e));
    OneKeyAtMost(j.members, Key("type"), Key("now"));
  }

  // ---------- the hashes of the chain ----------

  /** What is hashed for a link of the chain. */
  function LinkJson(sp: Spelling, previous: Digest, sequence: int, event: Json): Json {
    Object(["previous", "sequence", "event"], [Spelled(sp.digest(previous)), Number(sequence), event])
  }

  lemma LinkUnique(sp: Spelling, previous: Digest, sequence: int, event: Json)
    requires UniqueKeys(event)
    ensures UniqueKeys(LinkJson(sp, previous, sequence, event))
  {
    hide Key, Spelled, Number;
    Scalars();
    ObjectUnique(["previous", "sequence", "event"], [Spelled(sp.digest(previous)), Number(sequence), event]);
  }

  lemma LinksDiffer(sp: Spelling, p: Digest, m: int, j: Json, q: Digest, n: int, k: Json)
    requires CollisionFree(sp.digest) && Same(LinkJson(sp, p, m, j), LinkJson(sp, q, n, k))
    ensures p == q && m == n && Same(j, k)
  {
    hide Key, Object;
    var vs, ws := [Spelled(sp.digest(p)), Number(m), j], [Spelled(sp.digest(q)), Number(n), k];
    SameObjects(["previous", "sequence", "event"], vs, ws);
    assert Same(vs[0], ws[0]) && Same(vs[1], ws[1]) && Same(vs[2], ws[2]);
  }

  lemma {:induction false} SameObjectsBack(names: seq<string>, vs: seq<Json>, ws: seq<Json>)
    requires |names| == |vs| == |ws| && AllSame(vs, ws)
    ensures Same(Object(names, vs), Object(names, ws))
  {
    if names != [] {
      assert AllSame(vs[1..], ws[1..]) by {
        forall i | 0 <= i < |vs[1..]| ensures Same(vs[1..][i], ws[1..][i]) { assert Same(vs[i + 1], ws[i + 1]); }
      }
      SameObjectsBack(names[1..], vs[1..], ws[1..]);
      assert Same(vs[0], ws[0]);
      var m, n := Fields(names, vs), Fields(names, ws);
      forall k | HasKey(m, k) && HasKey(n, k) ensures Same(Lookup(m, k), Lookup(n, k)) {
        if m.key != k { assert HasKey(m.rest, k) && HasKey(n.rest, k); }
      }
    }
  }

  /** The text hashed for a link determines the previous digest, the sequence number and the canonical text of the
      event, and nothing else goes into it: this is what LinkDigest stands for. */
  lemma LinkTextDetermines(sp: Spelling, p: Digest, m: int, j: Json, q: Digest, n: int, k: Json)
    requires CollisionFree(sp.digest) && UniqueKeys(j) && UniqueKeys(k)
    ensures Canonical(LinkJson(sp, p, m, j)) == Canonical(LinkJson(sp, q, n, k))
       <==> p == q && m == n && Canonical(j) == Canonical(k)
  {
    hide LinkJson, Canonical, Same, UniqueKeys;
    LinkUnique(sp, p, m, j);
    LinkUnique(sp, q, n, k);
    CanonicalDeterminesValue(LinkJson(sp, p, m, j), LinkJson(sp, q, n, k));
    CanonicalDeterminesValue(j, k);
    if Same(LinkJson(sp, p, m, j), LinkJson(sp, q, n, k)) { LinksDiffer(sp, p, m, j, q, n, k); }
    if p == q && m == n && Same(j, k) { LinksAlike(sp, p, m, j, k); }
  }

  lemma LinksAlike(sp: Spelling, p: Digest, m: int, j: Json, k: Json)
    requires Same(j, k)
    ensures Same(LinkJson(sp, p, m, j), LinkJson(sp, p, m, k))
  {
    hide Key, Object;
    var vs, ws := [Spelled(sp.digest(p)), Number(m), j], [Spelled(sp.digest(p)), Number(m), k];
    assert Same(vs[0], ws[0]) && Same(vs[1], ws[1]) && Same(vs[2], ws[2]);
    SameObjectsBack(["previous", "sequence", "event"], vs, ws);
  }
}
