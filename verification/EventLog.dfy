/** The events a database file stands for: what history-store.ts parses, used as durable-boundary.ts uses it. */
module EventLog {
  import opened Collections
  import opened PolicyTypes
  import opened CanonicalJson
  import opened CanonicalTheorems
  import opened HistoryStore

  /** A JSON value is used as an event exactly when it is that event's own up to the order of keys. */
  ghost predicate ReadsEvents(w: World) {
    && (forall e :: UniqueKeys(w.jsonOf(e)))
    && (forall j, e | UniqueKeys(j) :: w.eventOf(j) == Some(e) <==> Same(j, w.jsonOf(e)))
  }

  /** An event that is written is read back. */
  lemma WrittenEventIsRead(w: World, e: Event)
    requires ReadsEvents(w)
    ensures UniqueKeys(w.jsonOf(e)) && w.eventOf(w.jsonOf(e)) == Some(e)
  {
    hide Same;
    NormalIffSame(w.jsonOf(e), w.jsonOf(e));
  }

  ghost predicate Decodes(w: World, js: seq<Json>, h: seq<Event>) {
    |js| == |h| && forall i | 0 <= i < |js| :: w.eventOf(js[i]) == Some(h[i])
  }

  ghost predicate Stands(w: World, c: Config, rows: seq<Row>, meta: Meta, h: seq<Event>) {
    exists js :: Holds(c, rows, meta, js) && Decodes(w, js, h)
  }

  lemma OneDecoding(w: World, js: seq<Json>, h: seq<Event>)
    requires Decodes(w, js, h)
    ensures forall g | Decodes(w, js, g) :: g == h
  {
    forall g | Decodes(w, js, g) ensures g == h {
      forall i | 0 <= i < |h| ensures g[i] == h[i] { assert w.eventOf(js[i]) == Some(g[i]); }
    }
  }

  function Decoded(w: World, js: seq<Json>): Option<seq<Event>> {
    if js == [] then Some([]) else
    match (Decoded(w, js[..|js| - 1]), w.eventOf(js[|js| - 1]))
    case (Some(h), Some(e)) => Some(h + [e])
    case _ => None
  }

  lemma {:induction false} DecodedMeaning(w: World, js: seq<Json>)
    ensures forall h :: Decodes(w, js, h) <==> Decoded(w, js) == Some(h)
  {
    if js != [] {
      var n := |js| - 1;
      DecodedMeaning(w, js[..n]);
      forall h ensures Decodes(w, js, h) <==> Decoded(w, js) == Some(h) {
        if |h| == |js| {
          assert h == h[..n] + [h[n]];
          assert Decodes(w, js, h) <==> Decodes(w, js[..n], h[..n]) && w.eventOf(js[n]) == Some(h[n]);
        } else if Decoded(w, js[..n]).Some? {
          assert Decodes(w, js[..n], Decoded(w, js[..n]).value);
        }
      }
    }
  }

  /** The JSON and the events in some rows, whatever they hold. */
  function JsonIn(c: Config, rows: seq<Row>): seq<Json> {
    seq(|rows|, i requires 0 <= i < |rows| => if c.parse(rows[i].payload).Some? then c.parse(rows[i].payload).value else Null)
  }

  function EventsIn(w: World, js: seq<Json>): seq<Event> {
    seq(|js|, i requires 0 <= i < |js| => if w.eventOf(js[i]).Some? then w.eventOf(js[i]).value else RevokeKeyEvent(0, ""))
  }

  /** A file stands for a log exactly when it stands for the events in its rows. */
  lemma StandsForItsRows(w: World, c: Config, rows: seq<Row>, meta: Meta, h: seq<Event>)
    requires Stands(w, c, rows, meta, h)
    ensures Holds(c, rows, meta, JsonIn(c, rows)) && Decodes(w, JsonIn(c, rows), h) && h == EventsIn(w, JsonIn(c, rows))
  {
    var js: seq<Json> :| Holds(c, rows, meta, js) && Decodes(w, js, h);
    forall i | 0 <= i < |js| ensures js[i] == JsonIn(c, rows)[i] { assert RowFits(c, rows[i], js, i); }
    assert js == JsonIn(c, rows);
  }

  /** A file stands for one log at most. */
  lemma OneLog(w: World, c: Config, rows: seq<Row>, meta: Meta, h: seq<Event>)
    requires Stands(w, c, rows, meta, h)
    ensures forall g | Stands(w, c, rows, meta, g) :: g == h
  {
    hide RowsFit;
    var js: seq<Json> :| Holds(c, rows, meta, js) && Decodes(w, js, h);
    OneReading(c, rows, js);
    OneDecoding(w, js, h);
  }

  lemma LogOf(w: World, c: Config, rows: seq<Row>, meta: Meta, js: seq<Json>)
    requires Holds(c, rows, meta, js)
    ensures forall h :: Stands(w, c, rows, meta, h) <==> Decodes(w, js, h)
  {
    hide RowsFit, Decodes;
    OneReading(c, rows, js);
  }

  lemma LogsOpen(w: World, c: Config, rows: seq<Row>, meta: Meta)
    ensures forall h | Stands(w, c, rows, meta, h) :: Opens(c, rows, meta)
  {
    hide Holds, Decodes;
  }

  /** The file created for a store stands for the empty log. */
  lemma NewFileStands(w: World, c: Config)
    ensures Stands(w, c, [], MetaOf(c, []), [])
  {
    assert Holds(c, [], MetaOf(c, []), []) && Decodes(w, [], []);
  }

  lemma DecodesMore(w: World, js: seq<Json>, h: seq<Event>, e: Event)
    requires Decodes(w, js, h) && ReadsEvents(w)
    ensures Decodes(w, js + [w.jsonOf(e)], h + [e])
    ensures UniqueKeys(w.jsonOf(e))
  {
    WrittenEventIsRead(w, e);
  }

  /** Whatever is done to the rows of a log, if they still open under the same metadata they are the same log. */
  lemma EditedLogIsTheSameLog(w: World, c: Config, rows: seq<Row>, meta: Meta, h: seq<Event>, edited: seq<Row>)
    requires ReadsEvents(w) && Stands(w, c, rows, meta, h) && Opens(c, edited, meta)
    ensures Stands(w, c, edited, meta, h)
  {
    hide Chain, Same;
    var js: seq<Json> :| Holds(c, rows, meta, js) && Decodes(w, js, h);
    var ks: seq<Json> :| Holds(c, edited, meta, ks);
    OpeningKeepsColumns(c, rows, meta, js, edited, ks);
    HeldIsUnique(c, rows, js);
    HeldIsUnique(c, edited, ks);
    forall i | 0 <= i < |ks| ensures w.eventOf(ks[i]) == Some(h[i]) {
      assert Same(ks[i], js[i]) && w.eventOf(js[i]) == Some(h[i]);
      SameIsReadAlike(w, ks[i], js[i], h[i]);
    }
  }

  lemma SameIsReadAlike(w: World, j: Json, k: Json, e: Event)
    requires ReadsEvents(w) && UniqueKeys(j) && UniqueKeys(k) && Same(j, k) && w.eventOf(k) == Some(e)
    ensures w.eventOf(j) == Some(e)
  {
    hide Same, UniqueKeys;
    NormalIffSame(j, k);
    NormalIffSame(k, w.jsonOf(e));
    NormalIffSame(j, w.jsonOf(e));
  }
}
