/** The append-only, hash-chained log in one database file (scripts/review-policy/history-store.ts). A row keeps
    an event as text; what is hashed is the canonical text of what that text parses to. */
module HistoryStore {
  import opened Collections
  import opened PolicyTypes
  import opened CanonicalJson
  import opened CanonicalTheorems
  import opened JsonReader

  const CAPACITY: nat := 10000

  datatype Row = Row(sequence: int, payload: Units, digest: Digest)
  datatype Meta = Meta(version: int, organization: string, trustDigest: Digest, tail: int, digest: Digest)

  /** What a store is opened with, and the JSON.parse it runs on. */
  datatype Config = Config(organization: string, trustDigest: Digest, parse: Reader)

  function Seed(c: Config): Digest { SeedDigest(c.organization, c.trustDigest) }

  /** The running digest after a sequence of JSON events. */
  function Chain(c: Config, h: seq<Json>): Digest {
    if h == [] then Seed(c) else LinkDigest(Chain(c, h[..|h| - 1]), |h|, Canonical(h[|h| - 1]))
  }

  function MetaOf(c: Config, h: seq<Json>): Meta {
    Meta(1, c.organization, c.trustDigest, |h|, Chain(c, h))
  }

  /** Row i holds some spelling of the i-th event and the digest of the chain up to it. */
  ghost predicate RowFits(c: Config, row: Row, h: seq<Json>, i: nat)
    requires i < |h|
  {
    row.sequence == i + 1 && c.parse(row.payload) == Some(h[i]) && row.digest == Chain(c, h[..i + 1])
  }

  ghost predicate RowsFit(c: Config, rows: seq<Row>, h: seq<Json>) {
    |rows| == |h| && forall i | 0 <= i < |rows| :: RowFits(c, rows[i], h, i)
  }

  /** The file contents that stand for a history. */
  ghost predicate Holds(c: Config, rows: seq<Row>, meta: Meta, h: seq<Json>) {
    RowsFit(c, rows, h) && meta == MetaOf(c, h)
  }

  /** The row an append writes: JSON.stringify of the event. */
  function WrittenRow(c: Config, h: seq<Json>, j: Json): Row {
    Row(|h| + 1, Print(j), LinkDigest(Chain(c, h), |h| + 1, Canonical(j)))
  }

  lemma ChainGrows(c: Config, h: seq<Json>, j: Json)
    ensures Chain(c, h + [j]) == LinkDigest(Chain(c, h), |h| + 1, Canonical(j))
  {
    hide Canonical;
    assert (h + [j])[..|h|] == h;
  }

  /** One more row that fits: the old rows fit as before. */
  lemma RowsGrow(c: Config, rows: seq<Row>, h: seq<Json>, row: Row, j: Json)
    requires RowsFit(c, rows, h) && row.sequence == |h| + 1 && c.parse(row.payload) == Some(j)
    requires row.digest == LinkDigest(Chain(c, h), |h| + 1, Canonical(j))
    ensures RowsFit(c, rows + [row], h + [j])
  {
    hide Canonical, Chain;
    ChainGrows(c, h, j);
    forall i | 0 <= i < |rows| + 1 ensures RowFits(c, (rows + [row])[i], h + [j], i) {
      if i < |rows| {
        assert RowFits(c, rows[i], h, i);
        assert (h + [j])[..i + 1] == h[..i + 1];
      } else {
        assert (h + [j])[..i + 1] == h + [j];
      }
    }
  }

  lemma AppendFits(c: Config, rows: seq<Row>, h: seq<Json>, j: Json)
    requires RowsFit(c, rows, h) && UniqueKeys(j)
    ensures RowsFit(c, rows + [WrittenRow(c, h, j)], h + [j])
  {
    hide Print, Canonical, UniqueKeys, Chain;
    RowsGrow(c, rows, h, WrittenRow(c, h, j), j);
  }

  // ---------- what the chain digest determines ----------

  /** The same events up to the order of keys. */
  ghost predicate SameHistory(h: seq<Json>, g: seq<Json>) {
    |h| == |g| && forall i | 0 <= i < |h| :: Same(h[i], g[i])
  }

  ghost predicate AllUnique(h: seq<Json>) {
    forall i | 0 <= i < |h| :: UniqueKeys(h[i])
  }

  /** The chain digest determines the configuration and the history, and nothing of a history but its
      order of keys is left out of it. */
  lemma {:induction false} ChainDeterminesHistory(c: Config, h: seq<Json>, d: Config, g: seq<Json>)
    requires AllUnique(h) && AllUnique(g)
    ensures Chain(c, h) == Chain(d, g)
       <==> c.organization == d.organization && c.trustDigest == d.trustDigest && SameHistory(h, g)
  {
    hide Canonical, UniqueKeys, Same;
    if h != [] && g != [] {
      var n, m := |h| - 1, |g| - 1;
      ChainDeterminesHistory(c, h[..n], d, g[..m]);
      CanonicalDeterminesValue(h[n], g[m]);
      if Chain(c, h) == Chain(d, g) {
        forall i | 0 <= i < |h| ensures Same(h[i], g[i]) {
          if i < n { assert Same(h[..n][i], g[..m][i]); }
        }
      }
      if SameHistory(h, g) { assert SameHistory(h[..n], g[..m]); }
    }
  }

  lemma HeldIsUnique(c: Config, rows: seq<Row>, h: seq<Json>)
    requires RowsFit(c, rows, h)
    ensures AllUnique(h)
  {
    forall i | 0 <= i < |h| ensures UniqueKeys(h[i]) { assert RowFits(c, rows[i], h, i); }
  }

  ghost predicate Opens(c: Config, rows: seq<Row>, meta: Meta) {
    exists h :: Holds(c, rows, meta, h)
  }

  ghost predicate SameColumns(rows: seq<Row>, edited: seq<Row>) {
    && |edited| == |rows|
    && forall i | 0 <= i < |rows| :: edited[i].sequence == rows[i].sequence && edited[i].digest == rows[i].digest
  }

  /** Each payload still parses to the event, up to the order of keys. */
  ghost predicate SameEvents(c: Config, rows: seq<Row>, h: seq<Json>) {
    |rows| == |h| && forall i | 0 <= i < |rows| :: c.parse(rows[i].payload).Some? && Same(c.parse(rows[i].payload).value, h[i])
  }

  /** Under unchanged metadata a table opens if and only if it has the sequence numbers and digests of before and
      every payload still parses to the same event. So deleted, added, moved and altered events are caught, and
      another spelling of an event is not. */
  lemma EditedTableOpensIff(c: Config, rows: seq<Row>, meta: Meta, h: seq<Json>, edited: seq<Row>)
    requires Holds(c, rows, meta, h)
    ensures Opens(c, edited, meta) <==> SameColumns(rows, edited) && SameEvents(c, edited, h)
  {
    if g :| Holds(c, edited, meta, g) { OpeningKeepsColumns(c, rows, meta, h, edited, g); }
    if SameColumns(rows, edited) && SameEvents(c, edited, h) { RespelledOpens(c, rows, meta, h, edited); }
  }

  lemma SamePrefix(c: Config, h: seq<Json>, g: seq<Json>, i: nat)
    requires SameHistory(h, g) && AllUnique(h) && AllUnique(g) && i <= |h|
    ensures Chain(c, h[..i]) == Chain(c, g[..i])
  {
    hide Chain, Same, UniqueKeys;
    ChainDeterminesHistory(c, h[..i], c, g[..i]);
  }

  lemma OpeningKeepsColumns(c: Config, rows: seq<Row>, meta: Meta, h: seq<Json>, edited: seq<Row>, g: seq<Json>)
    requires Holds(c, rows, meta, h) && Holds(c, edited, meta, g)
    ensures SameColumns(rows, edited) && SameEvents(c, edited, h) && SameHistory(g, h)
  {
    hide Chain, Same, UniqueKeys;
    HeldIsUnique(c, rows, h);
    HeldIsUnique(c, edited, g);
    ChainDeterminesHistory(c, g, c, h);
    forall i | 0 <= i < |rows|
      ensures edited[i].sequence == rows[i].sequence && edited[i].digest == rows[i].digest
      ensures c.parse(edited[i].payload).Some? && Same(c.parse(edited[i].payload).value, h[i])
    {
      assert RowFits(c, rows[i], h, i) && RowFits(c, edited[i], g, i);
      SamePrefix(c, g, h, i + 1);
    }
  }

  lemma RespelledOpens(c: Config, rows: seq<Row>, meta: Meta, h: seq<Json>, edited: seq<Row>)
    requires Holds(c, rows, meta, h) && SameColumns(rows, edited) && SameEvents(c, edited, h)
    ensures Opens(c, edited, meta)
  {
    hide Chain, Same, UniqueKeys;
    var g := seq(|edited|, i requires 0 <= i < |edited| => c.parse(edited[i].payload).value);
    HeldIsUnique(c, rows, h);
    assert AllUnique(g) && SameHistory(g, h);
    forall i | 0 <= i < |edited| ensures RowFits(c, edited[i], g, i) {
      assert RowFits(c, rows[i], h, i);
      SamePrefix(c, g, h, i + 1);
    }
    SamePrefix(c, g, h, |h|);
    assert g[..|h|] == g && h[..|h|] == h;
    assert Holds(c, edited, meta, g);
  }

  /** An edit that is not caught: two keys of an event's text change places. */
  lemma SwappedKeysAreAccepted(c: Config, rows: seq<Row>, meta: Meta, h: seq<Json>, i: nat, m: Members)
    requires Holds(c, rows, meta, h) && i < |h| && h[i] == Obj(m) && m.Member? && m.rest.Member?
    ensures var swapped := Obj(Member(m.rest.key, m.rest.value, Member(m.key, m.value, m.rest.rest)));
      var edited := rows[i := rows[i].(payload := Print(swapped))];
      edited != rows && Opens(c, edited, meta)
  {
    var swapped := Obj(Member(m.rest.key, m.rest.value, Member(m.key, m.value, m.rest.rest)));
    var edited := rows[i := rows[i].(payload := Print(swapped))];
    HeldIsUnique(c, rows, h);
    SwappingKeepsTheValue(m);
    assert RowFits(c, rows[i], h, i);
    assert c.parse(Print(swapped)) == Some(swapped);
    assert edited[i].payload != rows[i].payload;
    forall k | 0 <= k < |edited| ensures c.parse(edited[k].payload).Some? && Same(c.parse(edited[k].payload).value, h[k]) {
      assert RowFits(c, rows[k], h, k);
      NormalIffSame(h[k], h[k]);
    }
    EditedTableOpensIff(c, rows, meta, h, edited);
  }

  lemma SwappingKeepsTheValue(m: Members)
    requires m.Member? && m.rest.Member? && UniqueMembers(m)
    ensures var n := Member(m.rest.key, m.rest.value, Member(m.key, m.value, m.rest.rest));
      Same(Obj(n), Obj(m)) && UniqueMembers(n) && n != m
  {
    var n := Member(m.rest.key, m.rest.value, Member(m.key, m.value, m.rest.rest));
    forall k | HasKey(n, k) && HasKey(m, k) ensures Same(Lookup(n, k), Lookup(m, k)) {
      LookupUnique(m, k);
      NormalIffSame(Lookup(m, k), Lookup(m, k));
    }
  }

  /** The database file: shared by every connection that opens it. */
  class DatabaseFile {
    var rows: seq<Row>
    var meta: Meta
    var locked: bool

    constructor (c: Config)
      ensures Holds(c, rows, meta, []) && !locked
    {
      rows, meta, locked := [], Meta(1, c.organization, c.trustDigest, 0, Seed(c)), false;
    }
  }

  /** One connection. A transaction works on its own copies of the rows; the file changes at the commit. */
  class SqlitePolicyHistoryStore {
    const config: Config
    const file: DatabaseFile
    var active: bool
    var closed: bool
    var pending: seq<Row>
    var tail: nat
    var digest: Digest
    var changed: bool

    constructor (config: Config, file: DatabaseFile)
      ensures this.config == config && this.file == file && !active && !closed
    {
      this.config, this.file := config, file;
      active, closed, pending, tail, digest, changed := false, false, [], 0, Seed(config), false;
    }

    /** Inside a transaction whose appends so far have led to history h. */
    ghost predicate InTransaction(h: seq<Json>)
      reads this, file
    {
      && active && !closed && file.locked
      && RowsFit(config, pending, h) && tail == |h| && digest == Chain(config, h)
      && file.meta.version == 1 && file.meta.organization == config.organization && file.meta.trustDigest == config.trustDigest
      && (!changed ==> Holds(config, file.rows, file.meta, h))
    }

    /** BEGIN IMMEDIATE and the check of the whole chain. It succeeds exactly when the store is free
        and the file stands for a history; then that history is returned. */
    method Begin() returns (history: Option<seq<Json>>)
      modifies this, file`locked
      ensures history.Some? ==> !old(active) && !old(closed) && !old(file.locked)
      ensures history.Some? ==> Holds(config, file.rows, file.meta, history.value) && InTransaction(history.value) && !changed
      ensures history.Some? ==> active && !closed && file.locked
      ensures history.None? ==> active == old(active) && closed == old(closed) && file.locked == old(file.locked)
      ensures history.None? ==> active || closed || file.locked || !Opens(config, file.rows, file.meta)
    {
      hide Canonical;
      if closed || active || file.locked { return None; }
      var meta := file.meta;
      if meta.version != 1 || meta.organization != config.organization || meta.trustDigest != config.trustDigest {
        return None;
      }
      var rows := file.rows;
      var count, running := 0, Seed(config);
      var events: seq<Json> := [];
      while count < |rows|
        modifies {}
        invariant count <= |rows| && RowsFit(config, rows[..count], events) && running == Chain(config, events)
      {
        var row := rows[count];
        NextRow(config, rows, meta, events);
        var event := config.parse(row.payload);
        if event.None? || row.sequence != count + 1 { return None; }
        ChainGrows(config, events, event.value);
        running := LinkDigest(running, count + 1, Canonical(event.value));
        if running != row.digest { return None; }
        RowsGrow(config, rows[..count], events, row, event.value);
        assert rows[..count + 1] == rows[..count] + [row];
        events := events + [event.value];
        count := count + 1;
      }
      assert rows[..count] == rows;
      OneReading(config, rows, events);
      if meta.tail != count || meta.digest != running { return None; }
      pending, tail, digest, changed := rows, count, running, false;
      active, file.locked := true, true;
      return Some(events);
    }

    method Append(event: Json, ghost h: seq<Json>) returns (ok: bool)
      requires InTransaction(h) && UniqueKeys(event)
      modifies this`pending, this`tail, this`digest, this`changed
      ensures ok <==> |h| < CAPACITY
      ensures ok ==> InTransaction(h + [event]) && changed
      ensures !ok ==> InTransaction(h) && changed == old(changed)
    {
      hide Canonical, Print, UniqueKeys, Chain, RowsFit;
      if tail >= CAPACITY { return false; }
      ChainGrows(config, h, event);
      AppendFits(config, pending, h, event);
      tail := tail + 1;
      digest := LinkDigest(digest, tail, Canonical(event));
      pending := pending + [Row(tail, Print(event), digest)];
      changed := true;
      return true;
    }

    method Commit(ghost h: seq<Json>)
      requires InTransaction(h)
      modifies this`active, file
      ensures Holds(config, file.rows, file.meta, h) && !active && !file.locked
      ensures !old(changed) ==> file.rows == old(file.rows) && file.meta == old(file.meta)
    {
      if changed {
        file.meta := file.meta.(tail := tail, digest := digest);
        file.rows := pending;
      }
      active, file.locked := false, false;
    }

    /** Any failure, or a crash of the process: the file keeps what was committed. */
    method Rollback(ghost h: seq<Json>)
      requires InTransaction(h)
      modifies this`active, file`locked
      ensures file.rows == old(file.rows) && file.meta == old(file.meta) && !active && !file.locked
    {
      active, file.locked := false, false;
    }

    method Close()
      modifies this`closed
      ensures closed
    {
      closed := true;
    }
  }

  /** A file is read in one way only. */
  lemma OneReading(c: Config, rows: seq<Row>, h: seq<Json>)
    requires RowsFit(c, rows, h)
    ensures forall g | RowsFit(c, rows, g) :: g == h
  {
    forall g | RowsFit(c, rows, g) ensures g == h {
      forall i | 0 <= i < |h| ensures g[i] == h[i] { assert RowFits(c, rows[i], h, i) && RowFits(c, rows[i], g, i); }
    }
  }

  /** When the rows so far have been read, what the next one must hold if the file stands for anything. */
  lemma NextRow(c: Config, rows: seq<Row>, meta: Meta, h: seq<Json>)
    requires |h| < |rows| && RowsFit(c, rows[..|h|], h)
    ensures forall g | Holds(c, rows, meta, g) ::
      && c.parse(rows[|h|].payload).Some? && rows[|h|].sequence == |h| + 1
      && rows[|h|].digest == Chain(c, h + [c.parse(rows[|h|].payload).value])
  {
    hide Chain;
    var n := |h|;
    forall g | Holds(c, rows, meta, g)
      ensures c.parse(rows[n].payload).Some? && rows[n].sequence == n + 1
      ensures rows[n].digest == Chain(c, h + [c.parse(rows[n].payload).value])
    {
      forall i | 0 <= i < n ensures RowFits(c, rows[..n][i], g[..n], i) {
        assert RowFits(c, rows[i], g, i);
        assert g[..n][..i + 1] == g[..i + 1];
      }
      OneReading(c, rows[..n], h);
      assert RowsFit(c, rows[..n], g[..n]);
      assert RowFits(c, rows[n], g, n);
      assert g[..n + 1] == g[..n] + [g[n]];
    }
  }
}
