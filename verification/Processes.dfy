/** Any number of processes on one database file, interleaved in any way and crashing at any point
    (scripts/review-policy/history-store.ts with the accept loop of durable-boundary.ts). What SQLite
    contributes is its documented effect: one writer at a time, and a working copy that becomes the
    file at the commit or is lost. */
module Processes {
  import opened Collections
  import opened PolicyTypes
  import opened CanonicalJson
  import opened Verifier
  import opened Projections
  import opened LogTheorems
  import opened HistoryStore
  import opened EventLog
  import opened Durable
  import opened DurableTheorems

  /** The transaction that holds the lock; `work` records the events it has accepted. */
  datatype Tx = Tx(
    pid: int, projection: PState, observed: set<Event>, rows: seq<Row>, tail: nat, digest: Digest,
    meta: Meta, changed: bool, closed: bool, work: seq<Event>)

  /** The file and the lock; `works` records what each committed transaction accepted, in commit order. */
  datatype System = System(rows: seq<Row>, meta: Meta, tx: Option<Tx>, works: seq<seq<Event>>)

  datatype Action =
    | Begin(pid: int)
    | Accept(pid: int, event: Event)
    | WriteMetadata(pid: int)
    | Commit(pid: int)
    | Stop(pid: int)

  function LogIn(c: Config, t: Trust, rows: seq<Row>): seq<Event> {
    EventsIn(t.world, JsonIn(c, rows))
  }

  function Committed(c: Config, t: Trust, s: System): seq<Event> { LogIn(c, t, s.rows) }

  /** The chain check passes and every row is an event. */
  ghost predicate Loads(c: Config, t: Trust, rows: seq<Row>, meta: Meta) {
    Holds(c, rows, meta, JsonIn(c, rows)) && Decodes(t.world, JsonIn(c, rows), LogIn(c, t, rows))
  }

  lemma LoadsIffStands(c: Config, t: Trust, rows: seq<Row>, meta: Meta)
    ensures Loads(c, t, rows, meta) <==> Stands(t.world, c, rows, meta, LogIn(c, t, rows))
    ensures Loads(c, t, rows, meta) <==> exists h :: Stands(t.world, c, rows, meta, h)
  {
    hide Holds, Decodes, JsonIn, EventsIn;
    if h :| Stands(t.world, c, rows, meta, h) { StandsForItsRows(t.world, c, rows, meta, h); }
  }

  ghost predicate Owns(s: System, pid: int) { s.tx.Some? && s.tx.value.pid == pid }

  /** One action of one process; an action that is not possible now fails and changes nothing. */
  ghost function Do(c: Config, t: Trust, s: System, a: Action): System {
    match a
    case Begin(pid) =>
      if s.tx.Some? || !Loads(c, t, s.rows, s.meta) then s else
      (match Replay(t, Committed(c, t, s))
       case None => s
       case Some(p) =>
         s.(tx := Some(Tx(pid, p, ToSet(Committed(c, t, s)), s.rows, |s.rows|, Chain(c, JsonIn(c, s.rows)), s.meta, false, false, []))))
    case Accept(pid, e) =>
      if !Owns(s, pid) || s.tx.value.closed then s else s.(tx := Accepted(t, s.tx.value, e))
    case WriteMetadata(pid) =>
      if !Owns(s, pid) || s.tx.value.closed then s else
      var x := s.tx.value;
      s.(tx := Some(x.(meta := if x.changed then x.meta.(tail := x.tail, digest := x.digest) else x.meta, closed := true)))
    case Commit(pid) =>
      if !Owns(s, pid) || !s.tx.value.closed then s
      else System(s.tx.value.rows, s.tx.value.meta, None, s.works + [s.tx.value.work])
    case Stop(pid) =>
      if Owns(s, pid) then s.(tx := None) else s
  }

  /** None: the event is refused or the store is full, and the transaction rolls back. */
  ghost function Accepted(t: Trust, x: Tx, e: Event): Option<Tx> {
    if !Admits(t, x.projection, e) then None
    else if e in x.observed then Some(x.(projection := After(t, x.projection, e), work := x.work + [e]))
    else if x.tail >= CAPACITY then None
    else
      var j := t.world.jsonOf(e);
      var digest := LinkDigest(x.digest, x.tail + 1, Canonical(j));
      Some(x.(projection := After(t, x.projection, e), observed := x.observed + {e}, work := x.work + [e],
              rows := x.rows + [Row(x.tail + 1, Print(j), digest)], tail := x.tail + 1, digest := digest, changed := true))
  }

  function Created(c: Config): System {
    System([], MetaOf(c, []), None, [])
  }

  ghost function Trace(c: Config, t: Trust, actions: seq<Action>): System {
    if actions == [] then Created(c) else Do(c, t, Trace(c, t, actions[..|actions| - 1]), actions[|actions| - 1])
  }

  // ---------- the serial reference ----------

  /** A whole transaction on its own: every event is admitted and fits, or nothing happens. */
  ghost function Attempt(t: Trust, h: seq<Event>, work: seq<Event>): Option<seq<Event>> {
    if work == [] then Some(h) else
    match Attempt(t, h, work[..|work| - 1])
    case None => None
    case Some(g) =>
      var e := work[|work| - 1];
      if Replay(t, g).Some? && Admits(t, Replay(t, g).value, e) && !Full(g, e) then Some(Extended(g, e)) else None
  }

  /** One transaction after the other on a new log, all successful. */
  ghost function Serially(t: Trust, works: seq<seq<Event>>): Option<seq<Event>> {
    if works == [] then Some([]) else
    match Serially(t, works[..|works| - 1])
    case None => None
    case Some(h) => Attempt(t, h, works[|works| - 1])
  }

  lemma AttemptMore(t: Trust, h: seq<Event>, work: seq<Event>, g: seq<Event>, e: Event)
    requires Attempt(t, h, work) == Some(g) && Replay(t, g).Some? && Admits(t, Replay(t, g).value, e) && !Full(g, e)
    ensures Attempt(t, h, work + [e]) == Some(Extended(g, e))
  {
    hide Outcome, Replay;
    assert (work + [e])[..|work|] == work;
  }

  lemma SeriallyMore(t: Trust, works: seq<seq<Event>>, h: seq<Event>, work: seq<Event>, g: seq<Event>)
    requires Serially(t, works) == Some(h) && Attempt(t, h, work) == Some(g)
    ensures Serially(t, works + [work]) == Some(g)
  {
    hide Attempt;
    assert (works + [work])[..|works|] == works;
  }

  // ---------- the invariant ----------

  /** The working copy stands for the log h with the accepted work done. */
  ghost predicate UnderWay(c: Config, t: Trust, s: System, x: Tx) {
    var h, js, g := Committed(c, t, s), JsonIn(c, x.rows), LogIn(c, t, x.rows);
    && h <= g && GoodLog(t, g) && Attempt(t, h, x.work) == Some(g)
    && RowsFit(c, x.rows, js) && Decodes(t.world, js, g)
    && x.tail == |g| && x.digest == Chain(c, js) && x.observed == ToSet(g)
    && Similar(x.projection, Replay(t, g).value)
    && (!x.changed ==> x.rows == s.rows)
    && x.meta == if x.closed && x.changed then MetaOf(c, js) else s.meta
  }

  ghost predicate Sound(c: Config, t: Trust, s: System) {
    && Loads(c, t, s.rows, s.meta) && GoodLog(t, Committed(c, t, s)) && Serially(t, s.works) == Some(Committed(c, t, s))
    && (s.tx.Some? ==> UnderWay(c, t, s, s.tx.value))
  }

  /** The rows after a new event is written. */
  lemma WrittenRows(c: Config, t: Trust, x: Tx, e: Event)
    requires ReadsEvents(t.world)
    requires RowsFit(c, x.rows, JsonIn(c, x.rows)) && Decodes(t.world, JsonIn(c, x.rows), LogIn(c, t, x.rows))
    requires x.tail == |x.rows| && x.digest == Chain(c, JsonIn(c, x.rows))
    ensures var j := t.world.jsonOf(e);
      var rows := x.rows + [Row(x.tail + 1, Print(j), LinkDigest(x.digest, x.tail + 1, Canonical(j)))];
      && JsonIn(c, rows) == JsonIn(c, x.rows) + [j] && LogIn(c, t, rows) == LogIn(c, t, x.rows) + [e]
      && RowsFit(c, rows, JsonIn(c, rows)) && Decodes(t.world, JsonIn(c, rows), LogIn(c, t, rows))
      && Chain(c, JsonIn(c, rows)) == LinkDigest(x.digest, x.tail + 1, Canonical(j))
  {
    hide Canonical, Print, UniqueKeys, Chain, RowsFit;
    var js, j := JsonIn(c, x.rows), t.world.jsonOf(e);
    WrittenEventIsRead(t.world, e);
    AppendFits(c, x.rows, js, j);
    ChainGrows(c, js, j);
    assert |js| == |x.rows|;
    assert JsonIn(c, x.rows + [WrittenRow(c, js, j)]) == js + [j];
    assert EventsIn(t.world, js + [j]) == EventsIn(t.world, js) + [e];
  }

  lemma AcceptedKeeps(c: Config, t: Trust, s: System, x: Tx, e: Event)
    requires ReadsEvents(t.world) && UnderWay(c, t, s, x) && !x.closed && Accepted(t, x, e).Some?
    ensures UnderWay(c, t, s, Accepted(t, x, e).value)
  {
    hide Outcome, Similar, Chain, RowsFit, Replay, Canonical, Print, Attempt, JsonIn, EventsIn, Decodes;
    var g := LogIn(c, t, x.rows);
    var p := Replay(t, g).value;
    SimilarStep(t, x.projection, p, e);
    ReplayStep(t, g, e);
    SizeOfRows(c, t, x.rows);
    assert e in x.observed <==> e in g;
    AttemptMore(t, Committed(c, t, s), x.work, g, e);
    if e in g {
      RepeatedEventChangesNothing(t, g, e);
      SimilarThrough(After(t, x.projection, e), After(t, p, e), p);
    } else {
      WrittenRows(c, t, x, e);
      assert ToSet(g + [e]) == ToSet(g) + {e};
    }
  }

  lemma SizeOfRows(c: Config, t: Trust, rows: seq<Row>)
    ensures |LogIn(c, t, rows)| == |JsonIn(c, rows)| == |rows|
  {}

  lemma BeginKeeps(c: Config, t: Trust, s: System, pid: int)
    requires Sound(c, t, s)
    ensures Sound(c, t, Do(c, t, s, Begin(pid)))
  {
    hide Outcome, Chain, RowsFit, JsonIn, EventsIn, Decodes;
    SizeOfRows(c, t, s.rows);
    assert Similar(Replay(t, Committed(c, t, s)).value, Replay(t, Committed(c, t, s)).value);
  }

  lemma CommitKeeps(c: Config, t: Trust, s: System, pid: int)
    requires Sound(c, t, s) && Owns(s, pid) && s.tx.value.closed
    ensures Sound(c, t, Do(c, t, s, Commit(pid)))
    ensures Committed(c, t, s) <= Committed(c, t, Do(c, t, s, Commit(pid)))
  {
    hide Outcome, Chain, RowsFit, JsonIn, EventsIn, Decodes, Attempt, Serially, Replay;
    var x := s.tx.value;
    SeriallyMore(t, s.works, Committed(c, t, s), x.work, LogIn(c, t, x.rows));
  }

  lemma ActionKeeps(c: Config, t: Trust, s: System, a: Action)
    requires ReadsEvents(t.world) && Sound(c, t, s)
    ensures Sound(c, t, Do(c, t, s, a))
    ensures Committed(c, t, s) <= Committed(c, t, Do(c, t, s, a))
    ensures !a.Commit? ==> Do(c, t, s, a).rows == s.rows && Do(c, t, s, a).meta == s.meta && Do(c, t, s, a).works == s.works
  {
    hide Outcome, Replay, Similar, Serially, Attempt, Accepted, RowsFit, Chain, JsonIn, EventsIn, Decodes;
    match a
    case Begin(pid) => BeginKeeps(c, t, s, pid);
    case Accept(pid, e) =>
      if Owns(s, pid) && !s.tx.value.closed && Accepted(t, s.tx.value, e).Some? {
        AcceptedKeeps(c, t, s, s.tx.value, e);
      }
    case WriteMetadata(_) =>
      if s.tx.Some? { SizeOfRows(c, t, s.tx.value.rows); }
    case Commit(pid) =>
      if Owns(s, pid) && s.tx.value.closed { CommitKeeps(c, t, s, pid); }
    case Stop(_) =>
  }

  /** In every interleaving, with crashes anywhere, the committed rows and metadata stand for one log that
      replays, repeats no event and stays within the capacity; and that log is exactly what the transactions
      that committed, in the order in which they did, produce one after the other. */
  lemma {:induction false} EveryInterleavingIsSerial(c: Config, t: Trust, actions: seq<Action>)
    requires ReadsEvents(t.world)
    ensures var s := Trace(c, t, actions);
      && Stands(t.world, c, s.rows, s.meta, Committed(c, t, s)) && GoodLog(t, Committed(c, t, s))
      && Serially(t, s.works) == Some(Committed(c, t, s))
    ensures Sound(c, t, Trace(c, t, actions))
  {
    hide Do;
    if actions != [] {
      EveryInterleavingIsSerial(c, t, actions[..|actions| - 1]);
      ActionKeeps(c, t, Trace(c, t, actions[..|actions| - 1]), actions[|actions| - 1]);
    }
    LoadsIffStands(c, t, Trace(c, t, actions).rows, Trace(c, t, actions).meta);
  }

  /** What has been committed stays, in its place; a transaction that stops or is refused leaves no trace. */
  lemma {:induction false} CommittedNeverChanges(c: Config, t: Trust, actions: seq<Action>, i: nat)
    requires ReadsEvents(t.world) && i <= |actions|
    ensures Committed(c, t, Trace(c, t, actions[..i])) <= Committed(c, t, Trace(c, t, actions))
    ensures (forall k | i <= k < |actions| :: !actions[k].Commit?) ==>
      Trace(c, t, actions).rows == Trace(c, t, actions[..i]).rows && Trace(c, t, actions).meta == Trace(c, t, actions[..i]).meta
    decreases |actions|
  {
    hide Do, Sound;
    if i == |actions| {
      assert actions[..i] == actions;
    } else {
      var front := actions[..|actions| - 1];
      assert front[..i] == actions[..i];
      CommittedNeverChanges(c, t, front, i);
      EveryInterleavingIsSerial(c, t, front);
      ActionKeeps(c, t, Trace(c, t, front), actions[|actions| - 1]);
    }
  }

  /** Of two different contents for one revision of one stream, at most one is ever accepted, whichever
      processes offer them and whenever. */
  lemma OneContentPerRevisionEver(c: Config, t: Trust, actions: seq<Action>, i: nat, j: nat, a: Event, b: Event)
    requires ReadsEvents(t.world) && i <= |actions| && j <= |actions| && a.ArtifactEvent? && b.ArtifactEvent?
    requires a in Committed(c, t, Trace(c, t, actions[..i])) && b in Committed(c, t, Trace(c, t, actions[..j]))
    requires SameStream(a.artifact.unsigned, b.artifact.unsigned)
    requires a.artifact.unsigned.revision == b.artifact.unsigned.revision
    ensures a.artifact.unsigned == b.artifact.unsigned
  {
    hide Trace, Sound, Stands, Serially;
    CommittedNeverChanges(c, t, actions, i);
    CommittedNeverChanges(c, t, actions, j);
    EveryInterleavingIsSerial(c, t, actions);
    AtMostOneContentPerRevision(t, Committed(c, t, Trace(c, t, actions)), a, b);
  }

  // ---------- interleaved commands ----------

  /** Processes that issue commands. `current` is the command of the transaction under way; `done` lists the
      commands that have been answered, with their answers, in the order in which they were. A command that
      finds the store busy, and one whose process dies, is not among them. */
  datatype Server = Server(system: System, current: Option<Command>, done: seq<(Command, Verdict)>)

  datatype Turn =
    | Call(pid: int, cmd: Command)
    | TakeEvent(pid: int)
    | FinishWork(pid: int)
    | Confirm(pid: int)
    | Die(pid: int)

  ghost function Answered(s: Server, system: System, verdict: Verdict): Server
    requires s.current.Some?
  {
    Server(system, None, s.done + [(s.current.value, verdict)])
  }

  ghost predicate Serves(s: Server, pid: int) { s.current.Some? && Owns(s.system, pid) }

  /** What is left to do once the event is in. */
  ghost function Rest(t: Trust, s: Server): Finished
    requires s.current.Some? && s.system.tx.Some?
  {
    Finish(t, s.system.tx.value.projection, s.current.value).1
  }

  /** One step of one process: opening the store, taking the command's event, the work after it, the commit. */
  ghost function Next(c: Config, t: Trust, s: Server, turn: Turn): Server {
    match turn
    case Call(pid, cmd) =>
      if Preliminary(t, cmd).Some? then s.(done := s.done + [(cmd, Verdict(false, Preliminary(t, cmd).value))])
      else if s.system.tx.Some? then s
      else
        var begun := Do(c, t, s.system, Begin(pid));
        Server(begun, if begun.tx.Some? then Some(cmd) else None, s.done)
    case TakeEvent(pid) =>
      if !Serves(s, pid) || s.system.tx.value.work != [] || s.system.tx.value.closed then s else
      var e := EventOf(s.current.value);
      var taken := Do(c, t, s.system, Accept(pid, e));
      if taken.tx.Some? then s.(system := taken)
      else
        var refusal := Outcome(t, s.system.tx.value.projection, e).1;
        Answered(s, taken, if refusal.Some? then Verdict(false, refusal.value) else UNAVAILABLE)
    case FinishWork(pid) =>
      if !Serves(s, pid) || s.system.tx.value.work == [] || s.system.tx.value.closed then s else
      (match Rest(t, s)
       case Threw(reason) => Answered(s, Do(c, t, s.system, Stop(pid)), Verdict(false, reason))
       case Done(_) => s.(system := Do(c, t, s.system, WriteMetadata(pid))))
    case Confirm(pid) =>
      if !Serves(s, pid) || !s.system.tx.value.closed || Rest(t, s).Threw? then s
      else Answered(s, Do(c, t, s.system, Commit(pid)), Rest(t, s).verdict)
    case Die(pid) =>
      if !Serves(s, pid) then s else Server(Do(c, t, s.system, Stop(pid)), None, s.done)
  }

  ghost function Service(c: Config, t: Trust, turns: seq<Turn>): Server {
    if turns == [] then Server(Created(c), None, []) else Next(c, t, Service(c, t, turns[..|turns| - 1]), turns[|turns| - 1])
  }

  function CommandsOf(done: seq<(Command, Verdict)>): seq<Command> {
    seq(|done|, i requires 0 <= i < |done| => done[i].0)
  }

  function AnswersOf(done: seq<(Command, Verdict)>): seq<Verdict> {
    seq(|done|, i requires 0 <= i < |done| => done[i].1)
  }

  /** How far the command under way has come, seen from the log h. */
  ghost predicate Progress(c: Config, t: Trust, s: Server, x: Tx) {
    var h := Committed(c, t, s.system);
    && s.current.Some? && Preliminary(t, s.current.value).None? && Replay(t, h).Some?
    && var p, e := Replay(t, h).value, EventOf(s.current.value);
    && (x.work == [] ==> x.projection == p && !x.closed && LogIn(c, t, x.rows) == h)
    && (x.work != [] ==>
          && Admits(t, p, e) && !Full(h, e) && x.projection == After(t, p, e)
          && x.work == [e] && LogIn(c, t, x.rows) == Extended(h, e))
  }

  ghost predicate InStep(c: Config, t: Trust, s: Server) {
    && Sound(c, t, s.system)
    && Run(t, [], CommandsOf(s.done)) == (Committed(c, t, s.system), AnswersOf(s.done))
    && (s.current.Some? <==> s.system.tx.Some?)
    && (s.system.tx.Some? ==> Progress(c, t, s, s.system.tx.value))
  }

  lemma RunMore(t: Trust, done: seq<(Command, Verdict)>, h: seq<Event>, cmd: Command, g: seq<Event>, verdict: Verdict)
    requires Run(t, [], CommandsOf(done)) == (h, AnswersOf(done)) && Step(t, h, cmd) == (g, verdict)
    ensures Run(t, [], CommandsOf(done + [(cmd, verdict)])) == (g, AnswersOf(done + [(cmd, verdict)]))
  {
    hide Step;
    var cmds := CommandsOf(done + [(cmd, verdict)]);
    assert cmds == CommandsOf(done) + [cmd];
    assert cmds[..|cmds| - 1] == CommandsOf(done);
    assert AnswersOf(done + [(cmd, verdict)]) == AnswersOf(done) + [verdict];
  }

  /** An answer that leaves the file alone. */
  lemma AnswerKeeps(c: Config, t: Trust, s: Server, cmd: Command, system: System, verdict: Verdict)
    requires InStep(c, t, s) && Sound(c, t, system) && system.rows == s.system.rows && system.tx.None?
    requires Step(t, Committed(c, t, s.system), cmd) == (Committed(c, t, s.system), verdict)
    ensures InStep(c, t, Server(system, None, s.done + [(cmd, verdict)]))
  {
    hide Step, Sound, Run, LogIn;
    RunMore(t, s.done, Committed(c, t, s.system), cmd, Committed(c, t, s.system), verdict);
  }

  lemma SoundLog(c: Config, t: Trust, s: System)
    requires Sound(c, t, s)
    ensures GoodLog(t, Committed(c, t, s)) && Replay(t, Committed(c, t, s)).Some?
  {}

  lemma CallKeeps(c: Config, t: Trust, s: Server, pid: int, cmd: Command)
    requires ReadsEvents(t.world) && InStep(c, t, s)
    ensures InStep(c, t, Next(c, t, s, Call(pid, cmd)))
  {
    hide Step, Preliminary, Run, Sound, LogIn, Outcome, Progress;
    SoundLog(c, t, s.system);
    if Preliminary(t, cmd).Some? {
      PreliminaryStops(t, cmd);
      var verdict := Verdict(false, Preliminary(t, cmd).value);
      RunMore(t, s.done, Committed(c, t, s.system), cmd, Committed(c, t, s.system), verdict);
      SameProgress(c, t, s, s.done + [(cmd, verdict)]);
    } else if s.system.tx.None? {
      ActionKeeps(c, t, s.system, Begin(pid));
      BeginStarts(c, t, s, pid, cmd);
    }
  }

  lemma SameProgress(c: Config, t: Trust, s: Server, done: seq<(Command, Verdict)>)
    requires s.system.tx.Some? ==> Progress(c, t, s, s.system.tx.value)
    ensures s.system.tx.Some? ==> Progress(c, t, s.(done := done), s.system.tx.value)
  {
    hide Admits, Replay, Preliminary;
  }

  lemma BeginStarts(c: Config, t: Trust, s: Server, pid: int, cmd: Command)
    requires Sound(c, t, s.system) && s.system.tx.None? && Preliminary(t, cmd).None?
    ensures var begun := Do(c, t, s.system, Begin(pid));
      begun.tx.Some? && Progress(c, t, Server(begun, Some(cmd), s.done), begun.tx.value)
  {
    hide Outcome, Preliminary, Holds, Decodes, JsonIn, EventsIn;
  }

  lemma TakeKeeps(c: Config, t: Trust, s: Server, pid: int)
    requires ReadsEvents(t.world) && InStep(c, t, s)
    ensures InStep(c, t, Next(c, t, s, TakeEvent(pid)))
  {
    hide Step, Preliminary, Run, Sound, JsonIn, EventsIn, Outcome, Replay, Finish;
    SoundLog(c, t, s.system);
    if Serves(s, pid) && s.system.tx.value.work == [] {
      var x, e, h := s.system.tx.value, EventOf(s.current.value), Committed(c, t, s.system);
      ActionKeeps(c, t, s.system, Accept(pid, e));
      ObservedIsLogged(c, t, s.system);
      StepUnfolds(t, h, s.current.value);
      var taken := Do(c, t, s.system, Accept(pid, e));
      if taken.tx.Some? {
        TakenRows(c, t, x, e);
      } else {
        AnswerKeeps(c, t, s, s.current.value, taken, Step(t, h, s.current.value).1);
      }
    }
  }

  lemma ObservedIsLogged(c: Config, t: Trust, s: System)
    requires Sound(c, t, s) && s.tx.Some?
    ensures var x := s.tx.value; x.observed == ToSet(LogIn(c, t, x.rows)) && x.tail == |LogIn(c, t, x.rows)|
    ensures RowsFit(c, s.tx.value.rows, JsonIn(c, s.tx.value.rows))
    ensures Decodes(t.world, JsonIn(c, s.tx.value.rows), LogIn(c, t, s.tx.value.rows))
    ensures s.tx.value.tail == |s.tx.value.rows| && s.tx.value.digest == Chain(c, JsonIn(c, s.tx.value.rows))
  {
    hide Chain, RowsFit, Decodes, Replay, Attempt, Serially;
    SizeOfRows(c, t, s.tx.value.rows);
  }

  lemma TakenRows(c: Config, t: Trust, x: Tx, e: Event)
    requires ReadsEvents(t.world) && Accepted(t, x, e).Some?
    requires RowsFit(c, x.rows, JsonIn(c, x.rows)) && Decodes(t.world, JsonIn(c, x.rows), LogIn(c, t, x.rows))
    requires x.tail == |x.rows| && x.digest == Chain(c, JsonIn(c, x.rows)) && x.observed == ToSet(LogIn(c, t, x.rows))
    ensures LogIn(c, t, Accepted(t, x, e).value.rows) == Extended(LogIn(c, t, x.rows), e)
    ensures !Full(LogIn(c, t, x.rows), e)
  {
    hide Chain, RowsFit, Decodes, JsonIn, EventsIn, Canonical, Print, Outcome;
    SizeOfRows(c, t, x.rows);
    assert e in x.observed <==> e in LogIn(c, t, x.rows);
    if e !in x.observed { WrittenRows(c, t, x, e); }
  }

  lemma FinishKeeps(c: Config, t: Trust, s: Server, pid: int)
    requires ReadsEvents(t.world) && InStep(c, t, s)
    ensures InStep(c, t, Next(c, t, s, FinishWork(pid)))
  {
    hide Step, Preliminary, Run, Sound, LogIn, Outcome, Replay, Finish;
    SoundLog(c, t, s.system);
    if Serves(s, pid) && s.system.tx.value.work != [] && !s.system.tx.value.closed {
      StepUnfolds(t, Committed(c, t, s.system), s.current.value);
      match Rest(t, s)
      case Threw(reason) =>
        ActionKeeps(c, t, s.system, Stop(pid));
        AnswerKeeps(c, t, s, s.current.value, Do(c, t, s.system, Stop(pid)), Verdict(false, reason));
      case Done(_) =>
        ActionKeeps(c, t, s.system, WriteMetadata(pid));
    }
  }

  lemma ConfirmKeeps(c: Config, t: Trust, s: Server, pid: int)
    requires ReadsEvents(t.world) && InStep(c, t, s)
    ensures InStep(c, t, Next(c, t, s, Confirm(pid)))
  {
    hide Step, Preliminary, Run, Sound, LogIn, Outcome, Replay, Finish;
    SoundLog(c, t, s.system);
    if Serves(s, pid) && s.system.tx.value.closed && Rest(t, s).Done? {
      var h, x := Committed(c, t, s.system), s.system.tx.value;
      StepUnfolds(t, h, s.current.value);
      ActionKeeps(c, t, s.system, Commit(pid));
      RunMore(t, s.done, h, s.current.value, LogIn(c, t, x.rows), Rest(t, s).verdict);
    }
  }

  lemma NextKeeps(c: Config, t: Trust, s: Server, turn: Turn)
    requires ReadsEvents(t.world) && InStep(c, t, s)
    ensures InStep(c, t, Next(c, t, s, turn))
  {
    hide Run, Sound, LogIn, Progress, Preliminary;
    match turn
    case Call(pid, cmd) => CallKeeps(c, t, s, pid, cmd);
    case TakeEvent(pid) => TakeKeeps(c, t, s, pid);
    case FinishWork(pid) => FinishKeeps(c, t, s, pid);
    case Confirm(pid) => ConfirmKeeps(c, t, s, pid);
    case Die(pid) => ActionKeeps(c, t, s.system, Stop(pid));
  }

  /** Whatever processes issue commands and however their steps interleave: the log is the one that Run reaches
      with the answered commands in the order of their answers, and every answer is the one that Run gives. So
      all that is proved of runs holds of interleaved processes. */
  lemma {:induction false} InterleavedCommandsAreARun(c: Config, t: Trust, turns: seq<Turn>)
    requires ReadsEvents(t.world)
    ensures var s := Service(c, t, turns);
      && Run(t, [], CommandsOf(s.done)) == (Committed(c, t, s.system), AnswersOf(s.done))
      && Stands(t.world, c, s.system.rows, s.system.meta, Committed(c, t, s.system))
    ensures InStep(c, t, Service(c, t, turns))
  {
    hide Next, Progress;
    var none: seq<(Command, Verdict)> := [];
    assert CommandsOf(none) == [] && AnswersOf(none) == [];
    if turns != [] {
      InterleavedCommandsAreARun(c, t, turns[..|turns| - 1]);
      NextKeeps(c, t, Service(c, t, turns[..|turns| - 1]), turns[|turns| - 1]);
    }
    LoadsIffStands(c, t, Service(c, t, turns).system.rows, Service(c, t, turns).system.meta);
  }
}
