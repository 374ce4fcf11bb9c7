/** PostgreSQL's transaction rules for one session, and the meaning of a callback
    that runs inside `Db.transaction`.

    A database state is the sequence of statements in effect: every deterministic
    database is a function of that sequence.  What the server refuses is a parameter
    (`Faults`): it may depend on the state and on how many statements came before, so
    that a statement may fail once and succeed when it is repeated. */
module Savepoints {

  type Data = seq<nat>

  /** What can be refused in a session that is not aborted. */
  datatype Kind = Writing(w: nat) | Asking | Commencing | Opening | Closing | Committing

  /** `refuses(data, n, kind)`: as statement number `n` of the connection. */
  datatype Faults = Faults(refuses: (Data, nat, Kind) -> bool)

  /** No SAVEPOINT is refused in a healthy transaction. */
  ghost predicate OpensFreely(f: Faults) { forall d, n :: !f.refuses(d, n, Opening) }

  /* ---- the server side of one connection ---- */

  /** Savepoint `sp_<name>`, with the state it remembers. */
  datatype Savepoint = Savepoint(name: nat, saved: Data)

  datatype Phase = Idle | Active | Aborted

  datatype Session = Session(committed: Data, working: Data, stack: seq<Savepoint>, phase: Phase)

  datatype Sql =
    | Begin
    | Commit
    | Rollback
    | Save(name: nat)
    | Release(name: nat)
    | RollbackTo(name: nat)
    | Statement(w: nat)
    | Query

  /** A session after one statement, and whether the server accepted it. */
  datatype Reply = Reply(session: Session, ok: bool)

  /** Position of the newest savepoint of that name; -1 when there is none. */
  function Newest(stack: seq<Savepoint>, name: nat): (i: int)
    ensures -1 <= i < |stack|
    ensures i >= 0 ==> stack[i].name == name
    ensures forall j :: i < j < |stack| ==> stack[j].name != name
  {
    if stack == [] then -1
    else if stack[|stack| - 1].name == name then |stack| - 1
    else Newest(stack[..|stack| - 1], name)
  }

  function Refuse(s: Session): Reply {
    Reply(if s.phase.Active? then s.(phase := Aborted) else s, false)
  }

  function Discard(s: Session): Session {
    Session(s.committed, s.committed, [], Idle)
  }

  /** Statement number `n`, by PostgreSQL's rules: a refused statement aborts the
      transaction, an aborted transaction refuses everything but ROLLBACK,
      ROLLBACK TO and COMMIT, and COMMIT of an aborted transaction rolls it back
      without reporting an error. */
  function Step(s: Session, q: Sql, n: nat, f: Faults): Reply {
    match q
    case Begin =>
      if s.phase.Active? then Reply(s, true)
      else if s.phase.Aborted? || f.refuses(s.working, n, Commencing) then Refuse(s)
      else Reply(Session(s.committed, s.committed, [], Active), true)
    case Commit =>
      if !s.phase.Active? then Reply(Discard(s), true)
      else if f.refuses(s.working, n, Committing) then Reply(Discard(s), false)
      else Reply(Session(s.working, s.working, [], Idle), true)
    case Rollback => Reply(Discard(s), true)
    case Save(name) =>
      if s.phase.Active? && !f.refuses(s.working, n, Opening)
      then Reply(s.(stack := s.stack + [Savepoint(name, s.working)]), true)
      else Refuse(s)
    case Release(name) =>
      var i := Newest(s.stack, name);
      if s.phase.Active? && i >= 0 && !f.refuses(s.working, n, Closing)
      then Reply(s.(stack := s.stack[..i]), true)
      else Refuse(s)
    case RollbackTo(name) =>
      var i := Newest(s.stack, name);
      if !s.phase.Idle? && i >= 0
      then Reply(s.(working := s.stack[i].saved, stack := s.stack[..i + 1], phase := Active), true)
      else Refuse(s)
    case Statement(w) =>
      if s.phase.Aborted? || f.refuses(s.working, n, Writing(w)) then Refuse(s)
      else if s.phase.Active? then Reply(s.(working := s.working + [w]), true)
      else Reply(s.(committed := s.working + [w], working := s.working + [w]), true)
    case Query => if s.phase.Aborted? || f.refuses(s.working, n, Asking) then Refuse(s) else Reply(s, true)
  }

  /* ---- callbacks ---- */

  datatype Error = Refused(kind: Kind) | TransactionAborted | Application(code: nat)

  datatype Outcome = Resolved | Threw(error: Error)

  /** What a callback may do.  `Ask` reads the database and decides; `Tx` calls
      `db.transaction` again; `Catch` handles the errors its test selects. */
  datatype Prog =
    | Skip
    | Write(w: nat)
    | Throw(error: Error)
    | Then(first: Prog, second: Prog)
    | Ask(question: Data -> bool, yes: Prog, no: Prog)
    | Tx(body: Prog)
    | Catch(guarded: Prog, selects: Error -> bool, handler: Prog)

  /* ---- the contract: snapshot and restore ---- */

  /** `sent`: statements sent so far, those that open and close transactions included. */
  datatype Plain = Plain(data: Data, sent: nat, outcome: Outcome)

  /** `Tx` keeps its work when the body resolves and restores its snapshot when it
      throws, or when it cannot be opened or closed.  Nothing here knows about
      savepoints or aborted transactions. */
  function Snapshot(p: Prog, d: Data, n: nat, f: Faults): Plain {
    match p
    case Skip => Plain(d, n, Resolved)
    case Write(w) =>
      if f.refuses(d, n, Writing(w)) then Plain(d, n + 1, Threw(Refused(Writing(w))))
      else Plain(d + [w], n + 1, Resolved)
    case Throw(e) => Plain(d, n, Threw(e))
    case Then(a, b) =>
      var r := Snapshot(a, d, n, f);
      if r.outcome.Threw? then r else Snapshot(b, r.data, r.sent, f)
    case Ask(q, yes, no) =>
      if f.refuses(d, n, Asking) then Plain(d, n + 1, Threw(Refused(Asking)))
      else if q(d) then Snapshot(yes, d, n + 1, f) else Snapshot(no, d, n + 1, f)
    case Tx(body) =>
      if f.refuses(d, n, Opening) then Plain(d, n + 1, Threw(Refused(Opening))) else
      var r := Snapshot(body, d, n + 1, f);
      if r.outcome.Threw? then Plain(d, r.sent + 1, r.outcome)
      else if f.refuses(r.data, r.sent, Closing) then Plain(d, r.sent + 2, Threw(Refused(Closing)))
      else Plain(r.data, r.sent + 1, Resolved)
    case Catch(g, sel, h) =>
      var r := Snapshot(g, d, n, f);
      if r.outcome.Threw? && sel(r.outcome.error) then Snapshot(h, r.data, r.sent, f) else r
  }

  /** The same with one more bit: a refused statement spoils the innermost open
      transaction, whoever catches the error. */
  datatype Spoilt = Spoilt(data: Data, spoilt: bool, sent: nat, outcome: Outcome)

  function Eval(p: Prog, d: Data, spoilt: bool, n: nat, f: Faults): Spoilt {
    match p
    case Skip => Spoilt(d, spoilt, n, Resolved)
    case Write(w) =>
      if spoilt then Spoilt(d, true, n + 1, Threw(TransactionAborted))
      else if f.refuses(d, n, Writing(w)) then Spoilt(d, true, n + 1, Threw(Refused(Writing(w))))
      else Spoilt(d + [w], false, n + 1, Resolved)
    case Throw(e) => Spoilt(d, spoilt, n, Threw(e))
    case Then(a, b) =>
      var r := Eval(a, d, spoilt, n, f);
      if r.outcome.Threw? then r else Eval(b, r.data, r.spoilt, r.sent, f)
    case Ask(q, yes, no) =>
      if spoilt then Spoilt(d, true, n + 1, Threw(TransactionAborted))
      else if f.refuses(d, n, Asking) then Spoilt(d, true, n + 1, Threw(Refused(Asking)))
      else if q(d) then Eval(yes, d, false, n + 1, f) else Eval(no, d, false, n + 1, f)
    case Tx(body) =>
      if spoilt then Spoilt(d, true, n + 1, Threw(TransactionAborted))
      else if f.refuses(d, n, Opening) then Spoilt(d, true, n + 1, Threw(Refused(Opening)))
      else Ended(Eval(body, d, false, n + 1, f), d, f)
    case Catch(g, sel, h) =>
      var r := Eval(g, d, spoilt, n, f);
      if r.outcome.Threw? && sel(r.outcome.error) then Eval(h, r.data, r.spoilt, r.sent, f) else r
  }

  /** The end of a nested transaction that began at `d`. */
  function Ended(r: Spoilt, d: Data, f: Faults): Spoilt {
    if r.outcome.Threw? then Spoilt(d, false, r.sent + 1, r.outcome)
    else if r.spoilt then Spoilt(d, false, r.sent + 2, Threw(TransactionAborted))
    else if f.refuses(r.data, r.sent, Closing) then Spoilt(d, false, r.sent + 2, Threw(Refused(Closing)))
    else Spoilt(r.data, false, r.sent + 1, Resolved)
  }

  /** No statement outside a nested transaction. */
  predicate Boxed(p: Prog) {
    match p
    case Write(_) => false
    case Ask(_, _, _) => false
    case Then(a, b) => Boxed(a) && Boxed(b)
    case Catch(g, _, h) => Boxed(g) && Boxed(h)
    case _ => true
  }

  /** Errors of statements are caught only at the boundary of a nested transaction, and
      the refusal to open one is not caught at all unless it cannot happen (`opens`). */
  predicate Disciplined(p: Prog, opens: bool) {
    match p
    case Then(a, b) => Disciplined(a, opens) && Disciplined(b, opens)
    case Ask(_, yes, no) => Disciplined(yes, opens) && Disciplined(no, opens)
    case Tx(body) => Disciplined(body, opens)
    case Catch(g, sel, h) =>
      Boxed(g) && (opens || !sel(Refused(Opening))) && Disciplined(g, opens) && Disciplined(h, opens)
    case _ => true
  }

  /** For disciplined callbacks the extra bit is invisible. */
  lemma {:induction false} DisciplinedIsPlain(p: Prog, d: Data, n: nat, f: Faults, opens: bool)
    requires Disciplined(p, opens) && (opens ==> OpensFreely(f))
    ensures var r, s := Eval(p, d, false, n, f), Snapshot(p, d, n, f);
            && r.data == s.data && r.outcome == s.outcome && r.sent == s.sent
            && (r.spoilt ==> r.outcome.Threw? && (!Boxed(p) || (!opens && r.outcome.error == Refused(Opening))))
  {
    match p
    case Skip =>
    case Write(_) =>
    case Throw(_) =>
    case Then(a, b) =>
      DisciplinedIsPlain(a, d, n, f, opens);
      var r := Snapshot(a, d, n, f);
      DisciplinedIsPlain(b, r.data, r.sent, f, opens);
    case Ask(q, yes, no) => DisciplinedIsPlain(if q(d) then yes else no, d, n + 1, f, opens);
    case Tx(body) => DisciplinedIsPlain(body, d, n + 1, f, opens);
    case Catch(g, sel, h) =>
      DisciplinedIsPlain(g, d, n, f, opens);
      var r := Snapshot(g, d, n, f);
      DisciplinedIsPlain(h, r.data, r.sent, f, opens);
  }

  /* ---- what the adapters send ---- */

  /** What an adapter's call changes: the session, the depth counter, and the
      statements sent so far. */
  datatype World = World(session: Session, depth: nat, log: seq<Sql>)

  datatype Trail = Trail(world: World, outcome: Outcome)

  function Fault(q: Sql, before: Session): Error {
    if before.phase.Aborted? then TransactionAborted
    else match q
      case Statement(w) => Refused(Writing(w))
      case Query => Refused(Asking)
      case Save(_) => Refused(Opening)
      case Release(_) => Refused(Closing)
      case Commit => Refused(Committing)
      case Begin => Refused(Commencing)
      case _ => TransactionAborted
  }

  /** One awaited statement. */
  function Send(w: World, q: Sql, f: Faults): Trail {
    var r := Step(w.session, q, |w.log|, f);
    Trail(World(r.session, w.depth, w.log + [q]), if r.ok then Resolved else Threw(Fault(q, w.session)))
  }

  /** A callback running inside a transaction. */
  function Run(p: Prog, w: World, f: Faults): (r: Trail)
    ensures r.world.depth >= w.depth
    decreases p, 1
  {
    match p
    case Skip => Trail(w, Resolved)
    case Write(n) => Send(w, Statement(n), f)
    case Throw(e) => Trail(w, Threw(e))
    case Then(a, b) =>
      var r := Run(a, w, f);
      if r.outcome.Threw? then r else Run(b, r.world, f)
    case Ask(q, yes, no) =>
      var r := Send(w, Query, f);
      if r.outcome.Threw? then r
      else if q(r.world.session.working) then Run(yes, r.world, f) else Run(no, r.world, f)
    case Tx(body) => Nested(body, w, f)
    case Catch(g, sel, h) =>
      var r := Run(g, w, f);
      if r.outcome.Threw? && sel(r.outcome.error) then Run(h, r.world, f) else r
  }

  /** A nested `transaction` call.  When SAVEPOINT itself is refused the counter is
      left one too high: it is raised before the statement that fails. */
  function Nested(body: Prog, w: World, f: Faults): (r: Trail)
    ensures r.world.depth >= w.depth
    decreases body, 2
  {
    var start := Send(w.(depth := w.depth + 1), Save(w.depth), f);
    if start.outcome.Threw? then start else
    Settled(Run(body, start.world, f), w.depth, f)
  }

  /** The end of a nested call: RELEASE, or ROLLBACK TO after a failure. */
  function Settled(ran: Trail, name: nat, f: Faults): Trail {
    var closed := if ran.outcome.Threw? then ran else Send(ran.world, Release(name), f);
    var ended := if closed.outcome.Resolved? then closed else
      var undone := Send(closed.world, RollbackTo(name), f);
      if undone.outcome.Threw? then undone else undone.(outcome := closed.outcome);
    ended.(world := Lowered(ended.world))
  }

  function Lowered(w: World): World { w.(depth := if w.depth > 0 then w.depth - 1 else 0) }

  /** An outermost `transaction` call on an idle session, BEGIN inside the `try`. */
  function Outermost(body: Prog, w: World, f: Faults): Trail {
    var begun := Send(w.(depth := 1), Begin, f);
    Concluded(if begun.outcome.Threw? then begun else Run(body, begun.world, f), f)
  }

  /** The same with BEGIN before the `try`, as PGlite's driver has it. */
  function OutermostUnguarded(body: Prog, w: World, f: Faults): Trail {
    var begun := Send(w.(depth := 1), Begin, f);
    if begun.outcome.Threw? then begun else Concluded(Run(body, begun.world, f), f)
  }

  /** The end of an outermost call: COMMIT, or ROLLBACK after a failure. */
  function Concluded(ran: Trail, f: Faults): Trail {
    var closed := if ran.outcome.Threw? then ran else Send(ran.world, Commit, f);
    var ended := if closed.outcome.Resolved? then closed
                 else Send(closed.world, Rollback, f).(outcome := closed.outcome);
    ended.(world := ended.world.(depth := 0))
  }

  /* ---- refinement ---- */

  /** `now` keeps everything `was` had, and whatever a callback at that depth left
      above it has a name no enclosing call uses. */
  ghost predicate StackGrew(was: seq<Savepoint>, now: seq<Savepoint>, depth: nat) {
    && |was| <= |now| && now[..|was|] == was
    && forall i :: |was| <= i < |now| ==> now[i].name >= depth
  }

  lemma StackGrewTrans(a: seq<Savepoint>, b: seq<Savepoint>, c: seq<Savepoint>, lo: nat, hi: nat)
    requires StackGrew(a, b, lo) && StackGrew(b, c, hi) && lo <= hi
    ensures StackGrew(a, c, lo)
  {
    assert c[..|a|] == c[..|b|][..|a|];
    forall i | |a| <= i < |c| ensures c[i].name >= lo {
      if i < |b| { assert c[i] == c[..|b|][i]; }
    }
  }

  ghost predicate Refines(r: Trail, v: Spoilt, w: World) {
    && r.outcome == v.outcome
    && r.world.session.working == v.data
    && r.world.session.committed == w.session.committed
    && r.world.session.phase == (if v.spoilt then Aborted else Active)
    && |r.world.log| == v.sent
    && StackGrew(w.session.stack, r.world.session.stack, w.depth)
  }

  /** The name of an open savepoint resolves to that savepoint, however many stale
      ones lie above it. */
  lemma OwnSavepointIsNewest(base: seq<Savepoint>, own: Savepoint, now: seq<Savepoint>)
    requires StackGrew(base + [own], now, own.name + 1)
    ensures Newest(now, own.name) == |base| && now[|base|] == own && now[..|base|] == base
  {
    assert now[|base|] == now[..|base| + 1][|base|];
    assert now[..|base|] == now[..|base| + 1][..|base|];
  }

  /** The meaning of a callback from a session as it stands. */
  function Meaning(p: Prog, w: World, f: Faults): Spoilt {
    Eval(p, w.session.working, w.session.phase.Aborted?, |w.log|, f)
  }

  /** Savepoints refine snapshots at every depth: same outcome, same data, and an
      aborted session exactly where the callback is spoilt. */
  lemma {:induction false} RunRefines(p: Prog, w: World, f: Faults)
    requires !w.session.phase.Idle?
    ensures Refines(Run(p, w, f), Meaning(p, w, f), w)
    decreases p, 1
  {
    match p
    case Skip =>
    case Write(_) =>
    case Throw(_) =>
    case Then(a, b) =>
      RunRefines(a, w, f);
      var r := Run(a, w, f);
      if r.outcome.Resolved? { Continue(b, r.world, w, f); }
    case Ask(q, yes, no) =>
      var r := Send(w, Query, f);
      if r.outcome.Resolved? {
        Continue(if q(w.session.working) then yes else no, r.world, w, f);
      }
    case Tx(body) => NestedRefines(body, w, f);
    case Catch(g, sel, h) =>
      RunRefines(g, w, f);
      var r := Run(g, w, f);
      if r.outcome.Threw? && sel(r.outcome.error) { Continue(h, r.world, w, f); }
  }

  lemma {:induction false} Continue(p: Prog, now: World, w: World, f: Faults)
    requires !now.session.phase.Idle? && now.depth >= w.depth && now.session.committed == w.session.committed
    requires StackGrew(w.session.stack, now.session.stack, w.depth)
    ensures Refines(Run(p, now, f), Meaning(p, now, f), w)
    decreases p, 2
  {
    RunRefines(p, now, f);
    StackGrewTrans(w.session.stack, now.session.stack, Run(p, now, f).world.session.stack, w.depth, now.depth);
  }

  predicate Opens(w: World, f: Faults) { w.session.phase.Active? && !f.refuses(w.session.working, |w.log|, Opening) }

  /** Inside a nested call whose SAVEPOINT was accepted. */
  function Opened(w: World): World {
    var own := Savepoint(w.depth, w.session.working);
    World(w.session.(stack := w.session.stack + [own]), w.depth + 1, w.log + [Save(w.depth)])
  }

  lemma OpenedNested(body: Prog, w: World, f: Faults)
    requires Opens(w, f)
    ensures Nested(body, w, f) == Settled(Run(body, Opened(w), f), w.depth, f)
    ensures Meaning(Tx(body), w, f) == Ended(Meaning(body, Opened(w), f), w.session.working, f)
  {
  }

  lemma {:induction false} NestedRefines(body: Prog, w: World, f: Faults)
    requires !w.session.phase.Idle?
    ensures Refines(Nested(body, w, f), Meaning(Tx(body), w, f), w)
    decreases body, 3
  {
    if Opens(w, f) {
      OpenedNested(body, w, f);
      RunRefines(body, Opened(w), f);
      SettledRefines(Run(body, Opened(w), f), Meaning(body, Opened(w), f), w, f);
    }
  }

  /** Releasing or rolling back to the own savepoint is what the end of `Tx` means. */
  lemma SettledRefines(ran: Trail, v: Spoilt, w: World, f: Faults)
    requires Refines(ran, v, Opened(w)) && ran.world.depth > w.depth
    ensures Refines(Settled(ran, w.depth, f), Ended(v, w.session.working, f), w)
  {
    OwnSavepointIsNewest(w.session.stack, Savepoint(w.depth, w.session.working), ran.world.session.stack);
  }

  /* ---- the contract of an outermost transaction ---- */

  ghost predicate AtRest(s: Session) {
    s.phase.Idle? && s.stack == [] && s.working == s.committed
  }

  predicate Begins(w: World, f: Faults) { !f.refuses(w.session.working, |w.log|, Commencing) }

  /** Every outermost call, described by the callback's meaning alone.  The fourth case is
      COMMIT answered by a silent rollback: the caller is told nothing. */
  lemma OutermostMeaning(body: Prog, w: World, f: Faults)
    requires AtRest(w.session)
    ensures var r, v := Outermost(body, w, f), Eval(body, w.session.committed, false, |w.log| + 1, f);
            var before, after := w.session.committed, r.world.session.committed;
            var refused := f.refuses(v.data, v.sent, Committing);
            && AtRest(r.world.session) && r.world.depth == 0
            && (!Begins(w, f) ==> r.outcome == Threw(Refused(Commencing)) && after == before)
            && (Begins(w, f) && v.outcome.Threw? ==> r.outcome == v.outcome && after == before)
            && (Begins(w, f) && v.outcome.Resolved? && !v.spoilt && !refused ==>
                  r.outcome.Resolved? && after == v.data)
            && (Begins(w, f) && v.outcome.Resolved? && v.spoilt ==> r.outcome.Resolved? && after == before)
            && (Begins(w, f) && v.outcome.Resolved? && !v.spoilt && refused ==>
                  r.outcome == Threw(Refused(Committing)) && after == before)
  {
    if Begins(w, f) { RunRefines(body, Send(w.(depth := 1), Begin, f).world, f); }
  }

  /** A connection goes back to the pool as it came. */
  lemma OutermostRests(body: Prog, w: World, f: Faults)
    requires AtRest(w.session)
    ensures AtRest(Outermost(body, w, f).world.session)
  {
    OutermostMeaning(body, w, f);
  }

  /** What the interface promises: commit on resolve, roll back on throw, a nested
      call joining the outer one.  `n` statements were sent before. */
  function Promised(body: Prog, d: Data, n: nat, f: Faults): Plain {
    if f.refuses(d, n, Commencing) then Plain(d, n + 2, Threw(Refused(Commencing))) else
    var r := Snapshot(body, d, n + 1, f);
    if r.outcome.Threw? then Plain(d, r.sent + 1, r.outcome)
    else if f.refuses(r.data, r.sent, Committing) then Plain(d, r.sent + 2, Threw(Refused(Committing)))
    else Plain(r.data, r.sent + 1, Resolved)
  }

  /** Both adapters keep the promise for every disciplined callback. */
  lemma PromiseKept(body: Prog, w: World, f: Faults, opens: bool)
    requires AtRest(w.session) && Disciplined(body, opens) && (opens ==> OpensFreely(f))
    ensures var r, v := Outermost(body, w, f), Promised(body, w.session.committed, |w.log|, f);
            r.outcome == v.outcome && r.world.session.committed == v.data && AtRest(r.world.session)
  {
    OutermostMeaning(body, w, f);
    DisciplinedIsPlain(body, w.session.committed, |w.log| + 1, f, opens);
  }

  /** The callbacks the promise is kept for by a server that refuses as `f` says. */
  ghost predicate Kept(body: Prog, f: Faults) {
    Disciplined(body, false) || (Disciplined(body, true) && OpensFreely(f))
  }

  /** The same of either place for BEGIN. */
  lemma PromiseKeptByBoth(body: Prog, w: World, f: Faults)
    requires AtRest(w.session) && Kept(body, f)
    ensures var r, u := Outermost(body, w, f), OutermostUnguarded(body, w, f);
            var v := Promised(body, w.session.committed, |w.log|, f);
            && r.outcome == u.outcome == v.outcome
            && r.world.session.committed == u.world.session.committed == v.data
  {
    PromiseKept(body, w, f, !Disciplined(body, false));
    BeginDecides(body, w, f);
  }

  /** For every callback: the work of a call that resolved is committed exactly when
      the session was not aborted at COMMIT, or there was no work to lose. */
  lemma CommitsOnResolveIff(body: Prog, w: World, f: Faults)
    requires AtRest(w.session) && Outermost(body, w, f).outcome.Resolved?
    ensures var v := Eval(body, w.session.committed, false, |w.log| + 1, f);
            Outermost(body, w, f).world.session.committed == v.data
            <==> !v.spoilt || v.data == w.session.committed
  {
    OutermostMeaning(body, w, f);
  }

  const FRESH := World(Session([], [], [], Idle), 0, [])

  /** The promise fails for a callback that writes 1 and swallows the refusal of 2:
      the call resolves and 1 is gone. */
  lemma SwallowedRefusalLosesWork()
    ensures var f := Faults((d: Data, n: nat, k: Kind) => k == Writing(2));
            var body := Then(Write(1), Catch(Write(2), (e: Error) => true, Skip));
            var r := Outermost(body, FRESH, f);
            && !Disciplined(body, true)
            && r.outcome.Resolved? && r.world.session.committed == []
            && Promised(body, [], 0, f) == Plain([1], 4, Resolved)
  {
    var f := Faults((d: Data, n: nat, k: Kind) => k == Writing(2));
    var swallow := Catch(Write(2), (e: Error) => true, Skip);
    var body := Then(Write(1), swallow);
    OutermostMeaning(body, FRESH, f);
    assert Eval(Write(1), [], false, 1, f) == Spoilt([1], false, 2, Resolved);
    assert Eval(swallow, [1], false, 2, f) == Spoilt([1], true, 3, Resolved);
    assert Snapshot(swallow, [1], 2, f) == Plain([1], 3, Resolved);
  }

  /** A write that fails once is repeated after a nested transaction was rolled back, and
      the second attempt is committed. */
  lemma RetryCommits()
    ensures var f := Faults((d: Data, n: nat, k: Kind) => k == Writing(7) && n < 3);
            var body := Catch(Tx(Write(7)), (e: Error) => e == Refused(Writing(7)), Tx(Write(7)));
            var r := Outermost(body, FRESH, f);
            Disciplined(body, false) && r.outcome.Resolved? && r.world.session.committed == [7]
  {
    var f := Faults((d: Data, n: nat, k: Kind) => k == Writing(7) && n < 3);
    var sel := (e: Error) => e == Refused(Writing(7));
    var body := Catch(Tx(Write(7)), sel, Tx(Write(7)));
    assert Disciplined(body, false);
    PromiseKept(body, FRESH, f, false);
    assert Snapshot(Write(7), [], 2, f) == Plain([], 3, Threw(Refused(Writing(7))));
    assert Snapshot(Tx(Write(7)), [], 1, f) == Plain([], 4, Threw(Refused(Writing(7))));
    assert Snapshot(Write(7), [], 5, f) == Plain([7], 6, Resolved);
    assert Snapshot(Tx(Write(7)), [], 4, f) == Plain([7], 7, Resolved);
  }

  /* ---- the depth counter ---- */

  /** The nested calls a callback makes whose SAVEPOINT is refused. */
  function Leaks(p: Prog, d: Data, spoilt: bool, n: nat, f: Faults): nat {
    match p
    case Then(a, b) =>
      var r := Eval(a, d, spoilt, n, f);
      Leaks(a, d, spoilt, n, f) + if r.outcome.Threw? then 0 else Leaks(b, r.data, r.spoilt, r.sent, f)
    case Ask(q, yes, no) =>
      if spoilt || f.refuses(d, n, Asking) then 0
      else if q(d) then Leaks(yes, d, false, n + 1, f) else Leaks(no, d, false, n + 1, f)
    case Tx(body) =>
      if spoilt || f.refuses(d, n, Opening) then 1 else Leaks(body, d, false, n + 1, f)
    case Catch(g, sel, h) =>
      var r := Eval(g, d, spoilt, n, f);
      Leaks(g, d, spoilt, n, f)
      + if r.outcome.Threw? && sel(r.outcome.error) then Leaks(h, r.data, r.spoilt, r.sent, f) else 0
    case _ => 0
  }

  function LeaksFrom(p: Prog, w: World, f: Faults): nat {
    Leaks(p, w.session.working, w.session.phase.Aborted?, |w.log|, f)
  }

  /** Inside a transaction each refused SAVEPOINT leaves the counter one higher; nothing else does. */
  lemma {:induction false} DepthAfter(p: Prog, w: World, f: Faults)
    requires !w.session.phase.Idle?
    ensures Run(p, w, f).world.depth == w.depth + LeaksFrom(p, w, f)
    decreases p, 1
  {
    match p
    case Skip =>
    case Write(_) =>
    case Throw(_) =>
    case Then(a, b) => DepthAfterBoth(a, b, w, f);
    case Ask(q, yes, no) =>
      var r := Send(w, Query, f);
      if r.outcome.Resolved? { DepthAfter(if q(w.session.working) then yes else no, r.world, f); }
    case Tx(body) => DepthAfterNested(body, w, f);
    case Catch(g, sel, h) => DepthAfterCatch(g, sel, h, w, f);
  }

  lemma {:induction false} DepthAfterBoth(a: Prog, b: Prog, w: World, f: Faults)
    requires !w.session.phase.Idle?
    ensures Run(Then(a, b), w, f).world.depth == w.depth + LeaksFrom(Then(a, b), w, f)
    decreases Then(a, b), 0
  {
    DepthAfter(a, w, f);
    RunRefines(a, w, f);
    if Meaning(a, w, f).outcome.Resolved? { DepthContinues(b, Run(a, w, f).world, Meaning(a, w, f), f); }
  }

  lemma {:induction false} DepthAfterNested(body: Prog, w: World, f: Faults)
    requires !w.session.phase.Idle?
    ensures Nested(body, w, f).world.depth == w.depth + LeaksFrom(Tx(body), w, f)
    decreases Tx(body), 0
  {
    if Opens(w, f) {
      DepthAfter(body, Opened(w), f);
      OpenedNested(body, w, f);
      OpenedDepth(body, w, f);
    }
  }

  lemma OpenedDepth(body: Prog, w: World, f: Faults)
    requires Opens(w, f)
    ensures LeaksFrom(Tx(body), w, f) == LeaksFrom(body, Opened(w), f)
    ensures Settled(Run(body, Opened(w), f), w.depth, f).world.depth == Run(body, Opened(w), f).world.depth - 1
  {
  }

  lemma {:induction false} DepthAfterCatch(g: Prog, sel: Error -> bool, h: Prog, w: World, f: Faults)
    requires !w.session.phase.Idle?
    ensures Run(Catch(g, sel, h), w, f).world.depth == w.depth + LeaksFrom(Catch(g, sel, h), w, f)
    decreases Catch(g, sel, h), 0
  {
    DepthAfter(g, w, f);
    RunRefines(g, w, f);
    var v := Meaning(g, w, f);
    if v.outcome.Threw? && sel(v.outcome.error) { DepthContinues(h, Run(g, w, f).world, v, f); }
  }

  lemma {:induction false} DepthContinues(p: Prog, now: World, v: Spoilt, f: Faults)
    requires now.session.working == v.data && now.session.phase == (if v.spoilt then Aborted else Active)
    requires |now.log| == v.sent
    ensures Run(p, now, f).world.depth == now.depth + Leaks(p, v.data, v.spoilt, v.sent, f)
    decreases p, 2
  {
    DepthAfter(p, now, f);
  }

  /** Whether some SAVEPOINT of the callback is refused. */
  predicate OpensRefused(p: Prog, d: Data, spoilt: bool, n: nat, f: Faults) {
    match p
    case Then(a, b) =>
      var r := Eval(a, d, spoilt, n, f);
      OpensRefused(a, d, spoilt, n, f) || (r.outcome.Resolved? && OpensRefused(b, r.data, r.spoilt, r.sent, f))
    case Ask(q, yes, no) =>
      !spoilt && !f.refuses(d, n, Asking) && OpensRefused(if q(d) then yes else no, d, false, n + 1, f)
    case Tx(body) => spoilt || f.refuses(d, n, Opening) || OpensRefused(body, d, false, n + 1, f)
    case Catch(g, sel, h) =>
      var r := Eval(g, d, spoilt, n, f);
      OpensRefused(g, d, spoilt, n, f)
      || (r.outcome.Threw? && sel(r.outcome.error) && OpensRefused(h, r.data, r.spoilt, r.sent, f))
    case _ => false
  }

  lemma {:induction false} LeaksIff(p: Prog, d: Data, spoilt: bool, n: nat, f: Faults)
    ensures Leaks(p, d, spoilt, n, f) > 0 <==> OpensRefused(p, d, spoilt, n, f)
  {
    match p
    case Then(a, b) =>
      var r := Eval(a, d, spoilt, n, f);
      LeaksIff(a, d, spoilt, n, f);
      LeaksIff(b, r.data, r.spoilt, r.sent, f);
    case Ask(q, yes, no) => LeaksIff(if q(d) then yes else no, d, false, n + 1, f);
    case Tx(body) => LeaksIff(body, d, false, n + 1, f);
    case Catch(g, sel, h) =>
      var r := Eval(g, d, spoilt, n, f);
      LeaksIff(g, d, spoilt, n, f);
      LeaksIff(h, r.data, r.spoilt, r.sent, f);
    case _ =>
  }

  /** The counter comes back to where it was exactly when no SAVEPOINT is refused: no nested
      call is opened in an aborted session, and none is refused in a healthy one. */
  lemma DepthRestoredIff(p: Prog, w: World, f: Faults)
    requires !w.session.phase.Idle?
    ensures Run(p, w, f).world.depth == w.depth
       <==> !OpensRefused(p, w.session.working, w.session.phase.Aborted?, |w.log|, f)
  {
    DepthAfter(p, w, f);
    LeaksIff(p, w.session.working, w.session.phase.Aborted?, |w.log|, f);
  }

  /** For disciplined callbacks that is never, as long as the server refuses none. */
  lemma {:induction false} DisciplinedOpens(p: Prog, d: Data, n: nat, f: Faults)
    requires Disciplined(p, true) && OpensFreely(f)
    ensures !OpensRefused(p, d, false, n, f)
  {
    match p
    case Then(a, b) =>
      var r := Eval(a, d, false, n, f);
      DisciplinedOpens(a, d, n, f);
      DisciplinedIsPlain(a, d, n, f, true);
      if r.outcome.Resolved? { DisciplinedOpens(b, r.data, r.sent, f); }
    case Ask(q, yes, no) => DisciplinedOpens(if q(d) then yes else no, d, n + 1, f);
    case Tx(body) => DisciplinedOpens(body, d, n + 1, f);
    case Catch(g, sel, h) =>
      var r := Eval(g, d, false, n, f);
      DisciplinedOpens(g, d, n, f);
      DisciplinedIsPlain(g, d, n, f, true);
      if r.outcome.Threw? && sel(r.outcome.error) { DisciplinedOpens(h, r.data, r.sent, f); }
    case _ =>
  }

  /** After any callback that resolves in an aborted session, a nested call leaks. */
  lemma NestedAfterAbortLeaks(a: Prog, body: Prog, w: World, f: Faults)
    requires !w.session.phase.Idle?
    requires Meaning(a, w, f).outcome.Resolved? && Meaning(a, w, f).spoilt
    ensures Run(Then(a, Tx(body)), w, f).world.depth > w.depth
  {
    var v := Meaning(a, w, f);
    DepthAfter(Then(a, Tx(body)), w, f);
    assert Leaks(Tx(body), v.data, v.spoilt, v.sent, f) == 1;
  }

  /** A caught refusal is such a callback: inside an outermost transaction, at depth 1, the
      counter is higher afterwards. */
  lemma SwallowedRefusalLeaks(f: Faults, sel: Error -> bool)
    requires !f.refuses([], 0, Commencing) && f.refuses([], 1, Writing(2)) && sel(Refused(Writing(2)))
    ensures var w := Send(FRESH.(depth := 1), Begin, f).world;
            w.depth == 1 && Run(Then(Catch(Write(2), sel, Skip), Tx(Skip)), w, f).world.depth > 1
  {
    var w := Send(FRESH.(depth := 1), Begin, f).world;
    assert w == World(Session([], [], [], Active), 1, [Begin]);
    assert Eval(Write(2), [], false, 1, f) == Spoilt([], true, 2, Threw(Refused(Writing(2))));
    assert Eval(Catch(Write(2), sel, Skip), [], false, 1, f) == Eval(Skip, [], true, 2, f);
    NestedAfterAbortLeaks(Catch(Write(2), sel, Skip), Skip, w, f);
  }

  /* ---- a refused BEGIN ---- */

  /** Where BEGIN stands makes a difference exactly when it is refused: the caller is told
      the same and the session is the same, but ROLLBACK is not sent and the counter stays up. */
  lemma BeginDecides(body: Prog, w: World, f: Faults)
    requires AtRest(w.session)
    ensures var r, u := Outermost(body, w, f), OutermostUnguarded(body, w, f);
            && u.outcome == r.outcome && u.world.session == r.world.session
            && (u == r <==> Begins(w, f))
            && (u.world.depth == 0 <==> Begins(w, f))
            && (u.world.log == r.world.log <==> Begins(w, f))
  {
    if !Begins(w, f) { assert Outermost(body, w, f).world.log == w.log + [Begin] + [Rollback]; }
  }

  /** Calls of PGlite's `transaction`, one after another. */
  function Calls(bodies: seq<Prog>, w: World, f: Faults): World {
    if bodies == [] then w else
    var before := Calls(bodies[..|bodies| - 1], w, f);
    OnCounter(bodies[|bodies| - 1], before, f).world
  }

  /** One such call: the branch is chosen by the counter. */
  function OnCounter(body: Prog, w: World, f: Faults): Trail {
    if w.depth > 0 then Nested(body, w, f) else OutermostUnguarded(body, w, f)
  }

  lemma StuckOnce(body: Prog, w: World, f: Faults)
    requires w.session.phase.Idle? && w.depth > 0
    ensures OnCounter(body, w, f)
         == Trail(World(w.session, w.depth + 1, w.log + [Save(w.depth)]), Threw(Refused(Opening)))
  {
  }

  lemma BeginRefused(body: Prog, w: World, f: Faults)
    requires AtRest(w.session) && w.depth == 0 && !Begins(w, f)
    ensures OnCounter(body, w, f).world == World(w.session, 1, w.log + [Begin])
  {
  }

  /** After a refused BEGIN no later call ever gets to its callback: each is refused its
      SAVEPOINT, changes nothing and leaves the counter one higher. */
  lemma {:induction false} StuckForever(first: Prog, bodies: seq<Prog>, w: World, f: Faults)
    requires AtRest(w.session) && w.depth == 0 && !Begins(w, f)
    ensures var now := Calls([first] + bodies, w, f);
            && now.session == w.session && now.depth == 1 + |bodies| && |now.log| == |w.log| + 1 + |bodies|
            && forall next :: OnCounter(next, now, f).outcome == Threw(Refused(Opening))
  {
    var calls := [first] + bodies;
    if bodies == [] {
      assert calls[..0] == [] && Calls([], w, f) == w;
      BeginRefused(first, w, f);
    } else {
      var last := bodies[|bodies| - 1];
      assert calls[..|bodies|] == [first] + bodies[..|bodies| - 1] && calls[|bodies|] == last;
      StuckForever(first, bodies[..|bodies| - 1], w, f);
      StuckOnce(last, Calls([first] + bodies[..|bodies| - 1], w, f), f);
    }
    var now := Calls(calls, w, f);
    forall next ensures OnCounter(next, now, f).outcome == Threw(Refused(Opening)) { StuckOnce(next, now, f); }
  }
}
