/** Callbacks of many call stacks interleaved over the pool, one statement at a time: every
    call of `transaction` ends as it would have alone. */
module Interleaving {
  import opened Savepoints
  import Pool

  type Client = Pool.Client
  type Task = Pool.Task

  /* ---- a call, one statement at a time ---- */

  /** What is still to do when the callback's current part returns. */
  datatype Frame = Second(next: Prog) | Guard(selects: Error -> bool, handler: Prog) | Bracket(name: nat)

  datatype Control = Enter(p: Prog) | Return(out: Outcome)

  /** Where an outermost call stands. */
  datatype Agent =
    | Beginning(body: Prog)
    | Working(control: Control, stack: seq<Frame>)
    | Aborting(error: Error)
    | Done(out: Outcome)

  datatype Sent = Quiet | Sent(q: Sql, ok: bool)

  datatype Machine = Machine(agent: Agent, world: World, sent: Sent)

  function Told(r: Trail, q: Sql, stack: seq<Frame>): Machine {
    Machine(Working(Return(r.outcome), stack), r.world, Sent(q, r.outcome.Resolved?))
  }

  function Still(c: Control, stack: seq<Frame>, w: World): Machine { Machine(Working(c, stack), w, Quiet) }

  function Entering(p: Prog, k: seq<Frame>, w: World, f: Faults): Machine {
    match p
    case Skip => Still(Return(Resolved), k, w)
    case Write(n) => Told(Send(w, Statement(n), f), Statement(n), k)
    case Throw(e) => Still(Return(Threw(e)), k, w)
    case Then(a, b) => Still(Enter(a), k + [Second(b)], w)
    case Ask(q, yes, no) =>
      var r := Send(w, Query, f);
      if r.outcome.Threw? then Told(r, Query, k)
      else Machine(Working(Enter(if q(r.world.session.working) then yes else no), k), r.world, Sent(Query, true))
    case Tx(body) =>
      var r := Send(w.(depth := w.depth + 1), Save(w.depth), f);
      if r.outcome.Threw? then Told(r, Save(w.depth), k)
      else Machine(Working(Enter(body), k + [Bracket(w.depth)]), r.world, Sent(Save(w.depth), true))
    case Catch(g, sel, h) => Still(Enter(g), k + [Guard(sel, h)], w)
  }

  function Leaving(out: Outcome, top: Frame, rest: seq<Frame>, w: World, f: Faults): Machine {
    match top
    case Second(b) => if out.Resolved? then Still(Enter(b), rest, w) else Still(Return(out), rest, w)
    case Guard(sel, h) =>
      if out.Threw? && sel(out.error) then Still(Enter(h), rest, w) else Still(Return(out), rest, w)
    case Bracket(name) =>
      if out.Resolved? then
        var r := Send(w, Release(name), f);
        if r.outcome.Threw? then Told(r, Release(name), rest + [top])
        else Machine(Working(Return(Resolved), rest), Lowered(r.world), Sent(Release(name), true))
      else
        var r := Send(w, RollbackTo(name), f);
        Machine(Working(Return(if r.outcome.Threw? then r.outcome else out), rest), Lowered(r.world),
                Sent(RollbackTo(name), r.outcome.Resolved?))
  }

  function Ending(out: Outcome, w: World, f: Faults): Machine {
    if out.Threw? then Machine(Aborting(out.error), w, Quiet) else
    var r := Send(w, Commit, f);
    if r.outcome.Threw? then Machine(Aborting(r.outcome.error), r.world, Sent(Commit, false))
    else Machine(Done(Resolved), r.world, Sent(Commit, true))
  }

  /** One step of a call: at most one statement. */
  function Advance(a: Agent, w: World, f: Faults): Machine {
    match a
    case Beginning(body) =>
      var r := Send(w, Begin, f);
      if r.outcome.Threw? then Machine(Aborting(r.outcome.error), r.world, Sent(Begin, false))
      else Machine(Working(Enter(body), []), r.world, Sent(Begin, true))
    case Working(Enter(p), k) => Entering(p, k, w, f)
    case Working(Return(out), k) =>
      if k == [] then Ending(out, w, f) else Leaving(out, k[|k| - 1], k[..|k| - 1], w, f)
    case Aborting(e) =>
      var r := Send(w, Rollback, f);
      Machine(Done(Threw(e)), r.world, Sent(Rollback, r.outcome.Resolved?))
    case Done(_) => Machine(a, w, Quiet)
  }

  /* ---- what a call will come to ---- */

  function After(r: Trail, top: Frame, f: Faults): Trail {
    match top
    case Second(b) => if r.outcome.Threw? then r else Run(b, r.world, f)
    case Guard(sel, h) => if r.outcome.Threw? && sel(r.outcome.error) then Run(h, r.world, f) else r
    case Bracket(name) => Settled(r, name, f)
  }

  function Finish(r: Trail, k: seq<Frame>, f: Faults): Trail
    decreases |k|
  {
    if k == [] then r else Finish(After(r, k[|k| - 1], f), k[..|k| - 1], f)
  }

  /** The result of a call left to itself from here on. */
  function Future(a: Agent, w: World, f: Faults): Trail {
    match a
    case Beginning(body) => Outermost(body, w, f)
    case Working(Enter(p), k) => Concluded(Finish(Run(p, w, f), k, f), f)
    case Working(Return(out), k) => Concluded(Finish(Trail(w, out), k, f), f)
    case Aborting(e) => Trail(Send(w, Rollback, f).world.(depth := 0), Threw(e))
    case Done(out) => Trail(w.(depth := 0), out)
  }

  lemma FinishPushed(r: Trail, k: seq<Frame>, top: Frame, f: Faults)
    ensures Finish(r, k + [top], f) == Finish(After(r, top, f), k, f)
  {
    assert (k + [top])[..|k|] == k;
  }

  lemma EnteringKeepsFuture(p: Prog, k: seq<Frame>, w: World, f: Faults)
    ensures var m := Entering(p, k, w, f); Future(m.agent, m.world, f) == Concluded(Finish(Run(p, w, f), k, f), f)
  {
    match p
    case Then(a, b) => FinishPushed(Run(a, w, f), k, Second(b), f);
    case Catch(g, sel, h) => FinishPushed(Run(g, w, f), k, Guard(sel, h), f);
    case Tx(body) => OpeningKeepsFuture(body, k, w, f);
    case Ask(q, yes, no) => AskingKeepsFuture(q, yes, no, k, w, f);
    case _ =>
  }

  lemma OpeningKeepsFuture(body: Prog, k: seq<Frame>, w: World, f: Faults)
    ensures var m := Entering(Tx(body), k, w, f);
            Future(m.agent, m.world, f) == Concluded(Finish(Nested(body, w, f), k, f), f)
  {
    var r := Send(w.(depth := w.depth + 1), Save(w.depth), f);
    if r.outcome.Resolved? { FinishPushed(Run(body, r.world, f), k, Bracket(w.depth), f); }
  }

  lemma AskingKeepsFuture(q: Data -> bool, yes: Prog, no: Prog, k: seq<Frame>, w: World, f: Faults)
    ensures var m := Entering(Prog.Ask(q, yes, no), k, w, f);
            Future(m.agent, m.world, f) == Concluded(Finish(Run(Prog.Ask(q, yes, no), w, f), k, f), f)
  {
  }

  lemma LeavingKeepsFuture(out: Outcome, top: Frame, rest: seq<Frame>, w: World, f: Faults)
    ensures var m := Leaving(out, top, rest, w, f);
            Future(m.agent, m.world, f) == Concluded(Finish(After(Trail(w, out), top, f), rest, f), f)
  {
    if top.Bracket? && out.Resolved? {
      var r := Send(w, Release(top.name), f);
      FinishPushed(r, rest, top, f);
    }
  }

  /** No step changes what the call will come to. */
  lemma FutureIsKept(a: Agent, w: World, f: Faults)
    requires a.Beginning? ==> w.session.phase.Idle? && w.depth == 1
    ensures var m := Advance(a, w, f); Future(m.agent, m.world, f) == Future(a, w, f)
  {
    match a
    case Working(Enter(p), k) => EnteringKeepsFuture(p, k, w, f);
    case Working(Return(out), k) =>
      if k != [] { LeavingKeepsFuture(out, k[|k| - 1], k[..|k| - 1], w, f); }
    case _ =>
  }

  /* ---- every call ends ---- */

  function Work(p: Prog): nat {
    match p
    case Then(a, b) => Work(a) + Work(b) + 3
    case Ask(_, yes, no) => Work(yes) + Work(no) + 1
    case Tx(body) => Work(body) + 3
    case Catch(g, _, h) => Work(g) + Work(h) + 3
    case _ => 1
  }

  function Pending(k: seq<Frame>): nat {
    if k == [] then 0
    else
      Pending(k[..|k| - 1]) + match k[|k| - 1]
                              case Second(b) => Work(b) + 2
                              case Guard(_, h) => Work(h) + 2
                              case Bracket(_) => 2
  }

  /** The steps a call has left, at most. */
  function Left(a: Agent): nat {
    match a
    case Beginning(body) => Work(body) + 4
    case Working(Enter(p), k) => Pending(k) + Work(p) + 3
    case Working(Return(out), k) => Pending(k) + 2 + if out.Resolved? then 1 else 0
    case Aborting(_) => 1
    case Done(_) => 0
  }

  /** Whatever the server answers, every step brings a call nearer to its end. */
  lemma EveryStepCounts(a: Agent, w: World, f: Faults)
    ensures Left(Advance(a, w, f).agent) < Left(a) || a.Done?
  {
    match a
    case Working(Enter(p), k) => EnteringCounts(p, k, w, f);
    case Working(Return(out), k) =>
      if k != [] {
        assert k[..|k| - 1] + [k[|k| - 1]] == k;
        LeavingCounts(out, k[|k| - 1], k[..|k| - 1], w, f);
      }
    case _ =>
  }

  lemma PendingPushed(k: seq<Frame>, top: Frame)
    ensures Pending(k + [top]) == Pending(k) + match top
                                              case Second(b) => Work(b) + 2
                                              case Guard(_, h) => Work(h) + 2
                                              case Bracket(_) => 2
  {
    assert (k + [top])[..|k|] == k;
  }

  lemma EnteringCounts(p: Prog, k: seq<Frame>, w: World, f: Faults)
    ensures Left(Entering(p, k, w, f).agent) < Pending(k) + Work(p) + 3
  {
    match p
    case Then(a, b) => PendingPushed(k, Second(b));
    case Catch(g, sel, h) => PendingPushed(k, Guard(sel, h));
    case Tx(body) => PendingPushed(k, Bracket(w.depth));
    case _ =>
  }

  lemma LeavingCounts(out: Outcome, top: Frame, rest: seq<Frame>, w: World, f: Faults)
    ensures Left(Leaving(out, top, rest, w, f).agent) < Left(Working(Return(out), rest + [top]))
  {
    PendingPushed(rest, top);
  }

  /* ---- the pool's view of a call ---- */

  /** The savepoints a call has open. */
  function Names(k: seq<Frame>): seq<nat> {
    if k == [] then []
    else Names(k[..|k| - 1]) + if k[|k| - 1].Bracket? then [k[|k| - 1].name] else []
  }

  lemma NamesPushed(k: seq<Frame>, top: Frame)
    ensures Names(k + [top]) == Names(k) + if top.Bracket? then [top.name] else []
  {
    assert (k + [top])[..|k|] == k;
  }

  ghost predicate Undoes(c: Control, k: seq<Frame>) { c.Return? && c.out.Threw? && k != [] && k[|k| - 1].Bracket? }

  /** The call stack is where the pool thinks it is. */
  ghost predicate Agrees(a: Agent, w: World, me: Pool.Stack) {
    && me.Inside? && me.depth == w.depth
    && match a
       case Beginning(_) => me.pc.Starting? && me.frames == [] && me.depth == 1
       case Working(c, k) => me.frames == Names(k) && (me.pc.Running? || (me.pc.Failing? && Undoes(c, k)))
       case Aborting(_) => me.frames == [] && (me.pc.Running? || me.pc.Failing?)
       case Done(_) => me.frames == [] && me.pc.Finished?
  }

  function ActionOf(t: Task, q: Sql, ok: bool): Pool.Action {
    match q
    case Begin => Pool.SendBegin(t, ok)
    case Commit => Pool.SendCommit(t, ok)
    case Rollback => Pool.SendRollback(t, ok)
    case Save(_) => Pool.NestedOpen(t, ok)
    case Release(_) => Pool.NestedClose(t, ok)
    case RollbackTo(_) => Pool.NestedUndo(t, ok)
    case _ => Pool.SendStatement(t, q, ok)
  }

  /** Every step is one of the pool's moves, with the same statement. */
  ghost predicate Follows(t: Task, me: Pool.Stack, m: Machine)
    requires me.Inside?
  {
    match m.sent
    case Quiet => Agrees(m.agent, m.world, me)
    case Sent(q, ok) =>
      var v := Pool.MoveOf(me, ActionOf(t, q, ok));
      v.Moved? && v.q == q && v.ok == ok && v.now.Inside? && v.now.client == me.client
      && Agrees(m.agent, m.world, v.now)
  }

  lemma EnteringFollows(t: Task, p: Prog, k: seq<Frame>, w: World, f: Faults, me: Pool.Stack)
    requires Agrees(Working(Enter(p), k), w, me)
    ensures Follows(t, me, Entering(p, k, w, f))
  {
    match p
    case Then(a, b) => NamesPushed(k, Second(b));
    case Catch(g, sel, h) => NamesPushed(k, Guard(sel, h));
    case Tx(body) => NamesPushed(k, Bracket(w.depth));
    case _ =>
  }

  lemma UndoingFollows(t: Task, e: Error, name: nat, rest: seq<Frame>, w: World, f: Faults, me: Pool.Stack)
    requires me.Inside? && me.depth == w.depth && me.frames == Names(rest) + [name]
    requires me.pc.Running? || me.pc.Failing?
    ensures Follows(t, me, Leaving(Threw(e), Bracket(name), rest, w, f))
  {
    assert me.frames[..|me.frames| - 1] == Names(rest) && Pool.Innermost(me.frames) == name;
  }

  lemma ReleasingFollows(t: Task, name: nat, rest: seq<Frame>, w: World, f: Faults, me: Pool.Stack)
    requires me.Inside? && me.depth == w.depth && me.frames == Names(rest) + [name] && me.pc.Running?
    ensures Follows(t, me, Leaving(Resolved, Bracket(name), rest, w, f))
  {
    NamesPushed(rest, Bracket(name));
    assert me.frames[..|me.frames| - 1] == Names(rest) && Pool.Innermost(me.frames) == name;
  }

  lemma ClosingFollows(t: Task, out: Outcome, name: nat, rest: seq<Frame>, w: World, f: Faults, me: Pool.Stack)
    requires me.Inside? && me.depth == w.depth && me.frames == Names(rest) + [name]
    requires me.pc.Running? || (me.pc.Failing? && out.Threw?)
    ensures Follows(t, me, Leaving(out, Bracket(name), rest, w, f))
  {
    match out
    case Resolved => ReleasingFollows(t, name, rest, w, f, me);
    case Threw(e) => UndoingFollows(t, e, name, rest, w, f, me);
  }

  lemma LeavingFollows(t: Task, out: Outcome, top: Frame, rest: seq<Frame>, w: World, f: Faults, me: Pool.Stack)
    requires Agrees(Working(Return(out), rest + [top]), w, me)
    ensures Follows(t, me, Leaving(out, top, rest, w, f))
  {
    NamesPushed(rest, top);
    if top.Bracket? { ClosingFollows(t, out, top.name, rest, w, f, me); }
  }

  lemma AdvanceFollows(t: Task, a: Agent, w: World, f: Faults, me: Pool.Stack)
    requires Agrees(a, w, me) && (a.Beginning? ==> w.session.phase.Idle?)
    ensures Follows(t, me, Advance(a, w, f))
  {
    match a
    case Working(Enter(p), k) => EnteringFollows(t, p, k, w, f, me);
    case Working(Return(out), k) =>
      if k != [] {
        assert k[..|k| - 1] + [k[|k| - 1]] == k;
        LeavingFollows(t, out, k[|k| - 1], k[..|k| - 1], w, f, me);
      }
    case _ =>
  }

  /* ---- many calls ---- */

  /** What a call was started with: the callback, and its connection as it was then. */
  datatype Call = Call(body: Prog, world: World)

  datatype System = System(
    pool: Pool.System, agents: map<Task, Agent>, calls: map<Task, Call>, sessions: map<Client, Session>)

  /** `seen` is the database as the server shows it to that connection. */
  datatype Action =
    | Ask(t: Task, body: Prog)
    | Connect(t: Task, c: Client, seen: Data)
    | Step(t: Task)
    | GiveBack(t: Task)
    | Direct(t: Task, c: Client, q: Sql)

  function Statements(log: seq<Pool.Entry>): seq<Sql> { seq(|log|, i requires 0 <= i < |log| => log[i].q) }

  predicate Inside(s: System, t: Task) {
    && t in s.pool.tasks && s.pool.tasks[t].Inside? && t in s.agents && t in s.calls
    && s.pool.tasks[t].client in s.pool.logs && s.pool.tasks[t].client in s.sessions
  }

  /** The connection and depth a call works with. */
  function Here(s: System, t: Task): World
    requires Inside(s, t)
  {
    var me := s.pool.tasks[t];
    World(s.sessions[me.client], me.depth, Statements(s.pool.logs[me.client]))
  }

  function Asked(s: System, t: Task, body: Prog): System {
    s.(pool := Pool.Next(s.pool, Pool.Call(t)), agents := s.agents[t := Beginning(body)])
  }

  function Connected(s: System, t: Task, c: Client, seen: Data): System
    requires t in s.agents && s.agents[t].Beginning? && c in s.pool.logs
  {
    var session := Session(seen, seen, [], Idle);
    s.(pool := Pool.Next(s.pool, Pool.Connect(t, c)), sessions := s.sessions[c := session],
       calls := s.calls[t := Call(s.agents[t].body, World(session, 1, Statements(s.pool.logs[c])))])
  }

  /** What the server refuses on a call's connection. */
  function On(s: System, t: Task, f: Client -> Faults): Faults
    requires Inside(s, t)
  {
    f(s.pool.tasks[t].client)
  }

  function Advanced(s: System, t: Task, f: Client -> Faults): System
    requires Inside(s, t)
  {
    var m := Advance(s.agents[t], Here(s, t), On(s, t, f));
    s.(pool := if m.sent.Quiet? then s.pool else Pool.Next(s.pool, ActionOf(t, m.sent.q, m.sent.ok)),
       agents := s.agents[t := m.agent],
       sessions := s.sessions[s.pool.tasks[t].client := m.world.session])
  }

  function Lent(s: System, t: Task, c: Client, q: Sql, f: Client -> Faults): System
    requires c in s.sessions && c in s.pool.logs
  {
    var r := Savepoints.Step(s.sessions[c], q, |s.pool.logs[c]|, f(c));
    s.(pool := Pool.Next(s.pool, Pool.SendDirect(t, c, q, r.ok)), sessions := s.sessions[c := r.session])
  }

  function GivenBack(s: System, t: Task): System { s.(pool := Pool.Next(s.pool, Pool.GiveBack(t))) }

  function Next(s: System, a: Action, f: Client -> Faults): System {
    match a
    case Ask(t, body) => if t in s.pool.tasks && s.pool.tasks[t].Outside? then Asked(s, t, body) else s
    case Connect(t, c, seen) =>
      if t in s.pool.tasks && s.pool.tasks[t].Waiting? && c in s.pool.free && c in s.pool.logs
         && t in s.agents && s.agents[t].Beginning?
      then Connected(s, t, c, seen)
      else s
    case Step(t) => if Inside(s, t) then Advanced(s, t, f) else s
    case GiveBack(t) => GivenBack(s, t)
    case Direct(t, c, q) =>
      if t in s.pool.tasks && s.pool.tasks[t].Outside? && c in s.pool.free && c in s.sessions && c in s.pool.logs
         && Pool.Plain(q)
      then Lent(s, t, c, q, f)
      else s
  }

  function RunAll(s: System, actions: seq<Action>, f: Client -> Faults): System {
    if actions == [] then s else Next(RunAll(s, actions[..|actions| - 1], f), actions[|actions| - 1], f)
  }

  function Fresh(clients: set<Client>, tasks: set<Task>): System {
    System(Pool.Fresh(clients, tasks), map[], map[], map c | c in clients :: Session([], [], [], Idle))
  }

  /* ---- the invariant ---- */

  /** Left to itself from here on, the call comes to what it would have come to alone; the
      quantifier keeps both sides folded until they are needed. */
  ghost predicate AsAlone(a: Agent, w: World, call: Call, f: Faults) {
    forall g :: g == f ==> Future(a, w, g) == Outermost(call.body, call.world, g)
  }

  /** What is known of a call in progress. */
  ghost predicate Tracked(s: System, t: Task, f: Client -> Faults) {
    && Inside(s, t)
    && Agrees(s.agents[t], Here(s, t), s.pool.tasks[t])
    && (s.agents[t].Beginning? ==> Here(s, t).session.phase.Idle?)
    && AsAlone(s.agents[t], Here(s, t), s.calls[t], On(s, t, f))
    && AtRest(s.calls[t].world.session) && s.calls[t].world.log <= Here(s, t).log
  }

  ghost predicate Inv(s: System, clients: set<Client>, f: Client -> Faults) {
    && Pool.Inv(s.pool, clients) && s.sessions.Keys == clients
    && forall t :: t in s.pool.tasks && s.pool.tasks[t].Inside? ==> Tracked(s, t, f)
  }

  /** Nothing that another call works with has changed. */
  ghost predicate Undisturbed(s: System, n: System, u: Task) {
    && u in s.pool.tasks && u in n.pool.tasks && n.pool.tasks[u] == s.pool.tasks[u]
    && (u in s.agents ==> u in n.agents && n.agents[u] == s.agents[u])
    && (u in s.calls ==> u in n.calls && n.calls[u] == s.calls[u])
    && (s.pool.tasks[u].Inside? ==>
          var c := s.pool.tasks[u].client;
          && (c in s.pool.logs ==> c in n.pool.logs && n.pool.logs[c] == s.pool.logs[c])
          && (c in s.sessions ==> c in n.sessions && n.sessions[c] == s.sessions[c]))
  }

  lemma UndisturbedIsTracked(s: System, n: System, u: Task, f: Client -> Faults)
    requires Undisturbed(s, n, u) && s.pool.tasks[u].Inside? && Tracked(s, u, f)
    ensures Tracked(n, u, f)
  {
    assert Here(n, u) == Here(s, u);
  }

  lemma Said(log: seq<Pool.Entry>, e: Pool.Entry)
    ensures Statements(log + [e]) == Statements(log) + [e.q]
  {
  }

  /** After a step the connection is where the call left it. */
  lemma AdvancedHere(s: System, t: Task, f: Client -> Faults)
    requires Tracked(s, t, f)
    ensures var m, n := Advance(s.agents[t], Here(s, t), On(s, t, f)), Advanced(s, t, f);
            && Inside(n, t) && Here(n, t) == m.world && n.agents[t] == m.agent && n.calls == s.calls
            && Agrees(m.agent, m.world, n.pool.tasks[t]) && n.pool.tasks[t].client == s.pool.tasks[t].client
  {
    var a, w, me := s.agents[t], Here(s, t), s.pool.tasks[t];
    var m := Advance(a, w, On(s, t, f));
    AdvanceFollows(t, a, w, On(s, t, f), me);
    AdvanceSays(a, w, On(s, t, f));
    if m.sent.Sent? {
      Said(s.pool.logs[me.client], Pool.Entry(t, m.sent.q, m.sent.ok));
      PoolSends(s.pool, t, ActionOf(t, m.sent.q, m.sent.ok));
    }
  }

  lemma AdvancedIsTracked(s: System, t: Task, f: Client -> Faults)
    requires Tracked(s, t, f)
    ensures Tracked(Advanced(s, t, f), t, f)
  {
    AdvancedHere(s, t, f);
    FutureIsKept(s.agents[t], Here(s, t), On(s, t, f));
    AdvanceSays(s.agents[t], Here(s, t), On(s, t, f));
    NeverBeginsAgain(s.agents[t], Here(s, t), On(s, t, f));
  }

  lemma NeverBeginsAgain(a: Agent, w: World, f: Faults)
    ensures !Advance(a, w, f).agent.Beginning?
  {
  }

  /** A step adds to the log exactly the statement it sends. */
  lemma AdvanceSays(a: Agent, w: World, f: Faults)
    ensures var m := Advance(a, w, f); m.world.log == w.log + if m.sent.Quiet? then [] else [m.sent.q]
    ensures var m := Advance(a, w, f); m.sent.Quiet? ==> m.world == w
  {
  }

  lemma PoolSends(p: Pool.System, t: Task, a: Pool.Action)
    requires t in p.tasks && p.tasks[t].Inside? && a.t == t && !a.GiveBack? && Pool.MoveOf(p.tasks[t], a).Moved?
    requires p.tasks[t].client in p.logs
    ensures var v := Pool.MoveOf(p.tasks[t], a);
            var c := p.tasks[t].client;
            Pool.Next(p, a) ==
              p.(tasks := p.tasks[t := v.now], logs := p.logs[c := p.logs[c] + [Pool.Entry(t, v.q, v.ok)]])
  {
  }

  /* ---- every step keeps it ---- */

  /** What a step of one call may change: its own client, its own place. */
  ghost predicate Local(s: System, n: System, t: Task, c: Client) {
    && n.pool.tasks.Keys == s.pool.tasks.Keys
    && (forall u :: u in s.pool.tasks && u != t ==> n.pool.tasks[u] == s.pool.tasks[u])
    && (forall u :: u in s.agents && u != t ==> u in n.agents && n.agents[u] == s.agents[u])
    && (forall u :: u in s.calls && u != t ==> u in n.calls && n.calls[u] == s.calls[u])
    && (forall d :: d in s.pool.logs && d != c ==> d in n.pool.logs && n.pool.logs[d] == s.pool.logs[d])
    && (forall d :: d in s.sessions && d != c ==> d in n.sessions && n.sessions[d] == s.sessions[d])
  }

  /** Nobody else inside a transaction uses that client. */
  ghost predicate Alone(s: System, t: Task, c: Client) {
    forall u :: u in s.pool.tasks && u != t && s.pool.tasks[u].Inside? ==> s.pool.tasks[u].client != c
  }

  lemma LocalKeepsInv(s: System, n: System, t: Task, c: Client, clients: set<Client>, f: Client -> Faults)
    requires Inv(s, clients, f) && Local(s, n, t, c) && Alone(s, t, c)
    requires Pool.Inv(n.pool, clients) && n.sessions.Keys == clients
    requires t in n.pool.tasks && n.pool.tasks[t].Inside? ==> Tracked(n, t, f)
    ensures Inv(n, clients, f)
  {
    forall u | u in n.pool.tasks && n.pool.tasks[u].Inside? ensures Tracked(n, u, f) {
      if u != t { UndisturbedIsTracked(s, n, u, f); }
    }
  }

  lemma HolderIsAlone(s: System, t: Task, clients: set<Client>)
    requires Pool.Inv(s.pool, clients) && t in s.pool.tasks && s.pool.tasks[t].Inside?
    ensures Alone(s, t, s.pool.tasks[t].client)
  {
  }

  lemma FreeIsAlone(s: System, t: Task, c: Client, clients: set<Client>)
    requires Pool.Inv(s.pool, clients) && c in s.pool.free
    ensures Alone(s, t, c)
  {
    forall u | u in s.pool.tasks && u != t && s.pool.tasks[u].Inside? ensures s.pool.tasks[u].client != c {
      assert Pool.Holding(s.pool, u);
    }
  }

  lemma PoolAdvances(s: System, t: Task, clients: set<Client>, f: Client -> Faults)
    requires Pool.Inv(s.pool, clients) && Inside(s, t)
    ensures Pool.Inv(Advanced(s, t, f).pool, clients)
  {
    var m := Advance(s.agents[t], Here(s, t), On(s, t, f));
    if m.sent.Sent? { Pool.NextKeepsInv(s.pool, ActionOf(t, m.sent.q, m.sent.ok), clients); }
  }

  lemma AdvancedIsLocal(s: System, t: Task, f: Client -> Faults)
    requires Tracked(s, t, f)
    ensures var n := Advanced(s, t, f);
            Local(s, n, t, s.pool.tasks[t].client) && n.sessions.Keys == s.sessions.Keys
  {
    var me, m := s.pool.tasks[t], Advance(s.agents[t], Here(s, t), On(s, t, f));
    AdvanceFollows(t, s.agents[t], Here(s, t), On(s, t, f), me);
    if m.sent.Sent? {
      SentIsLocal(s, Advanced(s, t, f), t, ActionOf(t, m.sent.q, m.sent.ok), m.agent, m.world.session);
    }
  }

  lemma SentIsLocal(s: System, n: System, t: Task, a: Pool.Action, agent: Agent, session: Session)
    requires t in s.pool.tasks && s.pool.tasks[t].Inside? && a.t == t && !a.GiveBack?
    requires Pool.MoveOf(s.pool.tasks[t], a).Moved? && s.pool.tasks[t].client in s.pool.logs
    requires s.pool.tasks[t].client in s.sessions && n.pool == Pool.Next(s.pool, a)
    requires n.agents == s.agents[t := agent] && n.calls == s.calls
    requires n.sessions == s.sessions[s.pool.tasks[t].client := session]
    ensures Local(s, n, t, s.pool.tasks[t].client)
  {
    PoolSends(s.pool, t, a);
  }

  lemma AdvancedKeepsInv(s: System, t: Task, clients: set<Client>, f: Client -> Faults)
    requires Inv(s, clients, f) && t in s.pool.tasks && s.pool.tasks[t].Inside?
    ensures Inside(s, t) && Inv(Advanced(s, t, f), clients, f)
  {
    assert Tracked(s, t, f);
    PoolAdvances(s, t, clients, f);
    AdvancedIsLocal(s, t, f);
    AdvancedIsTracked(s, t, f);
    HolderIsAlone(s, t, clients);
    LocalKeepsInv(s, Advanced(s, t, f), t, s.pool.tasks[t].client, clients, f);
  }

  lemma AskedKeepsInv(s: System, t: Task, body: Prog, clients: set<Client>, f: Client -> Faults)
    requires Inv(s, clients, f) && t in s.pool.tasks && s.pool.tasks[t].Outside?
    ensures Inv(Asked(s, t, body), clients, f)
  {
    var n := Asked(s, t, body);
    Pool.NextKeepsInv(s.pool, Pool.Call(t), clients);
    forall u | u in n.pool.tasks && n.pool.tasks[u].Inside? ensures Tracked(n, u, f) {
      assert u != t && Tracked(s, u, f);
      UndisturbedIsTracked(s, n, u, f);
    }
  }

  lemma ConnectedIsTracked(s: System, t: Task, c: Client, seen: Data, f: Client -> Faults)
    requires t in s.pool.tasks && s.pool.tasks[t].Waiting? && c in s.pool.logs && c in s.pool.free && c in s.pool.taken
    requires t in s.agents && s.agents[t].Beginning? && c in s.sessions
    ensures var n := Connected(s, t, c, seen);
            Tracked(n, t, f) && n.sessions.Keys == s.sessions.Keys
  {
    var n := Connected(s, t, c, seen);
    assert n.pool == Pool.Connected(s.pool, t, c);
    assert Here(n, t) == n.calls[t].world;
  }

  lemma ConnectedIsLocal(s: System, t: Task, c: Client, seen: Data)
    requires t in s.pool.tasks && s.pool.tasks[t].Waiting? && c in s.pool.logs && c in s.pool.free && c in s.pool.taken
    requires t in s.agents && s.agents[t].Beginning?
    ensures Local(s, Connected(s, t, c, seen), t, c)
  {
    assert Connected(s, t, c, seen).pool == Pool.Connected(s.pool, t, c);
  }

  lemma ConnectedKeepsInv(s: System, t: Task, c: Client, seen: Data, clients: set<Client>, f: Client -> Faults)
    requires Inv(s, clients, f) && t in s.pool.tasks && s.pool.tasks[t].Waiting? && c in s.pool.free && c in s.pool.logs
    requires t in s.agents && s.agents[t].Beginning?
    ensures Inv(Connected(s, t, c, seen), clients, f)
  {
    Pool.NextKeepsInv(s.pool, Pool.Connect(t, c), clients);
    ConnectedIsTracked(s, t, c, seen, f);
    ConnectedIsLocal(s, t, c, seen);
    FreeIsAlone(s, t, c, clients);
    LocalKeepsInv(s, Connected(s, t, c, seen), t, c, clients, f);
  }

  lemma LentIsLocal(s: System, t: Task, c: Client, q: Sql, f: Client -> Faults)
    requires t in s.pool.tasks && s.pool.tasks[t].Outside? && c in s.pool.free && Pool.Plain(q)
    requires c in s.sessions && c in s.pool.logs && c in s.pool.taken && c in s.pool.given
    ensures var n := Lent(s, t, c, q, f);
            Local(s, n, t, c) && n.sessions.Keys == s.sessions.Keys && n.pool.tasks == s.pool.tasks
  {
    var ok := Savepoints.Step(s.sessions[c], q, |s.pool.logs[c]|, f(c)).ok;
    assert Lent(s, t, c, q, f).pool == Pool.Direct(s.pool, c, Pool.Entry(t, q, ok));
  }

  lemma GivenBackIsLocal(s: System, t: Task, c: Client)
    ensures var n := GivenBack(s, t);
            Local(s, n, t, c) && (t in n.pool.tasks && n.pool.tasks[t].Inside? ==> n == s)
  {
  }

  lemma GivenBackKeepsInv(s: System, t: Task, clients: set<Client>, f: Client -> Faults)
    requires Inv(s, clients, f)
    ensures Inv(GivenBack(s, t), clients, f)
  {
    if t in s.pool.tasks && s.pool.tasks[t].Inside? {
      var c := s.pool.tasks[t].client;
      Pool.NextKeepsInv(s.pool, Pool.GiveBack(t), clients);
      GivenBackIsLocal(s, t, c);
      HolderIsAlone(s, t, clients);
      LocalKeepsInv(s, GivenBack(s, t), t, c, clients, f);
    } else {
      assert GivenBack(s, t) == s;
    }
  }

  lemma NextKeepsInv(s: System, a: Action, clients: set<Client>, f: Client -> Faults)
    requires Inv(s, clients, f)
    ensures Inv(Next(s, a, f), clients, f)
  {
    match a
    case Ask(t, body) => if t in s.pool.tasks && s.pool.tasks[t].Outside? { AskedKeepsInv(s, t, body, clients, f); }
    case Connect(t, c, seen) =>
      if t in s.pool.tasks && s.pool.tasks[t].Waiting? && c in s.pool.free && c in s.pool.logs
         && t in s.agents && s.agents[t].Beginning?
      {
        ConnectedKeepsInv(s, t, c, seen, clients, f);
      }
    case Step(t) => if Inside(s, t) { AdvancedKeepsInv(s, t, clients, f); }
    case GiveBack(t) => GivenBackKeepsInv(s, t, clients, f);
    case Direct(t, c, q) =>
      if t in s.pool.tasks && s.pool.tasks[t].Outside? && c in s.pool.free && c in s.sessions && c in s.pool.logs
         && Pool.Plain(q)
      {
        var r := Savepoints.Step(s.sessions[c], q, |s.pool.logs[c]|, f(c));
        Pool.NextKeepsInv(s.pool, Pool.SendDirect(t, c, q, r.ok), clients);
        LentIsLocal(s, t, c, q, f);
        FreeIsAlone(s, t, c, clients);
        LocalKeepsInv(s, Lent(s, t, c, q, f), t, c, clients, f);
      }
  }

  lemma {:induction false} RunKeepsInv(clients: set<Client>, tasks: set<Task>, actions: seq<Action>,
                                       f: Client -> Faults)
    ensures Inv(RunAll(Fresh(clients, tasks), actions, f), clients, f)
    decreases |actions|
  {
    if actions == [] {
      Pool.RunKeepsInv(clients, tasks, []);
    } else {
      RunKeepsInv(clients, tasks, actions[..|actions| - 1], f);
      NextKeepsInv(RunAll(Fresh(clients, tasks), actions[..|actions| - 1], f), actions[|actions| - 1], clients, f);
    }
  }

  /* ---- the theorems ---- */

  /** A state that some interleaving leads to. */
  ghost predicate Reached(s: System, clients: set<Client>, tasks: set<Task>, f: Client -> Faults) {
    exists actions :: s == RunAll(Fresh(clients, tasks), actions, f)
  }

  /** The call has come to its end, its connection not yet given back. */
  ghost predicate AtEnd(s: System, t: Task) { Inside(s, t) && s.agents[t].Done? }

  lemma ReachedIsTracked(s: System, clients: set<Client>, tasks: set<Task>, t: Task, f: Client -> Faults)
    requires Reached(s, clients, tasks, f) && t in s.pool.tasks && s.pool.tasks[t].Inside?
    ensures Tracked(s, t, f)
  {
    var actions :| s == RunAll(Fresh(clients, tasks), actions, f);
    RunKeepsInv(clients, tasks, actions, f);
  }

  /** In every interleaving, a call of `transaction` that is over left its connection, its
      statements and its outcome exactly as if it had run alone on that connection. */
  lemma EndsAsAlone(s: System, clients: set<Client>, tasks: set<Task>, t: Task, f: Client -> Faults)
    requires Reached(s, clients, tasks, f) && AtEnd(s, t)
    ensures Trail(Here(s, t).(depth := 0), s.agents[t].out)
         == Outermost(s.calls[t].body, s.calls[t].world, On(s, t, f))
    ensures s.calls[t].world.log <= Here(s, t).log
  {
    ReachedIsTracked(s, clients, tasks, t, f);
  }

  /** So the promise of `sql.ts` holds in every interleaving, for every disciplined callback:
      commit on resolve, roll back on throw, on the database as the call saw it. */
  lemma PromiseKeptTogether(s: System, clients: set<Client>, tasks: set<Task>, t: Task, f: Client -> Faults)
    requires Reached(s, clients, tasks, f) && AtEnd(s, t) && Kept(s.calls[t].body, On(s, t, f))
    ensures var call := s.calls[t];
            var v := Promised(call.body, call.world.session.committed, |call.world.log|, On(s, t, f));
            s.agents[t].out == v.outcome && Here(s, t).session.committed == v.data
  {
    ReachedIsTracked(s, clients, tasks, t, f);
    PromiseKeptByBoth(s.calls[t].body, s.calls[t].world, On(s, t, f));
  }

  /* ---- every call comes to its end and gives its connection back ---- */

  /** `n` steps of one call, with nobody in between. */
  function Steps(t: Task, n: nat): seq<Action> { seq(n, _ => Step(t)) }

  lemma ReachedNext(s: System, a: Action, clients: set<Client>, tasks: set<Task>, f: Client -> Faults)
    requires Reached(s, clients, tasks, f)
    ensures Reached(Next(s, a, f), clients, tasks, f)
  {
    var actions :| s == RunAll(Fresh(clients, tasks), actions, f);
    assert (actions + [a])[..|actions|] == actions;
    assert Next(s, a, f) == RunAll(Fresh(clients, tasks), actions + [a], f);
  }

  /** A call on its way from `s` to `e`, at work on the same connection; nothing else has changed. */
  ghost predicate OnItsWay(s: System, e: System, t: Task, c: Client, clients: set<Client>, f: Client -> Faults) {
    && Inv(e, clients, f) && Inside(s, t) && Inside(e, t) && Local(s, e, t, c) && e.calls == s.calls
    && s.pool.tasks[t].client == c == e.pool.tasks[t].client && e.pool.free == s.pool.free
  }

  lemma AdvancedFree(s: System, t: Task, f: Client -> Faults)
    requires Tracked(s, t, f)
    ensures Advanced(s, t, f).pool.free == s.pool.free
  {
    var m := Advance(s.agents[t], Here(s, t), On(s, t, f));
    AdvanceFollows(t, s.agents[t], Here(s, t), On(s, t, f), s.pool.tasks[t]);
    if m.sent.Sent? { PoolSends(s.pool, t, ActionOf(t, m.sent.q, m.sent.ok)); }
  }

  function LeftOf(s: System, t: Task): nat { if t in s.agents then Left(s.agents[t]) else 0 }

  predicate Over(s: System, t: Task) { t in s.agents && s.agents[t].Done? }

  lemma OneStepOn(s: System, e: System, t: Task, c: Client, clients: set<Client>, f: Client -> Faults)
    requires OnItsWay(s, e, t, c, clients, f)
    ensures OnItsWay(s, Next(e, Step(t), f), t, c, clients, f)
    ensures var n := Next(e, Step(t), f);
            (Over(e, t) ==> Over(n, t)) && (!Over(e, t) ==> LeftOf(n, t) < LeftOf(e, t))
  {
    assert Tracked(e, t, f);
    AdvancedKeepsInv(e, t, clients, f);
    AdvancedIsLocal(e, t, f);
    AdvancedHere(e, t, f);
    AdvancedFree(e, t, f);
    EveryStepCounts(e.agents[t], Here(e, t), On(e, t, f));
  }

  function Repeated<S>(next: S -> S, s: S, n: nat): S { if n == 0 then s else next(Repeated(next, s, n - 1)) }

  /** A step from `x` keeps the invariant and brings the end nearer. */
  ghost predicate Descends<S(!new)>(next: S -> S, inv: S -> bool, left: S -> nat, over: S -> bool, x: S) {
    inv(x) ==> inv(next(x)) && (over(x) ==> over(next(x))) && (!over(x) ==> left(next(x)) < left(x))
  }

  /** Whatever falls with every step until it is over is over after as many steps. */
  lemma {:induction false} RunsDown<S(!new)>(next: S -> S, inv: S -> bool, left: S -> nat, over: S -> bool,
                                             s: S, n: nat)
    requires inv(s)
    requires forall x :: Descends(next, inv, left, over, x)
    ensures var e := Repeated(next, s, n); inv(e) && (left(e) + n <= left(s) || over(e))
    decreases n
  {
    if n > 0 {
      RunsDown(next, inv, left, over, s, n - 1);
      assert Descends(next, inv, left, over, Repeated(next, s, n - 1));
    }
  }

  lemma {:induction false} RunRepeats<S(!new)>(next: S -> S, run: nat -> S, n: nat)
    requires forall m: nat :: run(m + 1) == next(run(m))
    ensures run(n) == Repeated(next, run(0), n)
    decreases n
  {
    if n > 0 { RunRepeats(next, run, n - 1); }
  }

  lemma StepsMore(s: System, t: Task, n: nat, f: Client -> Faults)
    ensures RunAll(s, Steps(t, n + 1), f) == Next(RunAll(s, Steps(t, n), f), Step(t), f)
    ensures RunAll(s, Steps(t, 0), f) == s
  {
    assert Steps(t, 0) == [];
    assert Steps(t, n + 1)[..n] == Steps(t, n) && Steps(t, n + 1)[n] == Step(t);
  }

  lemma OneStepDescends(s: System, t: Task, c: Client, clients: set<Client>, f: Client -> Faults,
                        next: System -> System, inv: System -> bool, left: System -> nat, over: System -> bool,
                        x: System)
    requires next(x) == Next(x, Step(t), f)
    requires forall y :: y == x || y == next(x) ==>
      (inv(y) <==> OnItsWay(s, y, t, c, clients, f)) && left(y) == LeftOf(y, t) && over(y) == Over(y, t)
    ensures Descends(next, inv, left, over, x)
  {
    if inv(x) { OneStepOn(s, x, t, c, clients, f); }
  }

  lemma DescentEnds(s: System, t: Task, f: Client -> Faults, next: System -> System, inv: System -> bool,
                    left: System -> nat, over: System -> bool)
    requires inv(s) && forall x :: Descends(next, inv, left, over, x)
    requires forall n: nat :: RunAll(s, Steps(t, n + 1), f) == next(RunAll(s, Steps(t, n), f))
    requires forall x :: left(x) == LeftOf(x, t)
    requires forall x :: over(x) == Over(x, t)
    requires forall x :: inv(x) ==> t in x.agents
    ensures var e := RunAll(s, Steps(t, LeftOf(s, t)), f); inv(e) && Over(e, t)
  {
    RunsDown(next, inv, left, over, s, LeftOf(s, t));
    var run := (n: nat) => RunAll(s, Steps(t, n), f);
    assert run(0) == s by { assert Steps(t, 0) == []; }
    RunRepeats(next, run, LeftOf(s, t));
    NothingLeft(Repeated(next, s, LeftOf(s, t)), t);
  }

  /** After as many steps as it has left, a call is at its end. */
  lemma StepsToTheEnd(s: System, t: Task, c: Client, clients: set<Client>, f: Client -> Faults)
    requires OnItsWay(s, s, t, c, clients, f)
    ensures var e := RunAll(s, Steps(t, LeftOf(s, t)), f); OnItsWay(s, e, t, c, clients, f) && Over(e, t)
  {
    var next := (x: System) => Next(x, Step(t), f);
    ghost var inv := (x: System) => OnItsWay(s, x, t, c, clients, f);
    var left, over := (x: System) => LeftOf(x, t), (x: System) => Over(x, t);
    forall x ensures Descends(next, inv, left, over, x) {
      OneStepDescends(s, t, c, clients, f, next, inv, left, over, x);
    }
    forall n: nat ensures RunAll(s, Steps(t, n + 1), f) == next(RunAll(s, Steps(t, n), f)) {
      StepsMore(s, t, n, f);
    }
    DescentEnds(s, t, f, next, inv, left, over);
  }

  lemma NothingLeft(e: System, t: Task)
    requires t in e.agents && LeftOf(e, t) == 0
    ensures Over(e, t)
  {
  }

  lemma EndedGivesBack(e: System, t: Task, clients: set<Client>, f: Client -> Faults)
    requires Inv(e, clients, f) && AtEnd(e, t)
    ensures var c := e.pool.tasks[t].client; var n := Next(e, GiveBack(t), f);
            && c !in e.pool.free && n.pool.free == e.pool.free + {c}
            && n.pool.tasks == e.pool.tasks[t := Pool.Outside] && n.pool.logs == e.pool.logs
            && n.sessions == e.sessions && n.agents == e.agents
  {
    assert Tracked(e, t, f) && Pool.Holding(e.pool, t);
    Pool.FinishedFrees(e.pool, t);
  }

  lemma EndedRests(e: System, t: Task, f: Client -> Faults)
    requires Tracked(e, t, f) && e.agents[t].Done?
    ensures Trail(Here(e, t).(depth := 0), e.agents[t].out)
         == Outermost(e.calls[t].body, e.calls[t].world, On(e, t, f))
    ensures AtRest(Here(e, t).session)
  {
    OutermostRests(e.calls[t].body, e.calls[t].world, On(e, t, f));
  }

  lemma StillThere(s: System, e: System, t: Task, c: Client)
    requires Local(s, e, t, c) && Inside(s, t) && Inside(e, t)
    ensures e.pool.tasks[t := Pool.Outside] == s.pool.tasks[t := Pool.Outside]
  {
  }

  lemma ReachedInv(s: System, clients: set<Client>, tasks: set<Task>, f: Client -> Faults)
    requires Reached(s, clients, tasks, f)
    ensures Inv(s, clients, f)
  {
    var actions :| s == RunAll(Fresh(clients, tasks), actions, f);
    RunKeepsInv(clients, tasks, actions, f);
  }

  /** The connection is back in the pool at rest, as `r` left it, and the task is outside. */
  ghost predicate GaveBack(s: System, n: System, t: Task, c: Client, r: Trail) {
    && n.pool.tasks == s.pool.tasks[t := Pool.Outside]
    && c !in s.pool.free && n.pool.free == s.pool.free + {c}
    && c in n.sessions && n.sessions[c] == r.world.session && AtRest(n.sessions[c])
    && c in n.pool.logs && Statements(n.pool.logs[c]) == r.world.log
  }

  /** Nothing of any other connection has changed. */
  ghost predicate OthersUntouched(s: System, n: System, c: Client) {
    && (forall d :: d in s.pool.logs && d != c ==> d in n.pool.logs && n.pool.logs[d] == s.pool.logs[d])
    && (forall d :: d in s.sessions && d != c ==> d in n.sessions && n.sessions[d] == s.sessions[d])
  }

  lemma EndedHasGivenBack(s: System, e: System, t: Task, c: Client, clients: set<Client>, f: Client -> Faults)
    requires OnItsWay(s, e, t, c, clients, f) && Over(e, t)
    ensures var r := Outermost(s.calls[t].body, s.calls[t].world, f(c));
            e.agents[t].out == r.outcome && GaveBack(s, Next(e, GiveBack(t), f), t, c, r)
    ensures OthersUntouched(s, Next(e, GiveBack(t), f), c)
  {
    assert Tracked(e, t, f);
    EndedRests(e, t, f);
    EndedGivesBack(e, t, clients, f);
    StillThere(s, e, t, c);
  }

  /** From every state of every interleaving a call that has its connection ends after finitely
      many steps of its own, whatever the server answers, and then gives the connection back at
      rest: the pool has it again, and no other connection was touched. */
  lemma EveryCallGivesBack(s: System, clients: set<Client>, tasks: set<Task>, t: Task, f: Client -> Faults)
    requires Reached(s, clients, tasks, f) && t in s.pool.tasks && s.pool.tasks[t].Inside?
    ensures Inside(s, t)
    ensures var c := s.pool.tasks[t].client; var r := Outermost(s.calls[t].body, s.calls[t].world, f(c));
            var e := RunAll(s, Steps(t, Left(s.agents[t])), f);
            && AtEnd(e, t) && e.agents[t].out == r.outcome
            && GaveBack(s, Next(e, GiveBack(t), f), t, c, r) && OthersUntouched(s, Next(e, GiveBack(t), f), c)
  {
    ReachedInv(s, clients, tasks, f);
    assert Tracked(s, t, f);
    var c := s.pool.tasks[t].client;
    StepsToTheEnd(s, t, c, clients, f);
    EndedHasGivenBack(s, RunAll(s, Steps(t, LeftOf(s, t)), f), t, c, clients, f);
  }

  /** A task that asks while a connection is free begins its call there. */
  lemma CallBegins(s: System, clients: set<Client>, tasks: set<Task>, t: Task, c: Client, body: Prog, seen: Data,
                   f: Client -> Faults)
    requires Reached(s, clients, tasks, f) && t in s.pool.tasks && s.pool.tasks[t].Outside? && c in s.pool.free
    ensures c in s.pool.logs
    ensures var begun := Next(Next(s, Action.Ask(t, body), f), Connect(t, c, seen), f);
            && Reached(begun, clients, tasks, f) && Inside(begun, t) && begun.agents[t] == Beginning(body)
            && begun.calls[t] == Call(body, World(Session(seen, seen, [], Idle), 1, Statements(s.pool.logs[c])))
            && begun.pool.tasks == s.pool.tasks[t := Pool.Inside(c, 1, [], Pool.Starting)]
            && begun.pool.free == s.pool.free - {c}
  {
    ReachedInv(s, clients, tasks, f);
    var asked := Next(s, Action.Ask(t, body), f);
    ReachedNext(s, Action.Ask(t, body), clients, tasks, f);
    ReachedNext(asked, Connect(t, c, seen), clients, tasks, f);
    ReachedInv(asked, clients, tasks, f);
    assert Pool.Next(s.pool, Pool.Call(t)) == s.pool.(tasks := s.pool.tasks[t := Pool.Waiting]);
    assert Pool.Next(asked.pool, Pool.Connect(t, c)) == Pool.Connected(asked.pool, t, c);
  }

  /** A whole call, from a task outside any transaction and a free connection: its callback is
      run as `Outermost` says on the database it is shown, and afterwards task and pool are as
      they were. */
  lemma WholeCall(s: System, clients: set<Client>, tasks: set<Task>, t: Task, c: Client, body: Prog, seen: Data,
                  f: Client -> Faults)
    requires Reached(s, clients, tasks, f) && t in s.pool.tasks && s.pool.tasks[t].Outside? && c in s.pool.free
    ensures c in s.pool.logs
    ensures var begun := Next(Next(s, Action.Ask(t, body), f), Connect(t, c, seen), f);
            var e := RunAll(begun, Steps(t, Left(Beginning(body))), f); var n := Next(e, GiveBack(t), f);
            var r := Outermost(body, World(Session(seen, seen, [], Idle), 1, Statements(s.pool.logs[c])), f(c));
            && AtEnd(e, t) && e.agents[t].out == r.outcome
            && n.pool.tasks == s.pool.tasks && n.pool.free == s.pool.free
            && c in n.sessions && n.sessions[c] == r.world.session
            && c in n.pool.logs && Statements(n.pool.logs[c]) == r.world.log
  {
    CallBegins(s, clients, tasks, t, c, body, seen, f);
    BegunCallEnds(s, Next(Next(s, Action.Ask(t, body), f), Connect(t, c, seen), f), clients, tasks, t, c, f);
  }

  lemma BegunCallEnds(s: System, begun: System, clients: set<Client>, tasks: set<Task>, t: Task, c: Client,
                      f: Client -> Faults)
    requires Reached(begun, clients, tasks, f) && Inside(begun, t) && t in s.pool.tasks && s.pool.tasks[t].Outside?
    requires begun.pool.tasks == s.pool.tasks[t := Pool.Inside(c, 1, [], Pool.Starting)]
    requires c in s.pool.free && begun.pool.free == s.pool.free - {c}
    ensures var e := RunAll(begun, Steps(t, Left(begun.agents[t])), f); var n := Next(e, GiveBack(t), f);
            var r := Outermost(begun.calls[t].body, begun.calls[t].world, f(c));
            && AtEnd(e, t) && e.agents[t].out == r.outcome
            && n.pool.tasks == s.pool.tasks && n.pool.free == s.pool.free
            && c in n.sessions && n.sessions[c] == r.world.session
            && c in n.pool.logs && Statements(n.pool.logs[c]) == r.world.log
  {
    EveryCallGivesBack(begun, clients, tasks, t, f);
    var n := Next(RunAll(begun, Steps(t, Left(begun.agents[t])), f), GiveBack(t), f);
    AsBefore(s, begun, n, t, c, Outermost(begun.calls[t].body, begun.calls[t].world, f(c)));
  }

  lemma AsBefore(s: System, begun: System, n: System, t: Task, c: Client, r: Trail)
    requires GaveBack(begun, n, t, c, r) && t in s.pool.tasks && s.pool.tasks[t].Outside?
    requires begun.pool.tasks == s.pool.tasks[t := Pool.Inside(c, 1, [], Pool.Starting)]
    requires c in s.pool.free && begun.pool.free == s.pool.free - {c}
    ensures n.pool.tasks == s.pool.tasks && n.pool.free == s.pool.free
  {
    assert begun.pool.tasks[t := Pool.Outside] == s.pool.tasks;
    assert begun.pool.free + {c} == s.pool.free;
  }
}
