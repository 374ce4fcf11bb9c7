/** Many call stacks over one pool of connections: `transaction` with its pool
    checkout, its `AsyncLocalStorage` context and its release, interleaved at every
    awaited statement. */
module Pool {
  import opened Savepoints
  import opened Sets

  type Client = nat
  type Task = nat

  /** A statement a client was sent: by whom, and whether it was accepted. */
  datatype Entry = Entry(task: Task, q: Sql, ok: bool)

  /* ---- what a well-bracketed log is ---- */

  /** Where a client's log stands.  `frames` are the open savepoints; `failing` says
      that only the rollback of the innermost bracket may follow. */
  datatype Bracket =
    | Closed
    | Open(task: Task, frames: seq<nat>, failing: bool)
    | Broken

  function Innermost(frames: seq<nat>): nat {
    if frames == [] then 0 else frames[|frames| - 1]
  }

  function Read(b: Bracket, e: Entry): Bracket {
    match b
    case Broken => Broken
    case Closed =>
      (match e.q
       case Begin => Open(e.task, [], !e.ok)
       case Statement(_) => Closed
       case Query => Closed
       case _ => Broken)
    case Open(t, frames, failing) =>
      if e.task != t then Broken else
      match e.q
      case Statement(_) => if failing then Broken else b
      case Query => if failing then Broken else b
      case Save(n) =>
        if failing || n <= Innermost(frames) then Broken
        else if e.ok then Open(t, frames + [n], false) else b
      case Release(n) =>
        if failing || frames == [] || n != Innermost(frames) then Broken
        else if e.ok then Open(t, frames[..|frames| - 1], false) else Open(t, frames, true)
      case RollbackTo(n) =>
        if frames == [] || n != Innermost(frames) then Broken else Open(t, frames[..|frames| - 1], false)
      case Commit =>
        if failing || frames != [] then Broken else if e.ok then Closed else Open(t, [], true)
      case Rollback => if frames != [] then Broken else Closed
      case _ => Broken
  }

  /** Reading a whole log.  `Closed`: a sequence of complete transactions, each of one
      task, and of single statements outside them. */
  function Scan(log: seq<Entry>): Bracket {
    if log == [] then Closed else Read(Scan(log[..|log| - 1]), log[|log| - 1])
  }

  lemma ScanAppend(log: seq<Entry>, e: Entry)
    ensures Scan(log + [e]) == Read(Scan(log), e)
  {
    assert (log + [e])[..|log|] == log;
  }

  /* ---- the system ---- */

  datatype Pc = Starting | Running | Failing | Finished

  /** A call stack: outside any transaction, waiting for the pool, or inside one, with
      its context and the names its open nested calls captured. */
  datatype Stack =
    | Outside
    | Waiting
    | Inside(client: Client, depth: nat, frames: seq<nat>, pc: Pc)

  /** `taken` and `given` count each client's checkouts and releases. */
  datatype System = System(
    free: set<Client>,
    tasks: map<Task, Stack>,
    logs: map<Client, seq<Entry>>,
    taken: map<Client, nat>,
    given: map<Client, nat>)

  datatype Action =
    | Call(t: Task)
    | Connect(t: Task, c: Client)
    | SendBegin(t: Task, ok: bool)
    | SendStatement(t: Task, q: Sql, ok: bool)
    | SendDirect(t: Task, c: Client, q: Sql, ok: bool)
    | NestedOpen(t: Task, ok: bool)
    | NestedClose(t: Task, ok: bool)
    | NestedUndo(t: Task, ok: bool)
    | SendCommit(t: Task, ok: bool)
    | SendRollback(t: Task, ok: bool)
    | GiveBack(t: Task)

  /** A task's own move: what it sends, whether that is accepted, and where it stands
      afterwards. */
  datatype Move = Nothing | Moved(now: Stack, q: Sql, ok: bool)

  function Popped(me: Stack): Stack
    requires me.Inside? && me.frames != []
  {
    me.(frames := me.frames[..|me.frames| - 1], depth := if me.depth == 0 then 0 else me.depth - 1, pc := Running)
  }

  /** A statement of the callback's own. */
  predicate Plain(q: Sql) { q.Statement? || q.Query? }

  function MoveOf(me: Stack, a: Action): Move
    requires me.Inside?
  {
    match a
    case SendBegin(_, ok) =>
      if me.pc.Starting? then Moved(me.(pc := if ok then Running else Failing), Begin, ok) else Nothing
    case SendStatement(_, q, ok) => if me.pc.Running? && Plain(q) then Moved(me, q, ok) else Nothing
    case NestedOpen(_, ok) =>
      if me.pc.Running?
      then Moved(me.(depth := me.depth + 1, frames := if ok then me.frames + [me.depth] else me.frames),
                 Save(me.depth), ok)
      else Nothing
    case NestedClose(_, ok) =>
      if me.pc.Running? && me.frames != []
      then Moved(if ok then Popped(me) else me.(pc := Failing), Release(Innermost(me.frames)), ok)
      else Nothing
    case NestedUndo(_, ok) =>
      if (me.pc.Running? || me.pc.Failing?) && me.frames != []
      then Moved(Popped(me), RollbackTo(Innermost(me.frames)), ok)
      else Nothing
    case SendCommit(_, ok) =>
      if me.pc.Running? && me.frames == []
      then Moved(me.(pc := if ok then Finished else Failing), Commit, ok)
      else Nothing
    case SendRollback(_, ok) =>
      if (me.pc.Running? || me.pc.Failing?) && me.frames == []
      then Moved(me.(pc := Finished), Rollback, ok)
      else Nothing
    case _ => Nothing
  }

  /** A statement inside a transaction goes to the task's own context's client. */
  function Send(s: System, t: Task, m: Move): System
    requires t in s.tasks && s.tasks[t].Inside? && m.Moved?
  {
    var c := s.tasks[t].client;
    var before := if c in s.logs then s.logs[c] else [];
    s.(tasks := s.tasks[t := m.now], logs := s.logs[c := before + [Entry(t, m.q, m.ok)]])
  }

  function Released(s: System, t: Task): System
    requires t in s.tasks && s.tasks[t].Inside?
  {
    var c := s.tasks[t].client;
    if s.tasks[t].pc.Finished? && c in s.given
    then s.(tasks := s.tasks[t := Outside], free := s.free + {c}, given := s.given[c := s.given[c] + 1])
    else s
  }

  function Connected(s: System, t: Task, c: Client): System
    requires c in s.taken
  {
    s.(free := s.free - {c}, taken := s.taken[c := s.taken[c] + 1],
       tasks := s.tasks[t := Inside(c, 1, [], Starting)])
  }

  /** Outside a transaction the pool lends a free client for one statement. */
  function Direct(s: System, c: Client, e: Entry): System
    requires c in s.logs && c in s.taken && c in s.given
  {
    s.(logs := s.logs[c := s.logs[c] + [e]],
       taken := s.taken[c := s.taken[c] + 1], given := s.given[c := s.given[c] + 1])
  }

  /** One step of any task; a step that is not enabled changes nothing. */
  function Next(s: System, a: Action): System {
    if a.t !in s.tasks then s
    else match s.tasks[a.t]
      case Outside =>
        (match a
         case Call(t) => s.(tasks := s.tasks[t := Waiting])
         case SendDirect(t, c, q, ok) =>
           if Plain(q) && c in s.free && c in s.logs && c in s.taken && c in s.given
           then Direct(s, c, Entry(t, q, ok))
           else s
         case _ => s)
      case Waiting =>
        (match a
         case Connect(t, c) =>
           if c in s.free && c in s.taken then Connected(s, t, c) else s
         case _ => s)
      case Inside(_, _, _, _) =>
        if a.GiveBack? then Released(s, a.t) else
        var m := MoveOf(s.tasks[a.t], a);
        if m.Nothing? then s else Send(s, a.t, m)
  }

  function Run(s: System, actions: seq<Action>): System {
    if actions == [] then s else Next(Run(s, actions[..|actions| - 1]), actions[|actions| - 1])
  }

  function Fresh(clients: set<Client>, tasks: set<Task>): System {
    System(clients,
           map t | t in tasks :: Outside,
           map c | c in clients :: [],
           map c | c in clients :: 0,
           map c | c in clients :: 0)
  }

  /* ---- the invariant ---- */

  function InTransaction(s: System): set<Task> {
    set t | t in s.tasks && s.tasks[t].Inside?
  }

  ghost predicate FramesOk(me: Stack)
    requires me.Inside?
  {
    && (forall i, j :: 0 <= i < j < |me.frames| ==> me.frames[i] < me.frames[j])
    && (forall i :: 0 <= i < |me.frames| ==> 1 <= me.frames[i] < me.depth)
    && me.depth >= 1
  }

  /** What the client of a task inside a transaction has been told. */
  function Expected(t: Task, me: Stack): Bracket
    requires me.Inside?
  {
    match me.pc
    case Starting => Closed
    case Running => Open(t, me.frames, false)
    case Failing => Open(t, me.frames, true)
    case Finished => Closed
  }

  ghost predicate Holding(s: System, t: Task)
    requires t in s.tasks && s.tasks[t].Inside?
  {
    var me := s.tasks[t];
    && me.client in s.logs && me.client in s.taken && me.client in s.given && me.client !in s.free
    && FramesOk(me)
    && (me.pc.Starting? || me.pc.Finished? ==> me.frames == [])
    && Scan(s.logs[me.client]) == Expected(t, me)
    && s.taken[me.client] == s.given[me.client] + 1
  }

  ghost predicate AllHold(s: System) {
    forall t :: t in s.tasks && s.tasks[t].Inside? ==> Holding(s, t)
  }

  ghost predicate Apart(s: System) {
    forall t, u :: t in s.tasks && u in s.tasks && t != u && s.tasks[t].Inside? && s.tasks[u].Inside?
      ==> s.tasks[t].client != s.tasks[u].client
  }

  ghost predicate FreeAreIdle(s: System) {
    forall c :: c in s.free ==>
      && c in s.logs && c in s.taken && c in s.given
      && Scan(s.logs[c]) == Closed && s.taken[c] == s.given[c]
  }

  ghost predicate Inv(s: System, clients: set<Client>) {
    && s.logs.Keys == clients && s.taken.Keys == clients && s.given.Keys == clients
    && AllHold(s) && Apart(s) && FreeAreIdle(s)
    && |s.free| + |InTransaction(s)| == |clients|
  }

  /** What a task's own move must respect for the whole system to stay well. */
  ghost predicate LocallyOk(t: Task, me: Stack, m: Move)
    requires me.Inside? && m.Moved?
  {
    && m.now.Inside? && m.now.client == me.client
    && FramesOk(m.now)
    && (m.now.pc.Starting? || m.now.pc.Finished? ==> m.now.frames == [])
    && Read(Expected(t, me), Entry(t, m.q, m.ok)) == Expected(t, m.now)
  }

  /** A statement sent by one task disturbs no other task and no free client. */
  lemma SendKeepsInv(s: System, t: Task, m: Move, clients: set<Client>)
    requires Inv(s, clients) && t in s.tasks && s.tasks[t].Inside?
    requires m.Moved? && LocallyOk(t, s.tasks[t], m)
    ensures Inv(Send(s, t, m), clients)
  {
    var n := Send(s, t, m);
    var c := s.tasks[t].client;
    assert Holding(s, t);
    ScanAppend(s.logs[c], Entry(t, m.q, m.ok));
    assert InTransaction(n) == InTransaction(s);
    assert n.logs.Keys == clients;
    forall u | u in n.tasks && n.tasks[u].Inside? ensures Holding(n, u) {
      assert Holding(s, u);
      if u != t { assert s.tasks[u].client != c; }
    }
  }

  lemma PoppedIsOk(me: Stack)
    requires me.Inside? && FramesOk(me) && me.frames != []
    ensures FramesOk(Popped(me)) && Innermost(me.frames) >= 1
  {
    assert me.frames[|me.frames| - 1] < me.depth;
  }

  /** Opening, closing and undoing brackets is locally sound. */
  lemma MovesAreLocal(t: Task, me: Stack, a: Action)
    requires me.Inside? && FramesOk(me) && (me.pc.Starting? ==> me.frames == []) && MoveOf(me, a).Moved?
    ensures LocallyOk(t, me, MoveOf(me, a))
  {
    match a
    case NestedOpen(_, _) => OpeningIsLocal(t, me, a);
    case NestedClose(_, _) => ClosingIsLocal(t, me, a);
    case NestedUndo(_, _) => ClosingIsLocal(t, me, a);
    case _ =>
  }

  lemma OpeningIsLocal(t: Task, me: Stack, a: Action)
    requires me.Inside? && FramesOk(me) && a.NestedOpen? && MoveOf(me, a).Moved?
    ensures LocallyOk(t, me, MoveOf(me, a))
  {
    assert me.frames != [] ==> me.frames[|me.frames| - 1] < me.depth;
  }

  lemma ClosingIsLocal(t: Task, me: Stack, a: Action)
    requires me.Inside? && FramesOk(me) && (a.NestedClose? || a.NestedUndo?) && MoveOf(me, a).Moved?
    ensures LocallyOk(t, me, MoveOf(me, a))
  {
    PoppedIsOk(me);
  }

  lemma InsideKeepsInv(s: System, a: Action, clients: set<Client>)
    requires Inv(s, clients) && a.t in s.tasks && s.tasks[a.t].Inside? && !a.GiveBack?
    ensures Inv(Next(s, a), clients)
  {
    var me := s.tasks[a.t];
    assert Holding(s, a.t);
    if MoveOf(me, a).Moved? {
      MovesAreLocal(a.t, me, a);
      SendKeepsInv(s, a.t, MoveOf(me, a), clients);
    }
  }

  lemma GiveBackKeepsInv(s: System, t: Task, clients: set<Client>)
    requires Inv(s, clients) && t in s.tasks && s.tasks[t].Inside?
    ensures Inv(Released(s, t), clients)
  {
    var n := Released(s, t);
    assert Holding(s, t);
    if s.tasks[t].pc.Finished? {
      assert InTransaction(n) == InTransaction(s) - {t};
      assert n.given.Keys == clients;
      forall u | u in n.tasks && n.tasks[u].Inside? ensures Holding(n, u) {
        assert Holding(s, u);
        assert s.tasks[u].client != s.tasks[t].client;
      }
    }
  }

  lemma ConnectKeepsInv(s: System, t: Task, c: Client, clients: set<Client>)
    requires Inv(s, clients) && t in s.tasks && s.tasks[t].Waiting? && c in s.free
    ensures Inv(Connected(s, t, c), clients)
  {
    var n := Connected(s, t, c);
    assert InTransaction(n) == InTransaction(s) + {t};
    assert n.taken.Keys == clients;
    forall u | u in n.tasks && n.tasks[u].Inside? ensures Holding(n, u) {
      if u != t { assert Holding(s, u); }
    }
    forall u, v | u in n.tasks && v in n.tasks && u != v && n.tasks[u].Inside? && n.tasks[v].Inside?
      ensures n.tasks[u].client != n.tasks[v].client
    {
      if u != t { assert Holding(s, u); }
      if v != t { assert Holding(s, v); }
    }
  }

  lemma DirectKeepsInv(s: System, c: Client, e: Entry, clients: set<Client>)
    requires Inv(s, clients) && c in s.free && Plain(e.q)
    ensures Inv(Direct(s, c, e), clients)
  {
    var n := Direct(s, c, e);
    assert InTransaction(n) == InTransaction(s);
    assert n.logs.Keys == clients && n.taken.Keys == clients && n.given.Keys == clients;
    DirectKeepsHolders(s, c, e);
    DirectKeepsIdle(s, c, e);
  }

  lemma DirectKeepsHolders(s: System, c: Client, e: Entry)
    requires AllHold(s) && c in s.free && c in s.logs && c in s.taken && c in s.given
    ensures AllHold(Direct(s, c, e))
  {
    forall u | u in s.tasks && s.tasks[u].Inside? ensures Holding(Direct(s, c, e), u) {
      assert Holding(s, u) && s.tasks[u].client != c;
    }
  }

  lemma DirectKeepsIdle(s: System, c: Client, e: Entry)
    requires FreeAreIdle(s) && c in s.free && Plain(e.q)
    ensures FreeAreIdle(Direct(s, c, e))
  {
    ScanAppend(s.logs[c], e);
    var n := Direct(s, c, e);
    assert Scan(n.logs[c]).Closed?;
    forall d | d in n.free
      ensures d in n.logs && d in n.taken && d in n.given && Scan(n.logs[d]) == Closed && n.taken[d] == n.given[d]
    {
      if d != c { assert n.logs[d] == s.logs[d] && n.taken[d] == s.taken[d] && n.given[d] == s.given[d]; }
    }
  }

  lemma CallKeepsInv(s: System, t: Task, clients: set<Client>)
    requires Inv(s, clients) && t in s.tasks && s.tasks[t].Outside?
    ensures Inv(Next(s, Call(t)), clients)
  {
    var n := Next(s, Call(t));
    assert InTransaction(n) == InTransaction(s);
    forall u | u in n.tasks && n.tasks[u].Inside? ensures Holding(n, u) {
      assert Holding(s, u);
    }
  }

  lemma NextKeepsInv(s: System, a: Action, clients: set<Client>)
    requires Inv(s, clients)
    ensures Inv(Next(s, a), clients)
  {
    if a.t !in s.tasks {
    } else if s.tasks[a.t].Inside? && a.GiveBack? {
      GiveBackKeepsInv(s, a.t, clients);
    } else if s.tasks[a.t].Inside? {
      InsideKeepsInv(s, a, clients);
    } else if s.tasks[a.t].Outside? && a.Call? {
      CallKeepsInv(s, a.t, clients);
    } else if s.tasks[a.t].Outside? && a.SendDirect? && Plain(a.q) && a.c in s.free {
      DirectKeepsInv(s, a.c, Entry(a.t, a.q, a.ok), clients);
    } else if s.tasks[a.t].Waiting? && a.Connect? && a.c in s.free {
      ConnectKeepsInv(s, a.t, a.c, clients);
    }
  }

  lemma {:induction false} RunKeepsInv(clients: set<Client>, tasks: set<Task>, actions: seq<Action>)
    ensures Inv(Run(Fresh(clients, tasks), actions), clients)
  {
    if actions == [] {
      assert InTransaction(Fresh(clients, tasks)) == {};
    } else {
      RunKeepsInv(clients, tasks, actions[..|actions| - 1]);
      NextKeepsInv(Run(Fresh(clients, tasks), actions[..|actions| - 1]), actions[|actions| - 1], clients);
    }
  }

  /* ---- the theorems ---- */

  /** In every interleaving: no two open transactions share a client, no client is
      lost or duplicated, and each is released once for each time it was taken. */
  lemma PoolIsSafe(clients: set<Client>, tasks: set<Task>, actions: seq<Action>)
    ensures var s := Run(Fresh(clients, tasks), actions);
            && (forall t, u :: t in InTransaction(s) && u in InTransaction(s) && t != u
                  ==> s.tasks[t].client != s.tasks[u].client)
            && clients - s.free == (set t | t in InTransaction(s) :: s.tasks[t].client)
            && |s.free| + |InTransaction(s)| == |clients|
            && s.taken.Keys == s.given.Keys == clients
            && (forall c :: c in clients ==> s.taken[c] == s.given[c] + if c in s.free then 0 else 1)
  {
    RunKeepsInv(clients, tasks, actions);
    var s := Run(Fresh(clients, tasks), actions);
    HoldersCoverTheRest(s, clients);
    forall c | c in clients - s.free ensures s.taken[c] == s.given[c] + 1 {
      var t :| t in InTransaction(s) && s.tasks[t].client == c;
      assert Holding(s, t);
    }
  }

  /** In every interleaving each log is a sequence of complete, well-bracketed
      transactions, each of one task, followed on a held client by exactly the open
      brackets of the task that holds it. */
  lemma LogsAreBracketed(clients: set<Client>, tasks: set<Task>, actions: seq<Action>)
    ensures var s := Run(Fresh(clients, tasks), actions);
            && s.logs.Keys == clients
            && (forall c :: c in clients && c in s.free ==> Scan(s.logs[c]).Closed?)
            && (forall t :: t in InTransaction(s) ==>
                  && s.tasks[t].client in clients
                  && Scan(s.logs[s.tasks[t].client]) == Expected(t, s.tasks[t]))
            && (forall c :: c in clients ==> !Scan(s.logs[c]).Broken?)
  {
    RunKeepsInv(clients, tasks, actions);
    var s := Run(Fresh(clients, tasks), actions);
    HoldersCoverTheRest(s, clients);
    forall t | t in InTransaction(s)
      ensures s.tasks[t].client in clients && Scan(s.logs[s.tasks[t].client]) == Expected(t, s.tasks[t])
    {
      assert Holding(s, t);
    }
    forall c | c in clients - s.free ensures !Scan(s.logs[c]).Broken? {
      var t :| t in InTransaction(s) && s.tasks[t].client == c;
    }
  }

  /** Every client that is not free is held by some task. */
  lemma HoldersCoverTheRest(s: System, clients: set<Client>)
    requires Inv(s, clients)
    ensures clients - s.free == set t | t in InTransaction(s) :: s.tasks[t].client
  {
    var held := set t | t in InTransaction(s) :: s.tasks[t].client;
    ImageSize(s, InTransaction(s), held);
    assert held <= clients - s.free;
    SubsetSameSize(held, clients - s.free);
  }

  lemma {:induction false} ImageSize(s: System, ts: set<Task>, held: set<Client>)
    requires ts <= InTransaction(s) && held == set t | t in ts :: s.tasks[t].client
    requires forall t, u :: t in ts && u in ts && t != u ==> s.tasks[t].client != s.tasks[u].client
    ensures |held| == |ts|
    decreases |ts|
  {
    if ts != {} {
      var t :| t in ts;
      var rest := set u | u in ts - {t} :: s.tasks[u].client;
      ImageSize(s, ts - {t}, rest);
      assert held == rest + {s.tasks[t].client};
    }
  }

  /* ---- every client comes back ---- */

  lemma FinishedFrees(s: System, t: Task)
    requires t in s.tasks && s.tasks[t].Inside? && s.tasks[t].pc.Finished? && Holding(s, t)
    ensures var n := Next(s, GiveBack(t)); var c := s.tasks[t].client;
            && n.tasks == s.tasks[t := Outside] && n.logs == s.logs
            && c !in s.free && n.free == s.free + {c} && n.taken == s.taken
            && c in n.given && n.given == s.given[c := n.given[c]] && n.given[c] == n.taken[c]
  {
  }

  /** A task that has finished gives its client back: it is outside again, the pool has exactly
      that client more, and the client was released as often as it was taken. */
  lemma GiveBackFrees(clients: set<Client>, tasks: set<Task>, actions: seq<Action>, t: Task)
    requires var s := Run(Fresh(clients, tasks), actions); t in InTransaction(s) && s.tasks[t].pc.Finished?
    ensures var s := Run(Fresh(clients, tasks), actions); var n := Next(s, GiveBack(t)); var c := s.tasks[t].client;
            && n.tasks == s.tasks[t := Outside] && n.logs == s.logs
            && c !in s.free && n.free == s.free + {c}
            && c in n.given && c in n.taken && n.given[c] == n.taken[c] == s.taken[c]
  {
    RunKeepsInv(clients, tasks, actions);
    assert Holding(Run(Fresh(clients, tasks), actions), t);
    FinishedFrees(Run(Fresh(clients, tasks), actions), t);
  }

  /** A waiting task gets any free client there is, for itself alone. */
  lemma ConnectLends(clients: set<Client>, tasks: set<Task>, actions: seq<Action>, t: Task, c: Client)
    requires var s := Run(Fresh(clients, tasks), actions); t in s.tasks && s.tasks[t].Waiting? && c in s.free
    ensures var s := Run(Fresh(clients, tasks), actions); var n := Next(s, Connect(t, c));
            && n.tasks == s.tasks[t := Inside(c, 1, [], Starting)] && n.logs == s.logs
            && n.free == s.free - {c} && c in s.taken && c in n.taken && n.taken[c] == s.taken[c] + 1
  {
    RunKeepsInv(clients, tasks, actions);
  }

  /** A statement outside any transaction is sent once, on a free client that stays in the pool. */
  lemma DirectSends(clients: set<Client>, tasks: set<Task>, actions: seq<Action>, t: Task, c: Client, q: Sql, ok: bool)
    requires var s := Run(Fresh(clients, tasks), actions); t in s.tasks && s.tasks[t].Outside? && c in s.free
    requires q.Statement? || q.Query?
    ensures var s := Run(Fresh(clients, tasks), actions); var n := Next(s, SendDirect(t, c, q, ok));
            && c in s.logs && n.logs == s.logs[c := s.logs[c] + [Entry(t, q, ok)]]
            && n.tasks == s.tasks && n.free == s.free
            && c in n.given && c in s.given && n.given[c] == s.given[c] + 1
  {
    RunKeepsInv(clients, tasks, actions);
  }

  /** When no task is inside a transaction, every client is in the pool. */
  lemma NobodyInsideAllFree(clients: set<Client>, tasks: set<Task>, actions: seq<Action>)
    requires var s := Run(Fresh(clients, tasks), actions); forall t :: t in s.tasks ==> !s.tasks[t].Inside?
    ensures var s := Run(Fresh(clients, tasks), actions);
            s.free == clients && s.taken == s.given
  {
    var s := Run(Fresh(clients, tasks), actions);
    PoolIsSafe(clients, tasks, actions);
    assert InTransaction(s) == {};
    assert clients - s.free == {};
    RunKeepsInv(clients, tasks, actions);
    assert forall c :: c in s.free ==> c in clients;
  }

  /* ---- nobody in between ---- */

  /** The statement ends a transaction. */
  predicate Ends(e: Entry) { e.q == Rollback || (e.q == Commit && e.ok) }

  lemma {:induction false} NeverBroken(log: seq<Entry>, j: nat)
    requires !Scan(log).Broken? && j <= |log|
    ensures !Scan(log[..j]).Broken?
    decreases |log|
  {
    if j < |log| {
      NeverBroken(log[..|log| - 1], j);
      assert log[..|log| - 1][..j] == log[..j];
    } else {
      assert log[..j] == log;
    }
  }

  lemma {:induction false} OpenSince(log: seq<Entry>, i: nat, j: nat)
    requires !Scan(log).Broken? && i < j <= |log| && log[i].q == Begin && forall k :: i < k < j ==> !Ends(log[k])
    ensures Scan(log[..j]).Open? && Scan(log[..j]).task == log[i].task
    decreases j
  {
    NeverBroken(log, j);
    NeverBroken(log, j - 1);
    assert log[..j] == log[..j - 1] + [log[j - 1]];
    ScanAppend(log[..j - 1], log[j - 1]);
    if j - 1 > i { OpenSince(log, i, j - 1); }
  }

  /** In every interleaving: from a BEGIN on, every statement a connection is sent comes from the
      task that sent it, until that transaction ends. */
  lemma NobodyInBetween(clients: set<Client>, tasks: set<Task>, actions: seq<Action>, c: Client, i: nat, j: nat)
    requires c in clients
    requires var s := Run(Fresh(clients, tasks), actions);
             c in s.logs && i < j < |s.logs[c]| && s.logs[c][i].q == Begin
             && forall k :: i < k < j ==> !Ends(s.logs[c][k])
    ensures var s := Run(Fresh(clients, tasks), actions); s.logs[c][j].task == s.logs[c][i].task
  {
    var s := Run(Fresh(clients, tasks), actions);
    LogsAreBracketed(clients, tasks, actions);
    SameTask(s.logs[c], i, j);
  }

  lemma SameTask(log: seq<Entry>, i: nat, j: nat)
    requires !Scan(log).Broken? && i < j < |log| && log[i].q == Begin && forall k :: i < k < j ==> !Ends(log[k])
    ensures log[j].task == log[i].task
  {
    OpenSince(log, i, j);
    NeverBroken(log, j + 1);
    assert log[..j + 1] == log[..j] + [log[j]];
    ScanAppend(log[..j], log[j]);
  }
}
