/** The idempotency-key protocol: `beginIdempotent`, `completeIdempotent`,
    `abandonIdempotent`, the expiry sweep, and the life cycle `dispatch` gives a key.
    Every SQL statement is one atomic step; any number of dispatches interleave. */
module Idempotency {
  import opened Wrappers
  import opened Sets

  type RowId = nat
  type Dispatch = nat

  /** The unique index of the table. */
  datatype Slot = Slot(user: nat, scope: string, key: string)

  /** The request hash, taken to be injective: it depends on the route pattern and the
      raw body only, not on path parameters or the query. */
  datatype Hash = Hash(scope: string, body: string)

  datatype Response = Response(status: int, body: string)

  datatype Request = Request(user: nat, scope: string, key: string, body: string)

  function SlotOf(r: Request): Slot { Slot(r.user, r.scope, r.key) }

  function HashOf(r: Request): Hash { Hash(r.scope, r.body) }

  predicate Success(r: Response) { 200 <= r.status < 300 }

  /* ---- the table and its statements ---- */

  datatype State = InProgress | Completed

  datatype Row = Row(slot: Slot, hash: Hash, state: State, status: Option<int>, body: Option<string>)

  datatype Table = Table(rows: map<RowId, Row>, index: map<Slot, RowId>, nextId: RowId)

  const MAX_KEY_LENGTH := 200

  /** INSERT ... RETURNING id; refused when the slot is taken. */
  function Insert(t: Table, slot: Slot, hash: Hash): Table {
    if slot in t.index then t
    else Table(t.rows[t.nextId := Row(slot, hash, InProgress, None, None)],
               t.index[slot := t.nextId], t.nextId + 1)
  }

  function Delete(t: Table, ids: set<RowId>): Table {
    t.(rows := t.rows - ids, index := map s | s in t.index && t.index[s] !in ids :: t.index[s])
  }

  /** UPDATE ... WHERE id: no state condition. */
  function Complete(t: Table, id: RowId, r: Response): Table {
    if id in t.rows
    then t.(rows := t.rows[id := t.rows[id].(state := Completed, status := Some(r.status), body := Some(r.body))])
    else t
  }

  /** DELETE ... WHERE id AND state='IN_PROGRESS'. */
  function Abandon(t: Table, id: RowId): Table {
    if id in t.rows && t.rows[id].state.InProgress? then Delete(t, {id}) else t
  }

  ghost predicate Consistent(t: Table) {
    && (forall s :: s in t.index ==> t.index[s] in t.rows && t.rows[t.index[s]].slot == s)
    && (forall id :: id in t.rows ==> t.rows[id].slot in t.index && t.index[t.rows[id].slot] == id)
    && (forall id :: id in t.rows ==> id < t.nextId)
  }

  /* ---- dispatches ---- */

  datatype Answer =
    | Rejected
    | Failed
    | Conflict
    | Mismatch
    | Replayed(response: Response, row: RowId)
    | Fresh(response: Response)

  /** Where a dispatch stands: the next statement it will send, or its answer; or its process
      died before there was one. */
  datatype Phase =
    | Checking
    | Inserting
    | Selecting(refusedBy: RowId)
    | Handling
    | Storing(response: Response)
    | Releasing(response: Response)
    | Cleaning
    | Answered(answer: Answer)
    | Dead

  /** `keyed`: the route is idempotent, a key was sent, and the caller is known.
      `claim` is the row the server inserted for it; the dispatch knows it
      (`claimedIdempotencyId`) unless the answer to the INSERT was lost.  `entered` says
      that the handler was called, `handled` what it returned, `charged` the rows whose
      disappearance made `beginIdempotent` call itself again. */
  datatype Job = Job(
    req: Request, keyed: bool, phase: Phase,
    claim: Option<RowId>, entered: bool, handled: Option<Response>, charged: set<RowId>, retries: nat)

  /** The table, the dispatches, and what has happened: who inserted each row, which
      rows are gone, which of those the sweep took, whose completion was lost, which rows
      no clean-up reached, and which rows were inserted with the answer lost. */
  datatype System = System(
    table: Table, jobs: map<Dispatch, Job>, owner: map<RowId, Dispatch>,
    gone: set<RowId>, swept: set<RowId>, lost: set<RowId>, orphaned: set<RowId>, unheard: set<RowId>)

  /** `applied` on a failing statement: the server did the work and the answer was
      lost on the way back.  A process that dies while a statement is under way is that
      statement's failure, applied or not, and then its death. */
  datatype Action =
    | Arrive(d: Dispatch, req: Request, keyed: bool)
    | Reject(d: Dispatch)
    | Admit(d: Dispatch)
    | TryInsert(d: Dispatch)
    | InsertFails(d: Dispatch, applied: bool)
    | TrySelect(d: Dispatch)
    | SelectFails(d: Dispatch)
    | HandlerReturns(d: Dispatch, response: Response)
    | HandlerThrows(d: Dispatch)
    | Store(d: Dispatch)
    | StoreFails(d: Dispatch, applied: bool)
    | Release(d: Dispatch)
    | ReleaseFails(d: Dispatch, applied: bool)
    | Clean(d: Dispatch)
    | CleanFails(d: Dispatch, applied: bool)
    | Dies(d: Dispatch)
    | Sweep(ids: set<RowId>)

  function With(s: System, d: Dispatch, j: Job): System { s.(jobs := s.jobs[d := j]) }

  /** Delete the job's own row if it is still in progress, and note it. */
  function Abandoned(s: System, j: Job): System {
    match j.claim
    case None => s
    case Some(id) =>
      s.(table := Abandon(s.table, id),
         gone := if id in s.table.rows && s.table.rows[id].state.InProgress? then s.gone + {id} else s.gone)
  }

  function Swept(s: System, ids: set<RowId>): System {
    var hit := ids * s.table.rows.Keys;
    s.(table := Delete(s.table, hit), gone := s.gone + hit, swept := s.swept + hit)
  }

  function Inserted(s: System, d: Dispatch, j: Job): System {
    var t := s.table;
    if SlotOf(j.req) in t.index
    then With(s, d, j.(phase := Selecting(t.index[SlotOf(j.req)])))
    else With(s, d, j.(phase := Handling, entered := true, claim := Some(t.nextId)))
         .(table := Insert(t, SlotOf(j.req), HashOf(j.req)), owner := s.owner[t.nextId := d])
  }

  /** The INSERT is carried out but its answer is lost: the dispatch fails without knowing
      that it has a row. */
  function InsertedUnheard(s: System, d: Dispatch, j: Job): System {
    var t := s.table;
    if SlotOf(j.req) in t.index
    then With(s, d, j.(phase := Answered(Failed)))
    else With(s, d, j.(phase := Answered(Failed), claim := Some(t.nextId)))
         .(table := Insert(t, SlotOf(j.req), HashOf(j.req)), owner := s.owner[t.nextId := d],
           unheard := s.unheard + {t.nextId})
  }

  /** The SELECT after a refused INSERT, and what `beginIdempotent` makes of it. */
  function Selected(s: System, j: Job): Job
    requires j.phase.Selecting?
  {
    var t := s.table;
    var slot := SlotOf(j.req);
    if slot !in t.index || t.index[slot] !in t.rows
    then j.(phase := Inserting, charged := j.charged + {j.phase.refusedBy}, retries := j.retries + 1)
    else
      var row := t.rows[t.index[slot]];
      if row.hash != HashOf(j.req) then j.(phase := Answered(Mismatch))
      else if row.state.Completed? && row.status.Some?
      then j.(phase := Answered(Replayed(Response(row.status.value, if row.body.Some? then row.body.value else "null"),
                                         t.index[slot])))
      else j.(phase := Answered(Conflict))
  }

  function Returned(j: Job, r: Response): Job {
    j.(handled := Some(r),
       phase := if j.claim.None? then Answered(Fresh(r)) else if Success(r) then Storing(r) else Releasing(r))
  }

  predicate Over(p: Phase) { p.Answered? || p.Dead? }

  /** The process dies: whatever the table holds stays as it is. */
  function Died(s: System, d: Dispatch, j: Job): System {
    if Over(j.phase) then s else With(s, d, j.(phase := Dead))
  }

  function Stored(s: System, j: Job): System {
    if j.claim.Some? && j.handled.Some?
    then s.(table := Complete(s.table, j.claim.value, j.handled.value)) else s
  }

  /** One statement of one dispatch, or one sweep; a step that is not enabled changes
      nothing. */
  function Next(s: System, a: Action): System {
    match a
    case Arrive(d, req, keyed) =>
      if d in s.jobs then s else With(s, d, Job(req, keyed, Checking, None, false, None, {}, 0))
    case Sweep(ids) => Swept(s, ids)
    case Dies(d) => if d in s.jobs then Died(s, d, s.jobs[d]) else s
    case _ =>
      if a.d !in s.jobs then s else JobStep(s, a.d, s.jobs[a.d], a)
  }

  function JobStep(s: System, d: Dispatch, j: Job, a: Action): System {
    match j.phase
    case Checking =>
      (match a
       case Reject(_) => With(s, d, j.(phase := Answered(Rejected)))
       case Admit(_) =>
         if !j.keyed then With(s, d, j.(phase := Handling, entered := true))
         else if |j.req.key| > MAX_KEY_LENGTH then With(s, d, j.(phase := Answered(Rejected)))
         else With(s, d, j.(phase := Inserting))
       case _ => s)
    case Inserting =>
      (match a
       case TryInsert(_) => Inserted(s, d, j)
       case InsertFails(_, applied) =>
         if applied then InsertedUnheard(s, d, j) else With(s, d, j.(phase := Answered(Failed)))
       case _ => s)
    case Selecting(_) =>
      (match a
       case TrySelect(_) => With(s, d, Selected(s, j))
       case SelectFails(_) => With(s, d, j.(phase := Answered(Failed)))
       case _ => s)
    case Handling =>
      (match a
       case HandlerReturns(_, r) => With(s, d, Returned(j, r))
       case HandlerThrows(_) => With(s, d, j.(phase := if j.claim.Some? then Cleaning else Answered(Failed)))
       case _ => s)
    case Storing(r) =>
      (match a
       case Store(_) => With(Stored(s, j), d, j.(phase := Answered(Fresh(r))))
       case StoreFails(_, applied) =>
         if applied then With(Stored(s, j), d, j.(phase := Cleaning))
         else With(s, d, j.(phase := Cleaning)).(lost := s.lost + (if j.claim.Some? then {j.claim.value} else {}))
       case _ => s)
    case Releasing(r) =>
      (match a
       case Release(_) => With(Abandoned(s, j), d, j.(phase := Answered(Fresh(r))))
       case ReleaseFails(_, applied) =>
         With(if applied then Abandoned(s, j) else s, d, j.(phase := Cleaning))
       case _ => s)
    case Cleaning =>
      (match a
       case Clean(_) => With(Abandoned(s, j), d, j.(phase := Answered(Failed)))
       case CleanFails(_, applied) =>
         if applied then With(Abandoned(s, j), d, j.(phase := Answered(Failed)))
         else With(s, d, j.(phase := Answered(Failed)))
              .(orphaned := s.orphaned + (if j.claim.Some? then {j.claim.value} else {}))
       case _ => s)
    case Answered(_) => s
    case Dead => s
  }

  function Run(s: System, actions: seq<Action>): System {
    if actions == [] then s else Next(Run(s, actions[..|actions| - 1]), actions[|actions| - 1])
  }

  const START := System(Table(map[], map[], 0), map[], map[], {}, {}, {}, {}, {})

  ghost predicate Reachable(s: System) {
    exists actions :: s == Run(START, actions)
  }

  /* ---- the invariant ---- */

  ghost predicate Live(p: Phase) {
    p.Handling? || p.Storing? || p.Releasing? || p.Cleaning?
  }

  ghost predicate SameRequest(a: Request, b: Request) {
    SlotOf(a) == SlotOf(b) && HashOf(a) == HashOf(b)
  }

  /** The row numbers: every number given out is in the table or gone, never both. */
  ghost predicate NumbersOk(s: System) {
    && Consistent(s.table)
    && (forall id: RowId :: id < s.table.nextId <==> id in s.table.rows || id in s.gone)
    && s.table.rows.Keys !! s.gone
    && s.swept <= s.gone
    && (forall id: RowId :: id in s.owner <==> id < s.table.nextId)
    && (forall id :: id in s.lost || id in s.orphaned || id in s.unheard ==> id in s.owner)
  }

  /** A row belongs to the dispatch that inserted it and says what that dispatch did. */
  ghost predicate RowOk(s: System, id: RowId)
    requires id in s.table.rows
  {
    var row := s.table.rows[id];
    && id in s.owner && s.owner[id] in s.jobs
    && var j := s.jobs[s.owner[id]];
    && j.claim == Some(id) && row.slot == SlotOf(j.req) && row.hash == HashOf(j.req)
    && (row.state.InProgress? ==> Live(j.phase) || j.phase.Dead? || id in s.orphaned || id in s.unheard)
    && (row.state.Completed? ==>
          && j.handled.Some? && Success(j.handled.value)
          && row.status == Some(j.handled.value.status) && row.body == Some(j.handled.value.body)
          && (j.phase.Cleaning? || Over(j.phase)))
  }

  /** What each phase knows. */
  ghost predicate PhaseOk(s: System, j: Job) {
    match j.phase
    case Checking => j.claim.None? && j.handled.None? && !j.entered
    case Inserting => j.claim.None? && j.handled.None? && !j.entered
    case Selecting(c) =>
      j.claim.None? && j.handled.None? && !j.entered && c < s.table.nextId && c !in j.charged
      && (c in s.table.rows ==> s.table.rows[c].slot == SlotOf(j.req))
    case Handling => j.handled.None? && j.entered
    case Storing(r) => j.entered && j.claim.Some? && j.handled == Some(r) && Success(r)
    case Releasing(r) => j.entered && j.claim.Some? && j.handled == Some(r) && !Success(r)
    case Cleaning => j.entered && j.claim.Some?
    case Answered(Replayed(r, id)) =>
      && j.claim.None? && j.handled.None? && !j.entered
      && id in s.owner && s.owner[id] in s.jobs
      && var first := s.jobs[s.owner[id]];
      && SameRequest(first.req, j.req) && first.handled == Some(r) && Success(r)
    case Answered(Fresh(r)) => j.entered && j.handled == Some(r)
    case Answered(Failed) => true
    case Dead => true
    case Answered(_) => j.claim.None? && j.handled.None? && !j.entered
  }

  /** Where a job's own row can be. */
  ghost predicate ClaimOk(s: System, d: Dispatch, j: Job) {
    j.claim.Some? ==>
      var id := j.claim.value;
      && id in s.owner && s.owner[id] == d
      && (j.phase.Handling? || j.phase.Storing? || j.phase.Releasing? ==>
            (id in s.table.rows && s.table.rows[id].state.InProgress?) || id in s.swept)
      && (j.handled.Some? && Success(j.handled.value) && !j.phase.Storing? ==>
            || (id in s.table.rows && (s.table.rows[id].state.Completed? || j.phase.Dead?))
            || id in s.swept || id in s.lost)
      && (j.phase.Answered? && j.phase.answer.Fresh? && Success(j.phase.answer.response) ==> id !in s.lost)
      && (id in s.lost ==> j.phase.Cleaning? || Over(j.phase))
      && (id in s.orphaned ==> j.phase.Answered? && j.entered)
      && (id in s.unheard <==> !j.entered)
      && (id in s.unheard ==> j.phase.Answered? && j.phase.answer.Failed? && j.handled.None?)
  }

  ghost predicate JobOk(s: System, d: Dispatch)
    requires d in s.jobs
  {
    var j := s.jobs[d];
    && PhaseOk(s, j) && ClaimOk(s, d, j) && j.charged <= s.gone && |j.charged| == j.retries
    && (j.phase.Inserting? || j.phase.Selecting? || j.claim.Some? ==> |j.req.key| <= MAX_KEY_LENGTH)
  }

  /** A row number is the claim of the dispatch that inserted it, for ever. */
  ghost predicate OwnersOk(s: System) {
    forall id :: id in s.owner ==> s.owner[id] in s.jobs && s.jobs[s.owner[id]].claim == Some(id)
  }

  ghost predicate Inv(s: System) {
    && NumbersOk(s) && OwnersOk(s)
    && (forall id :: id in s.table.rows ==> RowOk(s, id))
    && (forall d :: d in s.jobs ==> JobOk(s, d))
  }

  /* ---- every step keeps it ---- */

  /** What one dispatch's step may do to the rest of the system. */
  ghost predicate Confined(s: System, n: System, d: Dispatch) {
    && d in s.jobs && d in n.jobs && n.jobs == s.jobs[d := n.jobs[d]]
    && (forall id :: id in s.owner ==> id in n.owner && n.owner[id] == s.owner[id])
    && (forall id :: id in n.owner && id !in s.owner ==> n.owner[id] == d && n.jobs[d].claim == Some(id))
    && s.gone <= n.gone && n.swept == s.swept && s.orphaned <= n.orphaned && s.lost <= n.lost && s.unheard <= n.unheard
    && (forall id :: id in n.lost && id !in s.lost ==> s.jobs[d].claim == Some(id))
    && (forall id :: id in n.orphaned && id !in s.orphaned ==> s.jobs[d].claim == Some(id))
    && (forall id :: id in n.unheard && id !in s.unheard ==> id !in s.owner)
    && s.table.nextId <= n.table.nextId
    && var j, j' := s.jobs[d], n.jobs[d];
    && j'.req == j.req
    && (j.claim.Some? ==> j'.claim == j.claim)
    && (j.handled.Some? ==> j'.handled == j.handled)
    && (forall id :: id in s.table.rows && j.claim != Some(id) ==>
          id in n.table.rows && n.table.rows[id] == s.table.rows[id])
    && (forall id :: id in n.table.rows && id in s.table.rows ==> n.table.rows[id].slot == s.table.rows[id].slot)
    && (forall id :: id in n.table.rows && id !in s.table.rows ==> id >= s.table.nextId && j'.claim == Some(id))
  }

  lemma OthersPhase(s: System, n: System, d: Dispatch, e: Dispatch)
    requires NumbersOk(s) && OwnersOk(s) && Confined(s, n, d) && e in s.jobs && e != d
    requires PhaseOk(s, s.jobs[e])
    ensures PhaseOk(n, n.jobs[e])
  {
    assert n.jobs[e] == s.jobs[e];
  }

  lemma OthersClaim(s: System, n: System, d: Dispatch, e: Dispatch)
    requires NumbersOk(s) && OwnersOk(s) && Confined(s, n, d) && e in s.jobs && e != d
    requires ClaimOk(s, e, s.jobs[e]) && ClaimOk(s, d, s.jobs[d])
    ensures ClaimOk(n, e, n.jobs[e])
  {
    assert n.jobs[e] == s.jobs[e];
    if s.jobs[e].claim.Some? { assert s.jobs[d].claim != s.jobs[e].claim; }
  }

  lemma OthersUnaffected(s: System, n: System, d: Dispatch, e: Dispatch)
    requires Inv(s) && Confined(s, n, d) && e in s.jobs && e != d
    ensures JobOk(n, e)
  {
    assert JobOk(s, e) && JobOk(s, d);
    assert n.jobs[e] == s.jobs[e];
    OthersPhase(s, n, d, e);
    OthersClaim(s, n, d, e);
  }

  lemma OtherRowsUnaffected(s: System, n: System, d: Dispatch, id: RowId)
    requires NumbersOk(s) && OwnersOk(s) && Confined(s, n, d)
    requires id in n.table.rows && n.jobs[d].claim != Some(id) && (id in s.table.rows ==> RowOk(s, id))
    ensures RowOk(n, id)
  {
    assert id in s.table.rows && s.owner[id] != d;
  }

  lemma RowsUnaffected(s: System, n: System, d: Dispatch)
    requires Inv(s) && Confined(s, n, d)
    requires n.jobs[d].claim.Some? && n.jobs[d].claim.value in n.table.rows ==> RowOk(n, n.jobs[d].claim.value)
    ensures forall id :: id in n.table.rows ==> RowOk(n, id)
  {
    forall id | id in n.table.rows ensures RowOk(n, id) {
      if n.jobs[d].claim != Some(id) { OtherRowsUnaffected(s, n, d, id); }
    }
  }

  lemma OwnersUnaffected(s: System, n: System, d: Dispatch)
    requires OwnersOk(s) && Confined(s, n, d)
    ensures OwnersOk(n)
  {
  }

  lemma ConfinedKeepsInv(s: System, n: System, d: Dispatch)
    requires Inv(s) && Confined(s, n, d) && NumbersOk(n) && JobOk(n, d)
    requires n.jobs[d].claim.Some? && n.jobs[d].claim.value in n.table.rows ==> RowOk(n, n.jobs[d].claim.value)
    ensures Inv(n)
  {
    RowsUnaffected(s, n, d);
    OwnersUnaffected(s, n, d);
    forall e | e in n.jobs ensures JobOk(n, e) {
      if e != d { OthersUnaffected(s, n, d, e); }
    }
  }

  lemma DeleteKeepsNumbers(s: System, ids: set<RowId>, toSwept: set<RowId>)
    requires NumbersOk(s) && ids <= s.table.rows.Keys && toSwept <= ids
    ensures NumbersOk(s.(table := Delete(s.table, ids), gone := s.gone + ids, swept := s.swept + toSwept))
  {
  }

  /** A step that leaves the table alone. */
  lemma TalkKeepsInv(s: System, d: Dispatch, j: Job)
    requires Inv(s) && d in s.jobs && j.req == s.jobs[d].req && j.claim == s.jobs[d].claim
    requires s.jobs[d].handled.Some? ==> j.handled == s.jobs[d].handled
    requires JobOk(With(s, d, j), d)
    requires j.claim.Some? && j.claim.value in s.table.rows ==> RowOk(With(s, d, j), j.claim.value)
    ensures Inv(With(s, d, j))
  {
    ConfinedKeepsInv(s, With(s, d, j), d);
  }

  lemma InsertKeepsNumbers(s: System, d: Dispatch, j: Job)
    requires NumbersOk(s)
    ensures NumbersOk(Inserted(s, d, j))
  {
    var n := Inserted(s, d, j);
    if SlotOf(j.req) !in s.table.index {
      assert n.table.rows.Keys == s.table.rows.Keys + {s.table.nextId};
      assert Consistent(n.table);
    }
  }

  lemma InsertKeepsInv(s: System, d: Dispatch)
    requires Inv(s) && d in s.jobs && s.jobs[d].phase.Inserting?
    ensures Inv(Inserted(s, d, s.jobs[d]))
  {
    InsertedIsOk(s, d);
    if SlotOf(s.jobs[d].req) in s.table.index {
      TalkKeepsInv(s, d, s.jobs[d].(phase := Selecting(s.table.index[SlotOf(s.jobs[d].req)])));
    } else {
      InsertKeepsNumbers(s, d, s.jobs[d]);
      InsertIsConfined(s, d);
      ConfinedKeepsInv(s, Inserted(s, d, s.jobs[d]), d);
    }
  }

  lemma InsertIsConfined(s: System, d: Dispatch)
    requires NumbersOk(s) && d in s.jobs && s.jobs[d].claim.None?
    requires SlotOf(s.jobs[d].req) !in s.table.index
    ensures Confined(s, Inserted(s, d, s.jobs[d]), d)
  {
  }

  lemma InsertedIsOk(s: System, d: Dispatch)
    requires Inv(s) && d in s.jobs && s.jobs[d].phase.Inserting?
    ensures var n := Inserted(s, d, s.jobs[d]);
            && s.jobs[d].claim.None?
            && JobOk(n, d)
            && (n.jobs[d].claim.Some? ==> n.jobs[d].claim.value in n.table.rows && RowOk(n, n.jobs[d].claim.value))
  {
    assert JobOk(s, d);
  }

  lemma UnheardKeepsInv(s: System, d: Dispatch)
    requires Inv(s) && d in s.jobs && s.jobs[d].phase.Inserting?
    ensures Inv(InsertedUnheard(s, d, s.jobs[d]))
  {
    UnheardIsOk(s, d);
    if SlotOf(s.jobs[d].req) in s.table.index {
      TalkKeepsInv(s, d, s.jobs[d].(phase := Answered(Failed)));
    } else {
      InsertKeepsNumbers(s, d, s.jobs[d]);
      UnheardIsConfined(s, d);
      UnheardNumbers(s, d);
      ConfinedKeepsInv(s, InsertedUnheard(s, d, s.jobs[d]), d);
    }
  }

  lemma UnheardIsConfined(s: System, d: Dispatch)
    requires NumbersOk(s) && d in s.jobs && s.jobs[d].claim.None?
    requires SlotOf(s.jobs[d].req) !in s.table.index
    ensures Confined(s, InsertedUnheard(s, d, s.jobs[d]), d)
  {
  }

  lemma UnheardNumbers(s: System, d: Dispatch)
    requires NumbersOk(s) && d in s.jobs && SlotOf(s.jobs[d].req) !in s.table.index
    requires NumbersOk(Inserted(s, d, s.jobs[d]))
    ensures NumbersOk(InsertedUnheard(s, d, s.jobs[d]))
  {
  }

  lemma UnheardIsOk(s: System, d: Dispatch)
    requires Inv(s) && d in s.jobs && s.jobs[d].phase.Inserting?
    ensures var n := InsertedUnheard(s, d, s.jobs[d]);
            && s.jobs[d].claim.None?
            && JobOk(n, d)
            && (n.jobs[d].claim.Some? ==> n.jobs[d].claim.value in n.table.rows && RowOk(n, n.jobs[d].claim.value))
  {
    assert JobOk(s, d);
  }

  lemma SelectKeepsInv(s: System, d: Dispatch)
    requires Inv(s) && d in s.jobs && s.jobs[d].phase.Selecting?
    ensures Inv(With(s, d, Selected(s, s.jobs[d])))
  {
    var j := s.jobs[d];
    assert JobOk(s, d);
    if SlotOf(j.req) in s.table.index { FoundJobOk(s, d); } else { VanishedJobOk(s, d); }
    TalkKeepsInv(s, d, Selected(s, j));
  }

  lemma FoundJobOk(s: System, d: Dispatch)
    requires Inv(s) && d in s.jobs && s.jobs[d].phase.Selecting? && SlotOf(s.jobs[d].req) in s.table.index
    ensures JobOk(With(s, d, Selected(s, s.jobs[d])), d)
  {
    assert JobOk(s, d);
    assert RowOk(s, s.table.index[SlotOf(s.jobs[d].req)]);
  }

  /** The row that refused the INSERT is gone: this retry is charged to it. */
  lemma VanishedJobOk(s: System, d: Dispatch)
    requires Inv(s) && d in s.jobs && s.jobs[d].phase.Selecting? && SlotOf(s.jobs[d].req) !in s.table.index
    ensures JobOk(With(s, d, Selected(s, s.jobs[d])), d)
  {
    assert JobOk(s, d);
    assert s.jobs[d].phase.refusedBy in s.gone;
  }

  /** The UPDATE of a dispatch whose handler succeeded, together with its next phase. */
  lemma StoreKeepsInv(s: System, d: Dispatch, next: Phase)
    requires Inv(s) && d in s.jobs && s.jobs[d].phase.Storing?
    requires next == Cleaning || next == Answered(Fresh(s.jobs[d].phase.response))
    ensures Inv(With(Stored(s, s.jobs[d]), d, s.jobs[d].(phase := next)))
  {
    var j := s.jobs[d];
    var n := With(Stored(s, j), d, j.(phase := next));
    assert JobOk(s, d);
    CompleteKeepsNumbers(s, j.claim.value, j.handled.value);
    StoredIsOk(s, d, next);
    StoredIsConfined(s, d, next);
    ConfinedKeepsInv(s, n, d);
  }

  lemma StoredIsConfined(s: System, d: Dispatch, next: Phase)
    requires d in s.jobs && s.jobs[d].claim.Some? && s.jobs[d].handled.Some?
    ensures Confined(s, With(Stored(s, s.jobs[d]), d, s.jobs[d].(phase := next)), d)
  {
  }

  lemma CompleteKeepsNumbers(s: System, id: RowId, r: Response)
    requires NumbersOk(s)
    ensures NumbersOk(s.(table := Complete(s.table, id, r)))
  {
    assert Complete(s.table, id, r).rows.Keys == s.table.rows.Keys;
  }

  lemma StoredIsOk(s: System, d: Dispatch, next: Phase)
    requires Inv(s) && d in s.jobs && s.jobs[d].phase.Storing?
    requires next == Cleaning || next == Answered(Fresh(s.jobs[d].phase.response))
    ensures var n, id := With(Stored(s, s.jobs[d]), d, s.jobs[d].(phase := next)), s.jobs[d].claim;
            JobOk(n, d) && (id.Some? && id.value in n.table.rows ==> RowOk(n, id.value))
  {
    var j := s.jobs[d];
    assert JobOk(s, d);
    if j.claim.value in s.table.rows { assert RowOk(s, j.claim.value); }
  }

  /** The DELETE of a dispatch's own row, together with its next phase. */
  ghost predicate EndsWith(j: Job, next: Phase) {
    match j.phase
    case Releasing(r) => next == Cleaning || next == Answered(Fresh(r))
    case Cleaning => next == Answered(Failed)
    case _ => false
  }

  lemma AbandonKeepsInv(s: System, d: Dispatch, next: Phase)
    requires Inv(s) && d in s.jobs && EndsWith(s.jobs[d], next)
    ensures Inv(With(Abandoned(s, s.jobs[d]), d, s.jobs[d].(phase := next)))
  {
    var j := s.jobs[d];
    var n := With(Abandoned(s, j), d, j.(phase := next));
    assert JobOk(s, d);
    AbandonKeepsNumbers(s, d);
    AbandonedIsOk(s, d, next);
    AbandonedIsConfined(s, d, next);
    ConfinedKeepsInv(s, n, d);
  }

  lemma AbandonedIsConfined(s: System, d: Dispatch, next: Phase)
    requires d in s.jobs && s.jobs[d].claim.Some?
    ensures Confined(s, With(Abandoned(s, s.jobs[d]), d, s.jobs[d].(phase := next)), d)
  {
  }

  lemma AbandonKeepsNumbers(s: System, d: Dispatch)
    requires NumbersOk(s) && d in s.jobs && s.jobs[d].claim.Some?
    ensures NumbersOk(Abandoned(s, s.jobs[d]))
  {
    var id := s.jobs[d].claim.value;
    if id in s.table.rows {
      DeleteKeepsNumbers(s, {id}, {});
      assert s.swept + {} == s.swept;
    }
  }

  lemma AbandonedIsOk(s: System, d: Dispatch, next: Phase)
    requires Inv(s) && d in s.jobs && EndsWith(s.jobs[d], next)
    ensures var n, id := With(Abandoned(s, s.jobs[d]), d, s.jobs[d].(phase := next)), s.jobs[d].claim;
            JobOk(n, d) && (id.Some? && id.value in n.table.rows ==> RowOk(n, id.value))
  {
    var id := s.jobs[d].claim.value;
    assert JobOk(s, d);
    if id in s.table.rows { assert RowOk(s, id); }
    AbandonedClaim(s, d, id, next);
    if id in Abandoned(s, s.jobs[d]).table.rows { AbandonedRow(s, d, id, next); }
  }

  lemma AbandonedClaim(s: System, d: Dispatch, id: RowId, next: Phase)
    requires NumbersOk(s) && d in s.jobs && EndsWith(s.jobs[d], next) && s.jobs[d].claim == Some(id) && JobOk(s, d)
    requires id in s.table.rows ==> RowOk(s, id)
    ensures JobOk(With(Abandoned(s, s.jobs[d]), d, s.jobs[d].(phase := next)), d)
  {
  }

  lemma AbandonedRow(s: System, d: Dispatch, id: RowId, next: Phase)
    requires d in s.jobs && EndsWith(s.jobs[d], next) && s.jobs[d].claim == Some(id)
    requires PhaseOk(s, s.jobs[d]) && ClaimOk(s, d, s.jobs[d])
    requires id in Abandoned(s, s.jobs[d]).table.rows && id in s.table.rows && RowOk(s, id)
    ensures RowOk(With(Abandoned(s, s.jobs[d]), d, s.jobs[d].(phase := next)), id)
  {
  }

  /** The UPDATE fails and did nothing: the handler's success will be forgotten. */
  lemma LosingKeepsInv(s: System, d: Dispatch)
    requires Inv(s) && d in s.jobs && s.jobs[d].phase.Storing? && s.jobs[d].claim.Some?
    ensures Inv(With(s, d, s.jobs[d].(phase := Cleaning)).(lost := s.lost + {s.jobs[d].claim.value}))
  {
    LosingIsOk(s, d);
    assert JobOk(s, d);
    ConfinedKeepsInv(s, With(s, d, s.jobs[d].(phase := Cleaning)).(lost := s.lost + {s.jobs[d].claim.value}), d);
  }

  lemma LosingIsOk(s: System, d: Dispatch)
    requires Inv(s) && d in s.jobs && s.jobs[d].phase.Storing? && s.jobs[d].claim.Some?
    ensures var id := s.jobs[d].claim.value;
            var n := With(s, d, s.jobs[d].(phase := Cleaning)).(lost := s.lost + {id});
            NumbersOk(n) && JobOk(n, d) && (id in n.table.rows ==> RowOk(n, id))
  {
    var j := s.jobs[d];
    assert JobOk(s, d);
    if j.claim.value in s.table.rows { assert RowOk(s, j.claim.value); }
  }

  /** The clean-up's DELETE fails and did nothing: the row stays until it expires. */
  lemma OrphaningKeepsInv(s: System, d: Dispatch)
    requires Inv(s) && d in s.jobs && s.jobs[d].phase.Cleaning? && s.jobs[d].claim.Some?
    ensures Inv(With(s, d, s.jobs[d].(phase := Answered(Failed)))
                .(orphaned := s.orphaned + {s.jobs[d].claim.value}))
  {
    OrphaningIsOk(s, d);
    assert JobOk(s, d);
    ConfinedKeepsInv(s, With(s, d, s.jobs[d].(phase := Answered(Failed)))
                        .(orphaned := s.orphaned + {s.jobs[d].claim.value}), d);
  }

  lemma OrphaningIsOk(s: System, d: Dispatch)
    requires Inv(s) && d in s.jobs && s.jobs[d].phase.Cleaning? && s.jobs[d].claim.Some?
    ensures var id := s.jobs[d].claim.value;
            var n := With(s, d, s.jobs[d].(phase := Answered(Failed))).(orphaned := s.orphaned + {id});
            NumbersOk(n) && JobOk(n, d) && (id in n.table.rows ==> RowOk(n, id))
  {
    var j := s.jobs[d];
    assert JobOk(s, d);
    if j.claim.value in s.table.rows { assert RowOk(s, j.claim.value); }
  }

  lemma SweepKeepsInv(s: System, ids: set<RowId>)
    requires Inv(s)
    ensures Inv(Swept(s, ids))
  {
    var n := Swept(s, ids);
    DeleteKeepsNumbers(s, ids * s.table.rows.Keys, ids * s.table.rows.Keys);
    forall id | id in n.table.rows ensures RowOk(n, id) { assert RowOk(s, id); }
    forall d | d in n.jobs ensures JobOk(n, d) { assert JobOk(s, d); }
  }

  /** Steps that move a dispatch on without touching the table. */
  ghost predicate Quiet(j: Job, next: Phase) {
    if next.Dead? then !Over(j.phase) else
    match j.phase
    case Checking => next == Answered(Rejected) || (next == Inserting && |j.req.key| <= MAX_KEY_LENGTH)
    case Inserting => next == Answered(Failed)
    case Selecting(_) => next == Answered(Failed)
    case Handling => next == if j.claim.Some? then Cleaning else Answered(Failed)
    case Releasing(_) => next == Cleaning
    case _ => false
  }

  lemma QuietKeepsInv(s: System, d: Dispatch, next: Phase)
    requires Inv(s) && d in s.jobs && Quiet(s.jobs[d], next)
    ensures Inv(With(s, d, s.jobs[d].(phase := next)))
  {
    var j := s.jobs[d];
    assert JobOk(s, d);
    if j.claim.Some? && j.claim.value in s.table.rows { assert RowOk(s, j.claim.value); }
    TalkKeepsInv(s, d, j.(phase := next));
  }

  lemma ReturnKeepsInv(s: System, d: Dispatch, r: Response)
    requires Inv(s) && d in s.jobs && s.jobs[d].phase.Handling?
    ensures Inv(With(s, d, Returned(s.jobs[d], r)))
  {
    var j := s.jobs[d];
    assert JobOk(s, d);
    if j.claim.Some? && j.claim.value in s.table.rows { assert RowOk(s, j.claim.value); }
    TalkKeepsInv(s, d, Returned(j, r));
  }

  lemma EarlyStepKeepsInv(s: System, d: Dispatch, a: Action)
    requires Inv(s) && d in s.jobs && !a.Sweep? && a.d == d
    requires var p := s.jobs[d].phase; p.Checking? || p.Inserting? || p.Selecting? || p.Handling?
    ensures Inv(JobStep(s, d, s.jobs[d], a))
  {
    var j := s.jobs[d];
    match j.phase
    case Checking =>
      if a.Reject? { QuietKeepsInv(s, d, Answered(Rejected)); }
      if a.Admit? {
        if !j.keyed {
          assert JobOk(s, d);
          TalkKeepsInv(s, d, j.(phase := Handling, entered := true));
        } else {
          QuietKeepsInv(s, d, if |j.req.key| > MAX_KEY_LENGTH then Answered(Rejected) else Inserting);
        }
      }
    case Inserting =>
      if a.TryInsert? { InsertKeepsInv(s, d); }
      if a.InsertFails? {
        if a.applied { UnheardKeepsInv(s, d); } else { QuietKeepsInv(s, d, Answered(Failed)); }
      }
    case Selecting(_) =>
      if a.TrySelect? { SelectKeepsInv(s, d); }
      if a.SelectFails? { QuietKeepsInv(s, d, Answered(Failed)); }
    case Handling =>
      if a.HandlerReturns? { ReturnKeepsInv(s, d, a.response); }
      if a.HandlerThrows? { QuietKeepsInv(s, d, if j.claim.Some? then Cleaning else Answered(Failed)); }
    case _ =>
  }

  lemma LateStepKeepsInv(s: System, d: Dispatch, a: Action)
    requires Inv(s) && d in s.jobs && !a.Sweep? && a.d == d && s.jobs[d].claim.Some?
    requires var p := s.jobs[d].phase; p.Storing? || p.Releasing? || p.Cleaning?
    ensures Inv(JobStep(s, d, s.jobs[d], a))
  {
    match s.jobs[d].phase
    case Storing(r) =>
      if a.Store? { StoreKeepsInv(s, d, Answered(Fresh(r))); }
      if a.StoreFails? {
        if a.applied { StoreKeepsInv(s, d, Cleaning); } else { LosingKeepsInv(s, d); }
      }
    case Releasing(r) =>
      if a.Release? { AbandonKeepsInv(s, d, Answered(Fresh(r))); }
      if a.ReleaseFails? {
        if a.applied { AbandonKeepsInv(s, d, Cleaning); } else { QuietKeepsInv(s, d, Cleaning); }
      }
    case Cleaning =>
      if a.Clean? || (a.CleanFails? && a.applied) { AbandonKeepsInv(s, d, Answered(Failed)); }
      if a.CleanFails? && !a.applied { OrphaningKeepsInv(s, d); }
    case _ =>
  }

  lemma JobStepKeepsInv(s: System, d: Dispatch, a: Action)
    requires Inv(s) && d in s.jobs && !a.Sweep? && a.d == d
    ensures Inv(JobStep(s, d, s.jobs[d], a))
  {
    match s.jobs[d].phase
    case Answered(_) =>
    case Dead =>
    case Checking => EarlyStepKeepsInv(s, d, a);
    case Inserting => EarlyStepKeepsInv(s, d, a);
    case Selecting(_) => EarlyStepKeepsInv(s, d, a);
    case Handling => EarlyStepKeepsInv(s, d, a);
    case _ =>
      assert JobOk(s, d);
      LateStepKeepsInv(s, d, a);
  }

  lemma ArriveKeepsInv(s: System, d: Dispatch, j: Job)
    requires Inv(s) && d !in s.jobs
    requires j.phase.Checking? && j.claim.None? && !j.entered && j.handled.None? && j.charged == {} && j.retries == 0
    ensures Inv(With(s, d, j))
  {
    var n := With(s, d, j);
    forall id | id in n.table.rows ensures RowOk(n, id) { assert RowOk(s, id); }
    forall e | e in n.jobs ensures JobOk(n, e) { if e != d { assert JobOk(s, e); } }
  }

  lemma NextKeepsInv(s: System, a: Action)
    requires Inv(s)
    ensures Inv(Next(s, a))
  {
    match a
    case Arrive(d, req, keyed) =>
      if d !in s.jobs { ArriveKeepsInv(s, d, Job(req, keyed, Checking, None, false, None, {}, 0)); }
    case Sweep(ids) => SweepKeepsInv(s, ids);
    case Dies(d) => if d in s.jobs && !Over(s.jobs[d].phase) { QuietKeepsInv(s, d, Dead); }
    case _ => if a.d in s.jobs { JobStepKeepsInv(s, a.d, a); }
  }

  lemma {:induction false} RunKeepsInv(actions: seq<Action>)
    ensures Inv(Run(START, actions))
  {
    if actions == [] {
      assert Inv(START);
    } else {
      RunKeepsInv(actions[..|actions| - 1]);
      NextKeepsInv(Run(START, actions[..|actions| - 1]), actions[|actions| - 1]);
    }
  }

  lemma ReachableIsOk(s: System)
    requires Reachable(s)
    ensures Inv(s)
  {
    var actions :| s == Run(START, actions);
    RunKeepsInv(actions);
  }

  /* ---- the theorems: every interleaving, every failure, sweeps at any time ---- */

  /** The request is that user's, for that route pattern, with that key. */
  ghost predicate Asks(r: Request, slot: Slot) {
    r.user == slot.user && r.scope == slot.scope && r.key == slot.key
  }

  ghost predicate Runs(s: System, d: Dispatch, slot: Slot) {
    d in s.jobs && s.jobs[d].claim.Some? && Asks(s.jobs[d].req, slot) && s.jobs[d].phase.Handling?
  }

  ghost predicate Succeeded(s: System, d: Dispatch, slot: Slot) {
    && d in s.jobs && s.jobs[d].claim.Some? && Asks(s.jobs[d].req, slot)
    && s.jobs[d].handled.Some? && Success(s.jobs[d].handled.value)
  }

  ghost predicate AnsweredFresh(s: System, d: Dispatch, slot: Slot) {
    && Succeeded(s, d, slot)
    && s.jobs[d].phase.Answered? && s.jobs[d].phase.answer.Fresh?
  }

  /** The dispatch's row left the table by expiry, not by its own doing. */
  ghost predicate LostItsRow(s: System, d: Dispatch)
    requires d in s.jobs && s.jobs[d].claim.Some?
  {
    s.jobs[d].claim.value in s.swept
  }

  lemma OneRowPerSlot(s: System, d: Dispatch, e: Dispatch)
    requires Inv(s) && d in s.jobs && e in s.jobs && d != e
    requires s.jobs[d].claim.Some? && s.jobs[e].claim.Some?
    requires SlotOf(s.jobs[d].req) == SlotOf(s.jobs[e].req)
    ensures !(s.jobs[d].claim.value in s.table.rows && s.jobs[e].claim.value in s.table.rows)
  {
    assert JobOk(s, d) && JobOk(s, e);
    if s.jobs[d].claim.value in s.table.rows { assert RowOk(s, s.jobs[d].claim.value); }
    if s.jobs[e].claim.value in s.table.rows { assert RowOk(s, s.jobs[e].claim.value); }
  }

  /** Two handlers run for one (user, route pattern, key) only when the expiry sweep
      took the row of one of them. */
  lemma HandlersExclude(s: System, d: Dispatch, e: Dispatch, slot: Slot)
    requires Reachable(s)
    requires Runs(s, d, slot) && Runs(s, e, slot) && d != e
    ensures LostItsRow(s, d) || LostItsRow(s, e)
  {
    ReachableIsOk(s);
    assert JobOk(s, d) && JobOk(s, e);
    OneRowPerSlot(s, d, e);
  }

  /** Two handlers succeed for one key only when a row was swept or a completion was
      lost; and no handler runs once one has succeeded, with the same exceptions. */
  lemma OneSuccess(s: System, d: Dispatch, e: Dispatch, slot: Slot)
    requires Reachable(s)
    requires Succeeded(s, d, slot) && (Succeeded(s, e, slot) || Runs(s, e, slot)) && d != e
    ensures || LostItsRow(s, d) || LostItsRow(s, e)
            || s.jobs[d].claim.value in s.lost || s.jobs[e].claim.value in s.lost
  {
    ReachableIsOk(s);
    assert JobOk(s, d) && JobOk(s, e);
    OneRowPerSlot(s, d, e);
  }

  /** Even when completions are lost, the callers of one key are told of one success
      at most, unless a row was swept. */
  lemma OneFreshAnswer(s: System, d: Dispatch, e: Dispatch, slot: Slot)
    requires Reachable(s)
    requires AnsweredFresh(s, d, slot) && AnsweredFresh(s, e, slot) && d != e
    ensures LostItsRow(s, d) || LostItsRow(s, e)
  {
    ReachableIsOk(s);
    assert JobOk(s, d) && JobOk(s, e);
    OneRowPerSlot(s, d, e);
  }

  /** A replay is the stored success of an earlier dispatch with the same user, route
      pattern, key and body. */
  lemma ReplaysAreHonest(s: System, d: Dispatch)
    requires Reachable(s)
    requires d in s.jobs && s.jobs[d].phase.Answered? && s.jobs[d].phase.answer.Replayed?
    ensures var r := s.jobs[d].phase.answer.response;
            exists first :: first in s.jobs && first != d
              && s.jobs[first].req == s.jobs[d].req
              && s.jobs[first].handled == Some(r) && Success(r)
  {
    ReachableIsOk(s);
    assert JobOk(s, d);
    var first := s.owner[s.jobs[d].phase.answer.row];
    assert SameRequest(s.jobs[first].req, s.jobs[d].req);
    assert s.jobs[first].handled.Some? && s.jobs[d].handled.None?;
  }

  /** A completed row always has its body and a status in the 200 range. */
  lemma CompletedHasStatus(s: System, id: RowId)
    requires Reachable(s)
    requires id in s.table.rows && s.table.rows[id].state.Completed?
    ensures var row := s.table.rows[id];
            row.status.Some? && row.body.Some? && 200 <= row.status.value < 300
  {
    ReachableIsOk(s);
    assert RowOk(s, id);
  }

  /** An in-progress row has exactly one owner, which is at work, unless its clean-up failed,
      the answer to its INSERT was lost or its process died: exactly those rows are left
      behind. */
  lemma InProgressIsOwned(s: System, id: RowId)
    requires Reachable(s)
    requires id in s.table.rows && s.table.rows[id].state.InProgress?
    ensures && id in s.owner && s.owner[id] in s.jobs
            && (forall d :: d in s.jobs ==> (s.jobs[d].claim == Some(id) <==> d == s.owner[id]))
            && var p := s.jobs[s.owner[id]].phase;
            && (Live(p) || Over(p))
            && (Over(p) <==> id in s.orphaned || id in s.unheard || p.Dead?)
  {
    ReachableIsOk(s);
    assert RowOk(s, id);
    assert JobOk(s, s.owner[id]);
    forall d | d in s.jobs && s.jobs[d].claim == Some(id) ensures d == s.owner[id] { assert JobOk(s, d); }
  }

  /** A request answered, or dead, before its handler was called has inserted no row, unless the
      answer to its INSERT was lost, and then it was told that it failed. */
  lemma RefusedLeavesNoRow(s: System, d: Dispatch)
    requires Reachable(s)
    requires d in s.jobs && Over(s.jobs[d].phase) && !s.jobs[d].entered
    ensures forall id :: id in s.owner && s.owner[id] == d ==> id in s.unheard
    ensures s.jobs[d].phase != Answered(Failed) ==> s.jobs[d].claim == None
  {
    ReachableIsOk(s);
    assert JobOk(s, d);
  }

  /** `beginIdempotent` calls itself again once per row that has gone, at most. */
  lemma RetriesAreCharged(s: System, d: Dispatch)
    requires Reachable(s) && d in s.jobs
    ensures && s.jobs[d].charged <= s.gone
            && s.jobs[d].retries == |s.jobs[d].charged| <= |s.gone|
  {
    ReachableIsOk(s);
    assert JobOk(s, d);
    SubsetSize(s.jobs[d].charged, s.gone);
  }

  lemma StepSpares(s: System, d: Dispatch, j: Job, a: Action, id: RowId)
    requires id in s.table.rows && id != s.table.nextId && j.claim != Some(id)
    ensures var n := JobStep(s, d, j, a); id in n.table.rows && n.table.rows[id] == s.table.rows[id]
  {
  }

  lemma OthersRowsStay(s: System, a: Action, id: RowId)
    requires NumbersOk(s) && OwnersOk(s) && id in s.table.rows && !a.Sweep? && s.owner[id] != a.d
    requires a.d in s.jobs ==> ClaimOk(s, a.d, s.jobs[a.d])
    ensures var n := Next(s, a); id in n.table.rows && n.table.rows[id] == s.table.rows[id]
  {
    if a.d in s.jobs && !a.Arrive? {
      StepSpares(s, a.d, s.jobs[a.d], a, id);
    }
  }

  lemma CompletedRowsStay(s: System, a: Action, id: RowId)
    requires Inv(s) && id in s.table.rows && !a.Sweep? && s.owner[id] == a.d && s.table.rows[id].state.Completed?
    ensures var n := Next(s, a); id in n.table.rows && n.table.rows[id] == s.table.rows[id]
  {
    assert RowOk(s, id);
  }

  /** However late, no statement of one dispatch touches a row another inserted, and
      none but a sweep removes a completed row. */
  lemma LateStepsAreHarmless(s: System, a: Action, id: RowId)
    requires Reachable(s)
    requires id in s.table.rows && !a.Sweep?
    ensures var n := Next(s, a);
            && id in s.owner
            && (s.owner[id] != a.d ==> id in n.table.rows && n.table.rows[id] == s.table.rows[id])
            && (s.table.rows[id].state.Completed? ==> id in n.table.rows && n.table.rows[id] == s.table.rows[id])
  {
    ReachableIsOk(s);
    if s.owner[id] != a.d {
      assert a.d in s.jobs ==> JobOk(s, a.d);
      OthersRowsStay(s, a, id);
    } else if s.table.rows[id].state.Completed? {
      CompletedRowsStay(s, a, id);
    }
  }

  /* ---- the exceptions are real ---- */

  const BOOKING := Request(7, "POST /bookings", "k", "{}")

  const CREATED := Response(201, "{}")

  lemma ReachableNext(s: System, a: Action)
    requires Reachable(s)
    ensures Reachable(Next(s, a))
  {
    var actions :| s == Run(START, actions);
    assert (actions + [a])[..|actions|] == actions;
    assert Next(s, a) == Run(START, actions + [a]);
  }

  function AtHandler(req: Request, id: RowId): Job { Job(req, true, Handling, Some(id), true, None, {}, 0) }

  /** A keyed request arrives and sends its INSERT. */
  function Enter(s: System, d: Dispatch, req: Request): System {
    Next(Next(Next(s, Arrive(d, req, true)), Admit(d)), TryInsert(d))
  }

  /** It gets to its handler exactly when its slot is free. */
  lemma Enters(s: System, d: Dispatch, req: Request)
    requires d !in s.jobs && |req.key| <= MAX_KEY_LENGTH
    ensures Reachable(s) ==> Reachable(Enter(s, d, req))
    ensures Enter(s, d, req) ==
      var id := s.table.nextId;
      if SlotOf(req) in s.table.index
      then With(s, d, Job(req, true, Selecting(s.table.index[SlotOf(req)]), None, false, None, {}, 0))
      else s.(jobs := s.jobs[d := AtHandler(req, id)], owner := s.owner[id := d],
              table := Insert(s.table, SlotOf(req), HashOf(req)))
  {
    var one := Next(s, Arrive(d, req, true));
    var two := Next(one, Admit(d));
    if Reachable(s) {
      ReachableNext(s, Arrive(d, req, true));
      ReachableNext(one, Admit(d));
      ReachableNext(two, TryInsert(d));
    }
    assert two.jobs[d] == Job(req, true, Inserting, None, false, None, {}, 0);
    assert two == With(s, d, two.jobs[d]);
  }

  lemma StartIsReachable()
    ensures Reachable(START)
  {
    assert START == Run(START, []);
  }

  /** While a handler runs, a dispatch that comes with the same request gets to its own
      handler exactly when the slot is free, and it is free only if the row was swept. */
  lemma NewcomerRunsIff(s: System, d: Dispatch, e: Dispatch, slot: Slot)
    requires Reachable(s) && Runs(s, d, slot) && e !in s.jobs
    ensures var n := Enter(s, e, s.jobs[d].req);
            && Reachable(n)
            && (Runs(n, d, slot) && Runs(n, e, slot) <==> slot !in s.table.index)
            && (slot !in s.table.index ==> LostItsRow(s, d))
  {
    ReachableIsOk(s);
    assert JobOk(s, d);
    Enters(s, e, s.jobs[d].req);
    if s.jobs[d].claim.value in s.table.rows { assert RowOk(s, s.jobs[d].claim.value); }
  }

  /** So as long as nobody else holds the slot, a second handler can start exactly when the
      first one's row was swept. */
  lemma ExclusionLostIff(s: System, d: Dispatch, e: Dispatch, slot: Slot)
    requires Reachable(s) && Runs(s, d, slot) && e !in s.jobs
    requires slot in s.table.index ==> Some(s.table.index[slot]) == s.jobs[d].claim
    ensures var n := Enter(s, e, s.jobs[d].req);
            Reachable(n) && (Runs(n, d, slot) && Runs(n, e, slot) <==> LostItsRow(s, d))
  {
    ReachableIsOk(s);
    assert JobOk(s, d);
    NewcomerRunsIff(s, d, e, slot);
  }

  /** In every reachable state, sweeping the row of a running handler lets the next dispatch
      with its request run beside it. */
  lemma NewcomerAfterSweep(s: System, d: Dispatch, e: Dispatch, slot: Slot)
    requires Reachable(s) && Runs(s, d, slot) && e !in s.jobs && s.jobs[d].claim.value in s.table.rows
    ensures var n := Enter(Next(s, Sweep({s.jobs[d].claim.value})), e, s.jobs[d].req);
            Reachable(n) && Runs(n, d, slot) && Runs(n, e, slot)
  {
    var id := s.jobs[d].claim.value;
    var swept := Next(s, Sweep({id}));
    ReachableIsOk(s);
    assert RowOk(s, id);
    ReachableNext(s, Sweep({id}));
    assert swept.jobs == s.jobs && slot !in swept.table.index;
    NewcomerRunsIff(swept, d, e, slot);
  }

  /** After a success whose dispatch has gone past its UPDATE, with nobody else holding the
      slot: a dispatch with the same request gets to its handler, and can succeed again,
      exactly when the row was swept or its completion was lost and the row cleaned up. */
  lemma RepetitionIff(s: System, d: Dispatch, e: Dispatch, slot: Slot, r: Response)
    requires Reachable(s) && Succeeded(s, d, slot) && !s.jobs[d].phase.Storing? && e !in s.jobs && Success(r)
    requires slot in s.table.index ==> Some(s.table.index[slot]) == s.jobs[d].claim
    ensures var n := Next(Enter(s, e, s.jobs[d].req), HandlerReturns(e, r));
            var id := s.jobs[d].claim.value;
            && Reachable(n) && n.swept == s.swept
            && (Succeeded(n, d, slot) && Succeeded(n, e, slot)
                <==> id in s.swept || (id in s.lost && id !in s.table.rows))
  {
    SlotAfterSuccess(s, d, slot);
    Enters(s, e, s.jobs[d].req);
    ReachableNext(Enter(s, e, s.jobs[d].req), HandlerReturns(e, r));
  }

  lemma SlotAfterSuccess(s: System, d: Dispatch, slot: Slot)
    requires Reachable(s) && Succeeded(s, d, slot) && !s.jobs[d].phase.Storing?
    requires slot in s.table.index ==> Some(s.table.index[slot]) == s.jobs[d].claim
    ensures var id := s.jobs[d].claim.value;
            && |s.jobs[d].req.key| <= MAX_KEY_LENGTH
            && (slot in s.table.index <==> id in s.table.rows)
            && (id !in s.table.rows <==> id in s.swept || (id in s.lost && id !in s.table.rows))
  {
    ReachableIsOk(s);
    assert JobOk(s, d);
    if s.jobs[d].claim.value in s.table.rows { assert RowOk(s, s.jobs[d].claim.value); }
  }

  /** A completion that fails without effect, and its clean-up. */
  function Forgotten(s: System, d: Dispatch): System { Next(Next(s, StoreFails(d, false)), Clean(d)) }

  lemma ForgettingFrees(s: System, d: Dispatch, id: RowId)
    requires Reachable(s) && d in s.jobs && s.jobs[d].phase.Storing? && s.jobs[d].claim == Some(id)
    requires id in s.table.rows && s.table.rows[id].state.InProgress?
    ensures Reachable(Forgotten(s, d))
    ensures Forgotten(s, d) ==
      s.(jobs := s.jobs[d := s.jobs[d].(phase := Answered(Failed))], lost := s.lost + {id},
         table := Delete(s.table, {id}), gone := s.gone + {id})
  {
    var one := Next(s, StoreFails(d, false));
    ReachableNext(s, StoreFails(d, false));
    ReachableNext(one, Clean(d));
    assert one == With(s, d, s.jobs[d].(phase := Cleaning)).(lost := s.lost + {id});
  }

  lemma StoringRow(s: System, d: Dispatch, slot: Slot)
    requires Reachable(s) && Succeeded(s, d, slot) && s.jobs[d].phase.Storing? && s.jobs[d].claim.value in s.table.rows
    ensures var id := s.jobs[d].claim.value;
            s.table.rows[id].state.InProgress? && slot in s.table.index && s.table.index[slot] == id
  {
    ReachableIsOk(s);
    assert JobOk(s, d) && RowOk(s, s.jobs[d].claim.value);
  }

  /** In every reachable state, a completion that fails without effect, once cleaned up, lets
      the next dispatch with the same request succeed again. */
  lemma RepetitionAfterLoss(s: System, d: Dispatch, e: Dispatch, slot: Slot, r: Response)
    requires Reachable(s) && Succeeded(s, d, slot) && s.jobs[d].phase.Storing? && e !in s.jobs && Success(r)
    requires s.jobs[d].claim.value in s.table.rows
    ensures var n := Next(Enter(Forgotten(s, d), e, s.jobs[d].req), HandlerReturns(e, r));
            Reachable(n) && Succeeded(n, d, slot) && Succeeded(n, e, slot) && n.swept == s.swept
  {
    var id := s.jobs[d].claim.value;
    StoringRow(s, d, slot);
    ForgettingFrees(s, d, id);
    RepetitionIff(Forgotten(s, d), d, e, slot, r);
  }

  /** A sweep that takes the row of a handler still running lets a second one in. */
  lemma SweepLetsTwoRun() returns (s: System)
    ensures Reachable(s) && Runs(s, 1, SlotOf(BOOKING)) && Runs(s, 2, SlotOf(BOOKING))
  {
    StartIsReachable();
    Enters(START, 1, BOOKING);
    var first := Enter(START, 1, BOOKING);
    assert first.jobs == map[1 := AtHandler(BOOKING, 0)];
    NewcomerAfterSweep(first, 1, 2, SlotOf(BOOKING));
    s := Enter(Next(first, Sweep({0})), 2, BOOKING);
  }

  /** A success about to be stored ... */
  lemma FirstSuccess() returns (s: System)
    ensures Reachable(s) && Succeeded(s, 1, SlotOf(BOOKING)) && s.swept == {} && s.jobs.Keys == {1}
    ensures s.jobs[1].req == BOOKING && s.jobs[1].phase.Storing? && s.jobs[1].claim == Some(0) && 0 in s.table.rows
  {
    StartIsReachable();
    Enters(START, 1, BOOKING);
    s := Next(Enter(START, 1, BOOKING), HandlerReturns(1, CREATED));
    ReachableNext(Enter(START, 1, BOOKING), HandlerReturns(1, CREATED));
  }

  /** ... whose completion is lost, and a second one, without any sweep. */
  lemma LostCompletionRepeats() returns (s: System)
    ensures Reachable(s) && Succeeded(s, 1, SlotOf(BOOKING)) && Succeeded(s, 2, SlotOf(BOOKING)) && s.swept == {}
  {
    var first := FirstSuccess();
    RepetitionAfterLoss(first, 1, 2, SlotOf(BOOKING), CREATED);
    s := Next(Enter(Forgotten(first, 1), 2, BOOKING), HandlerReturns(2, CREATED));
  }

  /** An INSERT whose answer is lost leaves a row in progress with no dispatch at work and no
      clean-up ever tried. */
  lemma LostAnswerLeavesRow() returns (s: System)
    ensures Reachable(s) && s.orphaned == {} && s.swept == {}
    ensures 0 in s.table.rows && s.table.rows[0].state.InProgress?
    ensures forall d :: d in s.jobs ==> s.jobs[d].phase == Answered(Failed) && !s.jobs[d].entered
  {
    StartIsReachable();
    var one := Next(START, Arrive(1, BOOKING, true));
    var two := Next(one, Admit(1));
    ReachableNext(START, Arrive(1, BOOKING, true));
    ReachableNext(one, Admit(1));
    assert two.jobs == map[1 := Job(BOOKING, true, Inserting, None, false, None, {}, 0)];
    s := Next(two, InsertFails(1, true));
    ReachableNext(two, InsertFails(1, true));
  }

  /* ---- rows left behind ---- */

  /** In progress, with nobody at work on it. */
  ghost predicate LeftBehind(s: System, id: RowId) {
    && id in s.table.rows && s.table.rows[id].state.InProgress?
    && id in s.owner && s.owner[id] in s.jobs && Over(s.jobs[s.owner[id]].phase)
  }

  ghost predicate Spared(actions: seq<Action>, id: RowId) {
    forall i :: 0 <= i < |actions| && actions[i].Sweep? ==> id !in actions[i].ids
  }

  lemma StepKeepsPlaces(s: System, d: Dispatch, j: Job, a: Action, id: RowId, e: Dispatch)
    requires id in s.owner && id != s.table.nextId && e in s.jobs && e != d
    ensures var n := JobStep(s, d, j, a);
            id in n.owner && n.owner[id] == s.owner[id] && e in n.jobs && n.jobs[e] == s.jobs[e]
  {
  }

  lemma OthersStep(s: System, a: Action, id: RowId)
    requires LeftBehind(s, id) && id < s.table.nextId && !a.Sweep? && s.owner[id] != a.d
    ensures var n := Next(s, a);
            && id in n.owner && n.owner[id] == s.owner[id]
            && s.owner[id] in n.jobs && n.jobs[s.owner[id]] == s.jobs[s.owner[id]]
  {
    if a.d in s.jobs && !a.Arrive? && !a.Dies? {
      StepKeepsPlaces(s, a.d, s.jobs[a.d], a, id, s.owner[id]);
    }
  }

  lemma OverIsOver(s: System, a: Action)
    requires !a.Sweep? && a.d in s.jobs && Over(s.jobs[a.d].phase)
    ensures Next(s, a) == s
  {
  }

  lemma SweepSpares(s: System, ids: set<RowId>, id: RowId)
    requires LeftBehind(s, id) && id !in ids
    ensures LeftBehind(Swept(s, ids), id) && Swept(s, ids).table.rows[id] == s.table.rows[id]
  {
  }

  ghost predicate LeftAs(s: System, id: RowId, row: Row) { LeftBehind(s, id) && s.table.rows[id] == row }

  lemma StepSparesLeftBehind(s: System, a: Action, id: RowId, row: Row)
    requires Inv(s) && LeftAs(s, id, row) && (a.Sweep? ==> id !in a.ids)
    ensures LeftAs(Next(s, a), id, row)
  {
    if a.Sweep? {
      SweepSpares(s, a.ids, id);
    } else if s.owner[id] == a.d {
      OverIsOver(s, a);
    } else {
      assert a.d in s.jobs ==> JobOk(s, a.d);
      OthersRowsStay(s, a, id);
      OthersStep(s, a, id);
    }
  }

  lemma {:induction false} LeftBehindStays(s: System, actions: seq<Action>, id: RowId, row: Row)
    requires Inv(s) && LeftAs(s, id, row) && Spared(actions, id)
    ensures Inv(Run(s, actions)) && LeftAs(Run(s, actions), id, row)
  {
    if actions != [] {
      LeftBehindStays(s, actions[..|actions| - 1], id, row);
      NextKeepsInv(Run(s, actions[..|actions| - 1]), actions[|actions| - 1]);
      StepSparesLeftBehind(Run(s, actions[..|actions| - 1]), actions[|actions| - 1], id, row);
    }
  }

  function Refusal(req: Request, row: Row): Phase {
    Answered(if HashOf(req) == row.hash then Conflict else Mismatch)
  }

  lemma SelectRefuses(s: System, j: Job, id: RowId, row: Row)
    requires Consistent(s.table) && j.phase.Selecting? && SlotOf(j.req) == row.slot
    requires id in s.table.rows && s.table.rows[id] == row && row.state.InProgress?
    ensures Selected(s, j) == j.(phase := Refusal(j.req, row))
  {
  }

  lemma SelectsNext(s: System, e: Dispatch)
    requires e in s.jobs && s.jobs[e].phase.Selecting?
    ensures Next(s, TrySelect(e)) == With(s, e, Selected(s, s.jobs[e]))
  {
  }

  lemma NewcomerSpares(s: System, id: RowId, row: Row, e: Dispatch, j: Job)
    requires OwnersOk(s) && LeftAs(s, id, row) && e !in s.jobs
    ensures LeftAs(With(s, e, j), id, row)
  {
  }

  function Blocked(req: Request, id: RowId): Job { Job(req, true, Selecting(id), None, false, None, {}, 0) }

  lemma EnterMeets(s: System, id: RowId, row: Row, e: Dispatch, req: Request)
    requires NumbersOk(s) && LeftAs(s, id, row) && e !in s.jobs && SlotOf(req) == row.slot
    requires |req.key| <= MAX_KEY_LENGTH
    ensures Enter(s, e, req) == With(s, e, Blocked(req, id))
  {
    Enters(s, e, req);
  }

  /** A newcomer that meets such a row is refused. */
  lemma NewcomerRefused(s: System, id: RowId, row: Row, e: Dispatch, req: Request)
    requires NumbersOk(s) && OwnersOk(s) && LeftAs(s, id, row) && e !in s.jobs && SlotOf(req) == row.slot
    ensures var n := Next(With(s, e, Blocked(req, id)), TrySelect(e));
            LeftAs(n, id, row) && e in n.jobs && n.jobs[e].phase == Refusal(req, row)
  {
    var entered, j := With(s, e, Blocked(req, id)), Blocked(req, id);
    SelectsNext(entered, e);
    SelectRefuses(entered, j, id, row);
    NewcomerSpares(s, id, row, e, j.(phase := Refusal(req, row)));
    assert With(entered, e, j.(phase := Refusal(req, row))) == With(s, e, j.(phase := Refusal(req, row)));
  }

  /** Whatever happens short of a sweep that takes it, a row left behind blocks its key: every
      dispatch that comes with the key is refused, with a mismatch exactly when its body differs. */
  lemma OnlyASweepFrees(s: System, actions: seq<Action>, id: RowId, e: Dispatch, req: Request)
    requires Reachable(s) && LeftBehind(s, id) && Spared(actions, id) && e !in Run(s, actions).jobs
    requires Asks(req, s.table.rows[id].slot) && |req.key| <= MAX_KEY_LENGTH
    ensures var n := Next(Enter(Run(s, actions), e, req), TrySelect(e));
            && LeftBehind(n, id) && e in n.jobs
            && n.jobs[e].phase == Answered(if HashOf(req) == s.table.rows[id].hash then Conflict else Mismatch)
  {
    ReachableIsOk(s);
    LeftBehindStays(s, actions, id, s.table.rows[id]);
    EnterMeets(Run(s, actions), id, s.table.rows[id], e, req);
    NewcomerRefused(Run(s, actions), id, s.table.rows[id], e, req);
  }

  /** After a sweep takes it the next dispatch gets to its handler. */
  lemma SweepFrees(s: System, id: RowId, e: Dispatch, req: Request)
    requires Reachable(s) && LeftBehind(s, id) && e !in s.jobs
    requires Asks(req, s.table.rows[id].slot) && |req.key| <= MAX_KEY_LENGTH
    ensures var n := Enter(Next(s, Sweep({id})), e, req); Reachable(n) && Runs(n, e, s.table.rows[id].slot)
  {
    ReachableIsOk(s);
    ReachableNext(s, Sweep({id}));
    assert SlotOf(req) !in Next(s, Sweep({id})).table.index;
    Enters(Next(s, Sweep({id})), e, req);
  }

  /** A process that dies in its handler leaves such a row, with no clean-up tried and no answer
      lost. */
  lemma DeathLeavesRow(s: System, d: Dispatch, slot: Slot)
    requires Reachable(s) && Runs(s, d, slot) && !LostItsRow(s, d)
    ensures var n, id := Next(s, Dies(d)), s.jobs[d].claim.value;
            && Reachable(n) && LeftBehind(n, id) && n.table.rows[id].slot == slot
            && id !in n.orphaned && id !in n.unheard
  {
    ReachableIsOk(s);
    assert JobOk(s, d);
    assert RowOk(s, s.jobs[d].claim.value);
    ReachableNext(s, Dies(d));
  }
}
