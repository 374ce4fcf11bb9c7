/** What a request is told that comes with a key: by the user, the route pattern, the key and the
    body of the row it meets, in every reachable state of the protocol. */
module KeyReuse {
  import opened Wrappers
  import opened Idempotency

  /** The row holds the request's user, route pattern and key. */
  ghost predicate Meets(s: System, id: RowId, req: Request) {
    && id in s.table.rows
    && var slot := s.table.rows[id].slot;
       slot.user == req.user && slot.scope == req.scope && slot.key == req.key
  }

  /* ---- the key is free ---- */

  /** A request that differs from every row in its user, its route pattern or its key gets to its
      handler with a row of its own, whatever else is going on. */
  lemma FreeKeyProceeds(s: System, e: Dispatch, req: Request)
    requires Reachable(s) && e !in s.jobs && |req.key| <= 200 && forall id :: !Meets(s, id, req)
    ensures var n := Enter(s, e, req);
            && Reachable(n) && e in n.jobs && n.jobs[e].phase == Handling && n.jobs[e].claim.Some?
            && var id := n.jobs[e].claim.value;
            && id !in s.table.rows
            && n.table.rows == s.table.rows[id := Row(Slot(req.user, req.scope, req.key), Hash(req.scope, req.body),
                                                      InProgress, None, None)]
  {
    ReachableIsOk(s);
    Enters(s, e, req);
    if SlotOf(req) in s.table.index { assert Meets(s, s.table.index[SlotOf(req)], req); }
  }

  /** Every row is of some dispatch's user, route pattern and key. */
  lemma RowsAreAsked(s: System, id: RowId)
    requires Reachable(s) && id in s.table.rows
    ensures exists d :: d in s.jobs && Meets(s, id, s.jobs[d].req)
  {
    ReachableIsOk(s);
    assert RowOk(s, id);
    assert Meets(s, id, s.jobs[s.owner[id]].req);
  }

  /** So dispatches that differ in user, route pattern or key never refuse each other. */
  lemma DifferentKeysNeverMeet(s: System, e: Dispatch, req: Request)
    requires Reachable(s) && e !in s.jobs && |req.key| <= 200
    requires forall d :: d in s.jobs ==>
      s.jobs[d].req.user != req.user || s.jobs[d].req.scope != req.scope || s.jobs[d].req.key != req.key
    ensures var n := Enter(s, e, req); e in n.jobs && n.jobs[e].phase == Handling
  {
    forall id ensures !Meets(s, id, req) {
      if Meets(s, id, req) { RowsAreAsked(s, id); }
    }
    FreeKeyProceeds(s, e, req);
  }

  /* ---- the key is taken ---- */

  /** What the row says to a request with its user, route pattern and key. */
  function Told(row: Row, id: RowId, req: Request): Answer {
    if row.hash.body != req.body then Mismatch
    else if row.state.Completed? && row.status.Some? && row.body.Some?
    then Replayed(Response(row.status.value, row.body.value), id)
    else Conflict
  }

  lemma RowIsWhole(s: System, id: RowId, req: Request)
    requires Reachable(s) && Meets(s, id, req)
    ensures Consistent(s.table) && SlotOf(req) in s.table.index && s.table.index[SlotOf(req)] == id
    ensures var row := s.table.rows[id];
            row.hash.scope == req.scope && (row.state.Completed? ==> row.status.Some? && row.body.Some?)
  {
    ReachableIsOk(s);
    assert RowOk(s, id);
  }

  lemma SelectedTells(s: System, j: Job, id: RowId)
    requires j.phase.Selecting? && SlotOf(j.req) in s.table.index && s.table.index[SlotOf(j.req)] == id
    requires id in s.table.rows && s.table.rows[id].hash.scope == j.req.scope
    requires s.table.rows[id].state.Completed? ==> s.table.rows[id].status.Some? && s.table.rows[id].body.Some?
    ensures Selected(s, j) == j.(phase := Answered(Told(s.table.rows[id], id, j.req)))
  {
  }

  /** A request whose key is taken is told by the row it meets, and changes nothing: a mismatch for
      another body, the stored response of a completed row, a conflict while it is in progress. */
  lemma TakenKeyTells(s: System, e: Dispatch, req: Request, id: RowId)
    requires Reachable(s) && e !in s.jobs && |req.key| <= 200 && Meets(s, id, req)
    ensures var n := Next(Enter(s, e, req), TrySelect(e)); var row := s.table.rows[id];
            && n.table == s.table && e in n.jobs
            && (row.hash.body != req.body ==> n.jobs[e].phase == Answered(Mismatch))
            && (row.hash.body == req.body && row.state.InProgress? ==> n.jobs[e].phase == Answered(Conflict))
            && (row.hash.body == req.body && row.state.Completed? ==>
                  && row.status.Some? && row.body.Some?
                  && n.jobs[e].phase == Answered(Replayed(Response(row.status.value, row.body.value), id)))
  {
    RowIsWhole(s, id, req);
    var entered := With(s, e, Blocked(req, id));
    assert Enter(s, e, req) == entered by { Enters(s, e, req); }
    SelectsNext(entered, e);
    SelectedTells(entered, Blocked(req, id), id);
  }

  /** A key that is too long is rejected before anything is sent. */
  lemma LongKeyIsRejected(s: System, e: Dispatch, req: Request)
    requires e !in s.jobs && |req.key| > 200
    ensures var n := Next(Next(s, Arrive(e, req, true)), Admit(e));
            e in n.jobs && n.jobs[e].phase == Answered(Rejected) && n.table == s.table
  {
  }

  /* ---- what became of the first one ---- */

  /** A running handler that returns a status in the 200 range, stored. */
  function Completing(s: System, d: Dispatch, r: Response): System { Next(Next(s, HandlerReturns(d, r)), Store(d)) }

  /** One that returns any other status, its row released. */
  function Releasing(s: System, d: Dispatch, r: Response): System { Next(Next(s, HandlerReturns(d, r)), Release(d)) }

  /** One that throws, its row cleaned up. */
  function Throwing(s: System, d: Dispatch): System { Next(Next(s, HandlerThrows(d)), Clean(d)) }

  ghost predicate Running(s: System, d: Dispatch, id: RowId) {
    d in s.jobs && s.jobs[d].phase.Handling? && s.jobs[d].claim == Some(id) && id in s.table.rows
  }

  lemma RunningRow(s: System, d: Dispatch, id: RowId)
    requires Reachable(s) && Running(s, d, id)
    ensures Consistent(s.table) && s.table.rows[id].state.InProgress? && Meets(s, id, s.jobs[d].req)
    ensures |s.jobs[d].req.key| <= 200 && s.table.rows[id].hash.body == s.jobs[d].req.body
  {
    ReachableIsOk(s);
    assert JobOk(s, d) && RowOk(s, id);
  }

  lemma CompletingStores(s: System, d: Dispatch, id: RowId, r: Response)
    requires Reachable(s) && Running(s, d, id) && 200 <= r.status < 300
    ensures var n, row := Completing(s, d, r), s.table.rows[id];
            && Reachable(n) && n.jobs == s.jobs[d := n.jobs[d]] && n.jobs[d].phase == Answered(Fresh(r))
            && n.table.rows == s.table.rows[id := Row(row.slot, row.hash, Completed, Some(r.status), Some(r.body))]
  {
    ReachableNext(s, HandlerReturns(d, r));
    ReachableNext(Next(s, HandlerReturns(d, r)), Store(d));
  }

  /** After a success every request with the same user, route pattern, key and body is told that
      success, in every continuation in which no sweep takes the row. */
  lemma SuccessIsReplayed(s: System, d: Dispatch, id: RowId, r: Response, rest: seq<Action>, e: Dispatch)
    requires Reachable(s) && Running(s, d, id) && 200 <= r.status < 300
    requires Spared(rest, id) && e !in Run(Completing(s, d, r), rest).jobs
    ensures var n := Run(Completing(s, d, r), rest);
            var told := Next(Enter(n, e, s.jobs[d].req), TrySelect(e));
            e in told.jobs && told.jobs[e].phase == Answered(Replayed(r, id)) && told.table == n.table
  {
    var done := Completing(s, d, r);
    RunningRow(s, d, id);
    CompletingStores(s, d, id, r);
    CompletedStays(done, rest, id, done.table.rows[id]);
    ReachableRun(done, rest);
    TakenKeyTells(Run(done, rest), e, s.jobs[d].req, id);
  }

  lemma {:induction false} ReachableRun(s: System, rest: seq<Action>)
    requires Reachable(s)
    ensures Reachable(Run(s, rest))
  {
    if rest != [] {
      ReachableRun(s, rest[..|rest| - 1]);
      ReachableNext(Run(s, rest[..|rest| - 1]), rest[|rest| - 1]);
    }
  }

  /** A completed row stays as it is as long as no sweep takes it. */
  lemma {:induction false} CompletedStays(s: System, rest: seq<Action>, id: RowId, row: Row)
    requires Reachable(s) && id in s.table.rows && s.table.rows[id] == row && row.state.Completed? && Spared(rest, id)
    ensures var n := Run(s, rest); id in n.table.rows && n.table.rows[id] == row
    decreases |rest|
  {
    if rest != [] {
      var front, a := rest[..|rest| - 1], rest[|rest| - 1];
      CompletedStays(s, front, id, row);
      ReachableRun(s, front);
      if a.Sweep? {
        assert id !in a.ids;
        SweepLeaves(Run(s, front), a.ids, id);
      } else {
        LateStepsAreHarmless(Run(s, front), a, id);
      }
    }
  }

  lemma SweepLeaves(s: System, ids: set<RowId>, id: RowId)
    requires id in s.table.rows && id !in ids
    ensures var n := Next(s, Sweep(ids)); id in n.table.rows && n.table.rows[id] == s.table.rows[id]
  {
  }

  lemma ReleasingFrees(s: System, d: Dispatch, id: RowId, r: Response)
    requires Reachable(s) && Running(s, d, id) && !(200 <= r.status < 300)
    ensures var n := Releasing(s, d, r);
            && Reachable(n) && n.jobs == s.jobs[d := n.jobs[d]] && n.jobs[d].phase == Answered(Fresh(r))
            && n.table.rows == s.table.rows - {id}
  {
    RunningRow(s, d, id);
    ReachableNext(s, HandlerReturns(d, r));
    ReachableNext(Next(s, HandlerReturns(d, r)), Release(d));
  }

  lemma ThrowingFrees(s: System, d: Dispatch, id: RowId)
    requires Reachable(s) && Running(s, d, id)
    ensures var n := Throwing(s, d);
            && Reachable(n) && n.jobs == s.jobs[d := n.jobs[d]] && n.jobs[d].phase == Answered(Failed)
            && n.table.rows == s.table.rows - {id}
  {
    RunningRow(s, d, id);
    ReachableNext(s, HandlerThrows(d));
    ReachableNext(Next(s, HandlerThrows(d)), Clean(d));
  }

  /** After any other end the key is free: the next request with it, of any body, gets to its
      handler. */
  lemma FailureFreesKey(s: System, d: Dispatch, id: RowId, r: Option<Response>, e: Dispatch, req: Request)
    requires Reachable(s) && Running(s, d, id) && e !in s.jobs && Meets(s, id, req)
    requires r.Some? ==> !(200 <= r.value.status < 300)
    ensures var n := Enter(if r.Some? then Releasing(s, d, r.value) else Throwing(s, d), e, req);
            Reachable(n) && e in n.jobs && n.jobs[e].phase == Handling
  {
    RunningRow(s, d, id);
    RowIsWhole(s, id, req);
    if r.Some? { ReleasingFrees(s, d, id, r.value); } else { ThrowingFrees(s, d, id); }
    var n := if r.Some? then Releasing(s, d, r.value) else Throwing(s, d);
    forall other ensures !Meets(n, other, req) {
      if Meets(n, other, req) { RowIsWhole(s, other, req); }
    }
    FreeKeyProceeds(n, e, req);
  }
}
