/** The record table as an object, one method per SQL statement, and
    `beginIdempotent` over it, with what other requests may do between its statements. */
module IdempotencyStore {
  import opened Wrappers
  import opened Idempotency

  datatype Lookup = Proceed(id: RowId) | Replay(response: Response) | Refused(answer: Answer)

  /** A statement of some other dispatch, or the sweep. */
  datatype Other = Deletes(ids: set<RowId>) | Claims(slot: Slot, hash: Hash) | Completes(id: RowId, response: Response)

  /** What becomes of a statement: carried out and answered, or failing, with or without
      having been carried out. */
  datatype Reply = Done | Fails(applied: bool)

  /** One attempt of `beginIdempotent`: what becomes of its INSERT and its SELECT, and what
      others do between the two and before the next attempt. */
  datatype Attempt = Attempt(insert: Reply, before: seq<Other>, select: Reply, after: seq<Other>)

  function Did(t: Table, o: Other): Table {
    match o
    case Deletes(ids) => Delete(t, ids)
    case Claims(slot, hash) => Insert(t, slot, hash)
    case Completes(id, r) => Complete(t, id, r)
  }

  function DidAll(t: Table, others: seq<Other>): Table {
    if others == [] then t else Did(DidAll(t, others[..|others| - 1]), others[|others| - 1])
  }

  /** What the row that has the slot says. */
  function ReadOf(row: Row, req: Request): Lookup {
    if row.hash != HashOf(req) then Refused(Mismatch)
    else if row.state.Completed? && row.status.Some?
    then Replay(Response(row.status.value, if row.body.Some? then row.body.value else "null"))
    else Refused(Conflict)
  }

  /** `beginIdempotent`, with what others do around each attempt. */
  function Begun(t: Table, req: Request, attempts: seq<Attempt>): (Table, Lookup)
    decreases |attempts|
  {
    var slot, claimed := SlotOf(req), Insert(t, SlotOf(req), HashOf(req));
    if |req.key| > MAX_KEY_LENGTH then (t, Refused(Rejected))
    else if attempts != [] && attempts[0].insert.Fails? then
      (if attempts[0].insert.applied then claimed else t, Refused(Failed))
    else if slot !in t.index then (claimed, Proceed(t.nextId))
    else if attempts == [] then
      (t, if t.index[slot] in t.rows then ReadOf(t.rows[t.index[slot]], req) else Refused(Failed))
    else
      var u := DidAll(t, attempts[0].before);
      if attempts[0].select.Fails? then (u, Refused(Failed))
      else if slot in u.index && u.index[slot] in u.rows then (u, ReadOf(u.rows[u.index[slot]], req))
      else Begun(DidAll(u, attempts[0].after), req, attempts[1..])
  }

  /** The row that refuses the INSERT vanishes before the SELECT: the request starts again and gets
      through, whatever the row said. */
  lemma VanishedRowIsRetried(t: Table, req: Request, id: RowId, ids: set<RowId>)
    requires Consistent(t) && |req.key| <= 200 && id in t.rows && id in ids
    requires t.rows[id].slot == Slot(req.user, req.scope, req.key)
    ensures var a := Attempt(Done, [Deletes(ids)], Done, []);
            var now, lookup := Begun(t, req, [a]).0, Begun(t, req, [a]).1;
            && lookup == Proceed(t.nextId) && t.nextId in now.rows
            && now.rows == Delete(t, ids).rows[t.nextId := now.rows[t.nextId]]
            && now.rows[t.nextId] == Row(Slot(req.user, req.scope, req.key), Hash(req.scope, req.body),
                                         InProgress, None, None)
  {
    var gone := Delete(t, ids);
    assert DidAll(t, []) == t && [Deletes(ids)][..0] == [];
    assert DidAll(t, [Deletes(ids)]) == gone && DidAll(gone, []) == gone;
    assert SlotOf(req) in t.index && t.index[SlotOf(req)] == id && SlotOf(req) !in gone.index;
    assert Begun(gone, req, []) == (Insert(gone, SlotOf(req), HashOf(req)), Proceed(t.nextId));
  }

  /** The row is completed before the SELECT: the request is told what was stored. */
  lemma CompletedMeanwhile(t: Table, req: Request, id: RowId, r: Response)
    requires Consistent(t) && |req.key| <= 200 && id in t.rows
    requires t.rows[id].slot == Slot(req.user, req.scope, req.key) && t.rows[id].hash == Hash(req.scope, req.body)
    ensures Begun(t, req, [Attempt(Done, [Completes(id, r)], Done, [])]).1 == Replay(r)
  {
    assert DidAll(t, []) == t && [Completes(id, r)][..0] == [];
    assert DidAll(t, [Completes(id, r)]) == Complete(t, id, r);
    assert SlotOf(req) in t.index && t.index[SlotOf(req)] == id;
  }

  /** The rows a list of statements may change. */
  ghost predicate Spares(others: seq<Other>, id: RowId) {
    forall o :: o in others ==> (o.Deletes? ==> id !in o.ids) && (o.Completes? ==> o.id != id)
  }

  ghost predicate NoneCompletes(others: seq<Other>, id: RowId) {
    forall o :: o in others ==> o.Completes? ==> o.id != id
  }

  ghost predicate AllSpare(attempts: seq<Attempt>, id: RowId) {
    forall a :: a in attempts ==> Spares(a.before, id) && Spares(a.after, id)
  }

  datatype Handled = Returns(response: Response) | Throws

  type Rows = map<RowId, Row>

  /** What the statements of others leave as it was. */
  ghost predicate Kept(was: Rows, next: RowId, now: Rows, others: seq<Other>) {
    && (forall id :: id in was && Spares(others, id) ==> id in now && now[id] == was[id])
    && (forall id :: id in now && id < next && NoneCompletes(others, id) ==> id in was && now[id] == was[id])
  }

  lemma KeptMore(was: Rows, next: RowId, mid: Rows, midNext: RowId, now: Rows, others: seq<Other>, o: Other)
    requires Kept(was, next, mid, others) && Kept(mid, midNext, now, [o]) && o in others && next <= midNext
    ensures Kept(was, next, now, others)
  {
    assert forall id :: Spares(others, id) ==> Spares([o], id);
    assert forall id :: NoneCompletes(others, id) ==> NoneCompletes([o], id);
  }

  /** No row has the request's user, scope and key. */
  ghost predicate Unmet(rows: Rows, req: Request) {
    forall id :: id in rows ==>
      rows[id].slot.user != req.user || rows[id].slot.scope != req.scope || rows[id].slot.key != req.key
  }

  /** What the row with the request's user, scope and key says to it. */
  ghost predicate Tells(rows: Rows, req: Request, lookup: Lookup) {
    exists id ::
      && id in rows && rows[id].slot == Slot(req.user, req.scope, req.key)
      && var row := rows[id];
      && (lookup == Refused(Mismatch) <==> row.hash != Hash(req.scope, req.body))
      && (lookup.Replay? <==> row.hash == Hash(req.scope, req.body) && row.state.Completed? && row.status.Some?)
      && (lookup.Replay? ==> row.status == Some(lookup.response.status)
                             && (row.body.Some? ==> row.body == Some(lookup.response.body)))
      && (lookup.Refused? ==> lookup.answer == Mismatch || lookup.answer == Conflict)
      && !lookup.Proceed?
  }

  lemma ReadTells(t: Table, req: Request)
    requires Consistent(t) && SlotOf(req) in t.index
    ensures Tells(t.rows, req, ReadOf(t.rows[t.index[SlotOf(req)]], req))
  {
    assert t.index[SlotOf(req)] in t.rows;
  }

  /* ---- what the statements of others keep ---- */

  lemma DidKeeps(t: Table, o: Other)
    requires Consistent(t)
    ensures Consistent(Did(t, o)) && Did(t, o).nextId >= t.nextId && Kept(t.rows, t.nextId, Did(t, o).rows, [o])
  {
    match o
    case Deletes(ids) => DeleteKeeps(t, ids);
    case Claims(slot, hash) => ClaimKeeps(t, slot, hash);
    case Completes(id, r) => CompleteKeeps(t, id, r);
  }

  lemma DeleteKeeps(t: Table, ids: set<RowId>)
    requires Consistent(t)
    ensures var u := Delete(t, ids);
            Consistent(u) && u.nextId >= t.nextId && Kept(t.rows, t.nextId, u.rows, [Deletes(ids)])
  {
    assert forall id :: Spares([Deletes(ids)], id) ==> Deletes(ids) in [Deletes(ids)];
  }

  lemma ClaimKeeps(t: Table, slot: Slot, hash: Hash)
    requires Consistent(t)
    ensures var u := Insert(t, slot, hash);
            Consistent(u) && u.nextId >= t.nextId && Kept(t.rows, t.nextId, u.rows, [Claims(slot, hash)])
  {
  }

  lemma CompleteKeeps(t: Table, id: RowId, r: Response)
    requires Consistent(t)
    ensures var u := Complete(t, id, r);
            Consistent(u) && u.nextId >= t.nextId && Kept(t.rows, t.nextId, u.rows, [Completes(id, r)])
  {
    assert Completes(id, r) in [Completes(id, r)];
  }

  lemma {:induction false} DidAllKeeps(t: Table, others: seq<Other>)
    requires Consistent(t)
    ensures var u := DidAll(t, others);
            Consistent(u) && u.nextId >= t.nextId && Kept(t.rows, t.nextId, u.rows, others)
    decreases |others|
  {
    if others != [] {
      var front, o := others[..|others| - 1], others[|others| - 1];
      var mid := DidAll(t, front);
      DidAllKeeps(t, front);
      DidKeeps(mid, o);
      KeptLonger(t.rows, t.nextId, mid.rows, front, others);
      KeptMore(t.rows, t.nextId, mid.rows, mid.nextId, DidAll(t, others).rows, others, o);
    }
  }

  lemma KeptLonger(was: Rows, next: RowId, now: Rows, front: seq<Other>, others: seq<Other>)
    requires Kept(was, next, now, front) && forall o :: o in front ==> o in others
    ensures Kept(was, next, now, others)
  {
    assert forall id :: Spares(others, id) ==> Spares(front, id);
    assert forall id :: NoneCompletes(others, id) ==> NoneCompletes(front, id);
  }

  /* ---- what `beginIdempotent` comes to ---- */

  /** After an INSERT that was refused: what others did, and the next attempt's table. */
  function AfterOthers(t: Table, a: Attempt): Table { DidAll(DidAll(t, a.before), a.after) }

  lemma AfterOthersKeeps(t: Table, a: Attempt)
    requires Consistent(t)
    ensures var u := AfterOthers(t, a); Consistent(u) && u.nextId >= t.nextId
    ensures forall id :: id in t.rows && Spares(a.before, id) && Spares(a.after, id) ==>
              var u := AfterOthers(t, a); id in u.rows && u.rows[id] == t.rows[id]
  {
    DidAllKeeps(t, a.before);
    DidAllKeeps(DidAll(t, a.before), a.after);
  }

  lemma InsertKeeps(t: Table, req: Request)
    requires Consistent(t)
    ensures var u := Insert(t, SlotOf(req), HashOf(req));
            && Consistent(u) && u.nextId >= t.nextId
            && forall id :: id in t.rows ==> id in u.rows && u.rows[id] == t.rows[id]
  {
  }

  /** The attempt goes on to another one. */
  predicate Retries(t: Table, req: Request, attempts: seq<Attempt>) {
    && |req.key| <= MAX_KEY_LENGTH && attempts != [] && attempts[0].insert.Done? && SlotOf(req) in t.index
    && attempts[0].select.Done? && SlotOf(req) !in DidAll(t, attempts[0].before).index
  }

  lemma RetriesOn(t: Table, req: Request, attempts: seq<Attempt>)
    requires Retries(t, req, attempts)
    ensures Begun(t, req, attempts) == Begun(AfterOthers(t, attempts[0]), req, attempts[1..])
  {
  }

  /** Rows nobody else touches are as they were. */
  ghost predicate Further(t: Table, u: Table, attempts: seq<Attempt>) {
    && Consistent(u) && u.nextId >= t.nextId
    && forall id :: id in t.rows && AllSpare(attempts, id) ==> id in u.rows && u.rows[id] == t.rows[id]
  }

  lemma LastTable(t: Table, req: Request, attempts: seq<Attempt>)
    requires !Retries(t, req, attempts)
    requires attempts != [] ==> forall s :: s in DidAll(t, attempts[0].before).index ==>
      DidAll(t, attempts[0].before).index[s] in DidAll(t, attempts[0].before).rows
    ensures var u := Begun(t, req, attempts).0;
            u == t || u == Insert(t, SlotOf(req), HashOf(req)) || (attempts != [] && u == DidAll(t, attempts[0].before))
  {
  }

  lemma OthersFurther(t: Table, attempts: seq<Attempt>)
    requires Consistent(t) && attempts != []
    ensures Further(t, DidAll(t, attempts[0].before), attempts)
  {
    DidAllKeeps(t, attempts[0].before);
    assert attempts[0] in attempts;
  }

  lemma BegunOnce(t: Table, req: Request, attempts: seq<Attempt>)
    requires Consistent(t) && !Retries(t, req, attempts)
    ensures Further(t, Begun(t, req, attempts).0, attempts)
  {
    InsertKeeps(t, req);
    if attempts != [] { OthersFurther(t, attempts); }
    LastTable(t, req, attempts);
  }

  lemma FurtherOn(t: Table, mid: Table, u: Table, attempts: seq<Attempt>)
    requires attempts != [] && Further(mid, u, attempts[1..]) && mid.nextId >= t.nextId
    requires forall id :: id in t.rows && Spares(attempts[0].before, id) && Spares(attempts[0].after, id) ==>
      id in mid.rows && mid.rows[id] == t.rows[id]
    ensures Further(t, u, attempts)
  {
    assert forall id :: AllSpare(attempts, id) ==> AllSpare(attempts[1..], id);
  }

  lemma {:induction false} BegunKeeps(t: Table, req: Request, attempts: seq<Attempt>)
    requires Consistent(t)
    ensures Further(t, Begun(t, req, attempts).0, attempts)
    decreases |attempts|
  {
    if Retries(t, req, attempts) {
      AfterOthersKeeps(t, attempts[0]);
      RetriesOn(t, req, attempts);
      BegunKeeps(AfterOthers(t, attempts[0]), req, attempts[1..]);
      FurtherOn(t, AfterOthers(t, attempts[0]), Begun(t, req, attempts).0, attempts);
    } else {
      BegunOnce(t, req, attempts);
    }
  }

  /** The row of a request that proceeds. */
  ghost predicate OwnRow(t: Table, id: RowId, req: Request) {
    && id in t.rows
    && t.rows[id] == Row(Slot(req.user, req.scope, req.key), Hash(req.scope, req.body), InProgress, None, None)
  }

  lemma {:induction false} BegunAnswers(t: Table, req: Request, attempts: seq<Attempt>)
    requires Consistent(t)
    ensures var u, lookup := Begun(t, req, attempts).0, Begun(t, req, attempts).1;
            && (lookup.Proceed? ==> lookup.id >= t.nextId && OwnRow(u, lookup.id, req))
            && (lookup == Refused(Failed) ==> exists a :: a in attempts && (a.insert.Fails? || a.select.Fails?))
            && (!lookup.Proceed? && lookup != Refused(Failed) && |req.key| <= MAX_KEY_LENGTH ==>
                  Tells(u.rows, req, lookup))
    decreases |attempts|
  {
    if attempts == [] {
      if SlotOf(req) in t.index { ReadTells(t, req); }
    } else {
      assert attempts[0] in attempts;
      var u := DidAll(t, attempts[0].before);
      DidAllKeeps(t, attempts[0].before);
      if SlotOf(req) in u.index { ReadTells(u, req); }
      if Retries(t, req, attempts) {
        AfterOthersKeeps(t, attempts[0]);
        RetriesOn(t, req, attempts);
        BegunAnswers(AfterOthers(t, attempts[0]), req, attempts[1..]);
      }
    }
  }

  /** A request whose user, scope or key no row has gets through at once. */
  lemma UnmetProceeds(t: Table, req: Request, attempts: seq<Attempt>)
    requires Consistent(t) && |req.key| <= 200 && (attempts == [] || attempts[0].insert.Done?)
    ensures var u, lookup := Begun(t, req, attempts).0, Begun(t, req, attempts).1;
            && (Unmet(t.rows, req) ==> lookup == Proceed(t.nextId) && u == Insert(t, SlotOf(req), HashOf(req))
                                       && t.nextId !in t.rows && OwnRow(u, t.nextId, req))
            && (attempts == [] && !Unmet(t.rows, req) ==> !lookup.Proceed? && u == t)
  {
    if SlotOf(req) in t.index { assert t.rows[t.index[SlotOf(req)]].slot == SlotOf(req); }
  }

  class RecordTable {
    var rows: map<RowId, Row>
    var index: map<Slot, RowId>
    var nextId: RowId

    constructor ()
      ensures View() == START.table
    {
      rows, index, nextId := map[], map[], 0;
    }

    ghost function View(): Table
      reads this
    {
      Table(rows, index, nextId)
    }

    method InsertRecord(slot: Slot, hash: Hash) returns (id: Option<RowId>)
      modifies this
      ensures View() == Insert(old(View()), slot, hash)
      ensures old(Consistent(View())) ==> Consistent(View())
      ensures id == if slot in old(index) then None else Some(old(nextId))
    {
      if slot in index { return None; }
      id := Some(nextId);
      rows := rows[nextId := Row(slot, hash, InProgress, None, None)];
      index := index[slot := nextId];
      nextId := nextId + 1;
    }

    method DeleteRecords(ids: set<RowId>) returns (count: nat)
      modifies this
      ensures View() == Delete(old(View()), ids)
      ensures old(Consistent(View())) ==> Consistent(View())
      ensures count == |ids * old(rows).Keys|
    {
      count := |ids * rows.Keys|;
      rows := rows - ids;
      index := map s | s in index && index[s] !in ids :: index[s];
    }

    method CompleteIdempotent(id: RowId, r: Response)
      modifies this
      ensures View() == Complete(old(View()), id, r)
      ensures old(Consistent(View())) ==> Consistent(View())
    {
      if id in rows {
        rows := rows[id := rows[id].(state := Completed, status := Some(r.status), body := Some(r.body))];
      }
    }

    method AbandonIdempotent(id: RowId)
      modifies this
      ensures View() == Abandon(old(View()), id)
      ensures old(Consistent(View())) ==> Consistent(View())
    {
      if id in rows && rows[id].state.InProgress? {
        var _ := DeleteRecords({id});
      }
    }

    method ReadRecord(req: Request) returns (lookup: Lookup)
      requires Consistent(View()) && SlotOf(req) in index
      ensures Tells(rows, req, lookup) && lookup == ReadOf(rows[index[SlotOf(req)]], req)
    {
      var row := rows[index[SlotOf(req)]];
      if row.hash != HashOf(req) { return Refused(Mismatch); }
      if row.state.Completed? && row.status.Some? {
        return Replay(Response(row.status.value, if row.body.Some? then row.body.value else "null"));
      }
      return Refused(Conflict);
    }

    /** Any statements of others, one after the other. */
    method Interfere(others: seq<Other>)
      requires Consistent(View())
      modifies this
      ensures Consistent(View()) && nextId >= old(nextId)
      ensures View() == DidAll(old(View()), others)
      ensures Kept(old(rows), old(nextId), rows, others)
    {
      ghost var was := View();
      for i := 0 to |others|
        invariant Consistent(View()) && View() == DidAll(was, others[..i])
      {
        Perform(others[i]);
        assert others[..i + 1][..i] == others[..i];
      }
      assert others[..|others|] == others;
      DidAllKeeps(was, others);
    }

    method Perform(o: Other)
      requires Consistent(View())
      modifies this
      ensures Consistent(View()) && View() == Did(old(View()), o)
    {
      match o
      case Deletes(ids) => var _ := DeleteRecords(ids);
      case Claims(slot, hash) => var _ := InsertRecord(slot, hash);
      case Completes(id, r) => CompleteIdempotent(id, r);
    }

    /** Claim a key, replay its stored answer, or refuse.  The attempts say what goes on
        around each recursive call; when they are used up nobody interferes any more. */
    method BeginIdempotent(req: Request, attempts: seq<Attempt>) returns (lookup: Lookup)
      requires Consistent(View())
      modifies this
      ensures Consistent(View()) && nextId >= old(nextId)
      ensures (View(), lookup) == Begun(old(View()), req, attempts)
      ensures |req.key| > 200 ==> lookup == Refused(Rejected) && View() == old(View())
      ensures lookup.Proceed? ==>
        && lookup.id >= old(nextId) && lookup.id in rows
        && rows[lookup.id] ==
             Row(Slot(req.user, req.scope, req.key), Hash(req.scope, req.body), InProgress, None, None)
      // nobody else's row stands in the way of a request that differs in user, scope or key
      ensures |req.key| <= 200 && (attempts == [] || attempts[0].insert.Done?) && Unmet(old(rows), req) ==>
        lookup == Proceed(old(nextId)) && rows == old(rows)[lookup.id := rows[lookup.id]]
      ensures attempts == [] && !Unmet(old(rows), req) ==> !lookup.Proceed? && View() == old(View())
      ensures lookup == Refused(Failed) ==> exists a :: a in attempts && (a.insert.Fails? || a.select.Fails?)
      ensures !lookup.Proceed? && lookup != Refused(Failed) && |req.key| <= 200 ==> Tells(rows, req, lookup)
      ensures forall id :: id in old(rows) && AllSpare(attempts, id) ==> id in rows && rows[id] == old(rows)[id]
    {
      ghost var was := View();
      lookup := Attempted(req, attempts);
      BegunKeeps(was, req, attempts);
      BegunAnswers(was, req, attempts);
      if |req.key| <= 200 && (attempts == [] || attempts[0].insert.Done?) { UnmetProceeds(was, req, attempts); }
    }

    /** The INSERT, the SELECT, and the function's call of itself. */
    method Attempted(req: Request, attempts: seq<Attempt>) returns (lookup: Lookup)
      requires Consistent(View())
      modifies this
      ensures (View(), lookup) == Begun(old(View()), req, attempts)
      decreases |attempts|
    {
      if |req.key| > MAX_KEY_LENGTH { return Refused(Rejected); }
      if attempts != [] && attempts[0].insert.Fails? {
        if attempts[0].insert.applied { var _ := InsertRecord(SlotOf(req), HashOf(req)); }
        return Refused(Failed);
      }
      var claimed := InsertRecord(SlotOf(req), HashOf(req));
      if claimed.Some? { return Proceed(claimed.value); }
      if attempts == [] {
        lookup := ReadRecord(req);
        return;
      }
      Interfere(attempts[0].before);
      if attempts[0].select.Fails? { return Refused(Failed); }
      if SlotOf(req) in index {
        lookup := ReadRecord(req);
        return;
      }
      Interfere(attempts[0].after);
      lookup := Attempted(req, attempts[1..]);
    }

    /** One statement that may fail, with or without having been carried out. */
    method Finish(id: RowId, r: Response, reply: Reply) returns (ok: bool)
      requires Consistent(View())
      modifies this
      ensures Consistent(View()) && ok == reply.Done?
      ensures View() == if reply == Fails(false) then old(View())
                        else if Success(r) then Complete(old(View()), id, r) else Abandon(old(View()), id)
    {
      ok := reply.Done?;
      if reply == Fails(false) { return; }
      if Success(r) { CompleteIdempotent(id, r); } else { AbandonIdempotent(id); }
    }

    /** The handler and what follows it.  `during` is what others do while it runs. */
    method Handle(ghost req: Request, claimed: Option<RowId>, during: seq<Other>, handled: Handled,
                  finish: Reply, clean: Reply)
        returns (response: Option<Response>)
      requires Consistent(View())
      requires claimed.Some? ==>
        claimed.value in rows && rows[claimed.value] ==
          Row(Slot(req.user, req.scope, req.key), Hash(req.scope, req.body), InProgress, None, None)
      modifies this
      ensures Consistent(View())
      ensures response == if handled.Throws? || (claimed.Some? && finish.Fails?) then None else Some(handled.response)
      ensures claimed.Some? ==> Settled(req, claimed.value, during, handled, response, finish, clean)
      ensures forall id :: id in old(rows) && Spares(during, id) && Some(id) != claimed
                ==> id in rows && rows[id] == old(rows)[id]
    {
      Interfere(during);
      if claimed.None? {
        response := if handled.Throws? then None else Some(handled.response);
      } else {
        ghost var row := Row(Slot(req.user, req.scope, req.key), Hash(req.scope, req.body), InProgress, None, None);
        var id := claimed.value;
        response := Settle(id, row, handled, finish, clean, Spares(during, id), NoneCompletes(during, id));
      }
    }

    /** Complete or abandon, and the clean-up of the catch block.  `spared`: nobody touched the
        row; `open`: nobody else completed it. */
    method Settle(id: RowId, ghost row: Row, handled: Handled, finish: Reply, clean: Reply,
                  ghost spared: bool, ghost open: bool)
        returns (response: Option<Response>)
      requires Consistent(View()) && row.state.InProgress?
      requires (spared ==> id in rows && rows[id] == row) && (open ==> id in rows ==> rows[id] == row)
      modifies this
      ensures Consistent(View())
      ensures response == if handled.Throws? || finish.Fails? then None else Some(handled.response)
      ensures response.Some? && Success(response.value) && spared ==>
        id in rows && rows[id] ==
          row.(state := Completed, status := Some(response.value.status), body := Some(response.value.body))
      ensures response.Some? && !Success(response.value) && open ==> id !in rows
      ensures response.None? && clean.Done? && id in rows && open ==>
        handled.Returns? && Success(handled.response) && finish == Fails(true) && rows[id].state.Completed?
      ensures forall other :: other in old(rows) && other != id ==> other in rows && rows[other] == old(rows)[other]
    {
      if handled.Returns? {
        var ok := Finish(id, handled.response, finish);
        if ok { return Some(handled.response); }
      }
      response := None;
      if clean != Fails(false) { AbandonIdempotent(id); }
    }

    /** What has become of a claimed row: a success the caller is told of is stored, unless the
        sweep came first; any other end frees the key, unless the clean-up itself fails.  (Nobody
        else completes a row by its own id.) */
    ghost predicate Settled(req: Request, id: RowId, during: seq<Other>, handled: Handled, response: Option<Response>,
                            finish: Reply, clean: Reply)
      reads this
    {
      && (response.Some? && Success(response.value) ==>
            !Spares(during, id)
            || (id in rows && rows[id] ==
                  Row(Slot(req.user, req.scope, req.key), Hash(req.scope, req.body), Completed,
                      Some(response.value.status), Some(response.value.body))))
      && (response.Some? && !Success(response.value) && NoneCompletes(during, id) ==> id !in rows)
      && (response.None? && clean.Done? && id in rows && NoneCompletes(during, id) ==>
            handled.Returns? && Success(handled.response) && finish == Fails(true) && rows[id].state.Completed?)
    }

    /** `dispatch` from its idempotency step on. */
    method Dispatch(req: Request, keyed: bool, attempts: seq<Attempt>, during: seq<Other>, handled: Handled,
                    finish: Reply, clean: Reply)
        returns (answer: Lookup, response: Option<Response>, claimed: Option<RowId>)
      requires Consistent(View())
      modifies this
      ensures Consistent(View())
      ensures claimed.Some? <==> keyed && answer.Proceed?
      ensures claimed.Some? ==> claimed.value >= old(nextId)
      // refused or replayed: what the handler would have done does not matter
      ensures keyed && !answer.Proceed? ==> response == if answer.Replay? then Some(answer.response) else None
      ensures (keyed ==> answer.Proceed?) ==>
        response == if handled.Throws? || (claimed.Some? && finish.Fails?) then None else Some(handled.response)
      ensures claimed.Some? ==> Settled(req, claimed.value, during, handled, response, finish, clean)
      ensures forall id :: id in old(rows) && Spares(during, id) && AllSpare(attempts, id)
                ==> id in rows && rows[id] == old(rows)[id]
    {
      answer, claimed := Proceed(0), None;
      if keyed {
        answer := BeginIdempotent(req, attempts);
        if answer.Replay? { return answer, Some(answer.response), None; }
        if answer.Refused? { return answer, None, None; }
        claimed := Some(answer.id);
      }
      response := Handle(req, claimed, during, handled, finish, clean);
    }
  }
}
