/** The two drivers: `createPostgresDb` and `createPgliteDb`.  Both are proved to send
    exactly the statements of `Savepoints`, so its theorems hold of both. */
module Adapters {
  import opened Savepoints
  import S = Savepoints

  /** A connection to the server, with the statements it was sent. */
  class Connection {
    const faults: Faults
    var session: Session
    var log: seq<Sql>

    constructor (faults: Faults, session: Session)
      ensures this.faults == faults && this.session == session && log == []
    {
      this.faults := faults;
      this.session := session;
      log := [];
    }

    ghost function At(depth: nat): World
      reads this
    {
      World(session, depth, log)
    }

    method Send(q: Sql) returns (out: Outcome)
      modifies this
      ensures session == Step(old(session), q, |old(log)|, faults).session
      ensures log == old(log) + [q]
      ensures out == if Step(old(session), q, |old(log)|, faults).ok then Resolved else Threw(Fault(q, old(session)))
    {
      var r := Step(session, q, |log|, faults);
      out := if r.ok then Resolved else Threw(Fault(q, session));
      session := r.session;
      log := log + [q];
    }
  }

  /** The connection and depth of the transaction the current call stack is inside. */
  class TxContext {
    const client: Connection
    var depth: nat

    constructor (client: Connection)
      ensures this.client == client && depth == 1
    {
      this.client := client;
      depth := 1;
    }
  }

  /** node-postgres, as one call stack sees it: `client` is what the pool checks out to a
      transaction, `pool` the connection it lends to a statement outside of any, and
      `store` what `AsyncLocalStorage` holds. */
  class PostgresDb {
    const client: Connection
    const pool: Connection
    var store: TxContext?

    constructor (client: Connection, pool: Connection)
      ensures this.client == client && this.pool == pool && store == null
    {
      this.client, this.pool := client, pool;
      store := null;
    }

    /** Where a statement goes: the stored context's connection if there is one. */
    function Target(): Connection
      reads this
    {
      if store != null then store.client else pool
    }

    /** `query` and `execScript`. */
    method Send(q: Sql) returns (out: Outcome)
      modifies Target()
      ensures Target().session == Step(old(Target().session), q, |old(Target().log)|, Target().faults).session
      ensures Target().log == old(Target().log) + [q]
      ensures out == if Step(old(Target().session), q, |old(Target().log)|, Target().faults).ok then Resolved
                     else Threw(Fault(q, old(Target().session)))
    {
      var ctx := store;
      out := (if ctx != null then ctx.client else pool).Send(q);
    }

    ghost predicate Inside(ctx: TxContext)
      reads this
    {
      store == ctx && ctx.client == client
    }

    method Transaction(fn: Prog) returns (out: Outcome)
      requires if store != null then Inside(store) else AtRest(client.session)
      modifies this, client, store
      ensures store == old(store) && (store == null ==> AtRest(client.session))
      ensures store != null ==>
        Trail(client.At(store.depth), out) == Nested(fn, old(client.At(store.depth)), client.faults)
      ensures store == null ==> Trail(client.At(0), out) == Outermost(fn, old(client.At(0)), client.faults)
      decreases fn, 2
    {
      if store != null {
        out := NestedCall(store, fn);
        return;
      }
      out := OutermostCall(fn);
    }

    method OutermostCall(fn: Prog) returns (out: Outcome)
      requires store == null && AtRest(client.session)
      modifies this, client
      ensures store == null && AtRest(client.session)
      ensures Trail(client.At(0), out) == Outermost(fn, old(client.At(0)), client.faults)
      ensures Kept(fn, client.faults) ==>
        var v := Promised(fn, old(client.session.committed), |old(client.log)|, client.faults);
        out == v.outcome && client.session.committed == v.data
      decreases fn, 1
    {
      var ctx := new TxContext(client);
      out := client.Send(Begin);
      if out.Resolved? {
        store := ctx;
        out := Callback(ctx, fn);
        store := null;
        if out.Resolved? { out := client.Send(Commit); }
      }
      if out.Threw? {
        var _ := client.Send(Rollback);
      }
      OutermostRests(fn, old(client.At(0)), client.faults);
      if Kept(fn, client.faults) { PromiseKeptByBoth(fn, old(client.At(0)), client.faults); }
    }

    method NestedCall(ctx: TxContext, fn: Prog) returns (out: Outcome)
      requires Inside(ctx)
      modifies this, client, ctx
      ensures store == old(store)
      ensures Trail(client.At(ctx.depth), out) == Nested(fn, old(client.At(ctx.depth)), client.faults)
      decreases fn, 1
    {
      var name := ctx.depth;
      out := Open(ctx, name);
      if out.Threw? { return; }
      out := Callback(ctx, fn);
      out := Settle(ctx, name, out);
    }

    method Open(ctx: TxContext, name: nat) returns (out: Outcome)
      requires Inside(ctx) && name == ctx.depth
      modifies client, ctx
      ensures Trail(client.At(ctx.depth), out)
           == S.Send(old(client.At(ctx.depth)).(depth := name + 1), Save(name), client.faults)
    {
      ctx.depth := ctx.depth + 1;
      out := ctx.client.Send(Save(name));
    }

    method Settle(ctx: TxContext, name: nat, ran: Outcome) returns (out: Outcome)
      requires Inside(ctx) && ctx.depth > 0
      modifies client, ctx
      ensures store == old(store)
      ensures Trail(client.At(ctx.depth), out) == Settled(Trail(old(client.At(ctx.depth)), ran), name, client.faults)
    {
      out := ran;
      if out.Resolved? { out := ctx.client.Send(Release(name)); }
      if out.Threw? {
        var undone := ctx.client.Send(RollbackTo(name));
        if undone.Threw? { out := undone; }
      }
      ctx.depth := ctx.depth - 1;
    }

    method Callback(ctx: TxContext, p: Prog) returns (out: Outcome)
      requires Inside(ctx)
      modifies this, client, ctx
      ensures store == old(store)
      ensures Trail(client.At(ctx.depth), out) == Run(p, old(client.At(ctx.depth)), client.faults)
      decreases p, 0
    {
      match p
      case Skip => out := Resolved;
      case Write(w) => out := Send(Statement(w));
      case Throw(e) => out := Threw(e);
      case Then(a, b) =>
        out := Callback(ctx, a);
        if out.Resolved? { out := Callback(ctx, b); }
      case Ask(q, yes, no) =>
        out := Send(Query);
        if out.Resolved? {
          if q(client.session.working) { out := Callback(ctx, yes); } else { out := Callback(ctx, no); }
        }
      case Tx(body) => out := Transaction(body);
      case Catch(g, sel, h) =>
        out := Callback(ctx, g);
        if out.Threw? && sel(out.error) { out := Callback(ctx, h); }
    }
  }

  /** PGlite: one connection and a depth counter; zero means no transaction. */
  class PgliteDb {
    const pg: Connection
    var depth: nat

    constructor (pg: Connection)
      ensures this.pg == pg && depth == 0
    {
      this.pg := pg;
      depth := 0;
    }

    method Transaction(fn: Prog) returns (out: Outcome)
      requires depth == 0 ==> AtRest(pg.session)
      modifies this, pg
      ensures old(depth) == 0 ==> AtRest(pg.session)
      ensures Trail(pg.At(depth), out) == OnCounter(fn, old(pg.At(depth)), pg.faults)
      decreases fn, 2
    {
      if depth > 0 {
        out := NestedBranch(fn);
      } else {
        out := OutermostBranch(fn);
      }
    }

    method NestedBranch(fn: Prog) returns (out: Outcome)
      requires depth > 0
      modifies this, pg
      ensures Trail(pg.At(depth), out) == Nested(fn, old(pg.At(depth)), pg.faults)
      decreases fn, 1
    {
      var name := depth;
      depth := depth + 1;
      out := pg.Send(Save(name));
      if out.Threw? { return; }
      out := Callback(fn);
      out := Settle(name, out);
    }

    method Settle(name: nat, ran: Outcome) returns (out: Outcome)
      requires depth > 0
      modifies this, pg
      ensures Trail(pg.At(depth), out) == Settled(Trail(old(pg.At(depth)), ran), name, pg.faults)
    {
      out := ran;
      if out.Resolved? { out := pg.Send(Release(name)); }
      if out.Threw? {
        var undone := pg.Send(RollbackTo(name));
        if undone.Threw? { out := undone; }
      }
      depth := depth - 1;
    }

    method OutermostBranch(fn: Prog) returns (out: Outcome)
      requires depth == 0 && AtRest(pg.session)
      modifies this, pg
      ensures AtRest(pg.session) && (depth == 0 <==> Begins(old(pg.At(0)), pg.faults))
      ensures Trail(pg.At(depth), out) == OutermostUnguarded(fn, old(pg.At(0)), pg.faults)
      ensures Kept(fn, pg.faults) ==>
        var v := Promised(fn, old(pg.session.committed), |old(pg.log)|, pg.faults);
        out == v.outcome && pg.session.committed == v.data
      decreases fn, 1
    {
      depth := 1;
      out := pg.Send(Begin);
      if out.Resolved? {
        out := Callback(fn);
        out := Conclude(out);
      }
      BeginDecides(fn, old(pg.At(0)), pg.faults);
      OutermostRests(fn, old(pg.At(0)), pg.faults);
      if Kept(fn, pg.faults) { PromiseKeptByBoth(fn, old(pg.At(0)), pg.faults); }
    }

    method Conclude(ran: Outcome) returns (out: Outcome)
      modifies this, pg
      ensures depth == 0
      ensures Trail(pg.At(0), out) == Concluded(Trail(old(pg.At(depth)), ran), pg.faults)
    {
      out := ran;
      if out.Resolved? { out := pg.Send(Commit); }
      if out.Threw? {
        var undone := pg.Send(Rollback);
        if undone.Threw? { out := undone; }
      }
      depth := 0;
    }

    method Callback(p: Prog) returns (out: Outcome)
      requires depth > 0
      modifies this, pg
      ensures Trail(pg.At(depth), out) == Run(p, old(pg.At(depth)), pg.faults)
      decreases p, 0
    {
      match p
      case Skip => out := Resolved;
      case Write(w) => out := pg.Send(Statement(w));
      case Throw(e) => out := Threw(e);
      case Then(a, b) =>
        out := Callback(a);
        if out.Resolved? { out := Callback(b); }
      case Ask(q, yes, no) =>
        out := pg.Send(Query);
        if out.Resolved? {
          if q(pg.session.working) { out := Callback(yes); } else { out := Callback(no); }
        }
      case Tx(body) => out := Transaction(body);
      case Catch(g, sel, h) =>
        out := Callback(g);
        if out.Threw? && sel(out.error) { out := Callback(h); }
    }
  }

  /** The same callback on the same database: same outcome and same data on either driver, and
      the same statements with the counter back at zero exactly when BEGIN is accepted. */
  method RunOnBoth(a: PostgresDb, b: PgliteDb, fn: Prog) returns (onPostgres: Outcome, onPglite: Outcome)
    requires a.client != b.pg && a.client.faults == b.pg.faults
    requires a.store == null && b.depth == 0
    requires a.client.At(0) == b.pg.At(0) && AtRest(b.pg.session)
    modifies a, a.client, b, b.pg
    ensures onPostgres == onPglite && a.client.session == b.pg.session
    ensures a.client.log == b.pg.log <==> Begins(old(b.pg.At(0)), b.pg.faults)
    ensures b.depth == 0 <==> Begins(old(b.pg.At(0)), b.pg.faults)
  {
    BeginDecides(fn, b.pg.At(0), b.pg.faults);
    onPostgres := a.Transaction(fn);
    onPglite := b.Transaction(fn);
    assert Trail(a.client.At(0), onPostgres) == Outermost(fn, old(a.client.At(0)), a.client.faults);
    assert Trail(b.pg.At(b.depth), onPglite) == OutermostUnguarded(fn, old(b.pg.At(0)), b.pg.faults);
  }
}
