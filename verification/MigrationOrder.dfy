/** Runners over a directory that grows while some are at work: exactly when the files take
    effect in the directory's order. */
module MigrationOrder {
  import opened Migrator

  /** One list is where the other begins. */
  predicate Comparable(a: seq<Migration>, b: seq<Migration>) { a <= b || b <= a }

  function Known(db: Db): set<string> { db.recorded.Keys }

  /** What a live runner can still bring into effect by itself: the head of its list up to the
      first file that is recorded, where it is refused and stops. */
  function Ahead(known: set<string>, p: seq<Migration>): (a: seq<Migration>)
    ensures a <= p
    decreases |p|
  {
    if p == [] || p[0].filename in known then [] else [p[0]] + Ahead(known + {p[0].filename}, p[1..])
  }

  ghost predicate Live(s: System, r: nat) { r in s.runners && s.runners[r].Working? }

  function Rest(files: seq<Migration>, n: nat): seq<Migration> { if n <= |files| then files[n..] else [] }

  /** What is in effect is where the directory begins, and every live runner goes on as the
      directory does; or all of the directory is in effect already. */
  ghost predicate InStep(s: System, files: seq<Migration>) {
    && Comparable(s.db.history, files)
    && (files <= s.db.history
        || forall r :: Live(s, r) ==> Comparable(Ahead(Known(s.db), s.runners[r].pending), Rest(files, |s.db.history|)))
  }

  /** Only the directory and initial parts of it are read from here on. */
  ghost predicate OnDirectory(actions: seq<Action>, files: seq<Migration>) {
    forall i :: 0 <= i < |actions| && actions[i].Start? ==> actions[i].files <= files
  }

  /** Whatever happens next, and whatever scripts are refused, the directory's order is kept. */
  ghost predicate KeepsOrder(s: System, files: seq<Migration>) {
    forall rest, refuses: Refuses {:trigger Execute(s, rest, refuses)} :: OnDirectory(rest, files) ==>
      Comparable(Execute(s, rest, refuses).db.history, files)
  }

  /** The same of the live runners alone, when nobody starts from here on. */
  ghost predicate LiveKeepOrder(s: System, files: seq<Migration>) {
    forall rest, refuses: Refuses {:trigger Execute(s, rest, refuses)} :: NobodyStarts(rest) ==>
      Comparable(Execute(s, rest, refuses).db.history, files)
  }

  ghost predicate NobodyStarts(actions: seq<Action>) {
    forall i :: 0 <= i < |actions| ==> !actions[i].Start?
  }

  /** The table records exactly the files in effect. */
  ghost predicate Tidy(db: Db) { Distinct(db.history) && db == Built(db.history) }

  /* ---- in step, every action stays in step ---- */

  lemma TidyNext(s: System, a: Action, refuses: Refuses)
    requires Tidy(s.db)
    ensures Tidy(Next(s, a, refuses).db)
  {
    BuiltRecords(s.db.history);
    var n := Next(s, a, refuses);
    if n.db != s.db { assert n.db.history[..|s.db.history|] == s.db.history; }
  }

  /** Every state an execution reaches is tidy. */
  lemma {:induction false} ReachedIsTidy(actions: seq<Action>, refuses: Refuses)
    ensures Tidy(Execute(EMPTY, actions, refuses).db)
    decreases |actions|
  {
    if actions != [] {
      ReachedIsTidy(actions[..|actions| - 1], refuses);
      TidyNext(Execute(EMPTY, actions[..|actions| - 1], refuses), actions[|actions| - 1], refuses);
    }
  }

  /** A runner's list, after `m` took effect by somebody's hand. */
  lemma AheadLater(known: set<string>, p: seq<Migration>, m: Migration, rest: seq<Migration>)
    requires Comparable(Ahead(known, p), [m] + rest)
    ensures Comparable(Ahead(known + {m.filename}, p), rest)
  {
    var a := Ahead(known, p);
    if a != [] {
      assert a[0] == ([m] + rest)[0];
      assert Ahead(known + {m.filename}, p) == [];
    }
  }

  /** A runner's own list, after it committed the first file. */
  lemma AheadAfterOwn(known: set<string>, p: seq<Migration>, m: Migration, rest: seq<Migration>)
    requires p != [] && p[0].filename !in known && Comparable(Ahead(known, p), [m] + rest)
    ensures p[0] == m && Comparable(Ahead(known + {m.filename}, p[1..]), rest)
  {
    var a := Ahead(known, p);
    var tail := Ahead(known + {p[0].filename}, p[1..]);
    assert a == [p[0]] + tail;
    assert a[0] == ([m] + rest)[0];
    assert a[1..] == tail && ([m] + rest)[1..] == rest;
    if a <= [m] + rest {
      assert a[1..] <= ([m] + rest)[1..];
    } else {
      assert ([m] + rest)[1..] <= a[1..];
    }
  }

  lemma RestStep(files: seq<Migration>, n: nat)
    requires n < |files|
    ensures Rest(files, n) == [files[n]] + Rest(files, n + 1)
  {
  }

  lemma CommitStaysInStep(s: System, r: nat, files: seq<Migration>, refuses: Refuses)
    requires Tidy(s.db) && InStep(s, files) && !(files <= s.db.history) && TakesEffect(s, Commit(r), refuses)
    ensures InStep(Next(s, Commit(r), refuses), files)
  {
    var p, n, t := s.runners[r].pending, |s.db.history|, Next(s, Commit(r), refuses);
    var known, rest := Known(s.db), Rest(files, n + 1);
    var m := files[n];
    RestStep(files, n);
    assert Live(s, r);
    AheadAfterOwn(known, p, m, rest);
    assert Known(t.db) == known + {m.filename};
    assert t.db.history == s.db.history + [m] <= files by { assert files[..n] == s.db.history; }
    forall q | Live(t, q) ensures Comparable(Ahead(Known(t.db), t.runners[q].pending), rest) {
      if q != r {
        assert Live(s, q);
        AheadLater(known, s.runners[q].pending, m, rest);
      }
    }
  }

  /** A runner that reads the directory, or an initial part of it, means to do what is left. */
  lemma StartMeansTheRest(db: Db, part: seq<Migration>, files: seq<Migration>)
    requires Tidy(db) && Distinct(files) && db.history <= files && part <= files
    ensures Ahead(Known(db), Pending(db, part)) <= Rest(files, |db.history|)
  {
    var n := |db.history|;
    assert files[..n] == db.history;
    PrefixRecords(files, n);
    RecordedInPart(db, part, files, n);
    PendingIsRest(db, part, 0, n);
    assert part[0..] == part;
    assert Pending(db, part) <= files[n..];
  }

  lemma StartStaysInStep(s: System, r: nat, part: seq<Migration>, files: seq<Migration>, refuses: Refuses)
    requires Tidy(s.db) && Distinct(files) && InStep(s, files) && !(files <= s.db.history) && part <= files
    ensures InStep(Next(s, Start(r, part), refuses), files)
  {
    var n, t := |s.db.history|, Next(s, Start(r, part), refuses);
    StartMeansTheRest(s.db, part, files);
    assert t.db == s.db;
    forall q | Live(t, q) ensures Comparable(Ahead(Known(t.db), t.runners[q].pending), Rest(files, n)) {
      if Live(s, q) { assert t.runners[q] == s.runners[q]; }
    }
  }

  lemma StaysInStep(s: System, a: Action, files: seq<Migration>, refuses: Refuses)
    requires Tidy(s.db) && Distinct(files) && InStep(s, files) && (a.Start? ==> a.files <= files)
    ensures InStep(Next(s, a, refuses), files)
  {
    var t := Next(s, a, refuses);
    if files <= s.db.history {
      assert s.db.history <= t.db.history;
    } else if a.Start? {
      StartStaysInStep(s, a.r, a.files, files, refuses);
    } else if TakesEffect(s, a, refuses) {
      CommitStaysInStep(s, a.r, files, refuses);
    } else {
      assert t.db == s.db;
      assert forall q :: Live(t, q) ==> Live(s, q) && t.runners[q] == s.runners[q];
    }
  }

  lemma {:induction false} ExecutionStaysInStep(s: System, rest: seq<Action>, files: seq<Migration>, refuses: Refuses)
    requires Tidy(s.db) && Distinct(files) && InStep(s, files) && OnDirectory(rest, files)
    ensures Tidy(Execute(s, rest, refuses).db) && InStep(Execute(s, rest, refuses), files)
    decreases |rest|
  {
    if rest != [] {
      var front, a := rest[..|rest| - 1], rest[|rest| - 1];
      ExecutionStaysInStep(s, front, files, refuses);
      TidyNext(Execute(s, front, refuses), a, refuses);
      StaysInStep(Execute(s, front, refuses), a, files, refuses);
    }
  }

  /* ---- out of step, one runner alone breaks the order ---- */

  const NOTHING_REFUSED: Refuses := (schema: seq<string>, sql: string) => false

  lemma ApplyOne(db: Db, m: Migration)
    requires m.filename !in Known(db)
    ensures Accepts(db, m, NOTHING_REFUSED)
    ensures var next := Apply(db, m, NOTHING_REFUSED);
            next.history == db.history + [m] && Known(next) == Known(db) + {m.filename}
  {
  }

  /** One round of the loop moves the first file of what lies ahead into effect. */
  lemma LoopMovesOne(db: Db, pending: seq<Migration>, lives: nat)
    requires lives > 0 && lives == |Ahead(Known(db), pending)|
    ensures pending != []
    ensures var next := Apply(db, pending[0], NOTHING_REFUSED);
            && ApplyAll(db, pending, lives, NOTHING_REFUSED)
            == ApplyAll(next, pending[1..], lives - 1, NOTHING_REFUSED)
            && next.history + Ahead(Known(next), pending[1..]) == db.history + Ahead(Known(db), pending)
            && |Ahead(Known(next), pending[1..])| == lives - 1
  {
    var m, rest := pending[0], pending[1..];
    ApplyOne(db, m);
    AppliesOne(db, pending, lives, NOTHING_REFUSED);
    var tail := Ahead(Known(Apply(db, m, NOTHING_REFUSED)), rest);
    assert Ahead(Known(db), pending) == [m] + tail;
    assert db.history + [m] + tail == db.history + ([m] + tail);
  }

  /** The loop alone, with nothing refused, goes exactly as far as `Ahead` says. */
  lemma {:induction false} LoopAppliesAhead(db: Db, pending: seq<Migration>, lives: nat)
    requires lives == |Ahead(Known(db), pending)|
    ensures ApplyAll(db, pending, lives, NOTHING_REFUSED).db.history == db.history + Ahead(Known(db), pending)
    decreases lives
  {
    if lives == 0 {
      assert ApplyAll(db, pending, 0, NOTHING_REFUSED).db == db;
    } else {
      LoopMovesOne(db, pending, lives);
      LoopAppliesAhead(Apply(db, pending[0], NOTHING_REFUSED), pending[1..], lives - 1);
    }
  }

  lemma AloneCommitsAhead(s: System, r: nat)
    requires Live(s, r)
    ensures var a := Ahead(Known(s.db), s.runners[r].pending);
            Execute(s, Commits(r, |a|), NOTHING_REFUSED).db.history == s.db.history + a
  {
    var a := Ahead(Known(s.db), s.runners[r].pending);
    CommitsAreTheLoop(s, r, |a|, NOTHING_REFUSED);
    LoopAppliesAhead(s.db, s.runners[r].pending, |a|);
  }

  lemma ComparableTails(h: seq<Migration>, a: seq<Migration>, files: seq<Migration>)
    requires h <= files
    ensures Comparable(h + a, files) <==> Comparable(a, Rest(files, |h|))
  {
    var b := files[|h|..];
    assert files == h + b && (h + a)[|h|..] == a;
    if h + a <= files { assert a <= b by { assert files[|h|..|h| + |a|] == a; } }
    if files <= h + a { assert (h + a)[..|files|][|h|..] == b; }
    if a <= b { assert files[..|h| + |a|] == h + a; }
    if b <= a { assert (h + a)[..|files|] == files; }
  }

  lemma OutOfStep(s: System, files: seq<Migration>)
    requires LiveKeepOrder(s, files)
    ensures InStep(s, files)
  {
    assert Execute(s, [], NOTHING_REFUSED) == s && NobodyStarts([]);
    if !(files <= s.db.history) {
      forall r | Live(s, r) ensures Comparable(Ahead(Known(s.db), s.runners[r].pending), Rest(files, |s.db.history|)) {
        var a := Ahead(Known(s.db), s.runners[r].pending);
        AloneCommitsAhead(s, r);
        assert NobodyStarts(Commits(r, |a|));
        ComparableTails(s.db.history, a, files);
      }
    }
  }

  lemma InStepKeepsOrder(s: System, files: seq<Migration>)
    requires Tidy(s.db) && Distinct(files) && InStep(s, files)
    ensures KeepsOrder(s, files)
  {
    forall rest, refuses: Refuses {:trigger Execute(s, rest, refuses)} | OnDirectory(rest, files)
      ensures Comparable(Execute(s, rest, refuses).db.history, files)
    {
      ExecutionStaysInStep(s, rest, files, refuses);
    }
  }

  /** The directory's order is kept whatever happens next, exactly when every live runner is in
      step with the directory; runners that start later make no difference. */
  lemma OrderKeptIff(s: System, files: seq<Migration>)
    requires Tidy(s.db) && Distinct(files)
    ensures KeepsOrder(s, files) <==> InStep(s, files)
    ensures LiveKeepOrder(s, files) <==> InStep(s, files)
  {
    if LiveKeepOrder(s, files) { OutOfStep(s, files); }
    if InStep(s, files) { InStepKeepsOrder(s, files); }
    forall rest | NobodyStarts(rest) ensures OnDirectory(rest, files) { }
  }

  /* ---- whole executions ---- */

  /** Nobody is at work and the directory only gained files after those in effect. */
  lemma QuietIsInStep(s: System, files: seq<Migration>)
    requires s.db.history <= files && forall r :: r in s.runners ==> s.runners[r].Stopped?
    ensures InStep(s, files)
  {
  }

  /** Every directory is one the runners then at work are in step with. */
  ghost predicate Growing(actions: seq<Action>, refuses: Refuses) {
    forall i :: 0 <= i < |actions| && actions[i].Start? ==>
      Distinct(actions[i].files) && InStep(Execute(EMPTY, actions[..i], refuses), actions[i].files)
  }

  /** The directory read last. */
  function Latest(actions: seq<Action>): seq<Migration> {
    if actions == [] then []
    else if actions[|actions| - 1].Start? then actions[|actions| - 1].files
    else Latest(actions[..|actions| - 1])
  }

  lemma {:induction false} GrowingStaysInStep(actions: seq<Action>, refuses: Refuses)
    requires Growing(actions, refuses)
    ensures Distinct(Latest(actions)) && InStep(Execute(EMPTY, actions, refuses), Latest(actions))
    decreases |actions|
  {
    if actions != [] {
      var front, a := actions[..|actions| - 1], actions[|actions| - 1];
      assert forall i :: 0 <= i < |front| ==> front[..i] == actions[..i];
      GrowingStaysInStep(front, refuses);
      ReachedIsTidy(front, refuses);
      StaysInStep(Execute(EMPTY, front, refuses), a, Latest(actions), refuses);
    }
  }

  /** Runs that crash, fail or race over a growing directory leave in effect a prefix of the
      directory read last, or all of it and more. */
  lemma AlwaysAPrefix(actions: seq<Action>, refuses: Refuses)
    requires Growing(actions, refuses)
    ensures var db := Execute(EMPTY, actions, refuses).db;
            db == Built(db.history) && Comparable(db.history, Latest(actions))
  {
    ReachedIsTidy(actions, refuses);
    GrowingStaysInStep(actions, refuses);
  }

  /* ---- a runner out of step ---- */

  function OneFile(a: Migration): Db { Db([a], map[a.filename := a.checksum]) }

  lemma FirstFile(a: Migration, refuses: Refuses)
    requires forall schema, sql :: !refuses(schema, sql)
    ensures Next(Next(EMPTY, Start(0, [a]), refuses), Commit(0), refuses) == System(OneFile(a), map[0 := Working([])])
  {
    assert Pending(EMPTY.db, [a]) == [a] + Pending(EMPTY.db, []) == [a];
    assert !Edited(EMPTY.db, [a]);
    var begun := Next(EMPTY, Start(0, [a]), refuses);
    assert begun.runners == EMPTY.runners[0 := Working([a])] && begun.db == EMPTY.db;
    assert Next(EMPTY, Start(0, [a]), refuses) == System(EMPTY.db, map[0 := Working([a])]);
  }

  lemma TwoLists(a: Migration, b: Migration, c: Migration)
    requires a.filename != b.filename && a.filename != c.filename
    ensures Pending(OneFile(a), [a, c]) == [c] && Pending(OneFile(a), [a, b, c]) == [b, c]
    ensures !Edited(OneFile(a), [a, c]) && !Edited(OneFile(a), [a, b, c])
  {
    var db := OneFile(a);
    assert Pending(db, [c]) == [c] + Pending(db, []);
    assert [b, c][1..] == [c] && Pending(db, [b, c]) == [b] + Pending(db, [c]);
    assert [a, c][1..] == [c] && [a, b, c][1..] == [b, c];
  }

  /** A runner still at work on a list the directory has since outgrown breaks the order. */
  lemma StaleRunnerReorders(a: Migration, b: Migration, c: Migration, refuses: Refuses)
    requires a.filename != b.filename && a.filename != c.filename && b.filename != c.filename
    requires forall schema, sql :: !refuses(schema, sql)
    ensures var s := Next(Next(EMPTY, Start(0, [a]), refuses), Commit(0), refuses);
            var t := Next(Next(s, Start(1, [a, c]), refuses), Start(2, [a, b, c]), refuses);
            Next(Next(t, Commit(1), refuses), Commit(2), refuses).db.history == [a, c, b]
  {
    FirstFile(a, refuses);
    TwoLists(a, b, c);
    var s := System(OneFile(a), map[0 := Working([])]);
    var one := Next(s, Start(1, [a, c]), refuses);
    assert one == System(OneFile(a), map[0 := Working([]), 1 := Working([c])]);
    var t := Next(one, Start(2, [a, b, c]), refuses);
    assert t.db == s.db && t.runners[1] == Working([c]) && t.runners[2] == Working([b, c]);
    TwoCommits(t, [a], b, c, refuses);
  }

  lemma TwoCommits(t: System, done: seq<Migration>, b: Migration, c: Migration, refuses: Refuses)
    requires forall schema, sql :: !refuses(schema, sql)
    requires t.db.history == done && b.filename !in t.db.recorded
    requires c.filename !in t.db.recorded && b.filename != c.filename
    requires t.runners.Keys >= {1, 2} && t.runners[1] == Working([c]) && t.runners[2] == Working([b, c])
    ensures Next(Next(t, Commit(1), refuses), Commit(2), refuses).db.history == done + [c] + [b]
  {
  }
}
