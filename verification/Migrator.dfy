/** The migration runner: loading a directory, one run over a database, and any
    number of runs that crash, fail and race. */
module Migrator {
  import opened Wrappers

  /** SHA-256, taken to be injective. */
  datatype Digest = Sha256(text: string)

  datatype Migration = Migration(filename: string, sql: string, checksum: Digest)

  datatype Result<T> = Ok(value: T) | Err(error: Failure)

  datatype Failure = BadName | DuplicateNumber | Modified | Refused | Crashed

  /* ---- loading ---- */

  /** Array.prototype.sort on names. */
  predicate Before(a: string, b: string) {
    if b == "" then false
    else if a == "" then true
    else if a[0] != b[0] then a[0] < b[0]
    else Before(a[1..], b[1..])
  }

  ghost predicate Ordered(names: seq<string>) {
    forall i, j :: 0 <= i < j < |names| ==> Before(names[i], names[j])
  }

  predicate Digit(c: char) { '0' <= c <= '9' }

  predicate NameChar(c: char) { 'a' <= c <= 'z' || Digit(c) || c == '_' }

  /** `^(\d{4})_[a-z0-9_]+\.sql$` */
  predicate WellNamed(f: string) {
    && |f| >= 10
    && (forall i :: 0 <= i < 4 ==> Digit(f[i]))
    && f[4] == '_' && f[|f| - 4..] == ".sql"
    && (forall i :: 5 <= i < |f| - 4 ==> NameChar(f[i]))
  }

  function Number(f: string): nat
    requires |f| >= 4 && forall i :: 0 <= i < 4 ==> Digit(f[i])
  {
    var d := (i: nat) requires i < |f| && Digit(f[i]) => (f[i] - '0') as nat;
    d(0) * 1000 + d(1) * 100 + d(2) * 10 + d(3)
  }

  predicate IsSql(f: string) { |f| >= 4 && f[|f| - 4..] == ".sql" }

  /** `filter((f) => f.endsWith('.sql'))` */
  function SqlFiles(listing: seq<string>): seq<string> {
    if listing == [] then []
    else SqlFiles(listing[..|listing| - 1]) + if IsSql(listing[|listing| - 1]) then [listing[|listing| - 1]] else []
  }

  function Place(name: string, names: seq<string>): seq<string> {
    if names == [] || Before(name, names[0]) then [name] + names else [names[0]] + Place(name, names[1..])
  }

  /** `sort()` */
  function Sorted(names: seq<string>): seq<string> {
    if names == [] then [] else Place(names[0], Sorted(names[1..]))
  }

  ghost predicate AllDiffer(names: seq<string>) { forall i, j :: 0 <= i < j < |names| ==> names[i] != names[j] }

  lemma {:induction false} BeforeTotal(a: string, b: string)
    requires a != b
    ensures Before(a, b) || Before(b, a)
  {
    if a != "" && b != "" && a[0] == b[0] {
      assert a == [a[0]] + a[1..] && b == [b[0]] + b[1..];
      BeforeTotal(a[1..], b[1..]);
    }
  }

  lemma {:induction false} BeforeTransitive(a: string, b: string, c: string)
    requires Before(a, b) && Before(b, c)
    ensures Before(a, c)
  {
    if a != "" && a[0] == b[0] == c[0] { BeforeTransitive(a[1..], b[1..], c[1..]); }
  }

  lemma {:induction false} PlaceMembers(name: string, names: seq<string>)
    ensures forall f :: f in Place(name, names) <==> f == name || f in names
  {
    if names != [] && !Before(name, names[0]) {
      PlaceMembers(name, names[1..]);
      assert names == [names[0]] + names[1..];
    }
  }

  lemma {:induction false} PlaceKeepsOrder(name: string, names: seq<string>)
    requires Ordered(names) && name !in names
    ensures Ordered(Place(name, names))
  {
    if names == [] {
    } else if Before(name, names[0]) {
      forall f | f in names ensures Before(name, f) {
        if f != names[0] { BeforeTransitive(name, names[0], f); }
      }
    } else {
      BeforeTotal(name, names[0]);
      PlaceKeepsOrder(name, names[1..]);
      PlaceMembers(name, names[1..]);
      forall f | f in Place(name, names[1..]) ensures Before(names[0], f) {}
    }
  }

  lemma {:induction false} SortedIsOrdered(names: seq<string>)
    requires AllDiffer(names)
    ensures Ordered(Sorted(names)) && forall f :: f in Sorted(names) <==> f in names
  {
    if names != [] {
      SortedIsOrdered(names[1..]);
      PlaceMembers(names[0], Sorted(names[1..]));
      PlaceKeepsOrder(names[0], Sorted(names[1..]));
      assert names == [names[0]] + names[1..];
    }
  }

  lemma {:induction false} SqlFilesAre(listing: seq<string>)
    requires AllDiffer(listing)
    ensures AllDiffer(SqlFiles(listing)) && forall f :: f in SqlFiles(listing) <==> f in listing && IsSql(f)
    decreases |listing|
  {
    if listing != [] { SqlFilesAre(listing[..|listing| - 1]); }
  }

  /** Whatever order the directory is listed in, what is loaded is its `.sql` files in text
      order. */
  lemma LoadedInOrder(listing: seq<string>)
    requires AllDiffer(listing)
    ensures var names := Sorted(SqlFiles(listing));
            Ordered(names) && forall f :: f in names <==> f in listing && IsSql(f)
  {
    SqlFilesAre(listing);
    SortedIsOrdered(SqlFiles(listing));
  }

  method LoadSorted(names: seq<string>, content: map<string, string>) returns (r: Result<seq<Migration>>)
    requires Ordered(names) && forall f :: f in names ==> f in content
    ensures r.Err? ==> r.error == BadName || r.error == DuplicateNumber
    ensures r == Err(BadName) <==> exists f :: f in names && !WellNamed(f)
    ensures r.Ok? ==>
      && |r.value| == |names|
      && (forall i :: 0 <= i < |names| ==>
            r.value[i] == Migration(names[i], content[names[i]], Sha256(content[names[i]])))
      && (forall i :: 0 <= i < |names| ==> WellNamed(names[i]))
      && (forall i, j :: 0 <= i < j < |names| ==> names[i][..4] != names[j][..4])
    ensures r == Err(DuplicateNumber) ==>
      exists i, j ::
        0 <= i < j < |names| && WellNamed(names[i]) && WellNamed(names[j]) && names[i][..4] == names[j][..4]
  {
    if exists f :: f in names && !WellNamed(f) { return Err(BadName); }
    var seen: set<string> := {};
    var migrations: seq<Migration> := [];
    for k := 0 to |names|
      invariant |migrations| == k
      invariant forall i :: 0 <= i < |names| ==> WellNamed(names[i])
      invariant forall p :: p in seen <==> exists i :: 0 <= i < k && names[i][..4] == p
      invariant forall i :: 0 <= i < k ==>
        migrations[i] == Migration(names[i], content[names[i]], Sha256(content[names[i]]))
      invariant forall i, j :: 0 <= i < j < k ==> names[i][..4] != names[j][..4]
    {
      var prefix := names[k][..4];
      if prefix in seen {
        return Err(DuplicateNumber);
      }
      seen := seen + {prefix};
      var sql := content[names[k]];
      migrations := migrations + [Migration(names[k], sql, Sha256(sql))];
    }
    return Ok(migrations);
  }

  predicate Loaded(m: Migration, content: map<string, string>) {
    m.filename in content && m == Migration(m.filename, content[m.filename], Sha256(content[m.filename]))
  }

  predicate SameNumber(f: string, g: string) { |f| >= 4 && |g| >= 4 && f[..4] == g[..4] }

  /** `listing` is what `readdir` returns, `content` the files. */
  method LoadMigrations(listing: seq<string>, content: map<string, string>) returns (r: Result<seq<Migration>>)
    requires AllDiffer(listing) && forall f :: f in listing ==> f in content
    ensures r.Err? ==> r.error == BadName || r.error == DuplicateNumber
    ensures r == Err(BadName) <==> exists f :: f in listing && |f| >= 4 && f[|f| - 4..] == ".sql" && !WellNamed(f)
    ensures r.Ok? ==> IsLoaded(r.value, listing, content)
    // every .sql file is there, with its text and the digest of its text, and nothing else
    ensures r.Ok? ==> forall m :: m in r.value <==>
      && m.filename in listing && |m.filename| >= 4 && m.filename[|m.filename| - 4..] == ".sql"
      && m == Migration(m.filename, content[m.filename], Sha256(content[m.filename]))
    ensures r == Err(DuplicateNumber) ==> Repeats(listing)
  {
    var names := Sorted(SqlFiles(listing));
    LoadedInOrder(listing);
    r := LoadSorted(names, content);
    if r == Err(DuplicateNumber) {
      RepeatsIn(names, listing);
    } else if r.Ok? {
      assert Names(r.value) == names;
      LoadedExactly(r.value, listing, content);
    }
  }

  /** The directory's `.sql` files in text order, well named, with their contents and checksums,
      no number twice. */
  ghost predicate IsLoaded(files: seq<Migration>, listing: seq<string>, content: map<string, string>) {
    && Names(files) == Sorted(SqlFiles(listing)) && Ordered(Names(files))
    && (forall m :: m in files ==> WellNamed(m.filename) && Loaded(m, content))
    && (forall i, j :: 0 <= i < j < |files| ==> !SameNumber(files[i].filename, files[j].filename))
  }

  lemma LoadedExactly(files: seq<Migration>, listing: seq<string>, content: map<string, string>)
    requires AllDiffer(listing) && IsLoaded(files, listing, content)
    ensures forall m :: m in files <==>
      && m.filename in listing && |m.filename| >= 4 && m.filename[|m.filename| - 4..] == ".sql"
      && m.filename in content && m == Migration(m.filename, content[m.filename], Sha256(content[m.filename]))
  {
    LoadedInOrder(listing);
    forall m | m in files ensures m.filename in Names(files) {
      var i :| 0 <= i < |files| && files[i] == m;
      assert Names(files)[i] == m.filename;
    }
    forall m: Migration | m.filename in listing && IsSql(m.filename) && Loaded(m, content) ensures m in files {
      var i :| 0 <= i < |files| && Names(files)[i] == m.filename;
      assert files[i] in files;
    }
  }

  /** Four digits, an underscore, one or more small letters, digits or underscores, the ending. */
  ghost predicate Composed(f: string, number: string, name: string) {
    && f == number + "_" + name + ".sql" && |number| == 4 && |name| >= 1
    && (forall c :: c in number ==> '0' <= c <= '9')
    && (forall c :: c in name ==> 'a' <= c <= 'z' || '0' <= c <= '9' || c == '_')
  }

  lemma ComposedIsWell(f: string, number: string, name: string)
    requires Composed(f, number, name)
    ensures WellNamed(f)
  {
    forall i | 0 <= i < 4 ensures Digit(f[i]) { assert f[i] == number[i] && number[i] in number; }
    forall i | 5 <= i < |f| - 4 ensures NameChar(f[i]) { assert f[i] == name[i - 5] && name[i - 5] in name; }
    assert f[|f| - 4..] == ".sql";
  }

  /** The pattern's names are exactly those put together like that. */
  lemma WellNamedIff(f: string)
    ensures WellNamed(f) <==> exists number, name :: Composed(f, number, name)
  {
    if WellNamed(f) {
      assert f == f[..4] + "_" + f[5..|f| - 4] + ".sql";
      assert Composed(f, f[..4], f[5..|f| - 4]);
    }
    forall number, name | Composed(f, number, name) ensures WellNamed(f) { ComposedIsWell(f, number, name); }
  }

  lemma AgreeFirst(a: string, b: string, i: nat)
    requires i < |a| && i < |b| && a[..i] == b[..i]
    ensures i == 0 || a[0] == b[0]
  {
    if i > 0 { assert a[0] == a[..i][0] && b[0] == b[..i][0]; }
  }

  /** The text order: at the first place where two names part the smaller character comes first, and
      a name before all that go on from it. */
  lemma {:induction false} BeforeIff(a: string, b: string)
    ensures Before(a, b) <==>
      (a <= b && a != b) || exists i :: 0 <= i < |a| && i < |b| && a[..i] == b[..i] && a[i] < b[i]
  {
    if a != "" && b != "" && a[0] == b[0] {
      BeforeIff(a[1..], b[1..]);
      assert a == [a[0]] + a[1..] && b == [b[0]] + b[1..];
      if i :| 0 <= i < |a[1..]| && i < |b[1..]| && a[1..][..i] == b[1..][..i] && a[1..][i] < b[1..][i] {
        assert a[..i + 1] == [a[0]] + a[1..][..i] && b[..i + 1] == [b[0]] + b[1..][..i];
      }
      if i :| 0 <= i < |a| && i < |b| && a[..i] == b[..i] && a[i] < b[i] {
        assert a[1..][..i - 1] == a[..i][1..] && b[1..][..i - 1] == b[..i][1..];
      }
    } else if a != "" && b != "" {
      if a[0] < b[0] { assert a[..0] == b[..0]; }
      forall i | 0 <= i < |a| && i < |b| && a[..i] == b[..i] ensures i == 0 { AgreeFirst(a, b, i); }
    }
  }

  ghost predicate Repeats(listing: seq<string>) {
    exists f, g :: f in listing && g in listing && f != g && WellNamed(f) && WellNamed(g) && SameNumber(f, g)
  }

  lemma RepeatsIn(names: seq<string>, listing: seq<string>)
    requires Ordered(names) && forall f :: f in names ==> f in listing
    requires exists i, j ::
      0 <= i < j < |names| && WellNamed(names[i]) && WellNamed(names[j]) && names[i][..4] == names[j][..4]
    ensures Repeats(listing)
  {
    var i, j :| 0 <= i < j < |names| && WellNamed(names[i]) && WellNamed(names[j]) && names[i][..4] == names[j][..4];
    DifferentPlaces(names, i, j);
  }

  lemma {:induction false} NotBeforeItself(a: string)
    ensures !Before(a, a)
  {
    if a != "" { NotBeforeItself(a[1..]); }
  }

  lemma DifferentPlaces(names: seq<string>, i: nat, k: nat)
    requires Ordered(names) && i < k < |names|
    ensures names[i] != names[k]
  {
    NotBeforeItself(names[i]);
  }

  /** The sort puts well-named files with distinct numbers in numeric order. */
  lemma OrderIsNumeric(a: string, b: string)
    requires WellNamed(a) && WellNamed(b) && Before(a, b) && a[..4] != b[..4]
    ensures Number(a) < Number(b)
  {
    assert a[..4] == [a[0], a[1], a[2], a[3]] && b[..4] == [b[0], b[1], b[2], b[3]];
    if a[0] == b[0] {
      assert Before(a[1..], b[1..]);
      if a[1] == b[1] {
        assert Before(a[1..][1..], b[1..][1..]);
        assert a[1..][1..] == a[2..] && b[1..][1..] == b[2..];
        if a[2] == b[2] {
          assert Before(a[2..][1..], b[2..][1..]);
        }
      }
    }
  }

  /* ---- one database ---- */

  /** The migrations in effect, in the order they took effect, and the table. */
  datatype Db = Db(history: seq<Migration>, recorded: map<string, Digest>)

  /** Whether a script fails on the schema the earlier scripts made. */
  type Refuses = (seq<string>, string) -> bool

  function Schema(history: seq<Migration>): seq<string> {
    seq(|history|, i requires 0 <= i < |history| => history[i].sql)
  }

  predicate Accepts(db: Db, m: Migration, refuses: Refuses) {
    !refuses(Schema(db.history), m.sql) && m.filename !in db.recorded
  }

  /** The transaction: script, then INSERT against the primary key; all or nothing. */
  function Apply(db: Db, m: Migration, refuses: Refuses): Db {
    if Accepts(db, m, refuses)
    then Db(db.history + [m], db.recorded[m.filename := m.checksum])
    else db
  }

  predicate Edited(db: Db, files: seq<Migration>) {
    exists i :: 0 <= i < |files| && files[i].filename in db.recorded
                && db.recorded[files[i].filename] != files[i].checksum
  }

  function Pending(db: Db, files: seq<Migration>): (p: seq<Migration>)
    ensures forall m :: m in p ==> m in files && m.filename !in db.recorded
  {
    if files == [] then []
    else (if files[0].filename in db.recorded then [] else [files[0]]) + Pending(db, files[1..])
  }

  datatype Run = Run(db: Db, stopped: Option<Failure>)

  /** The loop over pending files; the process dies after `lives` transactions. */
  function ApplyAll(db: Db, pending: seq<Migration>, lives: nat, refuses: Refuses): Run
    decreases |pending|
  {
    if pending == [] then Run(db, None)
    else if lives == 0 then Run(db, Some(Crashed))
    else if !Accepts(db, pending[0], refuses) then Run(db, Some(Refused))
    else ApplyAll(Apply(db, pending[0], refuses), pending[1..], lives - 1, refuses)
  }

  function RunOnce(db: Db, files: seq<Migration>, lives: nat, refuses: Refuses): Run {
    if Edited(db, files) then Run(db, Some(Modified)) else ApplyAll(db, Pending(db, files), lives, refuses)
  }

  /** The texts of those scripts, in order. */
  ghost predicate AreTexts(texts: seq<string>, history: seq<Migration>) {
    |texts| == |history| && forall i :: 0 <= i < |texts| ==> texts[i] == history[i].sql
  }

  /** `names` took effect after what was in effect before, in that order. */
  ghost predicate Added(was: Db, now: Db, names: seq<string>) {
    && |now.history| == |was.history| + |names| && now.history[..|was.history|] == was.history
    && forall i :: 0 <= i < |names| ==> now.history[|was.history| + i].filename == names[i]
  }

  /** The database object the runner talks to. */
  class Database {
    const refuses: Refuses
    var db: Db

    constructor (refuses: Refuses)
      ensures this.refuses == refuses && db == Db([], map[])
    {
      this.refuses := refuses;
      db := Db([], map[]);
    }

    method Transaction(m: Migration) returns (ok: bool)
      modifies this
      ensures ok <==> Accepts(old(db), m, refuses)
      ensures db == Apply(old(db), m, refuses)
      // the script is judged on the texts of all earlier ones, and only a new name is recorded
      ensures forall texts :: AreTexts(texts, old(db).history) ==>
        (ok <==> !refuses(texts, m.sql) && m.filename !in old(db).recorded)
      ensures db == if ok then Db(old(db).history + [m], old(db).recorded[m.filename := m.checksum]) else old(db)
    {
      forall texts | AreTexts(texts, db.history) ensures texts == Schema(db.history) {}
      var saved := db;
      ok := !refuses(Schema(db.history), m.sql);
      if ok {
        db := db.(history := db.history + [m]);
        if m.filename in db.recorded {
          db := saved;
          ok := false;
        } else {
          db := db.(recorded := db.recorded[m.filename := m.checksum]);
        }
      }
    }

    /** `migrate`, for a process that dies after `lives` transactions. */
    method Migrate(files: seq<Migration>, lives: nat) returns (r: Result<seq<string>>)
      modifies this
      ensures db == RunOnce(old(db), files, lives, refuses).db
      ensures r.Err? ==> RunOnce(old(db), files, lives, refuses).stopped == Some(r.error)
      ensures r.Ok? ==> RunOnce(old(db), files, lives, refuses).stopped == None
                        && r.value == Names(Pending(old(db), files))
      // a file in the table with another checksum, wherever it is in the list, stops the run
      ensures r == Err(Modified) <==>
        exists m :: m in files && m.filename in old(db).recorded && old(db).recorded[m.filename] != m.checksum
      ensures r == Err(Modified) ==> db == old(db)
      // success adds exactly the files not in the table, and then the table has them all
      ensures r.Ok? ==> Added(old(db), db, r.value)
      ensures r.Ok? ==>
        forall f :: f in r.value <==> f !in old(db).recorded && exists m :: m in files && m.filename == f
      ensures r.Ok? ==> forall m :: m in files ==> m.filename in db.recorded && db.recorded[m.filename] == m.checksum
    {
      EditedIff(db, files);
      var edited := AnyEdited(files);
      if edited { return Err(Modified); }
      ghost var was := db;
      r := ApplyPending(Pending(db, files), lives);
      LoopStops(was, Pending(was, files), lives, refuses);
      if r.Ok? { SuccessAdds(was, files, lives, refuses); }
    }

    /** The loop over the checksums. */
    method AnyEdited(files: seq<Migration>) returns (edited: bool)
      ensures edited == Edited(db, files)
    {
      var applied := db.recorded;
      for i := 0 to |files|
        invariant forall j :: 0 <= j < i && files[j].filename in applied ==>
          applied[files[j].filename] == files[j].checksum
      {
        var m := files[i];
        if m.filename in applied && applied[m.filename] != m.checksum { return true; }
      }
      return false;
    }

    /** The loop over the transactions. */
    method ApplyPending(pending: seq<Migration>, lives: nat) returns (r: Result<seq<string>>)
      modifies this
      ensures db == ApplyAll(old(db), pending, lives, refuses).db
      ensures r == match ApplyAll(old(db), pending, lives, refuses).stopped
                   case None => Ok(Names(pending))
                   case Some(why) => Err(why)
    {
      ghost var whole := ApplyAll(db, pending, lives, refuses);
      var left := lives;
      for i := 0 to |pending|
        invariant ApplyAll(db, pending[i..], left, refuses) == whole
      {
        assert pending[i..][0] == pending[i] && pending[i..][1..] == pending[i + 1..];
        if left == 0 { return Err(Crashed); }
        var ok := Transaction(pending[i]);
        if !ok { return Err(Refused); }
        left := left - 1;
      }
      return Ok(Names(pending));
    }
  }

  lemma EditedIff(db: Db, files: seq<Migration>)
    ensures Edited(db, files) <==>
      exists m :: m in files && m.filename in db.recorded && db.recorded[m.filename] != m.checksum
  {
    if m :| m in files && m.filename in db.recorded && db.recorded[m.filename] != m.checksum {
      var i :| 0 <= i < |files| && files[i] == m;
      assert files[i].filename in db.recorded;
    }
  }

  /** The loop stops only when the process dies or a transaction is refused. */
  lemma {:induction false} LoopStops(db: Db, pending: seq<Migration>, lives: nat, refuses: Refuses)
    ensures ApplyAll(db, pending, lives, refuses).stopped != Some(Modified)
    decreases |pending|
  {
    if pending != [] && lives > 0 && Accepts(db, pending[0], refuses) {
      LoopStops(Apply(db, pending[0], refuses), pending[1..], lives - 1, refuses);
    }
  }

  lemma SuccessAdds(db: Db, files: seq<Migration>, lives: nat, refuses: Refuses)
    requires !Edited(db, files) && ApplyAll(db, Pending(db, files), lives, refuses).stopped.None?
    ensures var p := Pending(db, files); var now := ApplyAll(db, p, lives, refuses).db;
            && Added(db, now, Names(p))
            && (forall f :: f in Names(p) <==> f !in db.recorded && exists m :: m in files && m.filename == f)
            && (forall m :: m in files ==> m.filename in now.recorded && now.recorded[m.filename] == m.checksum)
  {
    var p := Pending(db, files);
    ApplyAllAppends(db, p, lives, refuses);
    ApplyAllRecords(db, p, lives, refuses);
    assert (db.history + p)[..|db.history|] == db.history;
    forall f ensures f in Names(p) <==> f !in db.recorded && exists m :: m in files && m.filename == f {
      NamesOfPending(db, files, f);
    }
    forall m | m in files ensures var now := ApplyAll(db, p, lives, refuses).db;
                                  m.filename in now.recorded && now.recorded[m.filename] == m.checksum
    {
      if m.filename !in db.recorded { UnrecordedIsPending(db, files, m); }
    }
  }

  lemma NamesOfPending(db: Db, files: seq<Migration>, f: string)
    ensures f in Names(Pending(db, files)) <==> f !in db.recorded && exists m :: m in files && m.filename == f
  {
    var p := Pending(db, files);
    if f in Names(p) {
      var i :| 0 <= i < |p| && Names(p)[i] == f;
      assert p[i] in files;
    }
    if m :| m in files && m.filename == f && f !in db.recorded {
      UnrecordedIsPending(db, files, m);
      var i :| 0 <= i < |p| && p[i] == m;
      assert Names(p)[i] == f;
    }
  }

  function Names(files: seq<Migration>): seq<string> {
    seq(|files|, i requires 0 <= i < |files| => files[i].filename)
  }

  /* ---- many runs ---- */

  datatype Runner = Working(pending: seq<Migration>) | Stopped(why: Option<Failure>)

  datatype System = System(db: Db, runners: map<nat, Runner>)

  /** `Start` loads a directory and reads the table; `Commit` is one transaction;
      a crash can come between any two. */
  datatype Action = Start(r: nat, files: seq<Migration>) | Commit(r: nat) | Crash(r: nat)

  function Next(s: System, a: Action, refuses: Refuses): System {
    match a
    case Start(r, files) =>
      if r in s.runners then s
      else s.(runners := s.runners[r := if Edited(s.db, files) then Stopped(Some(Modified))
                                        else Working(Pending(s.db, files))])
    case Commit(r) =>
      if r !in s.runners || !s.runners[r].Working? then s else
      var p := s.runners[r].pending;
      if p == [] then s.(runners := s.runners[r := Stopped(None)])
      else if !Accepts(s.db, p[0], refuses) then s.(runners := s.runners[r := Stopped(Some(Refused))])
      else System(Apply(s.db, p[0], refuses), s.runners[r := Working(p[1..])])
    case Crash(r) =>
      if r in s.runners then s.(runners := s.runners[r := Stopped(Some(Crashed))]) else s
  }

  function Execute(s: System, actions: seq<Action>, refuses: Refuses): System {
    if actions == [] then s
    else Next(Execute(s, actions[..|actions| - 1], refuses), actions[|actions| - 1], refuses)
  }

  const EMPTY := System(Db([], map[]), map[])

  /** The database a list of migrations builds. */
  function Built(files: seq<Migration>): Db {
    if files == [] then Db([], map[])
    else
      var m := files[|files| - 1];
      Db(files, Built(files[..|files| - 1]).recorded[m.filename := m.checksum])
  }

  ghost predicate Distinct(files: seq<Migration>) {
    forall i, j :: 0 <= i < j < |files| ==> files[i].filename != files[j].filename
  }

  lemma {:induction false} BuiltRecords(files: seq<Migration>)
    requires Distinct(files)
    ensures Built(files).history == files
    ensures Records(files, Built(files).recorded)
  {
    if files != [] {
      var front, m := files[..|files| - 1], files[|files| - 1];
      BuiltRecords(front);
      assert files == front + [m];
      RecordsOneMore(front, m, Built(front).recorded);
    }
  }

  ghost predicate Holds(files: seq<Migration>, f: string) { exists i :: 0 <= i < |files| && files[i].filename == f }

  ghost predicate Records(files: seq<Migration>, recorded: map<string, Digest>) {
    && (forall f :: f in recorded <==> Holds(files, f))
    && (forall i :: 0 <= i < |files| ==>
          files[i].filename in recorded && recorded[files[i].filename] == files[i].checksum)
  }

  lemma HoldsOneMore(front: seq<Migration>, m: Migration, f: string)
    ensures Holds(front + [m], f) <==> Holds(front, f) || m.filename == f
  {
    var files := front + [m];
    if m.filename == f { assert files[|front|].filename == f; }
    if i :| 0 <= i < |front| && front[i].filename == f { assert files[i].filename == f; }
  }

  lemma RecordsOneMore(front: seq<Migration>, m: Migration, was: map<string, Digest>)
    requires Distinct(front + [m]) && Records(front, was)
    ensures Records(front + [m], was[m.filename := m.checksum])
  {
    var files, now := front + [m], was[m.filename := m.checksum];
    forall f ensures f in now <==> Holds(files, f) { HoldsOneMore(front, m, f); }
    forall i | 0 <= i < |files| ensures files[i].filename in now && now[files[i].filename] == files[i].checksum {
      if i < |front| { assert files[i] == front[i] && files[i].filename != files[|front|].filename; }
    }
  }

  /** Whatever the runners' directories hold: every file takes effect at most once, and
      the table says exactly which did. */
  lemma {:induction false} AtMostOnce(actions: seq<Action>, refuses: Refuses)
    ensures var db := Execute(EMPTY, actions, refuses).db; Distinct(db.history) && db == Built(db.history)
  {
    if actions != [] {
      var s := Execute(EMPTY, actions[..|actions| - 1], refuses);
      AtMostOnce(actions[..|actions| - 1], refuses);
      BuiltRecords(s.db.history);
      var n := Next(s, actions[|actions| - 1], refuses);
      if n.db != s.db { assert n.db.history[..|s.db.history|] == s.db.history; }
    }
  }

  /* ---- losing runners ---- */

  ghost predicate TakesEffect(s: System, a: Action, refuses: Refuses) {
    && a.Commit? && a.r in s.runners && s.runners[a.r].Working? && s.runners[a.r].pending != []
    && Accepts(s.db, s.runners[a.r].pending[0], refuses)
  }

  /** The actions without the commits that were refused or had nothing to do. */
  ghost function Effective(s: System, actions: seq<Action>, refuses: Refuses): seq<Action> {
    if actions == [] then []
    else
      var front, a := actions[..|actions| - 1], actions[|actions| - 1];
      Effective(s, front, refuses)
      + if a.Commit? && !TakesEffect(Execute(s, front, refuses), a, refuses) then [] else [a]
  }

  /** The same database, and the same runners as far as they are at work. */
  ghost predicate Shadows(n: System, s: System) {
    && n.db == s.db && n.runners.Keys == s.runners.Keys
    && forall r :: r in s.runners && s.runners[r].Working? ==> n.runners[r] == s.runners[r]
  }

  lemma ShadowNext(n: System, s: System, a: Action, refuses: Refuses)
    requires Shadows(n, s) && (a.Commit? ==> TakesEffect(s, a, refuses))
    ensures Shadows(Next(n, a, refuses), Next(s, a, refuses))
  {
  }

  lemma ShadowRefused(n: System, s: System, a: Action, refuses: Refuses)
    requires Shadows(n, s) && a.Commit? && !TakesEffect(s, a, refuses)
    ensures Shadows(n, Next(s, a, refuses))
  {
  }

  lemma ExecuteLast(s: System, actions: seq<Action>, a: Action, refuses: Refuses)
    ensures Execute(s, actions + [a], refuses) == Next(Execute(s, actions, refuses), a, refuses)
  {
    assert (actions + [a])[..|actions|] == actions;
  }

  lemma {:induction false} EffectiveShadows(s: System, actions: seq<Action>, refuses: Refuses)
    ensures Shadows(Execute(s, Effective(s, actions, refuses), refuses), Execute(s, actions, refuses))
    decreases |actions|
  {
    if actions != [] {
      var front, a := actions[..|actions| - 1], actions[|actions| - 1];
      var kept := Effective(s, front, refuses);
      EffectiveShadows(s, front, refuses);
      if a.Commit? && !TakesEffect(Execute(s, front, refuses), a, refuses) {
        assert Effective(s, actions, refuses) == kept;
        ShadowRefused(Execute(s, kept, refuses), Execute(s, front, refuses), a, refuses);
      } else {
        assert Effective(s, actions, refuses) == kept + [a];
        ExecuteLast(s, kept, a, refuses);
        ShadowNext(Execute(s, kept, refuses), Execute(s, front, refuses), a, refuses);
      }
    }
  }

  /** In every interleaving: leaving out the commits of runners that came second, or whose
      scripts failed, leaves the database as it is. */
  lemma LoserLeavesNoTrace(actions: seq<Action>, refuses: Refuses)
    ensures Execute(EMPTY, Effective(EMPTY, actions, refuses), refuses).db == Execute(EMPTY, actions, refuses).db
  {
    EffectiveShadows(EMPTY, actions, refuses);
  }

  /* ---- edited files ---- */

  function Without(actions: seq<Action>, r: nat): seq<Action> {
    if actions == [] then []
    else
      Without(actions[..|actions| - 1], r) + if actions[|actions| - 1].r == r then [] else [actions[|actions| - 1]]
  }

  /** As if `r` had never been there. */
  ghost predicate Absent(n: System, s: System, r: nat) {
    && n.db == s.db && r in s.runners && s.runners[r].Stopped?
    && n.runners == s.runners - {r}
  }

  lemma AbsentNext(n: System, s: System, r: nat, a: Action, refuses: Refuses)
    requires Absent(n, s, r)
    ensures Absent(if a.r == r then n else Next(n, a, refuses), Next(s, a, refuses), r)
  {
  }

  lemma {:induction false} AbsentForGood(n: System, s: System, r: nat, rest: seq<Action>, refuses: Refuses)
    requires Absent(n, s, r)
    ensures Absent(Execute(n, Without(rest, r), refuses), Execute(s, rest, refuses), r)
    decreases |rest|
  {
    if rest != [] {
      var front, a := rest[..|rest| - 1], rest[|rest| - 1];
      AbsentForGood(n, s, r, front, refuses);
      AbsentNext(Execute(n, Without(front, r), refuses), Execute(s, front, refuses), r, a, refuses);
      if a.r == r {
        assert Without(rest, r) == Without(front, r);
      } else {
        assert Without(rest, r) == Without(front, r) + [a];
        ExecuteLast(n, Without(front, r), a, refuses);
      }
    }
  }

  /** A runner that starts on a directory with a file whose checksum in the table is another
      changes nothing, then or at any later point of any interleaving: it is as if it had never
      started. */
  lemma EditedAppliesNothing(s: System, r: nat, files: seq<Migration>, m: Migration, rest: seq<Action>,
                             refuses: Refuses)
    requires r !in s.runners
    requires m in files && m.filename in s.db.recorded && s.db.recorded[m.filename] != m.checksum
    ensures Execute(Next(s, Start(r, files), refuses), rest, refuses).db == Execute(s, Without(rest, r), refuses).db
  {
    var begun := Next(s, Start(r, files), refuses);
    EditedIff(s.db, files);
    assert begun.runners - {r} == s.runners;
    AbsentForGood(s, begun, r, rest, refuses);
  }

  /** So does one that has crashed: nothing it might still do takes effect. */
  lemma CrashedAppliesNothing(s: System, r: nat, rest: seq<Action>, refuses: Refuses)
    requires r in s.runners
    ensures Execute(Next(s, Crash(r), refuses), rest, refuses).db
         == Execute(s.(runners := s.runners - {r}), Without(rest, r), refuses).db
  {
    var gone, crashed := s.(runners := s.runners - {r}), Next(s, Crash(r), refuses);
    assert crashed.runners - {r} == gone.runners;
    AbsentForGood(gone, crashed, r, rest, refuses);
  }

  /* ---- one list ---- */

  /** What a runner still means to do: a stretch of the list starting no later than the
      first file not yet in effect. */
  ghost predicate Stretch(pending: seq<Migration>, master: seq<Migration>, done: nat) {
    exists from, to :: 0 <= from <= to <= |master| && from <= done && pending == master[from..to]
  }

  ghost predicate Steady(s: System, master: seq<Migration>, refuses: Refuses) {
    && s.db.history <= master
    && s.db == Built(s.db.history)
    && (forall r :: r in s.runners && s.runners[r].Working? ==>
          Stretch(s.runners[r].pending, master, |s.db.history|))
    && (forall i :: 0 <= i < |s.db.history| ==> !refuses(Schema(master[..i]), master[i].sql))
  }

  /** What is recorded when exactly the first `done` files of the list are in effect. */
  ghost predicate RecordedUpTo(db: Db, master: seq<Migration>, done: nat) {
    forall i :: 0 <= i < |master| ==> (master[i].filename in db.recorded <==> i < done)
  }

  lemma PrefixRecords(master: seq<Migration>, done: nat)
    requires Distinct(master) && done <= |master|
    ensures RecordedUpTo(Built(master[..done]), master, done)
  {
    BuiltRecords(master[..done]);
    forall i | 0 <= i < |master| ensures master[i].filename in Built(master[..done]).recorded <==> i < done {
      if i < done { assert master[..done][i] == master[i]; }
    }
  }

  /** What is left to do of a list from a position on, when the first `done` are in effect. */
  function Remaining(files: seq<Migration>, from: nat, done: nat): seq<Migration>
    requires from <= |files|
  {
    if from >= done then files[from..] else if done <= |files| then files[done..] else []
  }

  lemma RemainingStep(files: seq<Migration>, from: nat, done: nat)
    requires from < |files|
    ensures Remaining(files, from, done)
            == (if from < done then [] else [files[from]]) + Remaining(files, from + 1, done)
  {
    assert files[from..] == [files[from]] + files[from + 1..];
  }

  lemma {:induction false} PendingIsRest(db: Db, files: seq<Migration>, from: nat, done: nat)
    requires RecordedUpTo(db, files, done) && from <= |files|
    ensures Pending(db, files[from..]) == Remaining(files, from, done)
    decreases |files| - from
  {
    if from < |files| {
      PendingFrom(db, files, from);
      PendingIsRest(db, files, from + 1, done);
      RemainingStep(files, from, done);
    }
  }

  lemma PendingFrom(db: Db, files: seq<Migration>, from: nat)
    requires from < |files|
    ensures Pending(db, files[from..])
            == (if files[from].filename in db.recorded then [] else [files[from]]) + Pending(db, files[from + 1..])
  {
    assert files[from..][1..] == files[from + 1..];
  }

  lemma PendingIsStretch(db: Db, files: seq<Migration>, master: seq<Migration>, done: nat)
    requires Distinct(master) && files <= master && done <= |master| && db == Built(master[..done])
    ensures Stretch(Pending(db, files), master, done)
  {
    PrefixRecords(master, done);
    RecordedInPart(db, files, master, done);
    PendingIsRest(db, files, 0, done);
    assert files[0..] == files;
    RestIsStretch(files, master, done);
  }

  lemma RecordedInPart(db: Db, files: seq<Migration>, master: seq<Migration>, done: nat)
    requires files <= master && RecordedUpTo(db, master, done)
    ensures RecordedUpTo(db, files, done)
  {
    forall i | 0 <= i < |files| ensures files[i].filename in db.recorded <==> i < done { assert files[i] == master[i]; }
  }

  lemma RestIsStretch(files: seq<Migration>, master: seq<Migration>, done: nat)
    requires files <= master
    ensures Stretch(if done <= |files| then files[done..] else [], master, done)
  {
    if done <= |files| {
      assert files[done..] == master[done..|files|];
    } else {
      assert [] == master[0..0];
    }
  }

  lemma StartKeepsSteady(s: System, r: nat, files: seq<Migration>, master: seq<Migration>, refuses: Refuses)
    requires Distinct(master) && Steady(s, master, refuses) && files <= master
    ensures Steady(Next(s, Start(r, files), refuses), master, refuses)
  {
    assert master[..|s.db.history|] == s.db.history;
    PendingIsStretch(s.db, files, master, |s.db.history|);
  }

  /** Only the first file not yet in effect can be accepted. */
  lemma AcceptedIsNext(s: System, p: seq<Migration>, from: nat, to: nat, master: seq<Migration>, refuses: Refuses)
    requires Distinct(master) && Steady(s, master, refuses)
    requires from < to <= |master| && from <= |s.db.history| && p == master[from..to]
    requires Accepts(s.db, p[0], refuses)
    ensures from == |s.db.history| && p[0] == master[from]
    ensures Apply(s.db, p[0], refuses) == Built(master[..from + 1])
  {
    assert master[..|s.db.history|] == s.db.history;
    PrefixRecords(master, |s.db.history|);
    assert master[..from + 1][..from] == master[..from];
  }

  lemma CommitKeepsSteady(s: System, r: nat, master: seq<Migration>, refuses: Refuses)
    requires Distinct(master) && Steady(s, master, refuses)
    ensures Steady(Next(s, Commit(r), refuses), master, refuses)
  {
    if r in s.runners && s.runners[r].Working? && s.runners[r].pending != [] {
      var p := s.runners[r].pending;
      if Accepts(s.db, p[0], refuses) {
        assert Stretch(p, master, |s.db.history|);
        var from, to :| 0 <= from <= to <= |master| && from <= |s.db.history| && p == master[from..to];
        AcceptedIsNext(s, p, from, to, master, refuses);
        assert p[1..] == master[from + 1..to];
        assert Stretch(p[1..], master, from + 1);
        AdvanceKeepsSteady(s, r, p[1..], master, refuses);
      }
    }
  }

  lemma AdvanceKeepsSteady(s: System, r: nat, rest: seq<Migration>, master: seq<Migration>, refuses: Refuses)
    requires Distinct(master) && Steady(s, master, refuses) && |s.db.history| < |master|
    requires !refuses(Schema(s.db.history), master[|s.db.history|].sql)
    requires Stretch(rest, master, |s.db.history| + 1)
    ensures Steady(System(Built(master[..|s.db.history| + 1]), s.runners[r := Working(rest)]), master, refuses)
  {
    var done := |s.db.history|;
    assert s.db.history == master[..done];
    forall q | q in s.runners && q != r && s.runners[q].Working?
      ensures Stretch(s.runners[q].pending, master, done + 1)
    {
      LaterStillFits(s.runners[q].pending, master, done);
    }
  }

  lemma LaterStillFits(pending: seq<Migration>, master: seq<Migration>, done: nat)
    requires Stretch(pending, master, done)
    ensures Stretch(pending, master, done + 1)
  {
  }

  /** When every directory is an initial part of one list, what is in effect is a prefix of it. */
  lemma {:induction false} PrefixOfOneList(actions: seq<Action>, master: seq<Migration>, refuses: Refuses)
    requires Distinct(master) && forall i :: 0 <= i < |actions| && actions[i].Start? ==> actions[i].files <= master
    ensures Steady(Execute(EMPTY, actions, refuses), master, refuses)
    decreases |actions|
  {
    if actions != [] {
      var before := actions[..|actions| - 1];
      PrefixOfOneList(before, master, refuses);
      var s := Execute(EMPTY, before, refuses);
      match actions[|actions| - 1]
      case Start(r, files) => StartKeepsSteady(s, r, files, master, refuses);
      case Commit(r) => CommitKeepsSteady(s, r, master, refuses);
      case Crash(r) =>
    }
  }

  /* ---- runs one after another ---- */

  /** One call of `migrate`: the directory it reads, and the transactions it lives for. */
  datatype Call = Call(files: seq<Migration>, lives: nat)

  function RunAll(db: Db, calls: seq<Call>, refuses: Refuses): Db {
    if calls == [] then db
    else
      var last := calls[|calls| - 1];
      RunOnce(RunAll(db, calls[..|calls| - 1], refuses), last.files, last.lives, refuses).db
  }

  /** Each directory begins with what is in effect when it is read. */
  ghost predicate OnlyGains(calls: seq<Call>, refuses: Refuses) {
    forall i :: 0 <= i < |calls| ==>
      Distinct(calls[i].files) && RunAll(EMPTY.db, calls[..i], refuses).history <= calls[i].files
  }

  /** A run over a directory that begins with what is in effect stops somewhere in it. */
  lemma {:induction false} StopsInList(files: seq<Migration>, done: nat, lives: nat, refuses: Refuses) returns (k: nat)
    requires Distinct(files) && done <= |files|
    ensures done <= k <= |files|
    ensures ApplyAll(Built(files[..done]), files[done..], lives, refuses).db == Built(files[..k])
    decreases |files| - done
  {
    var db := Built(files[..done]);
    if done == |files| || lives == 0 || !Accepts(db, files[done], refuses) {
      k := done;
    } else {
      ApplyNext(files, done, refuses);
      AppliesOne(db, files[done..], lives, refuses);
      assert files[done..][1..] == files[done + 1..];
      k := StopsInList(files, done + 1, lives - 1, refuses);
    }
  }

  lemma ApplyNext(files: seq<Migration>, done: nat, refuses: Refuses)
    requires Distinct(files) && done < |files| && Accepts(Built(files[..done]), files[done], refuses)
    ensures Apply(Built(files[..done]), files[done], refuses) == Built(files[..done + 1])
  {
    BuiltRecords(files[..done]);
    assert files[..done + 1][..done] == files[..done];
  }

  lemma RunStopsInList(db: Db, files: seq<Migration>, lives: nat, refuses: Refuses)
    requires Distinct(files) && db == Built(db.history) && db.history <= files
    ensures var now := RunOnce(db, files, lives, refuses).db;
            db.history <= now.history <= files && now == Built(now.history)
  {
    var done := |db.history|;
    assert files[..done] == db.history;
    PendingIsTail(db, files, done);
    var k := StopsInList(files, done, lives, refuses);
    BuiltHistory(files[..k]);
  }

  lemma BuiltHistory(files: seq<Migration>)
    ensures Built(files).history == files
  {
  }

  /** After any calls, each possibly dying or failing at any point, over a directory that only
      gains files after those in effect: a prefix of the directory, never in between. */
  lemma {:induction false} GrowingRuns(calls: seq<Call>, refuses: Refuses)
    requires OnlyGains(calls, refuses)
    ensures var db := RunAll(EMPTY.db, calls, refuses);
            db == Built(db.history) && (calls != [] ==> db.history <= calls[|calls| - 1].files)
    decreases |calls|
  {
    if calls != [] {
      var front := calls[..|calls| - 1];
      assert forall i :: 0 <= i < |front| ==> front[..i] == calls[..i];
      GrowingRuns(front, refuses);
      RunStopsInList(RunAll(EMPTY.db, front, refuses), calls[|calls| - 1].files, calls[|calls| - 1].lives, refuses);
    }
  }

  /* ---- the same as a fresh build ---- */

  /** The database was built by scripts that were all accepted, each file once. */
  ghost predicate Sound(db: Db, refuses: Refuses) {
    Distinct(db.history) && db == Built(db.history) && AllAccepted(db.history, refuses)
  }

  /** Every script was accepted on the schema the ones before it made. */
  ghost predicate AllAccepted(files: seq<Migration>, refuses: Refuses) {
    forall i {:trigger Schema(files[..i])} :: 0 <= i < |files| ==> !refuses(Schema(files[..i]), files[i].sql)
  }

  lemma ApplyKeepsSound(db: Db, m: Migration, refuses: Refuses)
    requires Sound(db, refuses)
    ensures Sound(Apply(db, m, refuses), refuses)
  {
    BuiltRecords(db.history);
    if Accepts(db, m, refuses) {
      var h := db.history + [m];
      assert h[..|db.history|] == db.history;
      forall i {:trigger Schema(h[..i])} | 0 <= i < |h| ensures !refuses(Schema(h[..i]), h[i].sql) {
        assert h[..i] == db.history[..i];
        assert i < |db.history| ==> !refuses(Schema(db.history[..i]), db.history[i].sql);
      }
    }
  }

  /** What every accepted transaction keeps, the loop keeps. */
  lemma {:induction false} ApplyAllKeeps(inv: Db -> bool, db: Db, pending: seq<Migration>, lives: nat, refuses: Refuses)
    requires inv(db) && forall d, m {:trigger Apply(d, m, refuses)} :: inv(d) ==> inv(Apply(d, m, refuses))
    ensures inv(ApplyAll(db, pending, lives, refuses).db)
    decreases |pending|
  {
    if pending != [] && lives > 0 && Accepts(db, pending[0], refuses) {
      ApplyAllKeeps(inv, Apply(db, pending[0], refuses), pending[1..], lives - 1, refuses);
    }
  }

  lemma ApplyAllKeepsSound(db: Db, pending: seq<Migration>, lives: nat, refuses: Refuses)
    requires Sound(db, refuses)
    ensures Sound(ApplyAll(db, pending, lives, refuses).db, refuses)
  {
    forall d, m {:trigger Apply(d, m, refuses)} | Sound(d, refuses) ensures Sound(Apply(d, m, refuses), refuses) {
      ApplyKeepsSound(d, m, refuses);
    }
    ApplyAllKeeps(d => Sound(d, refuses), db, pending, lives, refuses);
  }

  lemma {:induction false} RunsAreSound(calls: seq<Call>, refuses: Refuses)
    ensures Sound(RunAll(EMPTY.db, calls, refuses), refuses)
    decreases |calls|
  {
    if calls != [] {
      var db := RunAll(EMPTY.db, calls[..|calls| - 1], refuses);
      RunsAreSound(calls[..|calls| - 1], refuses);
      ApplyAllKeepsSound(db, Pending(db, calls[|calls| - 1].files), calls[|calls| - 1].lives, refuses);
    }
  }

  lemma {:induction false} ExecutionsAreSound(actions: seq<Action>, refuses: Refuses)
    ensures Sound(Execute(EMPTY, actions, refuses).db, refuses)
    decreases |actions|
  {
    if actions != [] {
      var s, a := Execute(EMPTY, actions[..|actions| - 1], refuses), actions[|actions| - 1];
      ExecutionsAreSound(actions[..|actions| - 1], refuses);
      if TakesEffect(s, a, refuses) { ApplyKeepsSound(s.db, s.runners[a.r].pending[0], refuses); }
    }
  }

  lemma FreshStep(files: seq<Migration>, done: nat, refuses: Refuses)
    requires Distinct(files) && done < |files| && AllAccepted(files, refuses)
    ensures Accepts(Built(files[..done]), files[done], refuses)
    ensures Apply(Built(files[..done]), files[done], refuses) == Built(files[..done + 1])
  {
    NotYetBuilt(files, done);
    BuiltMore(files, done);
    assert !refuses(Schema(files[..done]), files[done].sql);
  }

  lemma NotYetBuilt(files: seq<Migration>, done: nat)
    requires Distinct(files) && done < |files|
    ensures files[done].filename !in Built(files[..done]).recorded
  {
    BuiltRecords(files[..done]);
  }

  lemma BuiltMore(files: seq<Migration>, done: nat)
    requires done < |files|
    ensures Built(files[..done]).history == files[..done]
    ensures Built(files[..done + 1]) ==
      Db(files[..done] + [files[done]], Built(files[..done]).recorded[files[done].filename := files[done].checksum])
  {
    assert files[..done + 1][..done] == files[..done];
  }

  lemma AppliesOne(db: Db, pending: seq<Migration>, lives: nat, refuses: Refuses)
    requires pending != [] && lives > 0 && Accepts(db, pending[0], refuses)
    ensures ApplyAll(db, pending, lives, refuses)
         == ApplyAll(Apply(db, pending[0], refuses), pending[1..], lives - 1, refuses)
  {
  }

  lemma {:induction false} FreshRun(files: seq<Migration>, done: nat, lives: nat, refuses: Refuses)
    requires Distinct(files) && done <= |files| <= lives + done && AllAccepted(files, refuses)
    ensures ApplyAll(Built(files[..done]), files[done..], lives, refuses) == Run(Built(files), None)
    decreases |files| - done
  {
    if done == |files| {
      assert files[..done] == files;
    } else {
      FreshStep(files, done, refuses);
      AppliesFirst(Built(files[..done]), Built(files[..done + 1]), files, done, lives, refuses);
      FreshRun(files, done + 1, lives - 1, refuses);
    }
  }

  lemma AppliesFirst(db: Db, next: Db, files: seq<Migration>, done: nat, lives: nat, refuses: Refuses)
    requires done < |files| && lives > 0 && Accepts(db, files[done], refuses) && next == Apply(db, files[done], refuses)
    ensures ApplyAll(db, files[done..], lives, refuses) == ApplyAll(next, files[done + 1..], lives - 1, refuses)
  {
    AppliesOne(db, files[done..], lives, refuses);
    assert files[done..][1..] == files[done + 1..];
  }

  lemma SoundIsFresh(db: Db, refuses: Refuses)
    requires Sound(db, refuses)
    ensures RunOnce(EMPTY.db, db.history, |db.history|, refuses) == Run(db, None)
  {
    FreshRun(db.history, 0, |db.history|, refuses);
    PendingIsRest(EMPTY.db, db.history, 0, 0);
    assert db.history[0..] == db.history && db.history[..0] == [];
  }

  /** After any calls, or any interleaving of any runners over any directories: the database
      equals the one a single clean run over the files in effect builds from nothing. */
  lemma SameAsFreshBuild(actions: seq<Action>, calls: seq<Call>, refuses: Refuses)
    ensures var db := Execute(EMPTY, actions, refuses).db;
            RunOnce(EMPTY.db, db.history, |db.history|, refuses) == Run(db, None)
    ensures var db := RunAll(EMPTY.db, calls, refuses);
            RunOnce(EMPTY.db, db.history, |db.history|, refuses) == Run(db, None)
  {
    ExecutionsAreSound(actions, refuses);
    SoundIsFresh(Execute(EMPTY, actions, refuses).db, refuses);
    RunsAreSound(calls, refuses);
    SoundIsFresh(RunAll(EMPTY.db, calls, refuses), refuses);
  }

  /** `n` transactions of one runner, with nobody in between. */
  function Commits(r: nat, n: nat): seq<Action> { seq(n, i => Commit(r)) }

  lemma {:induction false} ExecuteFirst(s: System, a: Action, rest: seq<Action>, refuses: Refuses)
    ensures Execute(s, [a] + rest, refuses) == Execute(Next(s, a, refuses), rest, refuses)
  {
    if rest == [] {
      assert [a] + rest == [a];
      assert Execute(s, [a][..0], refuses) == s;
    } else {
      assert ([a] + rest)[..|rest|] == [a] + rest[..|rest| - 1];
      ExecuteFirst(s, a, rest[..|rest| - 1], refuses);
    }
  }

  lemma {:induction false} StoppedStays(s: System, r: nat, n: nat, refuses: Refuses)
    requires r in s.runners && s.runners[r].Stopped?
    ensures Execute(s, Commits(r, n), refuses) == s
  {
    if n > 0 {
      assert Commits(r, n)[..n - 1] == Commits(r, n - 1);
      StoppedStays(s, r, n - 1, refuses);
    }
  }

  lemma {:induction false} CommitsAreTheLoop(s: System, r: nat, n: nat, refuses: Refuses)
    requires r in s.runners && s.runners[r].Working?
    ensures Execute(s, Commits(r, n), refuses).db == ApplyAll(s.db, s.runners[r].pending, n, refuses).db
    decreases n
  {
    if n > 0 {
      var next := Next(s, Commit(r), refuses);
      assert Commits(r, n) == [Commit(r)] + Commits(r, n - 1);
      ExecuteFirst(s, Commit(r), Commits(r, n - 1), refuses);
      if next.runners[r].Stopped? {
        StoppedStays(next, r, n - 1, refuses);
      } else {
        CommitsAreTheLoop(next, r, n - 1, refuses);
      }
    }
  }

  /** One undisturbed call of `migrate` is an execution of the system, so everything
      proved of executions holds of any sequence of such calls. */
  lemma RunOnceIsAnExecution(s: System, r: nat, files: seq<Migration>, lives: nat, refuses: Refuses)
    requires r !in s.runners
    ensures Execute(s, [Start(r, files)] + Commits(r, lives), refuses).db == RunOnce(s.db, files, lives, refuses).db
  {
    var begun := Next(s, Start(r, files), refuses);
    ExecuteFirst(s, Start(r, files), Commits(r, lives), refuses);
    if begun.runners[r].Stopped? {
      StoppedStays(begun, r, lives, refuses);
    } else {
      CommitsAreTheLoop(begun, r, lives, refuses);
    }
  }

  /* ---- guards ---- */

  lemma {:induction false} ApplyAllRecords(db: Db, pending: seq<Migration>, lives: nat, refuses: Refuses)
    ensures var r := ApplyAll(db, pending, lives, refuses);
            && (forall f :: f in db.recorded ==> f in r.db.recorded && r.db.recorded[f] == db.recorded[f])
            && (r.stopped.None? ==>
                  forall m :: m in pending ==> m.filename in r.db.recorded && r.db.recorded[m.filename] == m.checksum)
    decreases |pending|
  {
    if pending != [] && lives > 0 && Accepts(db, pending[0], refuses) {
      ApplyAllRecords(Apply(db, pending[0], refuses), pending[1..], lives - 1, refuses);
    }
  }

  lemma {:induction false} NothingPending(db: Db, files: seq<Migration>)
    requires forall m :: m in files ==> m.filename in db.recorded
    ensures Pending(db, files) == []
  {
    if files != [] { NothingPending(db, files[1..]); }
  }

  lemma {:induction false} UnrecordedIsPending(db: Db, files: seq<Migration>, m: Migration)
    requires m in files && m.filename !in db.recorded
    ensures m in Pending(db, files)
  {
    if m != files[0] { UnrecordedIsPending(db, files[1..], m); }
  }

  /** A successful run followed by another applies nothing, from any database. */
  lemma SecondRunIsIdle(db: Db, files: seq<Migration>, lives: nat, lives': nat, refuses: Refuses)
    requires RunOnce(db, files, lives, refuses).stopped.None?
    ensures var once := RunOnce(db, files, lives, refuses).db;
            RunOnce(once, files, lives', refuses) == Run(once, None)
  {
    var once := RunOnce(db, files, lives, refuses).db;
    ApplyAllRecords(db, Pending(db, files), lives, refuses);
    forall m | m in files ensures m.filename in once.recorded && once.recorded[m.filename] == m.checksum {
      if m.filename !in db.recorded { UnrecordedIsPending(db, files, m); }
    }
    NothingPending(once, files);
  }

  /* ---- directories that are not append-only ---- */

  lemma {:induction false} ApplyAllAppends(db: Db, pending: seq<Migration>, lives: nat, refuses: Refuses)
    requires ApplyAll(db, pending, lives, refuses).stopped.None?
    ensures ApplyAll(db, pending, lives, refuses).db.history == db.history + pending
    decreases |pending|
  {
    if pending != [] {
      ApplyAllAppends(Apply(db, pending[0], refuses), pending[1..], lives - 1, refuses);
    }
  }

  lemma PendingIsTail(db: Db, files: seq<Migration>, done: nat)
    requires Distinct(files) && done <= |files| && db == Built(files[..done])
    ensures Pending(db, files) == files[done..]
  {
    PrefixRecords(files, done);
    PendingIsFrom(db, files, done);
  }

  lemma PendingIsFrom(db: Db, files: seq<Migration>, done: nat)
    requires RecordedUpTo(db, files, done) && done <= |files|
    ensures Pending(db, files) == files[done..]
  {
    assert files[0..] == files;
    PendingIsRest(db, files, 0, done);
  }

  /** A successful run over a database that holds some of the files ends with them all
      in the list's order exactly when what was applied before is where the list begins. */
  lemma InOrderIff(db: Db, files: seq<Migration>, lives: nat, refuses: Refuses)
    requires Distinct(files) && Distinct(db.history) && db == Built(db.history)
    requires forall m :: m in db.history ==> m in files
    requires RunOnce(db, files, lives, refuses).stopped.None?
    ensures RunOnce(db, files, lives, refuses).db.history == files <==> db.history <= files
  {
    ApplyAllAppends(db, Pending(db, files), lives, refuses);
    if db.history <= files { HistoryAndTail(db, files, db.history); }
  }

  lemma HistoryAndTail(db: Db, files: seq<Migration>, history: seq<Migration>)
    requires Distinct(files) && history <= files && db == Built(history)
    ensures history + Pending(db, files) == files
  {
    var done := |history|;
    assert files[..done] == history;
    PendingIsTail(db, files, done);
    assert files[..done] + files[done..] == files;
  }
}
