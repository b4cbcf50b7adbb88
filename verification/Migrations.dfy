/** Versioned database migrations, each in a transaction of its own, and what is
    left of them when the process stops in between. */
module Migrations {
  import opened Sorting

  datatype Migration = Migration(version: int, query: string)

  /** How one migration's transaction ends. A process that stops before the
      commit leaves the database as it was; that looks like any other failure. */
  datatype Fate = Commits | BeginFails | QueryFails | VersionFails | CommitFails

  predicate ByVersion(a: Migration, b: Migration) {
    a.version <= b.version
  }

  /** The migrations that a run attempts: those above the version it found. */
  function Pending(migrations: seq<Migration>, version: int): seq<Migration> {
    if migrations == [] then []
    else if migrations[0].version <= version then Pending(migrations[1..], version)
    else [migrations[0]] + Pending(migrations[1..], version)
  }

  /** The database: its user_version and the queries applied to it, in order. */
  datatype Database = Database(version: int, applied: seq<Migration>)

  function Commit(db: Database, m: Migration): Database {
    Database(m.version, db.applied + [m])
  }

  /** Commits all of the migrations. */
  function CommitAll(db: Database, migrations: seq<Migration>): Database
    decreases |migrations|
  {
    if migrations == [] then db else CommitAll(Commit(db, migrations[0]), migrations[1..])
  }

  class Store {
    var version: int
    var applied: seq<Migration>

    function Contents(): Database
      reads this
    {
      Database(version, applied)
    }

    constructor (version: int, applied: seq<Migration>)
      ensures Contents() == Database(version, applied)
    {
      this.version, this.applied := version, applied;
    }

    /** Applies, in the order of their versions, the migrations above the version
        found at the start, up to the first that does not commit. fates says how
        the k-th migration of the sorted list ends. The order is some order that
        sorts by version. So many of the pending migrations are applied as commit
        one after the other, and the run succeeds exactly if all of them do. */
    method ApplyMigrations(files: seq<Migration>, fates: nat -> Fate)
      returns (ok: bool, migrations: seq<Migration>, done: nat)
      modifies this
      ensures SortedBy(migrations, ByVersion) && multiset(migrations) == multiset(files)
      ensures var pending := Pending(migrations, old(version));
              && done <= |pending|
              && Contents() == CommitAll(old(Contents()), pending[..done])
              && (ok <==> done == |pending|)
      ensures Contents() == RunUntil(old(Contents()), migrations, done)
      ensures var first := NotAbove(migrations, old(version));
              && (forall i :: first <= i < first + done ==> fates(i) == Commits)
              && (first + done < |migrations| ==> fates(first + done) != Commits)
              && (ok <==> forall i :: first <= i < |migrations| ==> fates(i) == Commits)
    {
      hide Pending, NotAbove, CommitAll, SortedBy;
      var found := version;
      migrations := SortSlice(files, ByVersion);
      done := 0;
      ok := true;
      ghost var pending, first := Pending(migrations, found), NotAbove(migrations, found);
      PendingIs(migrations, found);
      CommitNothing(old(Contents()), pending);
      for k := 0 to |migrations|
        invariant done == (if k <= first then 0 else k - first) && pending == migrations[first..]
        invariant forall i :: 0 <= i < first ==> migrations[i].version <= found
        invariant forall i :: first <= i < |migrations| ==> migrations[i].version > found
        invariant forall i :: first <= i < first + done ==> fates(i) == Commits
        invariant Contents() == CommitAll(old(Contents()), pending[..done])
      {
        var migration := migrations[k];
        if migration.version <= found {
          continue;
        }
        if fates(k) != Commits {
          return false, migrations, done;
        }
        version := migration.version;
        applied := applied + [migration];
        CommitNext(old(Contents()), pending, done);
        done := done + 1;
      }
    }
  }

  lemma {:induction false} CommitAllConcat(db: Database, a: seq<Migration>, b: seq<Migration>)
    ensures CommitAll(db, a + b) == CommitAll(CommitAll(db, a), b)
    decreases |a|
  {
    if a == [] {
      assert a + b == b;
    } else {
      assert (a + b)[1..] == a[1..] + b;
      CommitAllConcat(Commit(db, a[0]), a[1..], b);
    }
  }

  lemma CommitNothing(db: Database, pending: seq<Migration>)
    ensures CommitAll(db, pending[..0]) == db
  {
  }

  lemma CommitNext(db: Database, pending: seq<Migration>, k: nat)
    requires k < |pending|
    ensures CommitAll(db, pending[..k + 1]) == Commit(CommitAll(db, pending[..k]), pending[k])
  {
    assert pending[..k + 1] == pending[..k] + [pending[k]];
    CommitAllConcat(db, pending[..k], [pending[k]]);
    assert [pending[k]][1..] == [];
  }

  lemma {:induction false} CommitAllIs(db: Database, migrations: seq<Migration>)
    ensures CommitAll(db, migrations).applied == db.applied + migrations
    ensures CommitAll(db, migrations).version ==
            if migrations == [] then db.version else migrations[|migrations| - 1].version
    decreases |migrations|
  {
    if migrations != [] {
      CommitAllIs(Commit(db, migrations[0]), migrations[1..]);
      assert migrations == [migrations[0]] + migrations[1..];
    }
  }

  // ---------- stopping and starting again ----------

  /** A run that stops after so many commits. */
  function RunUntil(db: Database, migrations: seq<Migration>, commits: nat): Database {
    var pending := Pending(migrations, db.version);
    CommitAll(db, if commits <= |pending| then pending[..commits] else pending)
  }

  /** A run to the end. */
  function RunToEnd(db: Database, migrations: seq<Migration>): Database {
    CommitAll(db, Pending(migrations, db.version))
  }

  /** Runs that stop after so many commits each, one after the other. */
  function Runs(db: Database, migrations: seq<Migration>, stops: seq<nat>): Database {
    if stops == [] then db
    else RunUntil(Runs(db, migrations, stops[..|stops| - 1]), migrations, stops[|stops| - 1])
  }

  ghost predicate DistinctVersions(migrations: seq<Migration>) {
    forall i, j :: 0 <= i < j < |migrations| ==> migrations[i].version != migrations[j].version
  }

  /** How many migrations of a sorted list are not above the version. */
  function NotAbove(migrations: seq<Migration>, version: int): (k: nat)
    ensures k <= |migrations|
  {
    if migrations == [] || migrations[0].version > version then 0 else 1 + NotAbove(migrations[1..], version)
  }

  lemma {:induction false} PendingIs(migrations: seq<Migration>, version: int)
    requires SortedBy(migrations, ByVersion)
    ensures var k := NotAbove(migrations, version);
            && Pending(migrations, version) == migrations[k..]
            && (forall i :: 0 <= i < k ==> migrations[i].version <= version)
            && (forall i :: k <= i < |migrations| ==> migrations[i].version > version)
  {
    if migrations == [] {
    } else if migrations[0].version <= version {
      PendingIs(migrations[1..], version);
      var k := NotAbove(migrations[1..], version);
      assert migrations[1..][k..] == migrations[k + 1..];
      assert forall i :: 0 < i < |migrations| ==> migrations[i] == migrations[1..][i - 1];
    } else {
      forall i | 0 <= i < |migrations| ensures migrations[i].version > version {
        assert i > 0 ==> ByVersion(migrations[0], migrations[i]);
      }
      AllPending(migrations, version);
    }
  }

  lemma {:induction false} AllPending(migrations: seq<Migration>, version: int)
    requires forall i :: 0 <= i < |migrations| ==> migrations[i].version > version
    ensures Pending(migrations, version) == migrations
  {
    if migrations != [] { AllPending(migrations[1..], version); }
  }

  /** The split of a sorted list at a version is where the versions say. */
  lemma {:induction false} SplitAt(migrations: seq<Migration>, version: int, k: nat)
    requires k <= |migrations|
    requires forall i :: 0 <= i < k ==> migrations[i].version <= version
    requires forall i :: k <= i < |migrations| ==> migrations[i].version > version
    ensures Pending(migrations, version) == migrations[k..]
  {
    if k == 0 {
      AllPending(migrations, version);
    } else {
      SplitAt(migrations[1..], version, k - 1);
    }
  }

  /** db is reached from start after c of the pending migrations, and the others
      are still pending. */
  ghost predicate Reached(start: Database, db: Database, migrations: seq<Migration>, c: nat) {
    var pending := Pending(migrations, start.version);
    && c <= |pending|
    && db == CommitAll(start, pending[..c])
    && Pending(migrations, db.version) == pending[c..]
  }

  /** After the c-th pending migration, the rest is still pending. */
  lemma PendingAfter(migrations: seq<Migration>, version: int, c: nat)
    requires SortedBy(migrations, ByVersion) && DistinctVersions(Pending(migrations, version))
    requires 0 < c <= |Pending(migrations, version)|
    ensures Pending(migrations, Pending(migrations, version)[c - 1].version) == Pending(migrations, version)[c..]
  {
    var pending, k := Pending(migrations, version), NotAbove(migrations, version);
    PendingIs(migrations, version);
    var v := pending[c - 1].version;
    forall i | 0 <= i < k + c ensures migrations[i].version <= v {
      assert i < k + c - 1 ==> ByVersion(migrations[i], migrations[k + c - 1]);
    }
    forall i | k + c <= i < |migrations| ensures migrations[i].version > v {
      assert ByVersion(migrations[k + c - 1], migrations[i]);
      assert pending[c - 1] == migrations[k + c - 1] && pending[i - k] == migrations[i];
    }
    SplitAt(migrations, v, k + c);
    assert migrations[k..][c..] == migrations[k + c..];
  }

  lemma ReachedAfter(start: Database, migrations: seq<Migration>, c: nat)
    requires SortedBy(migrations, ByVersion) && DistinctVersions(Pending(migrations, start.version))
    requires c <= |Pending(migrations, start.version)|
    ensures Reached(start, CommitAll(start, Pending(migrations, start.version)[..c]), migrations, c)
  {
    hide SortedBy, Pending, DistinctVersions;
    var pending := Pending(migrations, start.version);
    CommitAllIs(start, pending[..c]);
    if c > 0 {
      PendingAfter(migrations, start.version, c);
    }
  }

  lemma {:induction false} RunsReach(start: Database, migrations: seq<Migration>, stops: seq<nat>) returns (c: nat)
    requires SortedBy(migrations, ByVersion) && DistinctVersions(Pending(migrations, start.version))
    ensures Reached(start, Runs(start, migrations, stops), migrations, c)
  {
    hide SortedBy, Pending, DistinctVersions, CommitAll;
    var pending := Pending(migrations, start.version);
    c := 0;
    if stops == [] {
      ReachedAtStart(start, migrations);
    } else {
      var b := RunsReach(start, migrations, stops[..|stops| - 1]);
      var db, stop := Runs(start, migrations, stops[..|stops| - 1]), stops[|stops| - 1];
      c := if stop <= |pending| - b then b + stop else |pending|;
      assert pending[b..][..|pending| - b] == pending[b..];
      assert RunUntil(db, migrations, stop) == CommitAll(db, pending[b..][..c - b]);
      assert pending[..c] == pending[..b] + pending[b..][..c - b];
      CommitAllConcat(start, pending[..b], pending[b..][..c - b]);
      ReachedAfter(start, migrations, c);
    }
  }

  lemma ReachedAtStart(start: Database, migrations: seq<Migration>)
    ensures Reached(start, start, migrations, 0)
  {
  }

  /** Wherever the runs so far have stopped, the version in the database says
      exactly which of the pending migrations are applied: those not above it,
      each once, in the order of their versions. */
  lemma VersionTellsWhatIsApplied(start: Database, migrations: seq<Migration>, stops: seq<nat>) returns (c: nat)
    requires SortedBy(migrations, ByVersion) && DistinctVersions(Pending(migrations, start.version))
    ensures Reached(start, Runs(start, migrations, stops), migrations, c)
    ensures var pending := Pending(migrations, start.version); var db := Runs(start, migrations, stops);
            && db.applied == start.applied + pending[..c]
            && (forall i :: 0 <= i < |pending| ==> (i < c <==> pending[i].version <= db.version))
  {
    hide SortedBy, Pending, DistinctVersions, Runs;
    c := RunsReach(start, migrations, stops);
    CommitAllIs(start, Pending(migrations, start.version)[..c]);
    PendingSplit(start, migrations, Runs(start, migrations, stops).version, c);
  }

  lemma PendingSplit(start: Database, migrations: seq<Migration>, version: int, c: nat)
    requires SortedBy(migrations, ByVersion) && c <= |Pending(migrations, start.version)|
    requires Pending(migrations, version) == Pending(migrations, start.version)[c..]
    ensures var pending := Pending(migrations, start.version);
            forall i :: 0 <= i < |pending| ==> (i < c <==> pending[i].version <= version)
  {
    var pending := Pending(migrations, start.version);
    PendingIs(migrations, start.version);
    PendingIs(migrations, version);
    var k, j := NotAbove(migrations, start.version), NotAbove(migrations, version);
    assert |migrations| - j == |pending| - c;
    assert j == k + c;
    forall i | 0 <= i < |pending| ensures i < c <==> pending[i].version <= version {
      assert pending[i] == migrations[k + i];
    }
  }

  /** Finishing after any series of stops gives the uninterrupted result. */
  ghost predicate CrashSafe(start: Database, migrations: seq<Migration>) {
    forall stops :: RunToEnd(Runs(start, migrations, stops), migrations) == RunToEnd(start, migrations)
  }

  lemma DistinctIsSafe(start: Database, migrations: seq<Migration>, stops: seq<nat>)
    requires SortedBy(migrations, ByVersion) && DistinctVersions(Pending(migrations, start.version))
    ensures RunToEnd(Runs(start, migrations, stops), migrations) == RunToEnd(start, migrations)
  {
    var pending := Pending(migrations, start.version);
    var c := VersionTellsWhatIsApplied(start, migrations, stops);
    CommitAllConcat(start, pending[..c], pending[c..]);
    assert pending[..c] + pending[c..] == pending;
  }

  /** Stopping between two migrations of one version loses the second. */
  lemma SharedVersionIsLost(start: Database, migrations: seq<Migration>, i: nat, j: nat)
    requires SortedBy(migrations, ByVersion)
    requires i < j < |Pending(migrations, start.version)|
    requires Pending(migrations, start.version)[i].version == Pending(migrations, start.version)[j].version
    ensures RunToEnd(Runs(start, migrations, [i + 1]), migrations) != RunToEnd(start, migrations)
  {
    var pending := Pending(migrations, start.version);
    assert [i + 1][..0] == [];
    var db := RunUntil(start, migrations, i + 1);
    assert db == Runs(start, migrations, [i + 1]);
    CommitAllIs(start, pending[..i + 1]);
    assert pending[..i + 1][i] == pending[i];
    FewerPending(start, migrations, db.version, i, j);
    CommitAllIs(db, Pending(migrations, db.version));
    CommitAllIs(start, pending);
    assert |RunToEnd(db, migrations).applied| < |RunToEnd(start, migrations).applied|;
  }

  lemma FewerPending(start: Database, migrations: seq<Migration>, version: int, i: nat, j: nat)
    requires SortedBy(migrations, ByVersion)
    requires i < j < |Pending(migrations, start.version)|
    requires Pending(migrations, start.version)[i].version == Pending(migrations, start.version)[j].version == version
    ensures |Pending(migrations, version)| < |Pending(migrations, start.version)| - (i + 1)
  {
    PendingIs(migrations, start.version);
    PendingIs(migrations, version);
    var k := NotAbove(migrations, start.version);
    assert migrations[k + j] == Pending(migrations, start.version)[j];
  }

  /** Stopping anywhere and starting again gives the same database as never
      stopping, exactly when no two pending migrations share a version. */
  lemma CrashSafeIffDistinct(start: Database, migrations: seq<Migration>)
    requires SortedBy(migrations, ByVersion)
    ensures CrashSafe(start, migrations) <==> DistinctVersions(Pending(migrations, start.version))
  {
    var pending := Pending(migrations, start.version);
    if DistinctVersions(pending) {
      forall stops ensures RunToEnd(Runs(start, migrations, stops), migrations) == RunToEnd(start, migrations) {
        DistinctIsSafe(start, migrations, stops);
      }
    } else {
      var i, j :| 0 <= i < j < |pending| && pending[i].version == pending[j].version;
      SharedVersionIsLost(start, migrations, i, j);
    }
  }

  /** A further run after a complete one changes nothing, and needs nothing. */
  lemma SecondRunIsIdle(start: Database, migrations: seq<Migration>, commits: nat)
    requires SortedBy(migrations, ByVersion)
    ensures RunUntil(RunToEnd(start, migrations), migrations, commits) == RunToEnd(start, migrations)
  {
    var db := RunToEnd(start, migrations);
    NothingPending(start, migrations);
    assert CommitAll(db, []) == db;
  }

  lemma NothingPending(start: Database, migrations: seq<Migration>)
    requires SortedBy(migrations, ByVersion)
    ensures Pending(migrations, RunToEnd(start, migrations).version) == []
  {
    var pending, last := Pending(migrations, start.version), |migrations| - 1;
    PendingIs(migrations, start.version);
    CommitAllIs(start, pending);
    var version := RunToEnd(start, migrations).version;
    forall i | 0 <= i < |migrations| ensures migrations[i].version <= version {
      assert i < last ==> ByVersion(migrations[i], migrations[last]);
      assert pending != [] ==> pending[|pending| - 1] == migrations[last];
    }
    SplitAt(migrations, version, |migrations|);
  }
}
