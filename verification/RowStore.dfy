/** The row-level commit contract of BEGIN CONCURRENT: a transaction collects its row writes
    privately; COMMIT compares the stamp of every written row with the transaction's begin epoch
    and then either installs all the writes as one new version or installs nothing. */
module RowStore {

  /** versions[e] is the committed store after e commits; stamps[k] is the epoch of the last commit
      that wrote row k (0, or absent, for a row never written since the start). */
  datatype Db<K, V> = Db(versions: seq<map<K, V>>, stamps: map<K, nat>)

  /** The rows written so far by an open transaction, and the epoch at which it began. */
  datatype Txn<K, V> = Txn(begin: nat, writes: map<K, V>)

  ghost predicate Same<K, V>(a: map<K, V>, b: map<K, V>, k: K) {
    (k in a <==> k in b) && (k in a ==> a[k] == b[k])
  }

  function Epoch<K, V>(db: Db<K, V>): int { |db.versions| - 1 }

  function Stamp<K, V>(db: Db<K, V>, k: K): nat { if k in db.stamps then db.stamps[k] else 0 }

  function Latest<K, V>(db: Db<K, V>): map<K, V>
    requires |db.versions| > 0
  {
    db.versions[|db.versions| - 1]
  }

  /** A row has the same value in every version from its stamp on. */
  ghost predicate Valid<K(!new), V>(db: Db<K, V>) {
    && |db.versions| > 0
    && (forall k :: Stamp(db, k) <= Epoch(db))
    && (forall k, e :: Stamp(db, k) <= e < |db.versions| ==> Same(db.versions[e], Latest(db), k))
  }

  function Start<K, V>(init: map<K, V>): Db<K, V> { Db([init], map[]) }

  /** What a statement of t sees of row k when the row is served at version e: its own write first. */
  function View<K, V>(db: Db<K, V>, t: Txn<K, V>, e: nat): map<K, V>
    requires e < |db.versions|
  {
    db.versions[e] + t.writes
  }

  /** A transaction reads its own writes, and every other row from the version that serves it. */
  lemma ReadsOwnWrites<K, V>(db: Db<K, V>, t: Txn<K, V>, e: nat, k: K)
    requires e < |db.versions|
    ensures k in View(db, t, e) <==> k in t.writes || k in db.versions[e]
    ensures k in View(db, t, e) ==> View(db, t, e)[k] == if k in t.writes then t.writes[k] else db.versions[e][k]
  {
  }

  /** First committer wins, row by row. */
  predicate Validates<K, V>(db: Db<K, V>, t: Txn<K, V>) {
    forall k :: k in t.writes ==> Stamp(db, k) <= t.begin
  }

  function Commit<K, V>(db: Db<K, V>, t: Txn<K, V>): Db<K, V>
    requires |db.versions| > 0
  {
    Db(db.versions + [Latest(db) + t.writes],
       map k | k in db.stamps.Keys + t.writes.Keys :: if k in t.writes then |db.versions| else db.stamps[k])
  }

  lemma StartValid<K(!new), V>(init: map<K, V>)
    ensures Valid(Start(init))
  {
  }

  lemma CommitKeepsValid<K(!new), V>(db: Db<K, V>, t: Txn<K, V>)
    requires Valid(db)
    ensures Valid(Commit(db, t))
  {
    var d := Commit(db, t);
    forall k ensures Stamp(d, k) <= Epoch(d) {
      assert Stamp(db, k) <= Epoch(db);
    }
    forall k, e | Stamp(d, k) <= e < |d.versions| ensures Same(d.versions[e], Latest(d), k) {
      if k in t.writes {
      } else {
        assert Stamp(d, k) == Stamp(db, k);
        if e < |db.versions| {
          assert Same(db.versions[e], Latest(db), k);
        }
      }
    }
  }

  /** Nothing committed is ever taken back: the old versions stay as they were. */
  lemma CommitKeepsVersions<K, V>(db: Db<K, V>, t: Txn<K, V>)
    requires |db.versions| > 0
    ensures db.versions <= Commit(db, t).versions
    ensures Latest(Commit(db, t)) == Latest(db) + t.writes
  {
  }

  /** The point of validation: what a validated transaction read of a row it writes, at any version
      served since it began, is what the store holds at the moment of commit. */
  lemma ReadsAreCurrent<K(!new), V>(db: Db<K, V>, t: Txn<K, V>, k: K, e: nat)
    requires Valid(db) && Validates(db, t) && k in t.writes && t.begin <= e < |db.versions|
    ensures Same(db.versions[e], Latest(db), k)
  {
  }
}
