/** What a listing of the ledger shows: the newest rows, and how the counts of connection_status relate to it. */
module Listings {
  import opened Base
  import opened Tables
  import opened Posts
  import S = Store

  function CreatedAt(db: Db, tenantId: string, urn: string): int {
    if (tenantId, urn) in db.posts then db.posts[(tenantId, urn)].createdAt else 0
  }

  /** Two answers to the same question, whatever their limits, show the same creation time at every position they share:
      only the order of posts created in the same second is open, and a longer listing continues a shorter one. */
  lemma ListingsShowSameTimes(db: Db, tenantId: string, all: bool, m: int, n: int, a: seq<string>, b: seq<string>,
                              i: nat)
    requires IsListing(db, tenantId, all, m, a) && IsListing(db, tenantId, all, n, b) && i < |a| && i < |b|
    ensures CreatedAt(db, tenantId, a[i]) == CreatedAt(db, tenantId, b[i])
  {
    NotOlder(db, tenantId, all, m, n, a, b, i);
    NotOlder(db, tenantId, all, n, m, b, a, i);
  }

  lemma NotOlder(db: Db, tenantId: string, all: bool, m: int, n: int, a: seq<string>, b: seq<string>, i: nat)
    requires IsListing(db, tenantId, all, m, a) && IsListing(db, tenantId, all, n, b) && i < |a| && i < |b|
    ensures CreatedAt(db, tenantId, a[i]) <= CreatedAt(db, tenantId, b[i])
  {
    var j := FirstNotAmong(a, b, i);
    assert CreatedAt(db, tenantId, a[i]) <= CreatedAt(db, tenantId, a[j]);
    if l :| 0 <= l < |b| && b[l] == a[j] {
      assert CreatedAt(db, tenantId, a[j]) <= CreatedAt(db, tenantId, b[i]);
    } else {
      assert a[j] in Selected(db, tenantId, all) && a[j] !in b;
    }
  }

  /** Of i + 1 different entries, one is not among i others. */
  lemma FirstNotAmong(a: seq<string>, b: seq<string>, i: nat) returns (j: nat)
    requires NoDuplicates(a) && NoDuplicates(b) && i < |a| && i < |b|
    ensures j <= i && forall l :: 0 <= l < i ==> b[l] != a[j]
  {
    var (front, others) := (Elements(a[..i + 1]), Elements(b[..i]));
    NoDuplicatesCount(a[..i + 1]);
    NoDuplicatesCount(b[..i]);
    if front <= others {
      SubsetCount(front, others);
      assert false;
    }
    var u :| u in front && u !in others;
    j :| 0 <= j < |a[..i + 1]| && a[..i + 1][j] == u;
    forall l | 0 <= l < i ensures b[l] != a[j] {
      assert b[..i][l] == b[l] && b[..i][l] in others;
    }
  }

  // ----- counts -----

  /** The listed posts that are live. */
  ghost function LiveAmong(db: Db, tenantId: string, urns: seq<string>): set<string> {
    set u | u in Elements(urns) && PhaseOf(db, (tenantId, u)) == Alive
  }

  ghost predicate NoTombstoneListed(db: Db, tenantId: string, urns: seq<string>) {
    forall u :: u in Elements(urns) ==> PhaseOf(db, (tenantId, u)) == Alive
  }

  ghost predicate EveryLiveListed(db: Db, tenantId: string, urns: seq<string>) {
    Selected(db, tenantId, false) <= Elements(urns)
  }

  lemma LiveRowsAreRows(db: Db, tenantId: string)
    requires Consistent(db)
    ensures Selected(db, tenantId, false) <= Selected(db, tenantId, true)
    ensures forall u :: u in Selected(db, tenantId, false) <==> PhaseOf(db, (tenantId, u)) == Alive
    ensures forall u :: u in Selected(db, tenantId, true) <==> (tenantId, u) in db.posts
  {
  }

  /** The live posts connection_status counts among the newest 100 rows are as many as list_posts shows at the same
      limit exactly when no tombstone is among those rows or no live post is beyond them. */
  lemma RecordedMatchesListing(db: Db, tenantId: string, limit: nat, all: seq<string>, live: seq<string>)
    requires Consistent(db)
    requires IsListing(db, tenantId, true, limit, all) && IsListing(db, tenantId, false, limit, live)
    ensures |LiveAmong(db, tenantId, all)| == |live| <==>
            NoTombstoneListed(db, tenantId, all) || EveryLiveListed(db, tenantId, all)
    ensures |LiveAmong(db, tenantId, all)| <= |live|
  {
    var (rows, alive, shown) := (Selected(db, tenantId, true), Selected(db, tenantId, false), Elements(all));
    LiveRowsAreRows(db, tenantId);
    NoDuplicatesCount(all);
    var counted := LiveAmong(db, tenantId, all);
    assert counted == shown * alive;
    SubsetCount(shown, rows);
    SubsetCount(alive, rows);
    SubsetCount(counted, shown);
    SubsetCount(counted, alive);
    if NoTombstoneListed(db, tenantId, all) {
      assert counted == shown;
    }
    if EveryLiveListed(db, tenantId, all) {
      assert counted == alive;
    }
  }

  /** In particular whenever the ledger fits the limit. */
  lemma RecordedMatchesSmallLedger(db: Db, tenantId: string, limit: nat, all: seq<string>, live: seq<string>)
    requires Consistent(db) && |Selected(db, tenantId, true)| <= limit
    requires IsListing(db, tenantId, true, limit, all) && IsListing(db, tenantId, false, limit, live)
    ensures |LiveAmong(db, tenantId, all)| == |live| == |Selected(db, tenantId, false)|
  {
    LiveRowsAreRows(db, tenantId);
    NoDuplicatesCount(all);
    SubsetCount(Elements(all), Selected(db, tenantId, true));
    SubsetCount(Selected(db, tenantId, false), Selected(db, tenantId, true));
    RecordedMatchesListing(db, tenantId, limit, all, live);
  }

  /** The positions of the live entries among the first n. */
  ghost function LiveAt(posts: seq<S.LedgerPost>, n: nat): set<int>
    requires n <= |posts|
  {
    set i | 0 <= i < n && !posts[i].Deleted()
  }

  /** Counting live entries of a listing is counting live posts. */
  lemma LiveByPosition(db: Db, tenantId: string, posts: seq<S.LedgerPost>)
    requires Consistent(db) && S.IsScannedListing(db, tenantId, true, MAX_LIMIT, posts)
    ensures |LiveAt(posts, |posts|)| == |LiveAmong(db, tenantId, S.Urns(posts))| <= |posts|
  {
    var urns := S.Urns(posts);
    var at := LiveAt(posts, |posts|);
    var live := LiveAmong(db, tenantId, urns);
    forall i | 0 <= i < |posts| ensures i in at <==> urns[i] in live {
      assert posts[i].Deleted() <==> db.posts[(tenantId, urns[i])].Deleted();
      assert urns[i] in Elements(urns);
    }
    InjectiveImageCount(at, map i | i in at :: urns[i], live);
    var position := map u | u in live :: Position(urns, u);
    InjectiveImageCount(live, position, at);
    NoDuplicatesCount(urns);
    SubsetCount(live, Elements(urns));
  }

  ghost function Position(urns: seq<string>, u: string): (i: nat)
    requires u in urns
    ensures i < |urns| && urns[i] == u
  {
    var i :| 0 <= i < |urns| && urns[i] == u;
    i
  }
}
