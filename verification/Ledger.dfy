/** The ledger against LinkedIn: what the two know of each other when either write may fail. */
module Ledger {
  import opened Base
  import opened Tables
  import opened Posts
  import M = PostMachine
  import L = Logins

  /** A post on LinkedIn; its creator is the tenant whose call made it. */
  datatype RemotePost = RemotePost(author: string, text: string, live: bool, creator: string)

  type Remote = map<string, RemotePost>

  function MemberURN(tenants: Tenants, id: string): string
    requires id in tenants
  {
    FromRow(id, tenants[id]).MemberURN()
  }

  /** What LinkedIn may answer: a created post has a new URN, only a live post can be edited, deletion always
      succeeds. */
  predicate Possible(remote: Remote, c: Call, answer: Option<string>) {
    match (c, answer)
    case (_, None) => true
    case (Create(_, _), Some(urn)) => urn != "" && urn !in remote
    case (Update(urn, _), Some(_)) => urn in remote && remote[urn].live
    case (Destroy(_), Some(_)) => true
  }

  /** What a call leaves on LinkedIn; a failed one leaves nothing. */
  function RemoteAfter(remote: Remote, creator: string, c: Call, answer: Option<string>): Remote {
    match (c, answer)
    case (_, None) => remote
    case (Create(author, r), Some(urn)) => remote[urn := RemotePost(author, r.commentary, true, creator)]
    case (Update(urn, text), Some(_)) => if urn in remote then remote[urn := remote[urn].(text := text)] else remote
    case (Destroy(urn), Some(_)) => if urn in remote then remote[urn := remote[urn].(live := false)] else remote
  }

  // ----- every interleaving: the ledger never claims what is not so -----

  /** A recorded post was created by this tenant in its member's name, and a tombstone is gone from LinkedIn. */
  predicate RowHonest(tenants: Tenants, remote: Remote, k: PostKey, row: PostRow) {
    && k.0 in tenants && k.1 in remote && remote[k.1].creator == k.0
    && remote[k.1].author == MemberURN(tenants, k.0) && 0 <= row.deletedAt
    && (row.Deleted() ==> !remote[k.1].live)
  }

  ghost predicate BooksHonest(db: Db, remote: Remote) {
    forall k :: k in db.posts ==> RowHonest(db.tenants, remote, k, db.posts[k])
  }

  predicate CallHonest(db: Db, id: string, c: Call) {
    && id in db.tenants
    && match c
       case Create(author, _) => author == MemberURN(db.tenants, id)
       case Update(urn, _) => (id, urn) in db.posts
       case Destroy(urn) => (id, urn) in db.posts
  }

  predicate PendingHonest(db: Db, remote: Remote, id: string, p: Pending) {
    match p
    case Finding(_) => true
    case Joining(_) => true
    case Calling(c) => CallHonest(db, id, c)
    case Writing(c, urn) =>
      && CallHonest(db, id, c) && urn in remote && remote[urn].creator == id
         && remote[urn].author == MemberURN(db.tenants, id)
      && (c.Update? ==> urn == c.urn) && (c.Destroy? ==> urn == c.urn && !remote[urn].live)
  }

  datatype World = World(sys: M.Sys, remote: Remote)

  ghost predicate Honest(w: World) {
    && OnePerMember(w.sys.db.tenants)
    && BooksHonest(w.sys.db, w.remote)
    && forall t :: t in w.sys.pending && t.0.ByTenant? ==> PendingHonest(w.sys.db, w.remote, t.0.id, w.sys.pending[t])
  }

  ghost predicate Enabled(w: World, e: M.Event) {
    && M.Enabled(w.sys, e)
    && (e.action.CallApi? ==> Possible(w.remote, w.sys.pending[e.thread].call, e.action.answer))
  }

  ghost function Apply(txt: Text, w: World, e: M.Event): World
    requires Enabled(w, e)
  {
    World(M.Apply(txt, w.sys, e),
          if e.action.CallApi? then RemoteAfter(w.remote, e.thread.0.id, w.sys.pending[e.thread].call, e.action.answer)
          else w.remote)
  }

  ghost predicate IsRun(txt: Text, w: World, es: seq<M.Event>)
    decreases |es|
  {
    es == [] || (Enabled(w, es[0]) && IsRun(txt, Apply(txt, w, es[0]), es[1..]))
  }

  ghost function After(txt: Text, w: World, es: seq<M.Event>): World
    requires IsRun(txt, w, es)
    decreases |es|
  {
    if es == [] then w else After(txt, Apply(txt, w, es[0]), es[1..])
  }

  /** Every post keeps its author and its creator, and a post once gone stays gone. */
  predicate RemoteAges(a: Remote, b: Remote) {
    forall u :: u in a ==>
      u in b && b[u].creator == a[u].creator && b[u].author == a[u].author && (!a[u].live ==> !b[u].live)
  }

  /** Deleting is always possible and deleting again changes nothing; a deleted post cannot be edited any more. */
  lemma DestroyIsFinal(remote: Remote, creator: string, urn: string)
    ensures var after := RemoteAfter(remote, creator, Destroy(urn), Some(urn));
            && Possible(remote, Destroy(urn), Some(urn))
            && RemoteAfter(after, creator, Destroy(urn), Some(urn)) == after
            && forall text :: !Possible(after, Update(urn, text), Some(urn))
  {
  }

  lemma CallAges(remote: Remote, creator: string, c: Call, answer: Option<string>)
    requires Possible(remote, c, answer)
    ensures RemoteAges(remote, RemoteAfter(remote, creator, c, answer))
  {
  }

  lemma StillHonest(db: Db, remote: Remote, after: Remote)
    requires BooksHonest(db, remote) && RemoteAges(remote, after)
    ensures BooksHonest(db, after)
    ensures forall id, p :: PendingHonest(db, remote, id, p) ==> PendingHonest(db, after, id, p)
  {
    forall k | k in db.posts ensures RowHonest(db.tenants, after, k, db.posts[k]) {
      assert RowHonest(db.tenants, remote, k, db.posts[k]);
    }
  }

  lemma CallKeepsHonest(db: Db, remote: Remote, id: string, c: Call, answer: Option<string>)
    requires BooksHonest(db, remote) && CallHonest(db, id, c) && Possible(remote, c, answer)
    ensures var after := RemoteAfter(remote, id, c, answer);
            && BooksHonest(db, after)
            && (answer.Some? ==> PendingHonest(db, after, id, CallStep(c, answer).pending))
            && forall i, p :: PendingHonest(db, remote, i, p) ==> PendingHonest(db, after, i, p)
  {
    CallAges(remote, id, c, answer);
    StillHonest(db, remote, RemoteAfter(remote, id, c, answer));
    if !c.Create? {
      assert RowHonest(db.tenants, remote, (id, c.urn), db.posts[(id, c.urn)]);
    }
  }

  lemma WriteKeepsHonest(db: Db, remote: Remote, id: string, c: Call, urn: string, at: Instant, ok: bool)
    requires BooksHonest(db, remote) && PendingHonest(db, remote, id, Writing(c, urn))
    ensures var after := WriteStep(db, id, c, urn, at, ok).0;
            && BooksHonest(after, remote)
            && forall i, p :: PendingHonest(db, remote, i, p) ==> PendingHonest(after, remote, i, p)
  {
    WriteTouchesOneRow(db, id, c, urn, at, ok);
    var row := RowWritten(LedgerPost(db, id, urn), id in db.tenants, c, urn, at, ok);
    if row.Some? {
      assert (id, urn) in db.posts ==> RowHonest(db.tenants, remote, (id, urn), db.posts[(id, urn)]);
      assert RowHonest(db.tenants, remote, (id, urn), row.value);
    }
  }

  lemma JoinKeepsHonest(db: Db, remote: Remote, t: Tenant)
    requires OnePerMember(db.tenants) && BooksHonest(db, remote) && UpsertTenant(db.tenants, t.id, ToRow(t)).Some?
    ensures var after := db.(tenants := UpsertTenant(db.tenants, t.id, ToRow(t)).value);
            && OnePerMember(after.tenants) && BooksHonest(after, remote)
            && forall i, p :: PendingHonest(db, remote, i, p) ==> PendingHonest(after, remote, i, p)
  {
    L.UpsertKeepsIdentities(db.tenants, t.id, ToRow(t));
    var after := db.(tenants := UpsertTenant(db.tenants, t.id, ToRow(t)).value);
    forall id | id in db.tenants ensures id in after.tenants
        && MemberURN(after.tenants, id) == MemberURN(db.tenants, id) {
    }
    forall k | k in after.posts ensures RowHonest(after.tenants, remote, k, after.posts[k]) {
      assert RowHonest(db.tenants, remote, k, db.posts[k]);
    }
  }

  lemma EventKeepsHonest(txt: Text, w: World, e: M.Event)
    requires Honest(w) && Enabled(w, e)
    ensures Honest(Apply(txt, w, e))
  {
    var s := w.sys;
    match e.action {
      case CallApi(answer) => CallKeepsHonest(s.db, w.remote, e.thread.0.id, s.pending[e.thread].call, answer);
      case Write(at, ok) =>
        WriteKeepsHonest(s.db, w.remote, e.thread.0.id, s.pending[e.thread].call, s.pending[e.thread].urn, at, ok);
      case Join(_) =>
        var t := s.pending[e.thread].tenant;
        if UpsertTenant(s.db.tenants, t.id, ToRow(t)).Some? {
          JoinKeepsHonest(s.db, w.remote, t);
        }
      case _ =>
    }
  }

  /** In every run of every interleaving, with any failures: a ledger row means the post was created in the tenant's own
      name, and a tombstone means LinkedIn no longer has it. */
  lemma {:induction false} LedgerIsHonest(txt: Text, w: World, es: seq<M.Event>)
    requires Honest(w) && IsRun(txt, w, es)
    ensures Honest(After(txt, w, es))
    decreases |es|
  {
    if es != [] {
      EventKeepsHonest(txt, w, es[0]);
      LedgerIsHonest(txt, Apply(txt, w, es[0]), es[1..]);
    }
  }
}
