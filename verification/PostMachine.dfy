/** All members' calls at once, in any order: tenants do not interfere. */
module PostMachine {
  import opened Base
  import opened Tables
  import opened Posts
  import L = Logins

  /** On whose behalf a step runs: the subject of a bearer token, or a member logging in. */
  datatype Party = ByTenant(id: string) | ByMember(memberId: string)

  type Thread = (Party, nat)

  datatype Sys = Sys(db: Db, pending: map<Thread, Pending>)

  datatype Action =
    | Start(op: Op, ok: bool)
    | Find(ok: bool)
    | CallApi(answer: Option<string>)
    | Write(at: Instant, ok: bool)
    | List(includeDeleted: bool, limit: int, ok: bool, remote: Option<bool>, urns: seq<string>)
    | LookUp(token: L.Token, name: string, newId: string, now: int)
    | Join(ok: bool)

  datatype Event = Event(thread: Thread, action: Action)

  /** Whether list_posts reads the ledger: without the read permission, or when LinkedIn rejects the token
      (remote is None; Some(true) is LinkedIn's own list, Some(false) another failure). */
  predicate FromLedger(t: Tenant, remote: Option<bool>) {
    SCOPE_READ !in t.scopes || remote.None?
  }

  ghost predicate Enabled(s: Sys, e: Event) {
    match e.action
    case Start(_, _) => e.thread.0.ByTenant? && e.thread !in s.pending
    case Find(_) => e.thread.0.ByTenant? && e.thread in s.pending && s.pending[e.thread].Finding?
        && !s.pending[e.thread].op.Publish?
    case CallApi(_) => e.thread.0.ByTenant? && e.thread in s.pending && s.pending[e.thread].Calling?
    case Write(_, _) => e.thread.0.ByTenant? && e.thread in s.pending && s.pending[e.thread].Writing?
    case List(all, limit, _, _, urns) =>
      e.thread.0.ByTenant? && e.thread !in s.pending
          && IsListing(s.db, e.thread.0.id, all, ClampLimit(limit, DEFAULT_LIMIT, MAX_LIMIT), urns)
    case LookUp(_, _, _, _) => e.thread.0.ByMember? && e.thread !in s.pending
    case Join(_) => e.thread.0.ByMember? && e.thread in s.pending && s.pending[e.thread].Joining?
                    && s.pending[e.thread].tenant.memberId == e.thread.0.memberId
  }

  ghost function ListReply(s: Sys, tenantId: string, a: Action): Reply
    requires a.List? && IsListing(s.db, tenantId, a.includeDeleted, ClampLimit(a.limit, DEFAULT_LIMIT, MAX_LIMIT),
        a.urns)
  {
    match TenantById(s.db.tenants, tenantId)
    case None => Rejected(NoTenant)
    case Some(t) =>
      if FromLedger(t, a.remote) then
        (if !a.ok then Rejected(StoreFailed)
         else Listed(seq(|a.urns|, i requires 0 <= i < |a.urns| => (a.urns[i], s.db.posts[(tenantId, a.urns[i])]))))
      else if a.remote.value then FromLinkedIn else Rejected(ApiFailed)
  }

  /** The new tables and what the call comes to next. */
  ghost function Step(txt: Text, s: Sys, e: Event): (Db, Next)
    requires Enabled(s, e)
  {
    match e.action
    case Start(op, ok) => (s.db, StartStep(txt, s.db, e.thread.0.id, op, ok))
    case Find(ok) => (s.db, FindStep(txt, s.db, e.thread.0.id, s.pending[e.thread].op, ok))
    case CallApi(answer) => (s.db, CallStep(s.pending[e.thread].call, answer))
    case Write(at, ok) =>
      var (db, r) := WriteStep(s.db, e.thread.0.id, s.pending[e.thread].call, s.pending[e.thread].urn, at, ok);
      (db, Answer(r))
    case List(_, _, _, _, _) => (s.db, Answer(ListReply(s, e.thread.0.id, e.action)))
    case LookUp(token, name, newId, now) =>
      (s.db, Go(Joining(L.Adopt(s.db.tenants, L.Proposed(token, L.Member(e.thread.0.memberId, name), newId, now)))))
    case Join(ok) =>
      var t := s.pending[e.thread].tenant;
      (match if ok then UpsertTenant(s.db.tenants, t.id, ToRow(t)) else None
       case Some(tenants) => (s.db.(tenants := tenants), Answer(LoggedIn(t.id)))
       case None => (s.db, Answer(Rejected(StoreFailed))))
  }

  ghost function Apply(txt: Text, s: Sys, e: Event): Sys
    requires Enabled(s, e)
  {
    var (db, next) := Step(txt, s, e);
    Sys(db, match next
            case Go(p) => s.pending[e.thread := p]
            case Answer(_) => s.pending - {e.thread})
  }

  ghost function ReplyTo(txt: Text, s: Sys, e: Event): Option<Reply>
    requires Enabled(s, e)
  {
    match Step(txt, s, e).1
    case Answer(r) => Some(r)
    case Go(_) => None
  }

  ghost predicate IsRun(txt: Text, s: Sys, es: seq<Event>)
    decreases |es|
  {
    es == [] || (Enabled(s, es[0]) && IsRun(txt, Apply(txt, s, es[0]), es[1..]))
  }

  ghost function After(txt: Text, s: Sys, es: seq<Event>): Sys
    requires IsRun(txt, s, es)
    decreases |es|
  {
    if es == [] then s else After(txt, Apply(txt, s, es[0]), es[1..])
  }

  // ----- noninterference -----

  /** One member, and every tenant id its logins may draw. */
  datatype Who = Who(memberId: string, ids: set<string>)
  {
    predicate Owns(t: Thread) { if t.0.ByTenant? then t.0.id in ids else t.0.memberId == memberId }
  }

  /** The member's rows are those under its ids. */
  predicate OwnRows(w: Who, tenants: Tenants) {
    forall id :: id in tenants ==> (id in w.ids <==> tenants[id].memberId == w.memberId)
  }

  ghost predicate SameRows(w: Who, a: Tenants, b: Tenants) {
    && OnePerMember(a) && OnePerMember(b) && OwnRows(w, a) && OwnRows(w, b)
    && (forall id :: id in w.ids ==> (id in a <==> id in b))
    && forall id :: id in w.ids && id in a && id in b ==> a[id] == b[id]
  }

  ghost predicate SameLedger(w: Who, a: Db, b: Db) {
    && (forall k: PostKey :: k.0 in w.ids ==> (k in a.posts <==> k in b.posts))
    && forall k: PostKey :: k.0 in w.ids && k in a.posts && k in b.posts ==> a.posts[k] == b.posts[k]
  }

  /** A login that has looked its member up goes on under an id of that member's. */
  predicate OwnJoin(w: Who, p: Pending) {
    p.Joining? ==> (p.tenant.id in w.ids <==> p.tenant.memberId == w.memberId)
  }

  ghost predicate SameCalls(w: Who, a: map<Thread, Pending>, b: map<Thread, Pending>) {
    && (forall t :: w.Owns(t) ==> (t in a <==> t in b))
    && (forall t :: w.Owns(t) && t in a && t in b ==> a[t] == b[t])
    && (forall t :: t in a ==> OwnJoin(w, a[t]))
    && forall t :: t in b ==> OwnJoin(w, b[t])
  }

  /** The two systems look alike to the member: same row, if any, same ledger, same calls under way. */
  ghost predicate SameView(w: Who, s: Sys, u: Sys) {
    SameRows(w, s.db.tenants, u.db.tenants) && SameLedger(w, s.db, u.db) && SameCalls(w, s.pending, u.pending)
  }

  /** A login draws an id no other member's login draws. */
  predicate FreshId(w: Who, e: Event) {
    e.action.LookUp? ==> (e.action.newId in w.ids <==> e.thread.0 == ByMember(w.memberId))
  }

  // ----- statements -----

  lemma SameMember(w: Who, a: Tenants, b: Tenants)
    requires SameRows(w, a, b)
    ensures IdOf(a, w.memberId) == IdOf(b, w.memberId)
    ensures IdOf(a, w.memberId).Some? ==> IdOf(a, w.memberId).value in w.ids
  {
    if id :| id in a && a[id].memberId == w.memberId {
      IdOfIs(a, id);
      IdOfIs(b, id);
    }
  }

  lemma OthersJoinElsewhere(w: Who, a: Tenants, b: Tenants, t: Tenant)
    requires SameRows(w, a, b) && t.memberId != w.memberId && t.id !in w.ids && UpsertTenant(a, t.id, ToRow(t)).Some?
    ensures SameRows(w, UpsertTenant(a, t.id, ToRow(t)).value, b)
  {
    L.UpsertKeepsIdentities(a, t.id, ToRow(t));
  }

  lemma OwnJoinAlike(w: Who, a: Tenants, b: Tenants, t: Tenant)
    requires SameRows(w, a, b) && t.memberId == w.memberId && t.id in w.ids
    ensures var (x, y) := (UpsertTenant(a, t.id, ToRow(t)), UpsertTenant(b, t.id, ToRow(t)));
            x.Some? && y.Some? && SameRows(w, x.value, y.value)
  {
    SameMember(w, a, b);
    L.UpsertKeepsIdentities(a, t.id, ToRow(t));
    L.UpsertKeepsIdentities(b, t.id, ToRow(t));
  }

  lemma OwnAdoptAlike(w: Who, a: Tenants, b: Tenants, t: Tenant)
    requires SameRows(w, a, b) && t.memberId == w.memberId && t.id in w.ids
    ensures L.Adopt(a, t) == L.Adopt(b, t) && OwnJoin(w, Joining(L.Adopt(a, t)))
  {
    SameMember(w, a, b);
  }

  lemma OthersAdopt(w: Who, a: Tenants, t: Tenant)
    requires OnePerMember(a) && OwnRows(w, a) && t.memberId != w.memberId && t.id !in w.ids
    ensures OwnJoin(w, Joining(L.Adopt(a, t)))
  {
  }

  lemma OthersWriteElsewhere(w: Who, db: Db, other: Db, tenantId: string, c: Call, urn: string, at: Instant, ok: bool)
    requires SameLedger(w, db, other) && tenantId !in w.ids
    ensures var after := WriteStep(db, tenantId, c, urn, at, ok).0;
            SameLedger(w, after, other) && after.tenants == db.tenants
  {
    WriteTouchesOneRow(db, tenantId, c, urn, at, ok);
  }

  lemma OwnWriteAlike(w: Who, a: Db, b: Db, id: string, c: Call, urn: string, at: Instant, ok: bool)
    requires SameLedger(w, a, b) && id in w.ids && (id in a.tenants <==> id in b.tenants)
    ensures var (p, q) := (WriteStep(a, id, c, urn, at, ok), WriteStep(b, id, c, urn, at, ok));
            p.1 == q.1 && SameLedger(w, p.0, q.0) && p.0.tenants == a.tenants && q.0.tenants == b.tenants
  {
    WriteTouchesOneRow(a, id, c, urn, at, ok);
    WriteTouchesOneRow(b, id, c, urn, at, ok);
    assert LedgerPost(a, id, urn) == LedgerPost(b, id, urn);
  }

  lemma SameSelection(w: Who, id: string, a: Db, b: Db, all: bool)
    requires SameLedger(w, a, b) && id in w.ids
    ensures Selected(a, id, all) == Selected(b, id, all)
  {
    forall u ensures u in Selected(a, id, all) <==> u in Selected(b, id, all) {
      assert u in Selected(a, id, all) <==> (id, u) in a.posts && (all || a.posts[(id, u)].deletedAt == 0);
      assert u in Selected(b, id, all) <==> (id, u) in b.posts && (all || b.posts[(id, u)].deletedAt == 0);
    }
  }

  lemma SameListings(w: Who, id: string, a: Db, b: Db, all: bool, limit: int, urns: seq<string>)
    requires SameLedger(w, a, b) && id in w.ids && IsListing(a, id, all, limit, urns)
    ensures IsListing(b, id, all, limit, urns)
    ensures forall i :: 0 <= i < |urns| ==> a.posts[(id, urns[i])] == b.posts[(id, urns[i])]
  {
    SameSelection(w, id, a, b, all);
  }

  // ----- calls under way -----

  function CallsAfter(calls: map<Thread, Pending>, t: Thread, next: Next): map<Thread, Pending> {
    match next
    case Go(p) => calls[t := p]
    case Answer(_) => calls - {t}
  }

  lemma OthersCallsElsewhere(w: Who, a: map<Thread, Pending>, b: map<Thread, Pending>, t: Thread, next: Next)
    requires SameCalls(w, a, b) && !w.Owns(t) && (next.Go? ==> OwnJoin(w, next.pending))
    ensures SameCalls(w, CallsAfter(a, t, next), b)
  {
  }

  lemma OwnCallsAlike(w: Who, a: map<Thread, Pending>, b: map<Thread, Pending>, t: Thread, next: Next)
    requires SameCalls(w, a, b) && (next.Go? ==> OwnJoin(w, next.pending))
    ensures SameCalls(w, CallsAfter(a, t, next), CallsAfter(b, t, next))
  {
  }

  // ----- steps -----

  lemma OthersStep(txt: Text, w: Who, s: Sys, u: Sys, e: Event)
    requires SameView(w, s, u) && Enabled(s, e) && !w.Owns(e.thread) && FreshId(w, e)
    ensures var (db, next) := Step(txt, s, e);
            && SameRows(w, db.tenants, u.db.tenants) && SameLedger(w, db, u.db)
            && (next.Go? ==> OwnJoin(w, next.pending))
  {
    match e.action {
      case Write(at, ok) =>
        OthersWriteElsewhere(w, s.db, u.db, e.thread.0.id, s.pending[e.thread].call, s.pending[e.thread].urn, at, ok);
      case LookUp(token, name, newId, now) =>
        OthersAdopt(w, s.db.tenants, L.Proposed(token, L.Member(e.thread.0.memberId, name), newId, now));
      case Join(_) =>
        var t := s.pending[e.thread].tenant;
        assert OwnJoin(w, s.pending[e.thread]);
        if UpsertTenant(s.db.tenants, t.id, ToRow(t)).Some? {
          OthersJoinElsewhere(w, s.db.tenants, u.db.tenants, t);
        }
      case _ =>
    }
  }

  /** Somebody else's step is invisible. */
  lemma OthersInvisible(txt: Text, w: Who, s: Sys, u: Sys, e: Event)
    requires SameView(w, s, u) && Enabled(s, e) && !w.Owns(e.thread) && FreshId(w, e)
    ensures SameView(w, Apply(txt, s, e), u)
  {
    OthersStep(txt, w, s, u, e);
    OthersCallsElsewhere(w, s.pending, u.pending, e.thread, Step(txt, s, e).1);
  }

  /** The same outcome for the member in both systems. */
  ghost predicate StepAlike(txt: Text, w: Who, s: Sys, u: Sys, e: Event)
    requires Enabled(s, e) && Enabled(u, e)
  {
    var ((a, next), (b, same)) := (Step(txt, s, e), Step(txt, u, e));
    && next == same && SameRows(w, a.tenants, b.tenants) && SameLedger(w, a, b)
    && (next.Go? ==> OwnJoin(w, next.pending))
  }

  lemma OwnStartAlike(txt: Text, w: Who, s: Sys, u: Sys, e: Event)
    requires SameView(w, s, u) && Enabled(s, e) && w.Owns(e.thread) && e.action.Start?
    ensures Enabled(u, e) && StepAlike(txt, w, s, u, e)
  {
    assert TenantById(s.db.tenants, e.thread.0.id) == TenantById(u.db.tenants, e.thread.0.id);
  }

  lemma OwnCallAlike(txt: Text, w: Who, s: Sys, u: Sys, e: Event)
    requires SameView(w, s, u) && Enabled(s, e) && w.Owns(e.thread)
    requires e.action.Find? || e.action.CallApi? || e.action.Write?
    ensures Enabled(u, e) && StepAlike(txt, w, s, u, e)
  {
    match e.action {
      case Find(_) =>
        var op := s.pending[e.thread].op;
        assert LedgerPost(s.db, e.thread.0.id, op.urn) == LedgerPost(u.db, e.thread.0.id, op.urn);
      case Write(at, ok) =>
        OwnWriteAlike(w, s.db, u.db, e.thread.0.id, s.pending[e.thread].call, s.pending[e.thread].urn, at, ok);
      case _ =>
    }
  }

  lemma OwnListAlike(txt: Text, w: Who, s: Sys, u: Sys, e: Event)
    requires SameView(w, s, u) && Enabled(s, e) && w.Owns(e.thread) && e.action.List?
    ensures Enabled(u, e) && StepAlike(txt, w, s, u, e)
  {
    var (a, id) := (e.action, e.thread.0.id);
    SameListings(w, id, s.db, u.db, a.includeDeleted, ClampLimit(a.limit, DEFAULT_LIMIT, MAX_LIMIT), a.urns);
    assert ListReply(s, id, a) == ListReply(u, id, a);
  }

  lemma OwnLoginAlike(txt: Text, w: Who, s: Sys, u: Sys, e: Event)
    requires SameView(w, s, u) && Enabled(s, e) && w.Owns(e.thread) && FreshId(w, e)
        && (e.action.LookUp? || e.action.Join?)
    ensures Enabled(u, e) && StepAlike(txt, w, s, u, e)
  {
    match e.action {
      case LookUp(token, name, newId, now) =>
        OwnAdoptAlike(w, s.db.tenants, u.db.tenants, L.Proposed(token, L.Member(w.memberId, name), newId, now));
      case Join(_) =>
        assert OwnJoin(w, s.pending[e.thread]);
        OwnJoinAlike(w, s.db.tenants, u.db.tenants, s.pending[e.thread].tenant);
    }
  }

  /** One's own step is possible in both, gets the same reply in both, and leaves both alike. */
  lemma OwnStepAlike(txt: Text, w: Who, s: Sys, u: Sys, e: Event)
    requires SameView(w, s, u) && Enabled(s, e) && w.Owns(e.thread) && FreshId(w, e)
    ensures Enabled(u, e) && ReplyTo(txt, s, e) == ReplyTo(txt, u, e)
    ensures SameView(w, Apply(txt, s, e), Apply(txt, u, e))
  {
    match e.action {
      case Start(_, _) => OwnStartAlike(txt, w, s, u, e);
      case List(_, _, _, _, _) => OwnListAlike(txt, w, s, u, e);
      case LookUp(_, _, _, _) => OwnLoginAlike(txt, w, s, u, e);
      case Join(_) => OwnLoginAlike(txt, w, s, u, e);
      case _ => OwnCallAlike(txt, w, s, u, e);
    }
    OwnCallsAlike(w, s.pending, u.pending, e.thread, Step(txt, s, e).1);
  }

  // ----- runs -----

  function Own(w: Who, es: seq<Event>): seq<Event> {
    if es == [] then [] else (if w.Owns(es[0].thread) then [es[0]] else []) + Own(w, es[1..])
  }

  /** The replies one member gets in a run. */
  ghost function Replies(txt: Text, w: Who, s: Sys, es: seq<Event>): seq<Option<Reply>>
    requires IsRun(txt, s, es)
    decreases |es|
  {
    if es == [] then []
    else
      (if w.Owns(es[0].thread) then [ReplyTo(txt, s, es[0])] else []) + Replies(txt, w, Apply(txt, s, es[0]), es[1..])
  }

  predicate FreshIds(w: Who, es: seq<Event>) {
    forall i :: 0 <= i < |es| ==> FreshId(w, es[i])
  }

  lemma {:induction false} RunsLookAlike(txt: Text, w: Who, s: Sys, u: Sys, es: seq<Event>)
    requires SameView(w, s, u) && IsRun(txt, s, es) && FreshIds(w, es)
    ensures IsRun(txt, u, Own(w, es)) && Replies(txt, w, s, es) == Replies(txt, w, u, Own(w, es))
    ensures SameView(w, After(txt, s, es), After(txt, u, Own(w, es)))
    decreases |es|
  {
    if es != [] {
      var e := es[0];
      if w.Owns(e.thread) {
        assert Own(w, es)[0] == e && Own(w, es)[1..] == Own(w, es[1..]);
        OwnStepAlike(txt, w, s, u, e);
        RunsLookAlike(txt, w, Apply(txt, s, e), Apply(txt, u, e), es[1..]);
      } else {
        assert Own(w, es) == Own(w, es[1..]);
        OthersInvisible(txt, w, s, u, e);
        RunsLookAlike(txt, w, Apply(txt, s, e), u, es[1..]);
      }
    }
  }

  /** Delete from any run every step of every other tenant and member: what is left is a run in which this member
      gets the same replies and ends with the same row and the same ledger, even where another tenant recorded the
      same URN. The member may have a tenant at the start or get one on the way. */
  lemma NoInterference(txt: Text, w: Who, s: Sys, es: seq<Event>)
    requires OnePerMember(s.db.tenants) && OwnRows(w, s.db.tenants)
    requires forall t :: t in s.pending ==> OwnJoin(w, s.pending[t])
    requires IsRun(txt, s, es) && FreshIds(w, es)
    ensures IsRun(txt, s, Own(w, es)) && Replies(txt, w, s, es) == Replies(txt, w, s, Own(w, es))
    ensures var (a, b) := (After(txt, s, es).db, After(txt, s, Own(w, es)).db);
            SameRows(w, a.tenants, b.tenants) && SameLedger(w, a, b)
  {
    RunsLookAlike(txt, w, s, s, es);
  }

  /** In particular from an empty system: a newcomer's first login and everything after it go as if nobody else were
      there. */
  lemma NewcomerUndisturbed(txt: Text, w: Who, es: seq<Event>)
    requires IsRun(txt, Sys(EMPTY, map[]), es) && FreshIds(w, es)
    ensures var s := Sys(EMPTY, map[]);
            && IsRun(txt, s, Own(w, es)) && Replies(txt, w, s, es) == Replies(txt, w, s, Own(w, es))
            && SameRows(w, After(txt, s, es).db.tenants, After(txt, s, Own(w, es)).db.tenants)
            && SameLedger(w, After(txt, s, es).db, After(txt, s, Own(w, es)).db)
  {
    NoInterference(txt, w, Sys(EMPTY, map[]), es);
  }
}
