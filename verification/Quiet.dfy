/** Every interleaving: as long as no ledger write fails, ledger and LinkedIn agree on every post nothing is under
    way for. */
module Quiet {
  import opened Base
  import opened Tables
  import opened Posts
  import opened Ledger
  import opened Agreement
  import M = PostMachine

  /** All there is to one post: whether the ledger has a row, the text of its live row, the text of the live post, and
      the calls LinkedIn has taken that the ledger has yet to follow. */
  datatype View = View(recorded: bool, row: Option<string>, post: Option<string>, flights: map<M.Thread, Call>)

  predicate About(k: PostKey, t: M.Thread, p: Pending) {
    t.0 == M.ByTenant(k.0) && p.Writing? && p.urn == k.1
  }

  function Flights(calls: map<M.Thread, Pending>, k: PostKey): map<M.Thread, Call> {
    map t | t in calls && About(k, t, calls[t]) :: calls[t].call
  }

  function ViewOf(db: Db, remote: Remote, calls: map<M.Thread, Pending>, k: PostKey): View {
    View(k in db.posts,
         if PhaseOf(db, k) == Alive then Some(db.posts[k].commentary) else None,
         if LivePost(remote, k) then Some(remote[k.1].text) else None,
         Flights(calls, k))
  }

  /** What honest books say of one post. */
  predicate Sound(v: View) {
    && (v.row.Some? ==> v.recorded)
    && (v.recorded && v.row.None? ==> v.post.None?)
    && forall t :: t in v.flights ==> (!v.flights[t].Create? ==> v.recorded) && (v.flights[t].Destroy? ==> v.post.None?)
  }

  predicate Creating(v: View, t: M.Thread) { t in v.flights && v.flights[t].Create? }

  predicate Updating(v: View, t: M.Thread) { t in v.flights && v.flights[t].Update? }

  predicate Destroying(v: View, t: M.Thread) { t in v.flights && v.flights[t].Destroy? }

  /** Where the two differ on whether a post is there, a call is about to make up for it. */
  ghost predicate Explained(v: View) {
    && (v.post.Some? && v.row.None? ==> exists t :: Creating(v, t))
    && (v.row.Some? && v.post.None? ==> exists t :: Destroying(v, t))
    && (forall t :: Creating(v, t) ==> !v.recorded && v.post.Some?)
    && (forall t, u :: Creating(v, t) && Creating(v, u) ==> t == u)
  }

  /** And where they differ on its text, as long as edits of it do not overlap. */
  ghost predicate TextExplained(v: View) {
    && (forall t :: Creating(v, t) && v.post.Some? ==> v.post.value == v.flights[t].request.commentary)
    && (forall t :: Updating(v, t) && v.post.Some? ==> v.post.value == v.flights[t].text)
    && (forall t, u :: Updating(v, t) && Updating(v, u) ==> t == u)
    && (v.row.Some? && v.post.Some? && v.row != v.post ==> exists t :: Updating(v, t))
  }

  // ----- LinkedIn's answer -----

  function Answered(v: View, t: M.Thread, c: Call): View {
    v.(flights := v.flights[t := c],
       post := match c
               case Create(_, r) => Some(r.commentary)
               case Update(_, text) => if v.post.Some? then Some(text) else None
               case Destroy(_) => None)
  }

  /** A creation is of a post neither side had, and nobody else is at work on it. */
  predicate Takes(v: View, c: Call) {
    if c.Create? then !v.recorded && v.post.None? && v.flights == map[] else v.recorded
  }

  lemma AnswerExplained(v: View, t: M.Thread, c: Call)
    requires Sound(v) && Explained(v) && t !in v.flights && Takes(v, c)
    ensures Explained(Answered(v, t, c))
    ensures TextExplained(v) && !(c.Update? && exists u :: Updating(v, u)) ==> TextExplained(Answered(v, t, c))
  {
    var a := Answered(v, t, c);
    assert t in a.flights && a.flights[t] == c;
    forall u | u != t ensures Creating(a, u) == Creating(v, u) && Updating(a, u) == Updating(v, u)
        && Destroying(a, u) == Destroying(v, u) {
    }
    assert c.Create? ==> Creating(a, t);
    assert c.Update? ==> Updating(a, t);
    assert c.Destroy? ==> Destroying(a, t);
    if u :| Updating(v, u) { assert Updating(a, u); }
    if u :| Destroying(v, u) { assert Destroying(a, u); }
  }

  /** From v to a by LinkedIn's answer to call c of thread t, which is about this post or not. */
  predicate AnswerStep(v: View, a: View, t: M.Thread, c: Call, about: bool) {
    if about then t !in v.flights && Takes(v, c) && a == Answered(v, t, c) else a == v
  }

  lemma AnswerStepExplained(v: View, a: View, t: M.Thread, c: Call, about: bool)
    requires Sound(v) && Explained(v) && AnswerStep(v, a, t, c, about)
    ensures Explained(a)
    ensures TextExplained(v) && !(about && c.Update? && exists u :: Updating(v, u)) ==> TextExplained(a)
  {
    if about {
      AnswerExplained(v, t, c);
    }
  }

  // ----- the ledger follows -----

  function Followed(v: View, t: M.Thread): View
    requires t in v.flights
  {
    var rest := v.(flights := v.flights - {t});
    match v.flights[t]
    case Create(_, r) => rest.(recorded := true, row := if !v.recorded || v.row.Some? then Some(r.commentary) else None)
    case Update(_, text) => if v.row.Some? then rest.(row := Some(text)) else rest
    case Destroy(_) => rest.(row := None)
  }

  lemma WriteExplained(v: View, t: M.Thread)
    requires Sound(v) && Explained(v) && t in v.flights
    ensures Explained(Followed(v, t)) && (TextExplained(v) ==> TextExplained(Followed(v, t)))
  {
    var a := Followed(v, t);
    forall u ensures Creating(a, u) == (u != t && Creating(v, u)) && Updating(a, u) == (u != t && Updating(v, u))
                     && Destroying(a, u) == (u != t && Destroying(v, u)) {
    }
    assert v.flights[t].Create? ==> Creating(v, t);
    assert v.flights[t].Update? ==> Updating(v, t);
    if u :| Updating(v, u) && u != t { assert Updating(a, u); }
    if u :| Destroying(v, u) && u != t { assert Destroying(a, u); }
  }

  // ----- what one event does to the view of one post -----

  ghost function WorldView(w: World, k: PostKey): View {
    ViewOf(w.sys.db, w.remote, w.sys.pending, k)
  }

  lemma HonestIsSound(w: World, k: PostKey)
    requires Honest(w)
    ensures Sound(WorldView(w, k))
  {
  }

  lemma FlightsAfterPut(calls: map<M.Thread, Pending>, t: M.Thread, p: Pending, k: PostKey)
    requires t in calls ==> !calls[t].Writing?
    ensures t !in Flights(calls, k)
    ensures Flights(calls[t := p], k) == if About(k, t, p) then Flights(calls, k)[t := p.call] else Flights(calls, k)
  {
  }

  lemma FlightsAfterEnd(calls: map<M.Thread, Pending>, t: M.Thread, k: PostKey)
    ensures Flights(calls - {t}, k) == Flights(calls, k) - {t}
    ensures t in calls && !About(k, t, calls[t]) ==> Flights(calls - {t}, k) == Flights(calls, k)
  {
  }

  lemma PostsInHandExist(w: World, k: PostKey)
    requires Honest(w)
    ensures k in w.sys.db.posts ==> k.1 in w.remote
    ensures Flights(w.sys.pending, k) != map[] ==> k.1 in w.remote
  {
  }

  lemma CreatedView(db: Db, remote: Remote, calls: map<M.Thread, Pending>, t: M.Thread, c: Call, urn: string,
                    k: PostKey)
    requires c.Create? && t.0.ByTenant? && t in calls && !calls[t].Writing? && urn !in remote
    requires k.1 == urn ==> k !in db.posts && Flights(calls, k) == map[]
    ensures var (v, a) := (ViewOf(db, remote, calls, k),
                           ViewOf(db, RemoteAfter(remote, t.0.id, c, Some(urn)), calls[t := Writing(c, urn)], k));
            AnswerStep(v, a, t, c, t.0.id == k.0 && urn == k.1)
  {
    FlightsAfterPut(calls, t, Writing(c, urn), k);
  }

  lemma ChangedView(db: Db, remote: Remote, calls: map<M.Thread, Pending>, t: M.Thread, c: Call, k: PostKey)
    requires !c.Create? && t.0.ByTenant? && t in calls && !calls[t].Writing?
    requires (t.0.id, c.urn) in db.posts && c.urn in remote && remote[c.urn].creator == t.0.id
    ensures var (v, a) := (ViewOf(db, remote, calls, k),
                           ViewOf(db, RemoteAfter(remote, t.0.id, c, Some("")), calls[t := Writing(c, c.urn)], k));
            AnswerStep(v, a, t, c, t.0.id == k.0 && c.urn == k.1)
  {
    FlightsAfterPut(calls, t, Writing(c, c.urn), k);
  }

  /** The URN an answered call turns out to be about. */
  function Subject(c: Call, urn: string): string {
    if c.Create? then urn else c.urn
  }

  lemma AnswerApplied(txt: Text, w: World, t: M.Thread, urn: string)
    requires Enabled(w, M.Event(t, M.CallApi(Some(urn))))
    ensures var (a, c) := (Apply(txt, w, M.Event(t, M.CallApi(Some(urn)))), w.sys.pending[t].call);
            && a.sys.db == w.sys.db && a.sys.pending == w.sys.pending[t := Writing(c, Subject(c, urn))]
            && a.remote == RemoteAfter(w.remote, t.0.id, c, Some(urn))
  {
  }

  lemma AnswerView(txt: Text, w: World, t: M.Thread, urn: string, k: PostKey)
    requires Honest(w) && Enabled(w, M.Event(t, M.CallApi(Some(urn))))
    ensures var (v, a) := (WorldView(w, k), WorldView(Apply(txt, w, M.Event(t, M.CallApi(Some(urn)))), k));
            var c := w.sys.pending[t].call;
            AnswerStep(v, a, t, c, t.0.id == k.0 && Subject(c, urn) == k.1)
  {
    var c := w.sys.pending[t].call;
    AnswerApplied(txt, w, t, urn);
    if c.Create? {
      PostsInHandExist(w, k);
      CreatedView(w.sys.db, w.remote, w.sys.pending, t, c, urn, k);
    } else {
      OwnPostExists(w, t);
      ChangedView(w.sys.db, w.remote, w.sys.pending, t, c, k);
    }
  }

  lemma OwnPostExists(w: World, t: M.Thread)
    requires Honest(w) && t in w.sys.pending && t.0.ByTenant? && w.sys.pending[t].Calling?
        && !w.sys.pending[t].call.Create?
    ensures var urn := w.sys.pending[t].call.urn;
            (t.0.id, urn) in w.sys.db.posts && urn in w.remote && w.remote[urn].creator == t.0.id
  {
    assert PendingHonest(w.sys.db, w.remote, t.0.id, w.sys.pending[t]);
    var k := (t.0.id, w.sys.pending[t].call.urn);
    assert RowHonest(w.sys.db.tenants, w.remote, k, w.sys.db.posts[k]);
  }

  lemma FollowedView(db: Db, remote: Remote, calls: map<M.Thread, Pending>, t: M.Thread, at: Instant, k: PostKey)
    requires t in calls && t.0.ByTenant? && calls[t].Writing? && t.0.id in db.tenants
    requires k in db.posts ==> 0 <= db.posts[k].deletedAt
    ensures var (v, a) := (ViewOf(db, remote, calls, k),
                           ViewOf(WriteStep(db, t.0.id, calls[t].call, calls[t].urn, at, true).0, remote,
                               calls - {t}, k));
            a == if t in v.flights then Followed(v, t) else v
  {
    FlightsAfterEnd(calls, t, k);
    WriteTouchesOneRow(db, t.0.id, calls[t].call, calls[t].urn, at, true);
  }

  lemma WriteApplied(txt: Text, w: World, t: M.Thread, at: Instant)
    requires Enabled(w, M.Event(t, M.Write(at, true)))
    ensures var (a, p) := (Apply(txt, w, M.Event(t, M.Write(at, true))), w.sys.pending[t]);
            && a.sys.db == WriteStep(w.sys.db, t.0.id, p.call, p.urn, at, true).0
            && a.sys.pending == w.sys.pending - {t} && a.remote == w.remote
  {
  }

  lemma WriteView(txt: Text, w: World, t: M.Thread, at: Instant, k: PostKey)
    requires Honest(w) && Enabled(w, M.Event(t, M.Write(at, true)))
    ensures var (v, a) := (WorldView(w, k), WorldView(Apply(txt, w, M.Event(t, M.Write(at, true))), k));
            a == if t in v.flights then Followed(v, t) else v
  {
    WriteApplied(txt, w, t, at);
    assert PendingHonest(w.sys.db, w.remote, t.0.id, w.sys.pending[t]);
    assert k in w.sys.db.posts ==> RowHonest(w.sys.db.tenants, w.remote, k, w.sys.db.posts[k]);
    FollowedView(w.sys.db, w.remote, w.sys.pending, t, at, k);
  }

  lemma OtherApplied(txt: Text, w: World, e: M.Event)
    requires Enabled(w, e) && !e.action.Write? && (e.action.CallApi? ==> e.action.answer.None?)
    ensures var (a, t) := (Apply(txt, w, e), e.thread);
            && a.sys.db.posts == w.sys.db.posts && a.remote == w.remote
            && (t in w.sys.pending ==> !w.sys.pending[t].Writing?)
            && a.sys.pending - {t} == w.sys.pending - {t}
            && (t in a.sys.pending ==> !a.sys.pending[t].Writing?)
  {
  }

  lemma OtherView(txt: Text, w: World, e: M.Event, k: PostKey)
    requires Enabled(w, e) && !e.action.Write? && (e.action.CallApi? ==> e.action.answer.None?)
    ensures WorldView(Apply(txt, w, e), k) == WorldView(w, k)
  {
    OtherApplied(txt, w, e);
    FlightsAfterEnd(w.sys.pending, e.thread, k);
    FlightsAfterEnd(Apply(txt, w, e).sys.pending, e.thread, k);
  }

  /** Whether LinkedIn's answer completes an edit of k while another one is still to be recorded. */
  ghost predicate Overlaps(w: World, k: PostKey, e: M.Event)
    requires Enabled(w, e)
  {
    && e.action.CallApi? && e.action.answer.Some? && e.thread.0 == M.ByTenant(k.0)
    && w.sys.pending[e.thread].call.Update? && w.sys.pending[e.thread].call.urn == k.1
    && exists t :: Updating(WorldView(w, k), t)
  }

  lemma AnswerEventExplained(txt: Text, w: World, t: M.Thread, urn: string, k: PostKey)
    requires Honest(w) && Enabled(w, M.Event(t, M.CallApi(Some(urn)))) && Explained(WorldView(w, k))
    ensures var e := M.Event(t, M.CallApi(Some(urn)));
            var a := WorldView(Apply(txt, w, e), k);
            Explained(a) && (TextExplained(WorldView(w, k)) && !Overlaps(w, k, e) ==> TextExplained(a))
  {
    var (v, a) := (WorldView(w, k), WorldView(Apply(txt, w, M.Event(t, M.CallApi(Some(urn)))), k));
    var c := w.sys.pending[t].call;
    HonestIsSound(w, k);
    AnswerView(txt, w, t, urn, k);
    AnswerStepExplained(v, a, t, c, t.0.id == k.0 && Subject(c, urn) == k.1);
  }

  lemma WriteEventExplained(txt: Text, w: World, t: M.Thread, at: Instant, k: PostKey)
    requires Honest(w) && Enabled(w, M.Event(t, M.Write(at, true))) && Explained(WorldView(w, k))
    ensures var a := WorldView(Apply(txt, w, M.Event(t, M.Write(at, true))), k);
            Explained(a) && (TextExplained(WorldView(w, k)) ==> TextExplained(a))
  {
    HonestIsSound(w, k);
    WriteView(txt, w, t, at, k);
    if t in WorldView(w, k).flights {
      WriteExplained(WorldView(w, k), t);
    }
  }

  lemma EventExplained(txt: Text, w: World, e: M.Event, k: PostKey)
    requires Honest(w) && Enabled(w, e) && (e.action.Write? ==> e.action.ok) && Explained(WorldView(w, k))
    ensures var a := WorldView(Apply(txt, w, e), k);
            Explained(a) && (TextExplained(WorldView(w, k)) && !Overlaps(w, k, e) ==> TextExplained(a))
  {
    if e.action.CallApi? && e.action.answer.Some? {
      AnswerEventExplained(txt, w, e.thread, e.action.answer.value, k);
    } else if e.action.Write? {
      WriteEventExplained(txt, w, e.thread, e.action.at, k);
    } else {
      OtherView(txt, w, e, k);
    }
  }

  // ----- runs -----

  predicate NoFailedWrite(es: seq<M.Event>) {
    forall i :: 0 <= i < |es| && es[i].action.Write? ==> es[i].action.ok
  }

  /** No two edits of k are ever both between LinkedIn's answer and the ledger. */
  ghost predicate NoOverlap(txt: Text, w: World, es: seq<M.Event>, k: PostKey)
    requires IsRun(txt, w, es)
    decreases |es|
  {
    es == [] || (!Overlaps(w, k, es[0]) && NoOverlap(txt, Apply(txt, w, es[0]), es[1..], k))
  }

  lemma {:induction false} RunExplained(txt: Text, w: World, es: seq<M.Event>, k: PostKey)
    requires Honest(w) && IsRun(txt, w, es) && NoFailedWrite(es) && Explained(WorldView(w, k))
    ensures var a := WorldView(After(txt, w, es), k);
            Explained(a) && (TextExplained(WorldView(w, k)) && NoOverlap(txt, w, es, k) ==> TextExplained(a))
    decreases |es|
  {
    if es != [] {
      EventExplained(txt, w, es[0], k);
      EventKeepsHonest(txt, w, es[0]);
      RunExplained(txt, Apply(txt, w, es[0]), es[1..], k);
    }
  }

  // ----- the last texts -----

  /** The text LinkedIn was last given for a post, and the text the ledger last followed with. */
  datatype Last = Last(taken: Option<string>, followed: Option<string>)

  function TextOf(c: Call): Option<string> {
    match c
    case Create(_, r) => Some(r.commentary)
    case Update(_, text) => Some(text)
    case Destroy(_) => None
  }

  /** What one event does to the last texts of post k, read off the event and the call it moves. */
  ghost function Note(w: World, e: M.Event, k: PostKey, last: Last): Last
    requires Enabled(w, e)
  {
    if e.thread.0 != M.ByTenant(k.0) then last
    else match e.action
      case CallApi(Some(urn)) =>
        var c := w.sys.pending[e.thread].call;
        if Subject(c, urn) == k.1 && !c.Destroy? then last.(taken := TextOf(c)) else last
      case Write(_, ok) =>
        var p := w.sys.pending[e.thread];
        if ok && p.urn == k.1 && !p.call.Destroy? then last.(followed := TextOf(p.call)) else last
      case _ => last
  }

  ghost function LastTexts(txt: Text, w: World, es: seq<M.Event>, k: PostKey, last: Last): Last
    requires IsRun(txt, w, es)
    decreases |es|
  {
    if es == [] then last else LastTexts(txt, Apply(txt, w, es[0]), es[1..], k, Note(w, es[0], k, last))
  }

  /** The live post carries the one, the live row the other. */
  predicate Carried(v: View, last: Last) {
    (v.post.Some? ==> v.post == last.taken) && (v.row.Some? ==> v.row == last.followed)
  }

  lemma AnswerCarried(v: View, a: View, t: M.Thread, c: Call, about: bool, last: Last)
    requires Carried(v, last) && AnswerStep(v, a, t, c, about)
    ensures Carried(a, if about && !c.Destroy? then last.(taken := TextOf(c)) else last)
  {
  }

  lemma FollowCarried(v: View, t: M.Thread, last: Last)
    requires Carried(v, last) && t in v.flights
    ensures var c := v.flights[t]; Carried(Followed(v, t), if c.Destroy? then last else last.(followed := TextOf(c)))
  {
  }

  lemma AnswerEventCarried(txt: Text, w: World, t: M.Thread, urn: string, k: PostKey, last: Last)
    requires Honest(w) && Enabled(w, M.Event(t, M.CallApi(Some(urn)))) && Carried(WorldView(w, k), last)
    ensures var e := M.Event(t, M.CallApi(Some(urn))); Carried(WorldView(Apply(txt, w, e), k), Note(w, e, k, last))
  {
    var (v, a) := (WorldView(w, k), WorldView(Apply(txt, w, M.Event(t, M.CallApi(Some(urn)))), k));
    var c := w.sys.pending[t].call;
    AnswerView(txt, w, t, urn, k);
    AnswerCarried(v, a, t, c, t.0.id == k.0 && Subject(c, urn) == k.1, last);
  }

  lemma WriteEventCarried(txt: Text, w: World, t: M.Thread, at: Instant, k: PostKey, last: Last)
    requires Honest(w) && Enabled(w, M.Event(t, M.Write(at, true))) && Carried(WorldView(w, k), last)
    ensures var e := M.Event(t, M.Write(at, true)); Carried(WorldView(Apply(txt, w, e), k), Note(w, e, k, last))
  {
    WriteView(txt, w, t, at, k);
    if t in WorldView(w, k).flights {
      FollowCarried(WorldView(w, k), t, last);
    }
  }

  lemma EventCarried(txt: Text, w: World, e: M.Event, k: PostKey, last: Last)
    requires Honest(w) && Enabled(w, e) && (e.action.Write? ==> e.action.ok) && Carried(WorldView(w, k), last)
    ensures Carried(WorldView(Apply(txt, w, e), k), Note(w, e, k, last))
  {
    if e.action.CallApi? && e.action.answer.Some? {
      AnswerEventCarried(txt, w, e.thread, e.action.answer.value, k, last);
    } else if e.action.Write? {
      WriteEventCarried(txt, w, e.thread, e.action.at, k, last);
    } else {
      OtherView(txt, w, e, k);
    }
  }

  lemma {:induction false} RunCarried(txt: Text, w: World, es: seq<M.Event>, k: PostKey, last: Last)
    requires Honest(w) && IsRun(txt, w, es) && NoFailedWrite(es) && Carried(WorldView(w, k), last)
    ensures Carried(WorldView(After(txt, w, es), k), LastTexts(txt, w, es, k, last))
    decreases |es|
  {
    if es != [] {
      EventCarried(txt, w, es[0], k, last);
      EventKeepsHonest(txt, w, es[0]);
      RunCarried(txt, Apply(txt, w, es[0]), es[1..], k, Note(w, es[0], k, last));
    }
  }

  /** Every interleaving of all tenants' calls in which no ledger write fails, from where the two agree and nothing is
      under way. Whenever no call about a post waits to be recorded, its row is live exactly if the post is, and the two
      agree on it exactly if it is gone or the ledger last followed with the text LinkedIn was last given. */
  lemma QuietMeansAgreement(txt: Text, w: World, es: seq<M.Event>, k: PostKey)
    requires Honest(w) && w.sys.pending == map[] && Agrees(Books(w.sys.db, w.remote), k)
    requires IsRun(txt, w, es) && NoFailedWrite(es) && Flights(After(txt, w, es).sys.pending, k) == map[]
    ensures var (v, a) := (WorldView(w, k), After(txt, w, es));
            var last := LastTexts(txt, w, es, k, Last(v.post, v.row));
            && (PhaseOf(a.sys.db, k) == Alive <==> LivePost(a.remote, k))
            && (Agrees(Books(a.sys.db, a.remote), k) <==>
                  (PhaseOf(a.sys.db, k) == Alive ==> last.taken == last.followed))
  {
    RunExplained(txt, w, es, k);
    RunCarried(txt, w, es, k, Last(WorldView(w, k).post, WorldView(w, k).row));
  }

  /** So edits that never overlap cannot disagree. */
  lemma NoOverlapMeansAgreement(txt: Text, w: World, es: seq<M.Event>, k: PostKey)
    requires Honest(w) && w.sys.pending == map[] && Agrees(Books(w.sys.db, w.remote), k)
    requires IsRun(txt, w, es) && NoFailedWrite(es) && Flights(After(txt, w, es).sys.pending, k) == map[]
    requires NoOverlap(txt, w, es, k)
    ensures Agrees(Books(After(txt, w, es).sys.db, After(txt, w, es).remote), k)
  {
    RunExplained(txt, w, es, k);
  }
}
