/** The life of a post over whole runs: absent, then live, then deleted, and never back. */
module Lifecycle {
  import opened Base
  import opened Tables
  import opened Posts
  import opened PostMachine

  lemma EventAgesRows(txt: Text, s: Sys, e: Event)
    requires Enabled(s, e)
    ensures RowsAge(s.db, Apply(txt, s, e).db)
  {
    match e.action {
      case Write(at, ok) => WriteAgesRows(s.db, e.thread.0.id, s.pending[e.thread].call, s.pending[e.thread].urn,
          at, ok);
      case _ => assert Apply(txt, s, e).db.posts == s.db.posts;
    }
  }

  lemma AgeingIsTransitive(a: Db, b: Db, c: Db)
    requires RowsAge(a, b) && RowsAge(b, c)
    ensures RowsAge(a, c)
  {
  }

  /** Over any run of any interleaving, no row goes, none comes back from deletion, and each keeps its creation time. */
  lemma {:induction false} RunAgesRows(txt: Text, s: Sys, es: seq<Event>)
    requires IsRun(txt, s, es)
    ensures RowsAge(s.db, After(txt, s, es).db)
    decreases |es|
  {
    if es != [] {
      var a := Apply(txt, s, es[0]);
      EventAgesRows(txt, s, es[0]);
      RunAgesRows(txt, a, es[1..]);
      AgeingIsTransitive(s.db, a.db, After(txt, a, es[1..]).db);
    }
  }

  /** Whether this event asks LinkedIn to edit or delete post k on its tenant's behalf. */
  predicate Touches(s: Sys, k: PostKey, e: Event) {
    && e.action.CallApi? && e.thread in s.pending && e.thread.0 == ByTenant(k.0)
    && CallsAbout(k, s.pending[e.thread])
  }

  predicate CallsAbout(k: PostKey, p: Pending) {
    p.Calling? && !p.call.Create? && p.call.urn == k.1
  }

  /** The post is deleted, and no call found it while it was live. */
  ghost predicate Buried(s: Sys, k: PostKey) {
    PhaseOf(s.db, k) == Tombstone && forall t :: t in s.pending && t.0 == ByTenant(k.0) ==> !CallsAbout(k, s.pending[t])
  }

  lemma EventKeepsBuried(txt: Text, s: Sys, e: Event, k: PostKey)
    requires Enabled(s, e) && Buried(s, k)
    ensures Buried(Apply(txt, s, e), k)
  {
    EventAgesRows(txt, s, e);
    if e.action.Find? {
      if FindStep(txt, s.db, e.thread.0.id, s.pending[e.thread].op, e.action.ok).Go? {
        OnlyLivePostsAreCalled(txt, s.db, e.thread.0.id, s.pending[e.thread].op, e.action.ok);
      }
    }
  }

  ghost predicate NeverTouched(txt: Text, s: Sys, es: seq<Event>, k: PostKey)
    requires IsRun(txt, s, es)
    decreases |es|
  {
    es == [] || (!Touches(s, k, es[0]) && NeverTouched(txt, Apply(txt, s, es[0]), es[1..], k))
  }

  lemma {:induction false} BuriedForever(txt: Text, s: Sys, es: seq<Event>, k: PostKey)
    requires IsRun(txt, s, es) && Buried(s, k)
    ensures NeverTouched(txt, s, es, k) && Buried(After(txt, s, es), k)
    decreases |es|
  {
    if es != [] {
      EventKeepsBuried(txt, s, es[0], k);
      BuriedForever(txt, Apply(txt, s, es[0]), es[1..], k);
    }
  }

  /** A call that found the post while it was live can still reach LinkedIn. */
  lemma PendingCallTouches(txt: Text, s: Sys, k: PostKey, t: Thread)
    requires t in s.pending && t.0 == ByTenant(k.0) && CallsAbout(k, s.pending[t])
    ensures var es := [Event(t, CallApi(None))]; IsRun(txt, s, es) && !NeverTouched(txt, s, es, k)
  {
    var e := Event(t, CallApi(None));
    assert IsRun(txt, Apply(txt, s, e), [e][1..]);
    assert Touches(s, k, e);
  }

  /** From a deleted post on, every run leaves it untouched on LinkedIn if and only if no call that found it while
      it was live is still to be sent. */
  lemma UntouchedExactlyWhenBuried(txt: Text, s: Sys, k: PostKey)
    requires PhaseOf(s.db, k) == Tombstone
    ensures (forall es :: IsRun(txt, s, es) ==> NeverTouched(txt, s, es, k)) <==> Buried(s, k)
  {
    if Buried(s, k) {
      forall es | IsRun(txt, s, es) ensures NeverTouched(txt, s, es, k) {
        BuriedForever(txt, s, es, k);
      }
    } else {
      var t :| t in s.pending && t.0 == ByTenant(k.0) && CallsAbout(k, s.pending[t]);
      PendingCallTouches(txt, s, k, t);
    }
  }

  /** The program gets there: an edit that has found its post, a deletion LinkedIn has taken, and then the tombstone. */
  lemma EditOutlivesDeletion(txt: Text, s: Sys, id: string, urn: string, text: string, m: nat, n: nat, at: Instant)
    requires m != n && (id, urn) in s.db.posts
    requires (ByTenant(id), m) in s.pending && s.pending[(ByTenant(id), m)] == Calling(Update(urn, text))
    requires (ByTenant(id), n) in s.pending && s.pending[(ByTenant(id), n)] == Writing(Destroy(urn), urn)
    ensures var e := Event((ByTenant(id), n), Write(at, true));
            && Enabled(s, e)
            && PhaseOf(Apply(txt, s, e).db, (id, urn)) == Tombstone && !Buried(Apply(txt, s, e), (id, urn))
            && Touches(Apply(txt, s, e), (id, urn), Event((ByTenant(id), m), CallApi(Some(urn))))
  {
    var a := Apply(txt, s, Event((ByTenant(id), n), Write(at, true)));
    assert a.pending[(ByTenant(id), m)] == Calling(Update(urn, text));
  }
}
