/** The post tools, statement by statement: each is proved to be exactly one whole call of the ledger's model. */
module PostService {
  import opened Base
  import opened Tables
  import opened Posts
  import opened Agreement
  import Ledger
  import Listings
  import M = PostMachine
  import Scopes
  import S = Store

  /** The member's posts on LinkedIn; `answer` is what LinkedIn replies, None for a failure that changed nothing. */
  class LinkedIn {
    var posts: Ledger.Remote

    constructor ()
      ensures posts == map[]
    {
      posts := map[];
    }

    method CreatePost(author: string, r: PublishRequest, creator: string,
                      answer: Option<string>) returns (urn: Option<string>)
      modifies this
      ensures urn == answer && posts == Ledger.RemoteAfter(old(posts), creator, Create(author, r), answer)
    {
      if answer.Some? {
        posts := posts[answer.value := Ledger.RemotePost(author, r.commentary, true, creator)];
      }
      return answer;
    }

    method UpdatePostCommentary(urn: string, text: string, creator: string, answer: Option<string>) returns (done: bool)
      modifies this
      ensures done == answer.Some? && posts == Ledger.RemoteAfter(old(posts), creator, Update(urn, text), answer)
    {
      if answer.Some? && urn in posts {
        posts := posts[urn := posts[urn].(text := text)];
      }
      return answer.Some?;
    }

    /** Succeeds whether or not the post is still there. */
    method DeletePost(urn: string, creator: string, answer: Option<string>) returns (done: bool)
      modifies this
      ensures done == answer.Some? && posts == Ledger.RemoteAfter(old(posts), creator, Destroy(urn), answer)
    {
      if answer.Some? && urn in posts {
        posts := posts[urn := posts[urn].(live := false)];
      }
      return answer.Some?;
    }
  }

  // ----- what the tools answer -----

  datatype PublishOutput = PublishOutput(
    preview: bool, postUrn: string, permalink: string, author: string, commentary: string, visibility: string,
    kind: string, articleUrl: string, reshareOf: string)

  datatype EditOutput = EditOutput(
    preview: bool, edited: bool, postUrn: string, permalink: string, oldCommentary: string, newCommentary: string)

  datatype DeleteOutput = DeleteOutput(preview: bool, deleted: bool, postUrn: string, commentary: string)

  /** Text and visibility are the input's, cleaned: trimmed, in capitals, and public if nothing else was asked for. */
  predicate ShowsInput(txt: Text, i: PublishInput, commentary: string, visibility: string) {
    && commentary == txt.trim(i.commentary)
    && visibility == (if txt.upper(txt.trim(i.visibility)) == "CONNECTIONS" then "CONNECTIONS" else "PUBLIC")
  }

  /** The whole request is the input, cleaned. */
  predicate IsCleaned(txt: Text, i: PublishInput, r: PublishRequest) {
    && ShowsInput(txt, i, r.commentary, r.visibility)
    && r.articleUrl == txt.trim(i.articleUrl) && r.articleTitle == txt.trim(i.articleTitle)
    && r.articleDescription == txt.trim(i.articleDescription)
    && r.reshareOf == txt.trim(i.reshareOf) && r.disableReshare == i.disableReshare
  }

  /** A publication asks LinkedIn to create the cleaned input in the member's name, and nothing else. */
  lemma CreatesInput(txt: Text, db: Db, tenantId: string, i: PublishInput, env: Env)
    requires Decide(txt, db, tenantId, Publish(i), env).Go?
    ensures var p := Decide(txt, db, tenantId, Publish(i), env).pending;
            && p.Calling? && p.call.Create? && IsCleaned(txt, i, p.call.request)
            && tenantId in db.tenants && p.call.author == "urn:li:person:" + db.tenants[tenantId].memberId
  {
  }

  predicate LinksTo(permalink: string, urn: string) {
    permalink == if urn == "" then "" else "https://www.linkedin.com/feed/update/" + urn + "/"
  }

  /** The row a recorded publication leaves: the cleaned input, with the dates of the row that was there, or else as
      created in the second of the reading, neither edited nor deleted. */
  predicate RowOf(row: PostRow, was: Option<PostRow>, txt: Text, i: PublishInput, urn: string, at: Instant) {
    && ShowsInput(txt, i, row.commentary, row.visibility) && LinksTo(row.permalink, urn)
    && row.createdAt == (if was.Some? then was.value.createdAt else Unix(at))
    && row.updatedAt == (if was.Some? then was.value.updatedAt else 0)
    && row.deletedAt == (if was.Some? then was.value.deletedAt else 0)
  }

  /** A publication touches the ledger only when it is recorded, and then only its own row. */
  lemma PublishedRow(txt: Text, b: Books, tenantId: string, i: PublishInput, env: Env)
    ensures var (after, r) := Perform(txt, b, tenantId, Publish(i), env);
            if r.Written? && r.recorded
            then
              && Some(r.urn) == env.answer && (tenantId, r.urn) in after.db.posts
              && RowOf(after.db.posts[(tenantId, r.urn)], LedgerPost(b.db, tenantId, r.urn), txt, i, r.urn, env.at)
              && after.db == b.db.(posts := b.db.posts[(tenantId, r.urn) := after.db.posts[(tenantId, r.urn)]])
            else after.db == b.db
  {
  }

  /** Of two new posts published in different seconds, whatever calls came between and after, every listing shows the
      later one first, and none shows only the earlier one unless the later one is deleted and the listing leaves
      deleted posts out. */
  lemma LaterPublicationFirst(txt: Text, start: Books, tenantId: string, i: PublishInput, env: Env, mid: Books,
                              j: PublishInput, later: Env, end: Db, all: bool, limit: int, urns: seq<string>, k: nat)
    requires Recorded(Perform(txt, start, tenantId, Publish(i), env).1)
    requires Recorded(Perform(txt, mid, tenantId, Publish(j), later).1)
    requires var first := Perform(txt, start, tenantId, Publish(i), env);
             (tenantId, first.1.urn) !in start.db.posts && RowsAge(first.0.db, mid.db)
             && k < |urns| && urns[k] == first.1.urn
    requires var second := Perform(txt, mid, tenantId, Publish(j), later);
             (tenantId, second.1.urn) !in mid.db.posts && RowsAge(second.0.db, end)
    requires Unix(env.at) < Unix(later.at) && IsListing(end, tenantId, all, limit, urns)
    ensures var second := Perform(txt, mid, tenantId, Publish(j), later).1.urn;
            if second in Selected(end, tenantId, all) then exists l :: 0 <= l < k && urns[l] == second
            else second !in urns
  {
    PublishedRow(txt, start, tenantId, i, env);
    PublishedRow(txt, mid, tenantId, j, later);
    var (u, v) := (urns[k], Perform(txt, mid, tenantId, Publish(j), later).1.urn);
    assert (tenantId, u) in end.posts && end.posts[(tenantId, u)].createdAt == Unix(env.at);
    assert (tenantId, v) in end.posts && end.posts[(tenantId, v)].createdAt == Unix(later.at);
    if v in urns {
      var l :| 0 <= l < |urns| && urns[l] == v;
      assert l != k;
    }
  }

  predicate Recorded(r: Reply) {
    r.Written? && r.recorded
  }

  /** Some exactly for publishable requests: with a visibility LinkedIn knows or none, with a text or a post to
      reshare, and with an https article that is no reshare, if any. The request is the input, trimmed; the visibility
      is in capitals, and PUBLIC if none was given. */
  method BuildPublishRequest(txt: Text, i: PublishInput) returns (r: Option<PublishRequest>)
    ensures r == if Publishable(Request(txt, i)) then Some(Request(txt, i)) else None
    ensures var v := txt.upper(txt.trim(i.visibility));
            var (article, reshare) := (txt.trim(i.articleUrl), txt.trim(i.reshareOf));
            r.Some? <==>
              && v in {"", "PUBLIC", "CONNECTIONS"} && (txt.trim(i.commentary) != "" || reshare != "")
              && (article == "" || ("https://" <= article && 11 <= |article| && reshare == ""))
              && (reshare == "" || "urn:li:" <= reshare)
    ensures r.Some? ==> IsCleaned(txt, i, r.value)
  {
    var visibility := txt.upper(txt.trim(i.visibility));
    var req := PublishRequest(txt.trim(i.commentary), visibility, txt.trim(i.articleUrl), txt.trim(i.articleTitle),
                              txt.trim(i.articleDescription), txt.trim(i.reshareOf), i.disableReshare);
    if req.visibility == "" {
      req := req.(visibility := "PUBLIC");
    }
    if req.visibility != "PUBLIC" && req.visibility != "CONNECTIONS" {
      return None;
    }
    if req.commentary == "" && req.reshareOf == "" {
      return None;
    }
    if req.articleUrl != "" {
      if !HasPrefix(req.articleUrl, "https://") || |req.articleUrl| < |"https://x.y"| {
        return None;
      }
      if req.reshareOf != "" {
        return None;
      }
    }
    if req.reshareOf != "" && !HasPrefix(req.reshareOf, "urn:li:") {
      return None;
    }
    return Some(req);
  }

  /** A post as list_posts shows it. */
  datatype ListedPost = ListedPost(urn: string, commentary: string, visibility: string, permalink: string,
                                   createdAt: int, deleted: bool)

  predicate Shows(p: ListedPost, row: PostRow) {
    && p.commentary == row.commentary && p.visibility == row.visibility && p.permalink == row.permalink
    && p.createdAt == row.createdAt * SECOND && (p.deleted <==> row.deletedAt > 0)
  }

  function ListedUrns(posts: seq<ListedPost>): (urns: seq<string>)
    ensures |urns| == |posts| && forall i :: 0 <= i < |posts| ==> urns[i] == posts[i].urn
  {
    seq(|posts|, i requires 0 <= i < |posts| => posts[i].urn)
  }

  /** A listing, as list_posts shows its rows. */
  ghost predicate IsShownListing(db: Db, tenantId: string, includeDeleted: bool, limit: int, posts: seq<ListedPost>) {
    && IsListing(db, tenantId, includeDeleted, limit, ListedUrns(posts))
    && forall i :: 0 <= i < |posts| ==>
         (tenantId, posts[i].urn) in db.posts && Shows(posts[i], db.posts[(tenantId, posts[i].urn)])
  }

  datatype Listing = Refused(reason: Reason) | ByLinkedIn | ByLedger(posts: seq<ListedPost>)

  method CountLive(posts: seq<S.LedgerPost>) returns (n: nat)
    ensures n == |Listings.LiveAt(posts, |posts|)|
  {
    n := 0;
    assert Listings.LiveAt(posts, 0) == {};
    for k := 0 to |posts|
      invariant n == |Listings.LiveAt(posts, k)|
    {
      if !posts[k].Deleted() {
        n := n + 1;
        assert Listings.LiveAt(posts, k + 1) == Listings.LiveAt(posts, k) + {k};
      } else {
        assert Listings.LiveAt(posts, k + 1) == Listings.LiveAt(posts, k);
      }
    }
  }

  class Service {
    const store: S.Store
    const api: LinkedIn
    const txt: Text

    constructor (store: S.Store, api: LinkedIn, txt: Text)
      ensures this.store == store && this.api == api && this.txt == txt
    {
      this.store, this.api, this.txt := store, api, txt;
    }

    ghost function Now(): Books
      reads store, api
    {
      Books(store.Snapshot(), api.posts)
    }

    method RequireScope(t: Tenant, scope: string) returns (ok: bool)
      ensures ok <==> scope in t.scopes
    {
      ok := Scopes.HasScope(t.scopes, scope);
    }

    method OwnedPost(tenantId: string, urn: string, ok: bool) returns (r: S.Result<S.LedgerPost>, valid: bool)
      ensures valid <==> txt.trim(urn) != "" && HasPrefix(urn, "urn:li:")
      ensures valid && ok ==> match LedgerPost(store.Snapshot(), tenantId, urn)
                              case Some(row) => r == S.Ok(S.Scanned(urn, row))
                              case None => r == S.NotFound
      ensures valid && !ok ==> r == S.Broken
    {
      if txt.trim(urn) == "" || !HasPrefix(urn, "urn:li:") {
        return S.NotFound, false;
      }
      r := store.LedgerPost(tenantId, urn, ok);
      valid := true;
    }

    /** Beside the reply: what a preview or a publication shows, namely the cleaned input. A recorded publication of a
        new URN leaves a live row that says what is shown, created in the second of the reading; one of a known URN
        rewrites its text, visibility and link; no other row changes. */
    method PublishPost(tenantId: string, i: PublishInput, env: Env) returns (r: Reply, out: Option<PublishOutput>)
      requires store.Valid()
      modifies store`posts, api
      ensures store.Valid()
      ensures (Now(), r) == old(Perform(txt, Now(), tenantId, Publish(i), env))
      ensures out.Some? <==> r.Preview? || r.Written?
      ensures out.Some? ==>
                && tenantId in store.tenants && out.value.author == store.tenants[tenantId].displayName
                && ShowsInput(txt, i, out.value.commentary, out.value.visibility)
                && out.value.articleUrl == txt.trim(i.articleUrl) && out.value.reshareOf == txt.trim(i.reshareOf)
                && out.value.kind == (if txt.trim(i.reshareOf) != "" then "reshare"
                                      else if txt.trim(i.articleUrl) != "" then "article" else "text")
                && out.value.preview == !i.confirm == r.Preview?
                && (out.value.preview ==> out.value.postUrn == "")
                && (r.Written? ==> out.value.postUrn == r.urn) && LinksTo(out.value.permalink, out.value.postUrn)
      ensures if r.Written? && r.recorded
              then
                && Some(r.urn) == env.answer && (tenantId, r.urn) in store.posts
                && RowOf(store.posts[(tenantId, r.urn)], old(LedgerPost(store.Snapshot(), tenantId, r.urn)), txt, i,
                         r.urn, env.at)
                && store.posts == old(store.posts)[(tenantId, r.urn) := store.posts[(tenantId, r.urn)]]
              else store.posts == old(store.posts)
    {
      PublishedRow(txt, Now(), tenantId, i, env);
      var tenant := store.TenantById(tenantId, env.tenantOk);
      if !tenant.Ok? {
        return Rejected(if tenant.Broken? then StoreFailed else NoTenant), None;
      }
      var granted := RequireScope(tenant.value, SCOPE_WRITE);
      if !granted {
        return Rejected(ScopeMissing), None;
      }
      var request := BuildPublishRequest(txt, i);
      if request.None? {
        return Rejected(InvalidInput), None;
      }
      var req := request.value;
      var o := PublishOutput(false, "", "", tenant.value.displayName, req.commentary, req.visibility, "text",
                             req.articleUrl, req.reshareOf);
      if req.reshareOf != "" {
        o := o.(kind := "reshare");
      } else if req.articleUrl != "" {
        o := o.(kind := "article");
      }
      if !i.confirm {
        return Preview("", req.commentary), Some(o.(preview := true));
      }
      var urn := api.CreatePost(tenant.value.MemberURN(), req, tenantId, env.answer);
      if urn.None? {
        return Rejected(ApiFailed), None;
      }
      o := o.(postUrn := urn.value, permalink := Permalink(urn.value));
      var recorded := store.RecordPost(tenantId, urn.value, NewRow(req, urn.value, env.at), env.writeOk);
      return Written(urn.value, recorded), Some(o);
    }

    /** Beside the reply: the old text and the new one. */
    method EditPost(tenantId: string, urn: string, text: string, confirm: bool, env: Env)
      returns (r: Reply, out: Option<EditOutput>)
      requires store.Valid()
      modifies store`posts, api
      ensures store.Valid()
      ensures (Now(), r) == old(Perform(txt, Now(), tenantId, Edit(urn, text, confirm), env))
      ensures out.Some? <==> r.Preview? || r.Written?
      ensures out.Some? ==>
                && (tenantId, urn) in old(store.posts)
                && var row := old(store.posts)[(tenantId, urn)];
                   out.value == EditOutput(r.Preview?, Recorded(r), urn, row.permalink, row.commentary, txt.trim(text))
      ensures if r.Written? && r.recorded
              then
                && (tenantId, urn) in old(store.posts)
                && store.posts == old(store.posts)[(tenantId, urn) := old(store.posts)[(tenantId, urn)].(
                     commentary := txt.trim(text), updatedAt := Unix(env.at))]
              else store.posts == old(store.posts)
    {
      var tenant := store.TenantById(tenantId, env.tenantOk);
      if !tenant.Ok? {
        return Rejected(if tenant.Broken? then StoreFailed else NoTenant), None;
      }
      var granted := RequireScope(tenant.value, SCOPE_WRITE);
      if !granted {
        return Rejected(ScopeMissing), None;
      }
      var commentary := txt.trim(text);
      if commentary == "" {
        return Rejected(InvalidInput), None;
      }
      var post, valid := OwnedPost(tenantId, urn, env.rowOk);
      if !valid {
        return Rejected(InvalidInput), None;
      }
      if !post.Ok? {
        return Rejected(if post.Broken? then StoreFailed else UnknownPost), None;
      }
      if post.value.Deleted() {
        return Rejected(PostDeleted), None;
      }
      var o := EditOutput(false, false, post.value.urn, post.value.permalink, post.value.commentary, commentary);
      if !confirm {
        return Preview(urn, commentary), Some(o.(preview := true));
      }
      var done := api.UpdatePostCommentary(post.value.urn, commentary, tenantId, env.answer);
      if !done {
        return Rejected(ApiFailed), None;
      }
      var recorded := store.UpdateLedgerCommentary(tenantId, post.value.urn, commentary, env.at, env.writeOk);
      return Written(urn, recorded), Some(o.(edited := recorded));
    }

    /** Beside the reply: the text of the post, and whether ledger and LinkedIn are done with it. */
    method DeletePost(tenantId: string, urn: string, confirm: bool, env: Env) returns (r: Reply,
                      out: Option<DeleteOutput>)
      requires store.Valid()
      modifies store`posts, api
      ensures store.Valid()
      ensures (Now(), r) == old(Perform(txt, Now(), tenantId, Delete(urn, confirm), env))
      ensures out.Some? <==> r.Preview? || r.AlreadyDeleted? || r.Written?
      ensures out.Some? ==>
                && (tenantId, urn) in old(store.posts)
                && out.value == DeleteOutput(r.Preview?, r.AlreadyDeleted? || Recorded(r), urn,
                                             old(store.posts)[(tenantId, urn)].commentary)
      ensures if r.Written? && r.recorded
              then
                && (tenantId, urn) in old(store.posts)
                && store.posts == old(store.posts)[(tenantId, urn) := old(store.posts)[(tenantId, urn)].(
                     deletedAt := Unix(env.at))]
              else store.posts == old(store.posts)
    {
      var tenant := store.TenantById(tenantId, env.tenantOk);
      if !tenant.Ok? {
        return Rejected(if tenant.Broken? then StoreFailed else NoTenant), None;
      }
      var granted := RequireScope(tenant.value, SCOPE_WRITE);
      if !granted {
        return Rejected(ScopeMissing), None;
      }
      var post, valid := OwnedPost(tenantId, urn, env.rowOk);
      if !valid {
        return Rejected(InvalidInput), None;
      }
      if !post.Ok? {
        return Rejected(if post.Broken? then StoreFailed else UnknownPost), None;
      }
      var o := DeleteOutput(false, false, post.value.urn, post.value.commentary);
      if post.value.Deleted() {
        return AlreadyDeleted(urn), Some(o.(deleted := true));
      }
      if !confirm {
        return Preview(urn, post.value.commentary), Some(o.(preview := true));
      }
      var done := api.DeletePost(post.value.urn, tenantId, env.answer);
      if !done {
        return Rejected(ApiFailed), None;
      }
      var recorded := store.MarkPostDeleted(tenantId, post.value.urn, env.at, env.writeOk);
      return Written(urn, recorded), Some(o.(deleted := recorded));
    }

    /** `remote` is LinkedIn's answer: Some(true) for its list, Some(false) for a failure, None for a rejected token. */
    method ListPosts(tenantId: string, includeDeleted: bool, limit: int, tenantOk: bool, remote: Option<bool>,
                     listOk: bool)
      returns (r: Listing)
      ensures !tenantOk ==> r == Refused(StoreFailed)
      ensures tenantOk && tenantId !in store.tenants ==> r == Refused(NoTenant)
      ensures tenantOk && tenantId in store.tenants ==>
                if "r_member_social" in Scopes.Fields(store.tenants[tenantId].scopes) && remote.Some?
                then r == if remote.value then ByLinkedIn else Refused(ApiFailed)
                else if !listOk then r == Refused(StoreFailed)
                else r.ByLedger?
      ensures tenantOk && tenantId in store.tenants ==>
                (r.ByLedger? || r == Refused(StoreFailed)
                 <==> M.FromLedger(FromRow(tenantId, store.tenants[tenantId]), remote))
      ensures var asked := if limit <= 0 then 25 else if limit > 100 then 100 else limit;
              var rows := |Selected(store.Snapshot(), tenantId, includeDeleted)|;
              r.ByLedger? ==>
                && |r.posts| == (if rows < asked then rows else asked)
                && IsShownListing(store.Snapshot(), tenantId, includeDeleted, asked, r.posts)
    {
      var tenant := store.TenantById(tenantId, tenantOk);
      if !tenant.Ok? {
        return Refused(if tenant.Broken? then StoreFailed else NoTenant);
      }
      var granted := Scopes.HasScope(tenant.value.scopes, SCOPE_READ);
      if granted {
        if remote.Some? {
          return if remote.value then ByLinkedIn else Refused(ApiFailed);
        }
      }
      var ledger := store.LedgerPosts(tenantId, includeDeleted, ClampLimit(limit, DEFAULT_LIMIT, MAX_LIMIT), listOk);
      if !ledger.Ok? {
        return Refused(StoreFailed);
      }
      var posts: seq<ListedPost> := [];
      for n := 0 to |ledger.value|
        invariant |posts| == n
        invariant forall i :: 0 <= i < n ==>
                    posts[i].urn == ledger.value[i].urn && Shows(posts[i], store.posts[(tenantId, ledger.value[i].urn)])
      {
        var p := ledger.value[n];
        posts := posts + [ListedPost(p.urn, p.commentary, p.visibility, p.permalink, p.createdAt, p.Deleted())];
      }
      assert ListedUrns(posts) == S.Urns(ledger.value);
      return ByLedger(posts);
    }

    /** The counts of connection_status, over the newest 100 rows, tombstones included. */
    method LedgerCounts(tenantId: string, ok: bool) returns (r: Option<(nat, nat)>)
      requires store.Valid()
      ensures r.None? <==> !ok
      ensures ok ==> var rows := |Selected(store.Snapshot(), tenantId, true)|;
                r.value.0 + r.value.1 == (if rows < 100 then rows else 100)
      ensures ok ==> exists urns :: IsListing(store.Snapshot(), tenantId, true, MAX_LIMIT, urns)
                                    && r.value.0 == |Listings.LiveAmong(store.Snapshot(), tenantId, urns)|
    {
      var ledger := store.LedgerPosts(tenantId, true, MAX_LIMIT, ok);
      if !ledger.Ok? {
        return None;
      }
      var live := CountLive(ledger.value);
      Listings.LiveByPosition(store.Snapshot(), tenantId, ledger.value);
      return Some((live, |ledger.value| - live));
    }
  }
}
