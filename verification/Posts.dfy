/** Publishing, editing and deleting posts: what each call does between its statements.

    Text trimming and upper-casing are library behaviour and enter as functions. LinkedIn's
    answers, the clock and whether the database works come in from outside.
  */
module Posts {
  import opened Base
  import opened Tables

  const SCOPE_WRITE := "w_member_social"
  const SCOPE_READ := "r_member_social"
  const DEFAULT_LIMIT := 25
  const MAX_LIMIT := 100

  datatype Text = Text(trim: string -> string, upper: string -> string)

  datatype PublishInput = PublishInput(
    commentary: string, visibility: string, articleUrl: string, articleTitle: string,
    articleDescription: string, reshareOf: string, disableReshare: bool, confirm: bool)

  datatype PublishRequest = PublishRequest(
    commentary: string, visibility: string, articleUrl: string, articleTitle: string,
    articleDescription: string, reshareOf: string, disableReshare: bool)

  datatype Op =
    | Publish(input: PublishInput)
    | Edit(urn: string, text: string, confirm: bool)
    | Delete(urn: string, confirm: bool)

  /** What LinkedIn is asked to do. */
  datatype Call =
    | Create(author: string, request: PublishRequest)
    | Update(urn: string, text: string)
    | Destroy(urn: string)

  datatype Reason = NoTenant | ScopeMissing | InvalidInput | UnknownPost | PostDeleted | StoreFailed | ApiFailed

  /** Written is an answer after LinkedIn did what it was asked; recorded says whether the ledger knows. */
  datatype Reply =
    | Rejected(reason: Reason)
    | Preview(urn: string, text: string)
    | AlreadyDeleted(urn: string)
    | Written(urn: string, recorded: bool)
    | Listed(posts: seq<(string, PostRow)>)
    | FromLinkedIn
    | LoggedIn(tenantId: string)

  /** A call between two of its steps. */
  datatype Pending =
    | Finding(op: Op)
    | Calling(call: Call)
    | Writing(call: Call, urn: string)
    | Joining(tenant: Tenant)

  datatype Next = Answer(reply: Reply) | Go(pending: Pending)

  // ----- checks -----

  predicate HasPrefix(s: string, p: string) {
    p <= s
  }

  function Request(txt: Text, i: PublishInput): PublishRequest {
    var v := txt.upper(txt.trim(i.visibility));
    PublishRequest(txt.trim(i.commentary), if v == "" then "PUBLIC" else v, txt.trim(i.articleUrl),
                   txt.trim(i.articleTitle), txt.trim(i.articleDescription), txt.trim(i.reshareOf), i.disableReshare)
  }

  /** A visibility LinkedIn knows, some content, an https article or a reshare but not both. */
  predicate Publishable(r: PublishRequest) {
    && r.visibility in {"PUBLIC", "CONNECTIONS"}
    && (r.commentary != "" || r.reshareOf != "")
    && (r.articleUrl != "" ==>
          HasPrefix(r.articleUrl, "https://") && |r.articleUrl| >= |"https://x.y"| && r.reshareOf == "")
    && (r.reshareOf != "" ==> HasPrefix(r.reshareOf, "urn:li:"))
  }

  function Permalink(urn: string): string {
    if urn == "" then "" else "https://www.linkedin.com/feed/update/" + urn + "/"
  }

  // ----- steps -----

  /** Everything up to the ledger: a publication may go straight to LinkedIn, the others still have to find their
      post. */
  function StartStep(txt: Text, db: Db, tenantId: string, op: Op, ok: bool): Next {
    if !ok then Answer(Rejected(StoreFailed))
    else match TenantById(db.tenants, tenantId)
      case None => Answer(Rejected(NoTenant))
      case Some(t) =>
        if SCOPE_WRITE !in t.scopes then Answer(Rejected(ScopeMissing))
        else match op
          case Publish(i) =>
            var r := Request(txt, i);
            if !Publishable(r) then Answer(Rejected(InvalidInput))
            else if !i.confirm then Answer(Preview("", r.commentary))
            else Go(Calling(Create(t.MemberURN(), r)))
          case Edit(_, text, _) => if txt.trim(text) == "" then Answer(Rejected(InvalidInput)) else Go(Finding(op))
          case Delete(_, _) => Go(Finding(op))
  }

  /** From the row of this tenant to an answer or a call to LinkedIn. */
  function FindStep(txt: Text, db: Db, tenantId: string, op: Op, ok: bool): Next
    requires !op.Publish?
  {
    if txt.trim(op.urn) == "" || !HasPrefix(op.urn, "urn:li:") then Answer(Rejected(InvalidInput))
    else if !ok then Answer(Rejected(StoreFailed))
    else match LedgerPost(db, tenantId, op.urn)
      case None => Answer(Rejected(UnknownPost))
      case Some(row) =>
        match op
        case Edit(urn, text, confirm) =>
          if row.Deleted() then Answer(Rejected(PostDeleted))
          else if !confirm then Answer(Preview(urn, txt.trim(text)))
          else Go(Calling(Update(urn, txt.trim(text))))
        case Delete(urn, confirm) =>
          if row.Deleted() then Answer(AlreadyDeleted(urn))
          else if !confirm then Answer(Preview(urn, row.commentary))
          else Go(Calling(Destroy(urn)))
  }

  /** LinkedIn's answer: the URN it was about, or a failure. */
  function CallStep(c: Call, answer: Option<string>): Next {
    match answer
    case None => Answer(Rejected(ApiFailed))
    case Some(urn) => Go(Writing(c, if c.Create? then urn else c.urn))
  }

  function NewRow(r: PublishRequest, urn: string, at: Instant): PostRow {
    PostRow(r.commentary, r.visibility, Permalink(urn), Unix(at), 0, 0)
  }

  /** The ledger follows. */
  function WriteStep(db: Db, tenantId: string, c: Call, urn: string, at: Instant, ok: bool): (Db, Reply) {
    if !ok then (db, Written(urn, false))
    else match c
      case Create(_, r) =>
        (match RecordPost(db, tenantId, urn, NewRow(r, urn, at))
         case Some(after) => (after, Written(urn, true))
         case None => (db, Written(urn, false)))
      case Update(_, text) => (UpdateLedgerCommentary(db, tenantId, urn, text, at), Written(urn, true))
      case Destroy(_) => (MarkPostDeleted(db, tenantId, urn, at), Written(urn, true))
  }

  /** The one row a write may put: a function of the row that was there. */
  function RowWritten(was: Option<PostRow>, tenantKnown: bool, c: Call, urn: string, at: Instant,
                      ok: bool): Option<PostRow> {
    if !ok then None
    else match c
      case Create(_, r) =>
        var n := NewRow(r, urn, at);
        if !tenantKnown then None
        else if was.Some? then
          Some(was.value.(commentary := n.commentary, visibility := n.visibility, permalink := n.permalink))
        else Some(n)
      case Update(_, text) => if was.Some? then Some(was.value.(commentary := text, updatedAt := Unix(at))) else None
      case Destroy(_) => if was.Some? then Some(was.value.(deletedAt := Unix(at))) else None
  }

  /** A write touches one row of one tenant and nothing else. */
  lemma WriteTouchesOneRow(db: Db, tenantId: string, c: Call, urn: string, at: Instant, ok: bool)
    ensures var row := RowWritten(LedgerPost(db, tenantId, urn), tenantId in db.tenants, c, urn, at, ok);
            && WriteStep(db, tenantId, c, urn, at, ok).0 ==
               (if row.Some? then db.(posts := db.posts[(tenantId, urn) := row.value]) else db)
            && WriteStep(db, tenantId, c, urn, at, ok).1 == Written(urn, ok && (c.Create? ==> tenantId in db.tenants))
  {
  }

  function ClampLimit(limit: int, def: int, max: int): int {
    if limit <= 0 then def else if limit > max then max else limit
  }

  // ----- what a ledger statement means to the tools -----

  /** Who finds a post: the tenant that recorded it, and nobody who did not have it before. */
  lemma RecordedIsFoundByItsOwner(db: Db, owner: string, urn: string, p: PostRow, reader: string)
    requires RecordPost(db, owner, urn, p).Some?
    ensures var after := RecordPost(db, owner, urn, p).value;
            && (reader != owner ==> LedgerPost(after, reader, urn) == LedgerPost(db, reader, urn))
            && LedgerPost(after, owner, urn).Some? && LedgerPost(after, owner, urn).value.commentary == p.commentary
  {
  }

  /** An edited row reads back with the new text, was edited in that second, and is otherwise itself; a live one can
      still be edited and deleted, a deleted one stays deleted; without a row there is nothing to edit. */
  lemma EditedReadsBack(db: Db, tenantId: string, urn: string, text: string, at: Instant)
    ensures var after := UpdateLedgerCommentary(db, tenantId, urn, text, at);
            var (was, now) := (LedgerPost(db, tenantId, urn), LedgerPost(after, tenantId, urn));
            && (was.None? <==> now.None?)
            && (now.Some? ==>
                  now.value == was.value.(commentary := text, updatedAt := Unix(at)) && 0 < now.value.updatedAt)
            && PhaseOf(after, (tenantId, urn)) == PhaseOf(db, (tenantId, urn))
            && forall k :: k != (tenantId, urn) ==> LedgerPost(after, k.0, k.1) == LedgerPost(db, k.0, k.1)
  {
  }

  /** A row marked deleted is a tombstone: shown by a listing only when asked for, refused by every edit, and
      answered by every deletion without LinkedIn; nobody else's row changes. */
  lemma MarkedIsTombstone(txt: Text, db: Db, tenantId: string, urn: string, at: Instant, op: Op, ok: bool)
    requires (tenantId, urn) in db.posts && !op.Publish? && op.urn == urn
    ensures var after := MarkPostDeleted(db, tenantId, urn, at);
            && PhaseOf(after, (tenantId, urn)) == Tombstone
            && LedgerPost(after, tenantId, urn) == Some(db.posts[(tenantId, urn)].(deletedAt := Unix(at)))
            && urn in Selected(after, tenantId, true) && urn !in Selected(after, tenantId, false)
            && FindStep(txt, after, tenantId, op, ok).Answer?
            && (txt.trim(urn) != "" && HasPrefix(urn, "urn:li:") && ok ==>
                  FindStep(txt, after, tenantId, op, ok)
                  == Answer(if op.Edit? then Rejected(PostDeleted) else AlreadyDeleted(urn)))
            && forall k :: k != (tenantId, urn) ==> LedgerPost(after, k.0, k.1) == LedgerPost(db, k.0, k.1)
  {
    var after := MarkPostDeleted(db, tenantId, urn, at);
    assert (tenantId, urn) in after.posts;
  }

  // ----- the life of a ledger row, under every statement of the store -----

  datatype Phase = Absent | Alive | Tombstone

  function PhaseOf(db: Db, k: PostKey): Phase {
    if k !in db.posts then Absent else if db.posts[k].Deleted() then Tombstone else Alive
  }

  predicate NotBefore(a: Phase, b: Phase) {
    a == Absent || a == b || b == Tombstone
  }

  /** A row never goes back, and keeps the time it was created. */
  ghost predicate RowsAge(before: Db, after: Db) {
    forall k :: k in before.posts ==>
      && k in after.posts && NotBefore(PhaseOf(before, k), PhaseOf(after, k))
      && after.posts[k].createdAt == before.posts[k].createdAt
  }

  lemma RecordAgesRows(db: Db, tenantId: string, urn: string, p: PostRow)
    requires RecordPost(db, tenantId, urn, p).Some?
    ensures RowsAge(db, RecordPost(db, tenantId, urn, p).value)
  {
  }

  lemma UpdateAgesRows(db: Db, tenantId: string, urn: string, text: string, at: Instant)
    ensures RowsAge(db, UpdateLedgerCommentary(db, tenantId, urn, text, at))
  {
  }

  lemma MarkAgesRows(db: Db, tenantId: string, urn: string, at: Instant)
    ensures RowsAge(db, MarkPostDeleted(db, tenantId, urn, at))
  {
  }

  /** Deleting a tenant is the only way a row goes, and it takes that tenant's rows only. */
  lemma OnlyTenantDeletionDropsRows(db: Db, id: string)
    ensures forall k :: k in db.posts ==>
              if k.0 == id then k !in DeleteTenant(db, id).posts
              else k in DeleteTenant(db, id).posts && DeleteTenant(db, id).posts[k] == db.posts[k]
  {
  }

  lemma WriteAgesRows(db: Db, tenantId: string, c: Call, urn: string, at: Instant, ok: bool)
    ensures RowsAge(db, WriteStep(db, tenantId, c, urn, at, ok).0)
  {
    match c {
      case Create(_, r) =>
        if RecordPost(db, tenantId, urn, NewRow(r, urn, at)).Some? {
          RecordAgesRows(db, tenantId, urn, NewRow(r, urn, at));
        }
      case Update(_, text) => UpdateAgesRows(db, tenantId, urn, text, at);
      case Destroy(_) => MarkAgesRows(db, tenantId, urn, at);
    }
  }

  /** An edit or a deletion reaches LinkedIn only for a post this tenant recorded and has not deleted. */
  lemma OnlyLivePostsAreCalled(txt: Text, db: Db, tenantId: string, op: Op, ok: bool)
    requires !op.Publish? && FindStep(txt, db, tenantId, op, ok).Go?
    ensures PhaseOf(db, (tenantId, op.urn)) == Alive && op.confirm
    ensures FindStep(txt, db, tenantId, op, ok) ==
            Go(Calling(if op.Edit? then Update(op.urn, txt.trim(op.text)) else Destroy(op.urn)))
  {
  }
}
