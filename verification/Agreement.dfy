/** One call at a time: ledger and LinkedIn agree except where a ledger write failed, and repeating the call mends
    that. */
module Agreement {
  import opened Base
  import opened Tables
  import opened Posts
  import opened Ledger
  import M = PostMachine
  import L = Logins
  import Scopes

  datatype Books = Books(db: Db, remote: Remote)

  /** What one call meets: its three statements and LinkedIn's answer. */
  datatype Env = Env(tenantOk: bool, rowOk: bool, answer: Option<string>, at: Instant, writeOk: bool)

  /** LinkedIn first, then the ledger. */
  function Send(b: Books, tenantId: string, c: Call, env: Env): (Books, Reply) {
    match CallStep(c, env.answer)
    case Answer(r) => (b, r)
    case Go(p) =>
      var (db, r) := WriteStep(b.db, tenantId, c, p.urn, env.at, env.writeOk);
      (Books(db, RemoteAfter(b.remote, tenantId, c, env.answer)), r)
  }

  /** The call an operation comes to, or the reply that spares LinkedIn. */
  function Decide(txt: Text, db: Db, tenantId: string, op: Op, env: Env): Next {
    match StartStep(txt, db, tenantId, op, env.tenantOk)
    case Go(Finding(_)) => if op.Publish? then Answer(Rejected(InvalidInput))
        else FindStep(txt, db, tenantId, op, env.rowOk)
    case next => next
  }

  /** A whole call with nothing in between. */
  function Perform(txt: Text, b: Books, tenantId: string, op: Op, env: Env): (Books, Reply) {
    match Decide(txt, b.db, tenantId, op, env)
    case Answer(r) => (b, r)
    case Go(p) => if p.Calling? then Send(b, tenantId, p.call, env) else (b, Rejected(InvalidInput))
  }

  /** Whatever it decides, it only ever calls LinkedIn in the member's own name or about a live row of its own. */
  lemma DecidesOwnCall(txt: Text, db: Db, tenantId: string, op: Op, env: Env)
    requires Decide(txt, db, tenantId, op, env).Go?
    ensures var p := Decide(txt, db, tenantId, op, env).pending;
            && p.Calling? && CallHonest(db, tenantId, p.call)
            && (!p.call.Create? ==>
                  PhaseOf(db, (tenantId, p.call.urn)) == Alive && p.call.urn == op.urn && !op.Publish?)
            && (p.call.Create? <==> op.Publish?)
  {
  }

  /** And it calls LinkedIn exactly when the call is confirmed and everything about it is in order. */
  lemma DecidesExactly(txt: Text, db: Db, tenantId: string, op: Op, env: Env)
    ensures Decide(txt, db, tenantId, op, env).Go? <==>
            && env.tenantOk && MayWrite(db.tenants, tenantId)
            && match op
               case Publish(i) => i.confirm && Publishable(Request(txt, i))
               case Edit(urn, text, confirm) =>
                 && confirm && env.rowOk && txt.trim(text) != "" && txt.trim(urn) != "" && HasPrefix(urn, "urn:li:")
                 && PhaseOf(db, (tenantId, urn)) == Alive
               case Delete(urn, confirm) =>
                 && confirm && env.rowOk && txt.trim(urn) != "" && HasPrefix(urn, "urn:li:")
                 && PhaseOf(db, (tenantId, urn)) == Alive
  {
  }

  /** The member may use the post tools. */
  predicate MayWrite(tenants: Tenants, id: string) {
    id in tenants && "w_member_social" in Scopes.Fields(tenants[id].scopes)
  }

  /** An edit of, or a deletion of, a post named by a LinkedIn URN; an edit has a text. */
  predicate NamesPost(txt: Text, op: Op) {
    !op.Publish? && txt.trim(op.urn) != "" && "urn:li:" <= op.urn && (op.Edit? ==> txt.trim(op.text) != "")
  }

  /** Which reply, when LinkedIn is spared. */
  lemma DecideRefusals(txt: Text, db: Db, tenantId: string, op: Op, env: Env)
    ensures var next := Decide(txt, db, tenantId, op, env);
            var (may, names) := (env.tenantOk && MayWrite(db.tenants, tenantId), NamesPost(txt, op));
            var phase := if op.Publish? then Absent else PhaseOf(db, (tenantId, op.urn));
            && (next == Answer(Rejected(NoTenant)) <==> env.tenantOk && tenantId !in db.tenants)
            && (next == Answer(Rejected(ScopeMissing)) <==> env.tenantOk && tenantId in db.tenants && !may)
            && (next == Answer(Rejected(StoreFailed)) <==> !env.tenantOk || (may && names && !env.rowOk))
            && (next == Answer(Rejected(InvalidInput)) <==>
                  may && !names && (op.Publish? ==> !Publishable(Request(txt, op.input))))
            && (next == Answer(Rejected(UnknownPost)) <==> may && names && env.rowOk && phase == Absent)
            && (next == Answer(Rejected(PostDeleted)) <==> may && names && env.rowOk && phase == Tombstone && op.Edit?)
            && (next.Answer? && next.reply.AlreadyDeleted? <==>
                  may && names && env.rowOk && phase == Tombstone && op.Delete?)
            && (next.Answer? && next.reply.Preview? <==>
                  && may
                  && if op.Publish? then !op.input.confirm && Publishable(Request(txt, op.input))
                     else names && env.rowOk && phase == Alive && !op.confirm)
  {
  }

  predicate PossibleEnv(txt: Text, b: Books, tenantId: string, op: Op, env: Env) {
    var next := Decide(txt, b.db, tenantId, op, env);
    next.Go? && next.pending.Calling? ==> Possible(b.remote, next.pending.call, env.answer)
  }

  // ----- agreement -----

  predicate LivePost(remote: Remote, k: PostKey) {
    k.1 in remote && remote[k.1].live && remote[k.1].creator == k.0
  }

  /** The tenant's live rows are its live posts, with the same text. */
  predicate Agrees(b: Books, k: PostKey) {
    && (PhaseOf(b.db, k) == Alive <==> LivePost(b.remote, k))
    && (PhaseOf(b.db, k) == Alive ==> b.db.posts[k].commentary == b.remote[k.1].text)
  }

  /** The post a call is about. */
  function Target(tenantId: string, c: Call, env: Env): PostKey {
    (tenantId, if !c.Create? then c.urn else if env.answer.Some? then env.answer.value else "")
  }

  /** LinkedIn's side of another post. */
  lemma OtherPostsStay(b: Books, tenantId: string, c: Call, env: Env, k: PostKey)
    requires BooksHonest(b.db, b.remote) && CallHonest(b.db, tenantId, c) && Possible(b.remote, c, env.answer)
    requires k != Target(tenantId, c, env)
    ensures var after := RemoteAfter(b.remote, tenantId, c, env.answer);
            && (LivePost(after, k) <==> LivePost(b.remote, k))
            && (LivePost(after, k) ==> after[k.1] == b.remote[k.1])
  {
    if !c.Create? {
      assert RowHonest(b.db.tenants, b.remote, (tenantId, c.urn), b.db.posts[(tenantId, c.urn)]);
    }
  }

  lemma OthersUntouched(b: Books, tenantId: string, c: Call, env: Env, k: PostKey)
    requires BooksHonest(b.db, b.remote) && CallHonest(b.db, tenantId, c) && Possible(b.remote, c, env.answer)
    requires Agrees(b, k) && k != Target(tenantId, c, env)
    ensures Agrees(Send(b, tenantId, c, env).0, k)
  {
    OtherPostsStay(b, tenantId, c, env, k);
    WriteTouchesOneRow(b.db, tenantId, c, Target(tenantId, c, env).1, env.at, env.writeOk);
  }

  lemma RecordedAgrees(b: Books, tenantId: string, c: Call, env: Env)
    requires BooksHonest(b.db, b.remote) && CallHonest(b.db, tenantId, c) && Possible(b.remote, c, env.answer)
    requires !c.Create? ==> PhaseOf(b.db, (tenantId, c.urn)) == Alive
    requires Send(b, tenantId, c, env).1 == Written(Target(tenantId, c, env).1, true)
    ensures Agrees(Send(b, tenantId, c, env).0, Target(tenantId, c, env))
  {
    var k := Target(tenantId, c, env);
    WriteTouchesOneRow(b.db, tenantId, c, k.1, env.at, env.writeOk);
    assert k in b.db.posts ==> RowHonest(b.db.tenants, b.remote, k, b.db.posts[k]);
  }

  lemma SendKeepsHonest(b: Books, tenantId: string, c: Call, env: Env)
    requires BooksHonest(b.db, b.remote) && CallHonest(b.db, tenantId, c) && Possible(b.remote, c, env.answer)
    ensures var a := Send(b, tenantId, c, env).0; BooksHonest(a.db, a.remote) && a.db.tenants == b.db.tenants
    ensures env.answer.Some? <==> Send(b, tenantId, c, env).1.Written?
    ensures env.answer.None? ==> Send(b, tenantId, c, env) == (b, Rejected(ApiFailed))
    ensures env.answer.Some? ==> Send(b, tenantId, c, env).1 == Written(Target(tenantId, c, env).1, env.writeOk)
  {
    if env.answer.Some? {
      CallKeepsHonest(b.db, b.remote, tenantId, c, env.answer);
      var remote := RemoteAfter(b.remote, tenantId, c, env.answer);
      WriteKeepsHonest(b.db, remote, tenantId, c, Target(tenantId, c, env).1, env.at, env.writeOk);
      WriteTouchesOneRow(b.db, tenantId, c, Target(tenantId, c, env).1, env.at, env.writeOk);
    }
  }

  /** The key a call leaves unrecorded, if any. */
  function Missed(tenantId: string, r: Reply): set<PostKey> {
    if r.Written? && !r.recorded then {(tenantId, r.urn)} else {}
  }

  /** One call keeps every agreement except that of a post whose ledger write failed; a recorded write makes its own
      post agree, whatever was there before. */
  lemma PerformKeepsAgreement(txt: Text, b: Books, tenantId: string, op: Op, env: Env, k: PostKey)
    requires BooksHonest(b.db, b.remote) && PossibleEnv(txt, b, tenantId, op, env)
    ensures var (a, r) := Perform(txt, b, tenantId, op, env);
            && BooksHonest(a.db, a.remote) && a.db.tenants == b.db.tenants
            && (Agrees(b, k) && k !in Missed(tenantId, r) ==> Agrees(a, k))
            && (r == Written(k.1, true) && k.0 == tenantId ==> Agrees(a, k))
  {
    var next := Decide(txt, b.db, tenantId, op, env);
    if next.Go? {
      DecidesOwnCall(txt, b.db, tenantId, op, env);
      var c := next.pending.call;
      SendKeepsHonest(b, tenantId, c, env);
      if k != Target(tenantId, c, env) {
        if Agrees(b, k) {
          OthersUntouched(b, tenantId, c, env, k);
        }
      } else if env.answer.Some? && env.writeOk {
        RecordedAgrees(b, tenantId, c, env);
      }
    } else {
      DecisionIsNoWrite(txt, b.db, tenantId, op, env);
    }
  }

  /** Exactly when a missed ledger write goes unnoticed: it was an edit to the text the post had. */
  lemma MissedWriteDisagrees(txt: Text, b: Books, tenantId: string, op: Op, env: Env, k: PostKey)
    requires BooksHonest(b.db, b.remote) && PossibleEnv(txt, b, tenantId, op, env) && (!op.Publish? ==> Agrees(b, k))
    requires k in Missed(tenantId, Perform(txt, b, tenantId, op, env).1)
    ensures Agrees(Perform(txt, b, tenantId, op, env).0, k)
            <==> op.Edit? && k in b.db.posts && txt.trim(op.text) == b.db.posts[k].commentary
  {
    var next := Decide(txt, b.db, tenantId, op, env);
    if next.Go? {
      DecidesOwnCall(txt, b.db, tenantId, op, env);
      SendKeepsHonest(b, tenantId, next.pending.call, env);
      assert k in b.db.posts ==> RowHonest(b.db.tenants, b.remote, k, b.db.posts[k]);
      assert op.Edit? ==> next.pending.call == Update(op.urn, txt.trim(op.text));
    } else {
      DecisionIsNoWrite(txt, b.db, tenantId, op, env);
    }
  }

  lemma DecisionIsNoWrite(txt: Text, db: Db, tenantId: string, op: Op, env: Env)
    requires Decide(txt, db, tenantId, op, env).Answer?
    ensures !Decide(txt, db, tenantId, op, env).reply.Written?
  {
  }

  // ----- runs -----

  /** A call of some tenant, or a login or renewal in between. */
  datatype Item = Called(tenantId: string, op: Op, env: Env) | Upserted(u: L.Upsert)

  ghost function Done(txt: Text, b: Books, i: Item): (Books, set<PostKey>) {
    match i
    case Called(id, op, env) => (Perform(txt, b, id, op, env).0, Missed(id, Perform(txt, b, id, op, env).1))
    case Upserted(u) =>
      (match UpsertTenant(b.db.tenants, u.id, u.row)
       case Some(tenants) => (b.(db := b.db.(tenants := tenants)), {})
       case None => (b, {}))
  }

  ghost predicate PossibleRun(txt: Text, b: Books, items: seq<Item>)
    decreases |items|
  {
    items == [] ||
    ((items[0].Called? ==> PossibleEnv(txt, b, items[0].tenantId, items[0].op, items[0].env))
     && PossibleRun(txt, Done(txt, b, items[0]).0, items[1..]))
  }

  /** The books after a run, and the posts whose ledger write failed on the way. */
  ghost function AfterRun(txt: Text, b: Books, items: seq<Item>): (Books, set<PostKey>)
    decreases |items|
  {
    if items == [] then (b, {})
    else
      var (a, missed) := Done(txt, b, items[0]);
      var (z, later) := AfterRun(txt, a, items[1..]);
      (z, missed + later)
  }

  lemma {:induction false} AgreementOverRun(txt: Text, b: Books, items: seq<Item>, k: PostKey)
    requires OnePerMember(b.db.tenants) && BooksHonest(b.db, b.remote) && Agrees(b, k) && PossibleRun(txt, b, items)
    ensures var (z, missed) := AfterRun(txt, b, items); k !in missed ==> Agrees(z, k)
    decreases |items|
  {
    if items != [] {
      var (a, missed) := Done(txt, b, items[0]);
      match items[0] {
        case Called(id, op, env) => PerformKeepsAgreement(txt, b, id, op, env, k);
        case Upserted(u) =>
          if UpsertTenant(b.db.tenants, u.id, u.row).Some? {
            UpsertKeepsHonest(b.db, b.remote, u);
          }
      }
      if k !in missed {
        AgreementOverRun(txt, a, items[1..], k);
      }
    }
  }

  lemma UpsertKeepsHonest(db: Db, remote: Remote, u: L.Upsert)
    requires OnePerMember(db.tenants) && BooksHonest(db, remote) && UpsertTenant(db.tenants, u.id, u.row).Some?
    ensures var after := db.(tenants := UpsertTenant(db.tenants, u.id, u.row).value);
            OnePerMember(after.tenants) && BooksHonest(after, remote)
  {
  }

  /** From an empty ledger and no post of this server's: if no ledger write failed, then after any run of calls,
      logins and renewals the live rows are exactly the live posts, with the same text. */
  lemma NoFailedWriteMeansAgreement(txt: Text, tenants: Tenants, items: seq<Item>, k: PostKey)
    requires OnePerMember(tenants)
    requires PossibleRun(txt, Books(EMPTY.(tenants := tenants), map[]), items)
    requires AfterRun(txt, Books(EMPTY.(tenants := tenants), map[]), items).1 == {}
    ensures Agrees(AfterRun(txt, Books(EMPTY.(tenants := tenants), map[]), items).0, k)
  {
    AgreementOverRun(txt, Books(EMPTY.(tenants := tenants), map[]), items, k);
  }

  /** A live post of this server's that the ledger has no row for. */
  predicate Stray(b: Books, k: PostKey) {
    LivePost(b.remote, k) && k !in b.db.posts
  }

  lemma CallKeepsStray(txt: Text, b: Books, tenantId: string, op: Op, env: Env, k: PostKey)
    requires BooksHonest(b.db, b.remote) && PossibleEnv(txt, b, tenantId, op, env) && Stray(b, k)
    ensures Stray(Perform(txt, b, tenantId, op, env).0, k)
  {
    var next := Decide(txt, b.db, tenantId, op, env);
    if next.Go? {
      DecidesOwnCall(txt, b.db, tenantId, op, env);
      var c := next.pending.call;
      if !c.Create? {
        assert RowHonest(b.db.tenants, b.remote, (tenantId, c.urn), b.db.posts[(tenantId, c.urn)]);
      }
      if env.answer.Some? {
        WriteTouchesOneRow(b.db, tenantId, c, Target(tenantId, c, env).1, env.at, env.writeOk);
      }
    }
  }

  /** A publication whose recording failed is beyond repair: no later run of calls ever records, edits or deletes it. */
  lemma {:induction false} StrayForever(txt: Text, b: Books, items: seq<Item>, k: PostKey)
    requires OnePerMember(b.db.tenants) && BooksHonest(b.db, b.remote) && PossibleRun(txt, b, items) && Stray(b, k)
    ensures Stray(AfterRun(txt, b, items).0, k) && !Agrees(AfterRun(txt, b, items).0, k)
    decreases |items|
  {
    if items != [] {
      match items[0] {
        case Called(id, op, env) =>
          CallKeepsStray(txt, b, id, op, env, k);
          PerformKeepsAgreement(txt, b, id, op, env, k);
        case Upserted(u) =>
          if UpsertTenant(b.db.tenants, u.id, u.row).Some? {
            UpsertKeepsHonest(b.db, b.remote, u);
          }
      }
      StrayForever(txt, Done(txt, b, items[0]).0, items[1..], k);
    }
  }

  // ----- repair -----

  /** A confirmed, well-formed edit or deletion. */
  predicate WellFormed(txt: Text, op: Op) {
    NamesPost(txt, op) && op.confirm
  }

  /** What it takes to be mended: a live row, and for an edit a live post. */
  ghost predicate Mendable(b: Books, tenantId: string, op: Op)
    requires !op.Publish?
  {
    && OnePerMember(b.db.tenants) && BooksHonest(b.db, b.remote)
    && PhaseOf(b.db, (tenantId, op.urn)) == Alive && (op.Edit? ==> LivePost(b.remote, (tenantId, op.urn)))
  }

  /** Anything may happen between two attempts at op but one thing: a call about the same post that LinkedIn takes,
      unless it is a further attempt that the ledger misses. */
  ghost predicate Spares(txt: Text, b: Books, tenantId: string, op: Op, i: Item)
    requires !op.Publish?
  {
    i.Called? && i.tenantId == tenantId && !i.op.Publish? && i.op.urn == op.urn ==>
      var r := Perform(txt, b, tenantId, i.op, i.env).1; !r.Written? || (i.op == op && !r.recorded)
  }

  ghost predicate AllSpare(txt: Text, b: Books, tenantId: string, op: Op, items: seq<Item>)
    requires !op.Publish?
    decreases |items|
  {
    items == [] || (Spares(txt, b, tenantId, op, items[0])
        && AllSpare(txt, Done(txt, b, items[0]).0, tenantId, op, items[1..]))
  }

  lemma OthersKept(b: Books, tenantId: string, c: Call, env: Env, k: PostKey)
    requires BooksHonest(b.db, b.remote) && CallHonest(b.db, tenantId, c) && Possible(b.remote, c, env.answer)
    requires k in b.db.posts && k != Target(tenantId, c, env)
    ensures var a := Send(b, tenantId, c, env).0;
            && k in a.db.posts && a.db.posts[k] == b.db.posts[k]
            && (LivePost(a.remote, k) <==> LivePost(b.remote, k))
  {
    OtherPostsStay(b, tenantId, c, env, k);
    WriteTouchesOneRow(b.db, tenantId, c, Target(tenantId, c, env).1, env.at, env.writeOk);
  }

  lemma MissedKeepsMendable(b: Books, tenantId: string, c: Call, env: Env, k: PostKey)
    requires !c.Create? && k == (tenantId, c.urn) && k in b.db.posts && env.answer.Some? && !env.writeOk
    ensures var a := Send(b, tenantId, c, env).0;
            a.db == b.db && (c.Update? && LivePost(b.remote, k) ==> LivePost(a.remote, k))
  {
  }

  lemma CallKeepsMendable(txt: Text, b: Books, tenantId: string, op: Op, i: Item)
    requires WellFormed(txt, op) && Mendable(b, tenantId, op) && i.Called?
    requires PossibleEnv(txt, b, i.tenantId, i.op, i.env) && Spares(txt, b, tenantId, op, i)
    ensures Mendable(Perform(txt, b, i.tenantId, i.op, i.env).0, tenantId, op)
  {
    var k := (tenantId, op.urn);
    PerformKeepsAgreement(txt, b, i.tenantId, i.op, i.env, k);
    var next := Decide(txt, b.db, i.tenantId, i.op, i.env);
    if next.Go? && i.env.answer.Some? {
      DecidesOwnCall(txt, b.db, i.tenantId, i.op, i.env);
      SendKeepsHonest(b, i.tenantId, next.pending.call, i.env);
      if k != Target(i.tenantId, next.pending.call, i.env) {
        OthersKept(b, i.tenantId, next.pending.call, i.env, k);
      } else {
        NewPostIsAnother(b, i, next.pending.call, k);
        MissedKeepsMendable(b, tenantId, next.pending.call, i.env, k);
      }
    }
  }

  lemma NewPostIsAnother(b: Books, i: Item, c: Call, k: PostKey)
    requires i.Called? && BooksHonest(b.db, b.remote) && k in b.db.posts && Possible(b.remote, c, i.env.answer)
    requires i.env.answer.Some? && k == Target(i.tenantId, c, i.env)
    ensures !c.Create?
  {
    assert RowHonest(b.db.tenants, b.remote, k, b.db.posts[k]);
  }

  lemma {:induction false} RunKeepsMendable(txt: Text, b: Books, tenantId: string, op: Op, items: seq<Item>)
    requires WellFormed(txt, op) && Mendable(b, tenantId, op)
    requires PossibleRun(txt, b, items) && AllSpare(txt, b, tenantId, op, items)
    ensures Mendable(AfterRun(txt, b, items).0, tenantId, op)
    decreases |items|
  {
    if items != [] {
      match items[0] {
        case Called(_, _, _) => CallKeepsMendable(txt, b, tenantId, op, items[0]);
        case Upserted(u) =>
          if UpsertTenant(b.db.tenants, u.id, u.row).Some? {
            UpsertKeepsHonest(b.db, b.remote, u);
          }
      }
      RunKeepsMendable(txt, Done(txt, b, items[0]).0, tenantId, op, items[1..]);
    }
  }

  /** What a call that nothing stops leaves of its post. */
  predicate Mended(txt: Text, a: Books, r: Reply, tenantId: string, op: Op)
    requires !op.Publish?
  {
    var k := (tenantId, op.urn);
    && r == Written(op.urn, true) && Agrees(a, k)
    && (op.Delete? ==> PhaseOf(a.db, k) == Tombstone)
    && (op.Edit? ==> k in a.db.posts && a.db.posts[k].commentary == txt.trim(op.text))
  }

  lemma GoesThrough(txt: Text, b: Books, tenantId: string, op: Op, good: Env)
    requires WellFormed(txt, op) && Mendable(b, tenantId, op) && MayWrite(b.db.tenants, tenantId)
    requires good.tenantOk && good.rowOk && good.answer.Some? && good.writeOk
    ensures PossibleEnv(txt, b, tenantId, op, good)
    ensures Mended(txt, Perform(txt, b, tenantId, op, good).0, Perform(txt, b, tenantId, op, good).1, tenantId, op)
  {
    var c := if op.Edit? then Update(op.urn, txt.trim(op.text)) else Destroy(op.urn);
    assert Decide(txt, b.db, tenantId, op, good) == Go(Calling(c));
    SendKeepsHonest(b, tenantId, c, good);
    RecordedAgrees(b, tenantId, c, good);
    WriteTouchesOneRow(b.db, tenantId, c, op.urn, good.at, true);
  }

  /** However often an edit or a deletion failed, before or after LinkedIn took it, and whatever else any tenant did in
      between, the same call gets through as soon as nothing fails, and then ledger and LinkedIn agree on the post. */
  lemma RepairByRetry(txt: Text, b: Books, tenantId: string, op: Op, items: seq<Item>, good: Env)
    requires WellFormed(txt, op) && Mendable(b, tenantId, op)
    requires PossibleRun(txt, b, items) && AllSpare(txt, b, tenantId, op, items)
    requires MayWrite(AfterRun(txt, b, items).0.db.tenants, tenantId)
    requires good.tenantOk && good.rowOk && good.answer.Some? && good.writeOk
    ensures var (a, r) := Perform(txt, AfterRun(txt, b, items).0, tenantId, op, good);
            Mended(txt, a, r, tenantId, op)
  {
    RunKeepsMendable(txt, b, tenantId, op, items);
    GoesThrough(txt, AfterRun(txt, b, items).0, tenantId, op, good);
  }

  // ----- and why one call at a time -----

  /** LinkedIn takes an edit of a live post. */
  lemma EditTaken(txt: Text, w: World, t: M.Thread, urn: string, x: string)
    requires t.0.ByTenant? && t in w.sys.pending && w.sys.pending[t] == Calling(Update(urn, x))
    requires LivePost(w.remote, (t.0.id, urn))
    ensures var e := M.Event(t, M.CallApi(Some(urn)));
            && Enabled(w, e)
            && Apply(txt, w, e) == World(w.sys.(pending := w.sys.pending[t := Writing(Update(urn, x), urn)]),
                                         w.remote[urn := w.remote[urn].(text := x)])
  {
  }

  /** The ledger follows an edit. */
  lemma EditRecorded(txt: Text, w: World, t: M.Thread, urn: string, x: string, at: Instant)
    requires t.0.ByTenant? && t in w.sys.pending && w.sys.pending[t] == Writing(Update(urn, x), urn)
    requires (t.0.id, urn) in w.sys.db.posts
    ensures var e := M.Event(t, M.Write(at, true));
            && Enabled(w, e)
            && Apply(txt, w, e).remote == w.remote && Apply(txt, w, e).sys.pending == w.sys.pending - {t}
            && Apply(txt, w, e).sys.db == UpdateLedgerCommentary(w.sys.db, t.0.id, urn, x, at)
  {
  }

  lemma OneMore(txt: Text, w: World, e: M.Event, es: seq<M.Event>)
    requires Enabled(w, e) && IsRun(txt, Apply(txt, w, e), es)
    ensures IsRun(txt, w, [e] + es) && After(txt, w, [e] + es) == After(txt, Apply(txt, w, e), es)
  {
    assert ([e] + es)[0] == e && ([e] + es)[1..] == es;
  }

  lemma FourSteps(txt: Text, w: World, a: M.Event, b: M.Event, c: M.Event, d: M.Event)
    requires Enabled(w, a) && Enabled(Apply(txt, w, a), b)
    requires var v := Apply(txt, Apply(txt, w, a), b); Enabled(v, c) && Enabled(Apply(txt, v, c), d)
    ensures IsRun(txt, w, [a, b, c, d])
    ensures After(txt, w, [a, b, c, d]) == Apply(txt, Apply(txt, Apply(txt, Apply(txt, w, a), b), c), d)
  {
    var w1 := Apply(txt, w, a);
    var w2 := Apply(txt, w1, b);
    var w3 := Apply(txt, w2, c);
    OneMore(txt, w3, d, []);
    OneMore(txt, w2, c, [d] + []);
    OneMore(txt, w1, b, [c] + ([d] + []));
    OneMore(txt, w, a, [b] + ([c] + ([d] + [])));
    assert [a] + ([b] + ([c] + ([d] + []))) == [a, b, c, d];
  }

  /** Two edits of one post whose calls and ledger writes cross leave the ledger with the text LinkedIn does not
      have. */
  lemma CrossedEditsDisagree(txt: Text, w: World, id: string, urn: string, x: string, y: string, m: nat, n: nat,
                             at: Instant)
    requires m != n && x != y && PhaseOf(w.sys.db, (id, urn)) == Alive && LivePost(w.remote, (id, urn))
    requires (M.ByTenant(id), m) in w.sys.pending && w.sys.pending[(M.ByTenant(id), m)] == Calling(Update(urn, x))
    requires (M.ByTenant(id), n) in w.sys.pending && w.sys.pending[(M.ByTenant(id), n)] == Calling(Update(urn, y))
    ensures var (p, q) := ((M.ByTenant(id), m), (M.ByTenant(id), n));
            var es := [M.Event(p, M.CallApi(Some(urn))), M.Event(q, M.CallApi(Some(urn))),
                       M.Event(q, M.Write(at, true)), M.Event(p, M.Write(at, true))];
            IsRun(txt, w, es) && !Agrees(Books(After(txt, w, es).sys.db, After(txt, w, es).remote), (id, urn))
  {
    var (p, q) := ((M.ByTenant(id), m), (M.ByTenant(id), n));
    var (a, b, c, d) := (M.Event(p, M.CallApi(Some(urn))), M.Event(q, M.CallApi(Some(urn))),
                         M.Event(q, M.Write(at, true)), M.Event(p, M.Write(at, true)));
    EditTaken(txt, w, p, urn, x);
    var w1 := Apply(txt, w, a);
    EditTaken(txt, w1, q, urn, y);
    var w2 := Apply(txt, w1, b);
    EditRecorded(txt, w2, q, urn, y, at);
    var w3 := Apply(txt, w2, c);
    EditRecorded(txt, w3, p, urn, x, at);
    FourSteps(txt, w, a, b, c, d);
  }
}
