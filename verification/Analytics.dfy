/** Post statistics: which metrics are asked for, which are answered, and that none goes missing. */
module Analytics {
  import opened Base
  import opened Posts
  import Scopes

  const SCOPE_ANALYTICS := "r_member_postAnalytics"
  const UNSUPPORTED := 400

  const KNOWN := ["IMPRESSION", "MEMBERS_REACHED", "RESHARE", "REACTION", "COMMENT", "POST_SAVE", "POST_SEND",
      "LINK_CLICKS",
                  "PREMIUM_CTA_CLICKS", "FOLLOWER_GAINED_FROM_CONTENT", "PROFILE_VIEW_FROM_CONTENT"]
  const DEFAULTS := ["IMPRESSION", "MEMBERS_REACHED", "REACTION", "COMMENT", "RESHARE"]
  const TOTAL_ONLY := ["MEMBERS_REACHED", "LINK_CLICKS", "FOLLOWER_GAINED_FROM_CONTENT", "PROFILE_VIEW_FROM_CONTENT"]

  predicate Known(m: string) { m in KNOWN }

  predicate TotalOnly(m: string) { m in TOTAL_ONLY }

  datatype Aggregation = Total | Daily

  /** LinkedIn's answer to one request, reduced to what the program looks at. */
  datatype Answer = Counts(values: seq<int>) | ApiError(status: int) | OtherError
  {
    predicate Survivable() { Counts? || this == ApiError(400) }
  }

  datatype Insight = Insight(metric: string, values: seq<int>)
  datatype InsightSet = InsightSet(insights: seq<Insight>, rejected: seq<string>)
  datatype Request = Request(metric: string, aggregation: Aggregation)
  datatype Outcome = Failed | Report(aggregation: Aggregation, insights: seq<Insight>, rejected: seq<string>,
      dropped: seq<string>)

  function Metrics(insights: seq<Insight>): (r: seq<string>)
    ensures |r| == |insights|
    ensures forall i :: 0 <= i < |r| ==> r[i] == insights[i].metric
  {
    if insights == [] then [] else Metrics(insights[..|insights| - 1]) + [insights[|insights| - 1].metric]
  }

  // ----- marking a list and taking it apart -----

  datatype Mark = Kept | Dropped | Answered | Refused
  datatype Entry = Entry(metric: string, mark: Mark)

  function Whole(es: seq<Entry>): (r: seq<string>)
    ensures |r| == |es| && forall i :: 0 <= i < |es| ==> r[i] == es[i].metric
  {
    if es == [] then [] else Whole(es[..|es| - 1]) + [es[|es| - 1].metric]
  }

  /** The entries that carry mark m, in order. */
  function Part(es: seq<Entry>, m: Mark): seq<string> {
    if es == [] then []
    else Part(es[..|es| - 1], m) + if es[|es| - 1].mark == m then [es[|es| - 1].metric] else []
  }

  lemma PartStep(es: seq<Entry>, e: Entry, m: Mark)
    ensures Part(es + [e], m) == Part(es, m) + if e.mark == m then [e.metric] else []
  {
  }

  /** Every entry is in exactly one part, as often as it was in the whole. */
  lemma {:induction false} PartsConserve(es: seq<Entry>)
    ensures multiset(Part(es, Kept)) + multiset(Part(es, Dropped)) + multiset(Part(es, Answered))
        + multiset(Part(es, Refused))
            == multiset(Whole(es))
  {
    if es != [] {
      PartsConserve(es[..|es| - 1]);
    }
  }

  /** The positions a part comes from, in increasing order. */
  lemma {:induction false} PartInOrder(es: seq<Entry>, m: Mark) returns (at: seq<nat>)
    ensures |at| == |Part(es, m)|
    ensures forall i :: 0 <= i < |at| ==> at[i] < |es| && es[at[i]] == Entry(Part(es, m)[i], m)
    ensures forall i, j :: 0 <= i < j < |at| ==> at[i] < at[j]
  {
    if es == [] {
      at := [];
    } else {
      var n := |es| - 1;
      at := PartInOrder(es[..n], m);
      if es[n].mark == m {
        at := at + [n];
      }
    }
  }

  /** What became of the kept entries, put in their places. */
  function Compose(outer: seq<Entry>, inner: seq<Entry>): (es: seq<Entry>)
    ensures |es| == |outer|
  {
    if outer == [] then []
    else
      var n := |outer| - 1;
      if outer[n].mark != Kept || inner == [] then Compose(outer[..n], inner) + [outer[n]]
      else Compose(outer[..n], inner[..|inner| - 1]) + [inner[|inner| - 1]]
  }

  predicate Fits(outer: seq<Entry>, inner: seq<Entry>) {
    && Whole(inner) == Part(outer, Kept)
    && (forall i :: 0 <= i < |outer| ==> outer[i].mark == Kept || outer[i].mark == Dropped)
    && forall i :: 0 <= i < |inner| ==> inner[i].mark == Answered || inner[i].mark == Refused
  }

  predicate Composed(outer: seq<Entry>, inner: seq<Entry>, es: seq<Entry>) {
    && Whole(es) == Whole(outer) && Part(es, Dropped) == Part(outer, Dropped) && Part(es, Kept) == []
    && Part(es, Answered) == Part(inner, Answered) && Part(es, Refused) == Part(inner, Refused)
  }

  lemma ComposedKept(outer: seq<Entry>, inner: seq<Entry>, es: seq<Entry>, e: Entry)
    requires Composed(outer, inner, es) && (e.mark == Answered || e.mark == Refused)
    ensures Composed(outer + [Entry(e.metric, Kept)], inner + [e], es + [e])
  {
  }

  lemma ComposedDropped(outer: seq<Entry>, inner: seq<Entry>, es: seq<Entry>, e: Entry)
    requires Composed(outer, inner, es) && e.mark == Dropped
    ensures Composed(outer + [e], inner, es + [e])
  {
  }

  lemma FitsStep(outer: seq<Entry>, inner: seq<Entry>, last: Entry)
    requires Fits(outer + [last], inner)
    ensures if last.mark == Kept then inner != [] && Fits(outer, inner[..|inner| - 1])
        && inner[|inner| - 1].metric == last.metric
            else last.mark == Dropped && Fits(outer, inner)
  {
  }

  lemma {:induction false} ComposeFits(outer: seq<Entry>, inner: seq<Entry>)
    requires Fits(outer, inner)
    ensures Composed(outer, inner, Compose(outer, inner))
  {
    if outer == [] {
      assert inner == [];
    } else {
      var n := |outer| - 1;
      var (o, last) := (outer[..n], outer[n]);
      assert outer == o + [last];
      FitsStep(o, inner, last);
      if last.mark == Kept {
        var l := |inner| - 1;
        assert inner == inner[..l] + [inner[l]];
        ComposeFits(o, inner[..l]);
        ComposedKept(o, inner[..l], Compose(o, inner[..l]), inner[l]);
        assert last == Entry(inner[l].metric, Kept);
      } else {
        ComposeFits(o, inner);
        ComposedDropped(o, inner, Compose(o, inner), last);
      }
    }
  }

  // ----- what is asked for -----

  /** The requested names that are not blank, trimmed and in capitals. */
  function Cleaned(txt: Text, requested: seq<string>): seq<string> {
    if requested == [] then []
    else
      var n := |requested| - 1;
      var m := txt.trim(requested[n]);
      Cleaned(txt, requested[..n]) + if m != "" then [txt.upper(m)] else []
  }

  function Wanted(txt: Text, requested: seq<string>): seq<string> {
    if Cleaned(txt, requested) == [] then DEFAULTS else Cleaned(txt, requested)
  }

  /** The list has an entry for each request that is not blank and no other, in order; at are the requests' places. */
  ghost predicate CleanedFrom(txt: Text, requested: seq<string>, cleaned: seq<string>, at: seq<nat>) {
    && |at| == |cleaned| && (forall i, j :: 0 <= i < j < |at| ==> at[i] < at[j])
    && (forall i :: 0 <= i < |at| ==> at[i] < |requested| && cleaned[i] == txt.upper(txt.trim(requested[at[i]])))
    && forall k :: 0 <= k < |requested| ==> (txt.trim(requested[k]) != "" <==> k in at)
  }

  lemma CleanedNext(txt: Text, front: seq<string>, name: string, cleaned: seq<string>, at: seq<nat>)
    requires CleanedFrom(txt, front, cleaned, at)
    ensures if txt.trim(name) == "" then CleanedFrom(txt, front + [name], cleaned, at)
            else CleanedFrom(txt, front + [name], cleaned + [txt.upper(txt.trim(name))], at + [|front|])
  {
    var next := at + [|front|];
    assert forall k :: k in next <==> k in at || k == |front|;
  }

  lemma {:induction false} CleanedIs(txt: Text, requested: seq<string>) returns (at: seq<nat>)
    ensures CleanedFrom(txt, requested, Cleaned(txt, requested), at)
  {
    if requested == [] {
      at := [];
    } else {
      var (front, name) := (requested[..|requested| - 1], requested[|requested| - 1]);
      at := CleanedIs(txt, front);
      CleanedNext(txt, front, name, Cleaned(txt, front), at);
      assert requested == front + [name];
      if txt.trim(name) != "" {
        at := at + [|front|];
      }
    }
  }

  method MetricsOrDefault(txt: Text, requested: seq<string>) returns (r: seq<string>)
    ensures r == Wanted(txt, requested) && r != []
    ensures if forall k :: 0 <= k < |requested| ==> txt.trim(requested[k]) == ""
            then r == ["IMPRESSION", "MEMBERS_REACHED", "REACTION", "COMMENT", "RESHARE"]
            else exists at :: CleanedFrom(txt, requested, r, at)
  {
    ghost var at := CleanedIs(txt, requested);
    assert Cleaned(txt, requested) == [] <==> forall k :: 0 <= k < |requested| ==> txt.trim(requested[k]) == "" by {
      if Cleaned(txt, requested) != [] {
        assert at[0] in at;
      }
    }
    var cleaned: seq<string> := [];
    for k := 0 to |requested|
      invariant cleaned == Cleaned(txt, requested[..k])
    {
      assert requested[..k + 1][..k] == requested[..k];
      var m := txt.trim(requested[k]);
      if m != "" {
        cleaned := cleaned + [txt.upper(m)];
      }
    }
    assert requested[..|requested|] == requested;
    return if |cleaned| == 0 then DEFAULTS else cleaned;
  }

  // ----- asking LinkedIn -----

  function MarkOf(a: Answer): Mark {
    if a.Counts? then Answered else Refused
  }

  /** The first k metrics, marked by what LinkedIn said. */
  function ByAnswer(metrics: seq<string>, answers: nat -> Answer, k: nat): (es: seq<Entry>)
    requires k <= |metrics|
    ensures |es| == k && forall i :: 0 <= i < k ==> es[i] == Entry(metrics[i], MarkOf(answers(i)))
    decreases k
  {
    if k == 0 then [] else ByAnswer(metrics, answers, k - 1) + [Entry(metrics[k - 1], MarkOf(answers(k - 1)))]
  }

  predicate AllSurvivable(n: nat, answers: nat -> Answer) {
    forall i: nat :: i < n ==> answers(i).Survivable()
  }

  /** What the first k requests have come to. */
  predicate Progress(metrics: seq<string>,
                     answers: nat -> Answer, k: nat, insights: seq<Insight>, rejected: seq<string>)
    requires k <= |metrics|
  {
    && Metrics(insights) == Part(ByAnswer(metrics, answers, k), Answered)
    && rejected == Part(ByAnswer(metrics, answers, k), Refused)
  }

  function Extended(set_: InsightSet, metric: string, a: Answer): InsightSet {
    match a
    case Counts(values) => set_.(insights := set_.insights + [Insight(metric, values)])
    case _ => set_.(rejected := set_.rejected + [metric])
  }

  function Gathered(metrics: seq<string>, answers: nat -> Answer, k: nat): InsightSet
    requires k <= |metrics|
    decreases k
  {
    if k == 0 then InsightSet([], []) else Extended(Gathered(metrics, answers, k - 1), metrics[k - 1], answers(k - 1))
  }

  lemma PartNext(metrics: seq<string>, answers: nat -> Answer, k: nat, m: Mark)
    requires k < |metrics|
    ensures Part(ByAnswer(metrics, answers, k + 1), m) ==
            Part(ByAnswer(metrics, answers, k), m) + if MarkOf(answers(k)) == m then [metrics[k]] else []
  {
    PartStep(ByAnswer(metrics, answers, k), Entry(metrics[k], MarkOf(answers(k))), m);
  }

  lemma InsightsNext(set_: InsightSet, metric: string, a: Answer)
    ensures Metrics(Extended(set_, metric, a).insights) ==
            Metrics(set_.insights) + if MarkOf(a) == Answered then [metric] else []
    ensures Extended(set_, metric, a).rejected == set_.rejected + if MarkOf(a) == Refused then [metric] else []
  {
  }

  lemma {:induction false} GatheredParts(metrics: seq<string>, answers: nat -> Answer, k: nat, set_: InsightSet)
    requires k <= |metrics| && set_ == Gathered(metrics, answers, k)
    ensures Metrics(set_.insights) == Part(ByAnswer(metrics, answers, k), Answered)
    ensures set_.rejected == Part(ByAnswer(metrics, answers, k), Refused)
    decreases k
  {
    if k > 0 {
      var (n, before) := (k - 1, Gathered(metrics, answers, k - 1));
      GatheredParts(metrics, answers, n, before);
      InsightsNext(before, metrics[n], answers(n));
      PartNext(metrics, answers, n, Answered);
      PartNext(metrics, answers, n, Refused);
    }
  }

  /** Each insight is a metric with the values LinkedIn answered for it; at are their places, in order. */
  predicate Faithful(metrics: seq<string>, answers: nat -> Answer, k: nat, insights: seq<Insight>, at: seq<nat>)
    requires k <= |metrics|
  {
    && |at| == |insights| && (forall i, j :: 0 <= i < j < |at| ==> at[i] < at[j])
    && forall i :: 0 <= i < |at| ==>
         at[i] < k && answers(at[i]).Counts? && insights[i] == Insight(metrics[at[i]], answers(at[i]).values)
  }

  lemma {:induction false} GatheredIsFaithful(metrics: seq<string>,
      answers: nat -> Answer, k: nat) returns (at: seq<nat>)
    requires k <= |metrics|
    ensures Faithful(metrics, answers, k, Gathered(metrics, answers, k).insights, at)
    decreases k
  {
    if k == 0 {
      at := [];
    } else {
      at := GatheredIsFaithful(metrics, answers, k - 1);
      if answers(k - 1).Counts? {
        at := at + [k - 1];
      }
    }
  }

  /** Asks for the metrics one at a time; only an unsupported combination is skipped. `answers` is what LinkedIn
      says to the first request, the second, and so on. */
  method PostAnalytics(metrics: seq<string>, aggregation: Aggregation, answers: nat -> Answer)
    returns (r: Option<InsightSet>, ghost sent: seq<Request>)
    ensures r.Some? <==> AllSurvivable(|metrics|, answers)
    ensures r.Some? ==> Progress(metrics, answers, |metrics|, r.value.insights, r.value.rejected)
    ensures r.Some? ==> exists at :: Faithful(metrics, answers, |metrics|, r.value.insights, at)
    ensures |sent| <= |metrics| && forall i :: 0 <= i < |sent| ==> sent[i] == Request(metrics[i], aggregation)
    ensures if r.Some? then |sent| == |metrics| else |sent| > 0 && !answers(|sent| - 1).Survivable()
  {
    var set_ := InsightSet([], []);
    sent := [];
    for k := 0 to |metrics|
      invariant |sent| == k && forall i :: 0 <= i < k ==> sent[i] == Request(metrics[i], aggregation)
      invariant AllSurvivable(k, answers)
      invariant set_ == Gathered(metrics, answers, k)
    {
      var answer := answers(k);
      sent := sent + [Request(metrics[k], aggregation)];
      if answer.Counts? {
        set_ := set_.(insights := set_.insights + [Insight(metrics[k], answer.values)]);
      } else if answer == ApiError(UNSUPPORTED) {
        set_ := set_.(rejected := set_.rejected + [metrics[k]]);
      } else {
        return None, sent;
      }
    }
    GatheredParts(metrics, answers, |metrics|, set_);
    ghost var at := GatheredIsFaithful(metrics, answers, |metrics|);
    return Some(set_), sent;
  }

  /** The first k metrics, marked by whether LinkedIn breaks them down by day. */
  function ByDay(metrics: seq<string>, k: nat): (es: seq<Entry>)
    requires k <= |metrics|
    ensures |es| == k
    ensures forall i :: 0 <= i < k ==> es[i] == Entry(metrics[i], if TotalOnly(metrics[i]) then Dropped else Kept)
    decreases k
  {
    if k == 0 then []
    else ByDay(metrics, k - 1) + [Entry(metrics[k - 1], if TotalOnly(metrics[k - 1]) then Dropped else Kept)]
  }

  /** Sets aside what LinkedIn does not break down by day. */
  method DropTotals(metrics: seq<string>) returns (kept: seq<string>, dropped: seq<string>)
    ensures kept == Part(ByDay(metrics, |metrics|), Kept) && dropped == Part(ByDay(metrics, |metrics|), Dropped)
  {
    kept, dropped := [], [];
    for k := 0 to |metrics|
      invariant kept == Part(ByDay(metrics, k), Kept) && dropped == Part(ByDay(metrics, k), Dropped)
    {
      var m := metrics[k];
      var e := Entry(m, if TotalOnly(m) then Dropped else Kept);
      PartStep(ByDay(metrics, k), e, Kept);
      PartStep(ByDay(metrics, k), e, Dropped);
      if TotalOnly(m) {
        dropped := dropped + [m];
      } else {
        kept := kept + [m];
      }
    }
  }

  // ----- the whole call -----

  /** The requests a call makes if none fails. */
  function Asked(wanted: seq<string>, daily: bool): seq<string> {
    if daily then Part(ByDay(wanted, |wanted|), Kept) else wanted
  }

  lemma AskedIsAllowed(wanted: seq<string>, daily: bool, i: nat)
    requires i < |Asked(wanted, daily)|
    ensures Asked(wanted, daily)[i] in wanted && (daily ==> !TotalOnly(Asked(wanted, daily)[i]))
  {
    if daily {
      var es := ByDay(wanted, |wanted|);
      var at := PartInOrder(es, Kept);
      assert es[at[i]] == Entry(Part(es, Kept)[i], Kept);
    }
  }

  lemma NothingAsked(wanted: seq<string>)
    ensures Asked(wanted, true) == [] <==> forall i :: 0 <= i < |wanted| ==> TotalOnly(wanted[i])
  {
    var es := ByDay(wanted, |wanted|);
    if i :| 0 <= i < |wanted| && !TotalOnly(wanted[i]) {
      assert es[i].mark == Kept;
      PartHolds(es, Kept, i);
    } else {
      NoneMarked(es, Kept);
    }
  }

  lemma {:induction false} PartHolds(es: seq<Entry>, m: Mark, i: nat)
    requires i < |es| && es[i].mark == m
    ensures es[i].metric in Part(es, m)
  {
    if i < |es| - 1 {
      PartHolds(es[..|es| - 1], m, i);
    }
  }

  /** How a successful call accounts for every wanted metric: the entries, in the order they were wanted. */
  function Account(wanted: seq<string>, daily: bool, answers: nat -> Answer): seq<Entry> {
    if daily
    then Compose(ByDay(wanted, |wanted|), ByAnswer(Asked(wanted, daily), answers, |Asked(wanted, daily)|))
    else ByAnswer(wanted, answers, |wanted|)
  }

  lemma {:induction false} WholeIs(es: seq<Entry>, whole: seq<string>)
    requires |es| == |whole| && forall i :: 0 <= i < |es| ==> es[i].metric == whole[i]
    ensures Whole(es) == whole
  {
  }

  lemma {:induction false} NoneMarked(es: seq<Entry>, m: Mark)
    requires forall i :: 0 <= i < |es| ==> es[i].mark != m
    ensures Part(es, m) == []
  {
    if es != [] {
      NoneMarked(es[..|es| - 1], m);
    }
  }

  lemma AnswersFitDays(wanted: seq<string>, answers: nat -> Answer)
    ensures var asked := Part(ByDay(wanted, |wanted|), Kept);
            Fits(ByDay(wanted, |wanted|), ByAnswer(asked, answers, |asked|))
  {
    var asked := Part(ByDay(wanted, |wanted|), Kept);
    WholeIs(ByAnswer(asked, answers, |asked|), asked);
  }

  lemma DailyAccount(wanted: seq<string>, outer: seq<Entry>, inner: seq<Entry>)
    requires outer == ByDay(wanted, |wanted|) && Fits(outer, inner)
    ensures Whole(outer) == wanted && Composed(outer, inner, Compose(outer, inner))
  {
    WholeIs(outer, wanted);
    ComposeFits(outer, inner);
  }

  lemma TotalAccount(wanted: seq<string>, answers: nat -> Answer)
    ensures var es := ByAnswer(wanted, answers, |wanted|);
            Whole(es) == wanted && Part(es, Dropped) == [] && Part(es, Kept) == []
  {
    var es := ByAnswer(wanted, answers, |wanted|);
    WholeIs(es, wanted);
    NoneMarked(es, Dropped);
    NoneMarked(es, Kept);
  }

  /** Every wanted metric, in order and as often as it was wanted, is answered, refused or dropped. */
  predicate Accounted(wanted: seq<string>, es: seq<Entry>, answered: seq<string>, refused: seq<string>,
                      dropped: seq<string>) {
    && Whole(es) == wanted
    && answered == Part(es, Answered) && refused == Part(es, Refused) && dropped == Part(es, Dropped)
    && multiset(answered) + multiset(refused) + multiset(dropped) == multiset(wanted)
  }

  lemma AccountParts(wanted: seq<string>, daily: bool, answers: nat -> Answer)
    ensures var (asked, es) := (Asked(wanted, daily), Account(wanted, daily, answers));
            && Whole(es) == wanted && Part(es, Kept) == []
            && Part(es, Dropped) == (if daily then Part(ByDay(wanted, |wanted|), Dropped) else [])
            && Part(es, Answered) == Part(ByAnswer(asked, answers, |asked|), Answered)
            && Part(es, Refused) == Part(ByAnswer(asked, answers, |asked|), Refused)
  {
    var asked := Asked(wanted, daily);
    if daily {
      AnswersFitDays(wanted, answers);
      DailyAccount(wanted, ByDay(wanted, |wanted|), ByAnswer(asked, answers, |asked|));
    } else {
      TotalAccount(wanted, answers);
    }
  }

  lemma PartsAccount(wanted: seq<string>, es: seq<Entry>, answered: seq<string>, refused: seq<string>,
                     dropped: seq<string>)
    requires Whole(es) == wanted && Part(es, Kept) == []
    requires answered == Part(es, Answered) && refused == Part(es, Refused) && dropped == Part(es, Dropped)
    ensures Accounted(wanted, es, answered, refused, dropped)
  {
    PartsConserve(es);
  }

  lemma AccountIsComplete(wanted: seq<string>, daily: bool, answers: nat -> Answer, insights: seq<Insight>,
                          rejected: seq<string>, dropped: seq<string>)
    requires var asked := Asked(wanted, daily); Progress(asked, answers, |asked|, insights, rejected)
    requires dropped == if daily then Part(ByDay(wanted, |wanted|), Dropped) else []
    ensures Accounted(wanted, Account(wanted, daily, answers), Metrics(insights), rejected, dropped)
  {
    AccountParts(wanted, daily, answers);
    PartsAccount(wanted, Account(wanted, daily, answers), Metrics(insights), rejected, dropped);
  }

  ghost predicate AllKnown(metrics: seq<string>) {
    forall i :: 0 <= i < |metrics| ==> Known(metrics[i])
  }

  method CheckKnown(metrics: seq<string>) returns (ok: bool)
    ensures ok <==> AllKnown(metrics)
  {
    for k := 0 to |metrics|
      invariant forall i :: 0 <= i < k ==> Known(metrics[i])
    {
      if !Known(metrics[k]) {
        return false;
      }
    }
    return true;
  }

  /** A request LinkedIn accepts: a known metric, and by day only what it breaks down by day. */
  predicate Acceptable(q: Request, daily: bool) {
    && Known(q.metric) && q.aggregation == (if daily then Daily else Total)
    && (daily ==> !TotalOnly(q.metric))
  }

  lemma RequestsAcceptable(wanted: seq<string>, daily: bool, sent: seq<Request>)
    requires AllKnown(wanted) && |sent| <= |Asked(wanted, daily)|
    requires forall i :: 0 <= i < |sent| ==> sent[i] == Request(Asked(wanted, daily)[i], if daily then Daily else Total)
    ensures forall i :: 0 <= i < |sent| ==> Acceptable(sent[i], daily)
  {
    forall i | 0 <= i < |sent| ensures Acceptable(sent[i], daily) {
      AskedIsAllowed(wanted, daily, i);
    }
  }

  /** Reads the statistics of one post or of the account. `scopes` are the tenant's, None without a tenant; the
      bounds of the period are someone else's business. */
  method Analytics(txt: Text, scopes: Option<seq<string>>, requested: seq<string>, daily: bool, datesOk: bool,
                   answers: nat -> Answer)
    returns (r: Outcome, ghost sent: seq<Request>)
    ensures var wanted := Wanted(txt, requested);
            r.Report? <==>
              && scopes.Some? && "r_member_postAnalytics" in scopes.value && datesOk && AllKnown(wanted)
              && (daily ==> exists i :: 0 <= i < |wanted| && !TotalOnly(wanted[i]))
              && AllSurvivable(|Asked(wanted, daily)|, answers)
    ensures r.Report? ==>
              Accounted(Wanted(txt, requested), Account(Wanted(txt, requested), daily, answers),
                        Metrics(r.insights), r.rejected, r.dropped)
    ensures r.Report? ==>
              var asked := Asked(Wanted(txt, requested), daily);
              exists at :: Faithful(asked, answers, |asked|, r.insights, at)
    ensures r.Report? ==>
              && r.aggregation == (if daily then Daily else Total)
              && var wanted := Wanted(txt, requested);
                 r.dropped == if daily then Part(ByDay(wanted, |wanted|), Dropped) else []
    ensures forall i :: 0 <= i < |sent| ==> Acceptable(sent[i], daily)
  {
    sent := [];
    if scopes.None? {
      return Failed, sent;
    }
    var granted := Scopes.HasScope(scopes.value, SCOPE_ANALYTICS);
    if !granted {
      return Failed, sent;
    }
    var metrics := MetricsOrDefault(txt, requested);
    var known := CheckKnown(metrics);
    if !known {
      return Failed, sent;
    }
    ghost var wanted := metrics;
    var dropped: seq<string> := [];
    if daily {
      var kept;
      kept, dropped := DropTotals(metrics);
      NothingAsked(wanted);
      if |kept| == 0 {
        return Failed, sent;
      }
      metrics := kept;
    }
    if !datesOk {
      return Failed, sent;
    }
    assert metrics == Asked(wanted, daily);
    var set_, made := PostAnalytics(metrics, if daily then Daily else Total, answers);
    sent := made;
    RequestsAcceptable(wanted, daily, sent);
    if set_.None? {
      return Failed, sent;
    }
    AccountIsComplete(wanted, daily, answers, set_.value.insights, set_.value.rejected, dropped);
    return Report(if daily then Daily else Total, set_.value.insights, set_.value.rejected, dropped), sent;
  }
}
