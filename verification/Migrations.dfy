/** The migration runner: what the database has been through after any sequence of starts, failures and crashes.

    A start may be cut short before any of its statements; a transaction cut short leaves nothing.
  */
module Migrations {
  import opened Base

  // ----- the order of the files -----

  /** At position i, a ends or has the smaller character, and up to there both are the same. */
  predicate DiffersAt(a: string, b: string, i: nat) {
    && i <= |a| && i < |b| && (i == |a| || a[i] < b[i])
    && forall k :: 0 <= k < i ==> a[k] == b[k]
  }

  /** Lexical order. */
  predicate Before(a: string, b: string) {
    exists i: nat | i < |b| :: DiffersAt(a, b, i)
  }

  /** As in a dictionary: the first characters decide, and behind equal ones the rest does. */
  lemma BeforeByFirst(a: string, b: string)
    ensures Before(a, b) <==> b != "" && (a == "" || a[0] < b[0] || (a[0] == b[0] && Before(a[1..], b[1..])))
  {
    if b != "" && a == "" {
      assert DiffersAt(a, b, 0);
    } else if b != "" && a[0] < b[0] {
      assert DiffersAt(a, b, 0);
    } else if b != "" && a[0] == b[0] {
      if i: nat :| i < |b| && DiffersAt(a, b, i) {
        assert DiffersAt(a[1..], b[1..], i - 1);
      }
      if i: nat :| i < |b[1..]| && DiffersAt(a[1..], b[1..], i) {
        assert DiffersAt(a, b, i + 1);
      }
    }
  }

  /** Not as in counting. */
  lemma TenBeforeTwo()
    ensures Before("0002_posts.sql", "0010_index.sql") && Before("10_index.sql", "2_posts.sql")
  {
    assert DiffersAt("0002_posts.sql", "0010_index.sql", 2);
    assert DiffersAt("10_index.sql", "2_posts.sql", 0);
  }

  predicate AllBefore(a: set<string>, c: set<string>) {
    forall m, n :: m in a && n in c ==> Before(m, n)
  }

  lemma {:induction false} BeforeIsTotal(a: string, b: string, i: nat)
    requires i <= |a| && i <= |b| && forall k :: 0 <= k < i ==> a[k] == b[k]
    ensures a == b || Before(a, b) || Before(b, a)
    decreases |a| - i
  {
    if i < |a| && i < |b| && a[i] == b[i] {
      BeforeIsTotal(a, b, i + 1);
    } else if i == |a| == |b| {
      assert a == b;
    } else {
      assert DiffersAt(a, b, i) || DiffersAt(b, a, i);
    }
  }

  lemma BeforeIsStrict(a: string, b: string)
    ensures !(Before(a, b) && Before(b, a)) && !Before(a, a)
    ensures a == b || Before(a, b) || Before(b, a)
  {
    BeforeIsTotal(a, b, 0);
  }

  lemma BeforeIsTransitive(a: string, b: string, c: string)
    requires Before(a, b) && Before(b, c)
    ensures Before(a, c)
  {
    var i: nat :| i < |b| && DiffersAt(a, b, i);
    var j: nat :| j < |c| && DiffersAt(b, c, j);
    assert DiffersAt(a, c, if i < j then i else j);
  }

  ghost predicate Ascending(names: seq<string>) {
    forall i, j :: 0 <= i < j < |names| ==> Before(names[i], names[j])
  }

  predicate IsLeast(least: string, names: set<string>) {
    least in names && forall x :: x in names && x != least ==> Before(least, x)
  }

  lemma {:induction false} LeastExists(names: set<string>)
    requires names != {}
    ensures exists least :: IsLeast(least, names)
  {
    var a :| a in names;
    if names == {a} {
      assert IsLeast(a, names);
    } else {
      LeastExists(names - {a});
      var b :| IsLeast(b, names - {a});
      BeforeIsStrict(a, b);
      if Before(b, a) {
        assert IsLeast(b, names);
      } else {
        forall x | x in names && x != a && x != b ensures Before(a, x) {
          BeforeIsTransitive(a, b, x);
        }
        assert IsLeast(a, names);
      }
    }
  }

  /** There is one ascending list of given names. */
  lemma {:induction false} AscendingUnique(a: seq<string>, b: seq<string>)
    requires Ascending(a) && Ascending(b) && Elements(a) == Elements(b)
    ensures a == b
  {
    if b != [] {
      assert b[0] in Elements(b);
    }
    if a != [] {
      assert a[0] in Elements(b);
      assert b[0] in Elements(a);
      BeforeIsStrict(a[0], b[0]);
      Head(a);
      Head(b);
      AscendingUnique(a[1..], b[1..]);
    }
  }

  lemma Head(a: seq<string>)
    requires Ascending(a) && a != []
    ensures Elements(a[1..]) == Elements(a) - {a[0]} && Ascending(a[1..])
    ensures forall x :: x in Elements(a) && x != a[0] ==> Before(a[0], x)
  {
  }

  /** The names in lexical order. */
  ghost function Sorted(names: set<string>): (out: seq<string>)
    ensures Elements(out) == names && |out| == |names|
    decreases |names|
  {
    if names == {} then []
    else
      var least := Least(names);
      var out := [least] + Sorted(names - {least});
      assert Elements(out) == {least} + Elements(Sorted(names - {least}));
      out
  }

  lemma {:induction false} SortedAscends(names: set<string>)
    ensures Ascending(Sorted(names))
    decreases |names|
  {
    if names != {} {
      var least := Least(names);
      var tail := Sorted(names - {least});
      SortedAscends(names - {least});
      assert forall j :: 0 <= j < |tail| ==> tail[j] in Elements(tail);
    }
  }

  lemma TakeLeast(out: seq<string>, least: string, names: set<string>)
    requires IsLeast(least, names)
    ensures (out + [least]) + Sorted(names - {least}) == out + Sorted(names)
  {
    BeforeIsStrict(least, Least(names));
  }

  /** slices.Sort over the embedded files. */
  method SortedNames(names: set<string>) returns (out: seq<string>)
    ensures out == Sorted(names)
  {
    out := [];
    var rest := names;
    while rest != {}
      invariant out + Sorted(rest) == Sorted(names)
      decreases |rest|
    {
      LeastExists(rest);
      var least :| IsLeast(least, rest);
      TakeLeast(out, least, rest);
      out := out + [least];
      rest := rest - {least};
    }
  }

  ghost function Least(names: set<string>): (least: string)
    requires names != {}
    ensures IsLeast(least, names)
  {
    LeastExists(names);
    var least :| IsLeast(least, names);
    least
  }

  // ----- one start -----

  datatype Step = Step(name: string, body: string)

  type Files = map<string, string>

  /** The whole list of migrations, in order. */
  ghost function Script(files: Files): (script: seq<Step>)
    ensures |script| == |files|
  {
    var names := Sorted(files.Keys);
    seq(|names|, i requires 0 <= i < |names| => assert names[i] in Elements(names); Step(names[i], files[names[i]]))
  }

  function Names(log: seq<Step>): set<string> {
    set s | s in log :: s.name
  }

  const STATEMENTS := 5 // a check, BEGIN, the body, INSERT and COMMIT

  /** The log after working through todo until the budget of statements is used up, and whether it got through. */
  function Migrated(log: seq<Step>, todo: seq<Step>, budget: nat): (seq<Step>, bool)
    decreases |todo|
  {
    if todo == [] then (log, true)
    else if budget == 0 then (log, false)
    else if todo[0].name in Names(log) then Migrated(log, todo[1..], budget - 1)
    else if budget < STATEMENTS then (log, false)
    else Migrated(log + [todo[0]], todo[1..], budget - STATEMENTS)
  }

  lemma Advance(log: seq<Step>, script: seq<Step>, k: nat, budget: nat)
    requires k < |script|
    ensures Migrated(log, script[k..], budget) ==
            if budget == 0 then (log, false)
            else if script[k].name in Names(log) then Migrated(log, script[k + 1..], budget - 1)
            else if budget < STATEMENTS then (log, false)
            else Migrated(log + [script[k]], script[k + 1..], budget - STATEMENTS)
  {
  }

  lemma ScriptOf(files: Files)
    ensures |Sorted(files.Keys)| == |Script(files)|
    ensures forall k :: 0 <= k < |Script(files)| ==>
              Sorted(files.Keys)[k] in files
                  && Script(files)[k] == Step(Sorted(files.Keys)[k], files[Sorted(files.Keys)[k]])
  {
  }

  /** The database as far as migrations go: the rows of schema_migrations and the bodies committed. */
  class Database {
    var rows: set<string>
    var executed: seq<Step>
    var budget: nat // statements before the next failure or crash

    ghost predicate Valid()
      reads this
    {
      rows == Names(executed)
    }

    constructor ()
      ensures Valid() && executed == []
    {
      rows, executed, budget := {}, [], 0;
    }

    method Statement() returns (ok: bool)
      modifies this`budget
      ensures ok <==> old(budget) > 0
      ensures budget == if ok then old(budget) - 1 else 0
    {
      ok := budget > 0;
      if ok {
        budget := budget - 1;
      }
    }

    method MigrationApplied(name: string) returns (applied: bool, ok: bool)
      modifies this`budget
      ensures ok <==> old(budget) > 0
      ensures ok ==> (applied <==> name in rows) && budget == old(budget) - 1
    {
      ok := Statement();
      applied := ok && name in rows;
    }

    /** Body and record together or not at all; a name already recorded makes the insert fail. */
    method ApplyMigration(name: string, body: string) returns (ok: bool)
      requires Valid()
      modifies this
      ensures Valid() && (ok <==> old(budget) >= STATEMENTS - 1 && name !in old(rows))
      ensures ok ==> executed == old(executed) + [Step(name, body)] && budget == old(budget) - (STATEMENTS - 1)
      ensures !ok ==> executed == old(executed) && rows == old(rows)
    {
      var begun := Statement();
      if !begun { return false; }
      var ran := Statement();
      if !ran { return false; }
      var log := executed + [Step(name, body)];
      var inserted := Statement();
      if !inserted || name in rows { return false; }
      var table := rows + {name};
      var committed := Statement();
      if !committed { return false; }
      rows, executed := table, log;
      return true;
    }

    method ApplyAll(entries: seq<string>, files: Files, ghost script: seq<Step>) returns (ok: bool)
      requires Valid() && |script| == |entries|
      requires forall k :: 0 <= k < |entries| ==>
                 entries[k] in files && script[k] == Step(entries[k], files[entries[k]])
      modifies this
      ensures Valid()
      ensures (executed, ok) == old(Migrated(executed, script, budget))
    {
      ghost var goal := Migrated(executed, script, budget);
      assert script[0..] == script;
      for k := 0 to |entries|
        invariant Valid() && goal == Migrated(executed, script[k..], budget)
      {
        Advance(executed, script, k, budget);
        var applied, checked := MigrationApplied(entries[k]);
        if !checked {
          return false;
        }
        if !applied {
          var done := ApplyMigration(entries[k], files[entries[k]]);
          if !done {
            return false;
          }
        }
      }
      return true;
    }

    method Migrate(files: Files) returns (ok: bool)
      requires Valid()
      modifies this
      ensures Valid()
      ensures (executed, ok) == old(Started(executed, files, budget))
    {
      var ready := Statement();
      if !ready {
        return false;
      }
      var entries := SortedNames(files.Keys);
      ScriptOf(files);
      ok := ApplyAll(entries, files, Script(files));
    }
  }

  ghost function Started(log: seq<Step>, files: Files, budget: nat): (seq<Step>, bool) {
    if budget == 0 then (log, false) else Migrated(log, Script(files), budget - 1)
  }

  // ----- one start from a prefix -----

  lemma ScriptNames(files: Files)
    ensures Names(Script(files)) == files.Keys
  {
    var (names, script) := (Sorted(files.Keys), Script(files));
    ScriptOf(files);
    forall n ensures n in Names(script) <==> n in files.Keys {
      if n in files.Keys {
        assert n in Elements(names);
        var i :| 0 <= i < |names| && names[i] == n;
        assert script[i] in script;
      }
    }
  }

  lemma ScriptAscends(files: Files, i: nat, j: nat)
    requires i < |files| && j < |files|
    ensures i < j <==> Before(Script(files)[i].name, Script(files)[j].name)
  {
    ScriptOf(files);
    SortedAscends(files.Keys);
    BeforeIsStrict(Sorted(files.Keys)[i], Sorted(files.Keys)[j]);
  }

  lemma ScriptIsDistinct(files: Files)
    ensures Distinct(Script(files))
  {
    forall i, j | 0 <= i < j < |Script(files)| ensures Script(files)[i].name != Script(files)[j].name {
      ScriptAscends(files, i, j);
      BeforeIsStrict(Script(files)[i].name, Script(files)[j].name);
    }
  }

  predicate Distinct(script: seq<Step>) {
    forall i, j :: 0 <= i < j < |script| ==> script[i].name != script[j].name
  }

  /** What is left from the k-th entry on, with the first n entries applied, only ever extends the prefix, and is
      all done within so many statements. */
  predicate Extends(script: seq<Step>, n: nat, k: nat, budget: nat)
    requires k <= n <= |script|
  {
    var (log, ok) := Migrated(script[..n], script[k..], budget);
    && script[..n] <= log <= script && (ok ==> log == script)
    && (STATEMENTS * (|script| - k) <= budget ==> ok)
  }

  lemma SkipExtends(script: seq<Step>, n: nat, k: nat, budget: nat)
    requires Distinct(script) && k < n <= |script|
    requires budget > 0 ==> Extends(script, n, k + 1, budget - 1)
    ensures Extends(script, n, k, budget)
  {
  }

  lemma ApplyExtends(script: seq<Step>, n: nat, budget: nat)
    requires Distinct(script) && n < |script|
    requires budget >= STATEMENTS ==> Extends(script, n + 1, n + 1, budget - STATEMENTS)
    ensures Extends(script, n, n, budget)
  {
    Advance(script[..n], script, n, budget);
    AppliedBelow(script, n, n);
    assert script[..n] + [script[n]] == script[..n + 1];
  }

  lemma {:induction false} FromPrefix(script: seq<Step>, n: nat, k: nat, budget: nat)
    requires Distinct(script) && k <= n <= |script|
    ensures Extends(script, n, k, budget)
    decreases |script| - k
  {
    if k == |script| {
    } else if k < n {
      if budget > 0 {
        FromPrefix(script, n, k + 1, budget - 1);
      }
      SkipExtends(script, n, k, budget);
    } else {
      if budget >= STATEMENTS {
        FromPrefix(script, n + 1, n + 1, budget - STATEMENTS);
      }
      ApplyExtends(script, n, budget);
    }
  }

  lemma AppliedBelow(script: seq<Step>, n: nat, k: nat)
    requires Distinct(script) && n <= |script| && k < |script|
    ensures script[k].name in Names(script[..n]) <==> k < n
  {
  }

  // ----- every sequence of starts -----

  /** A start of the program: the migrations it was built with, and the statements it gets through. */
  datatype Start = Start(files: Files, budget: nat)

  /** No migration is changed or withdrawn. */
  ghost predicate Keeps(old_: Files, new_: Files) {
    old_.Keys <= new_.Keys && forall n :: n in old_ ==> new_[n] == old_[n]
  }

  /** And new ones come later in the list. */
  ghost predicate Grows(old_: Files, new_: Files) {
    Keeps(old_, new_) && AllBefore(old_.Keys, new_.Keys - old_.Keys)
  }

  ghost predicate Growing(starts: seq<Start>) {
    forall i :: 0 < i < |starts| ==> Grows(starts[i - 1].files, starts[i].files)
  }

  /** The log after the starts, and whether the last one got through. */
  ghost function AfterStarts(starts: seq<Start>): (seq<Step>, bool) {
    if starts == [] then ([], true)
    else
      var n := |starts| - 1;
      Started(AfterStarts(starts[..n]).0, starts[n].files, starts[n].budget)
  }

  lemma Joined(x: seq<string>, y: seq<string>)
    requires Ascending(x) && Ascending(y)
    requires AllBefore(Elements(x), Elements(y))
    ensures Ascending(x + y) && Elements(x + y) == Elements(x) + Elements(y)
  {
  }

  lemma NamesExtend(a: set<string>, c: set<string>, b: set<string>)
    requires AllBefore(a, c) && b == a + c
    ensures Sorted(a) <= Sorted(b)
  {
    SortedAscends(a);
    SortedAscends(c);
    SortedAscends(b);
    Joined(Sorted(a), Sorted(c));
    AscendingUnique(Sorted(a) + Sorted(c), Sorted(b));
  }

  lemma SameBodies(a: Files, b: Files)
    requires Sorted(a.Keys) <= Sorted(b.Keys) && Keeps(a, b)
    ensures Script(a) <= Script(b)
  {
  }

  lemma GrowthExtends(a: Files, b: Files)
    requires Grows(a, b)
    ensures Script(a) <= Script(b)
  {
    NamesExtend(a.Keys, b.Keys - a.Keys, b.Keys);
    SameBodies(a, b);
  }

  lemma StartFromPrefix(log: seq<Step>, files: Files, budget: nat)
    requires log <= Script(files)
    ensures var (after, ok) := Started(log, files, budget);
            && after <= Script(files) && (ok ==> after == Script(files))
            && (1 + STATEMENTS * |files| <= budget ==> ok)
  {
    var script := Script(files);
    ScriptIsDistinct(files);
    if budget > 0 {
      assert script[0..] == script && script[..|log|] == log;
      FromPrefix(script, |log|, 0, budget - 1);
    }
  }

  /** However many starts failed or crashed, and wherever: the log is a beginning of the sorted list, each body ran
      once, and a start that is not cut short completes the list. */
  lemma {:induction false} CrashSafe(starts: seq<Start>)
    requires starts != [] && Growing(starts)
    ensures var (last, (log, ok)) := (starts[|starts| - 1], AfterStarts(starts));
            && log <= Script(last.files) && Distinct(log)
            && (ok ==> log == Script(last.files))
            && (1 + STATEMENTS * |last.files| <= last.budget ==> ok)
  {
    var n := |starts| - 1;
    var last := starts[n];
    if n > 0 {
      CrashSafe(starts[..n]);
      GrowthExtends(starts[n - 1].files, last.files);
    }
    StartFromPrefix(AfterStarts(starts[..n]).0, last.files, last.budget);
    ScriptIsDistinct(last.files);
  }

  // ----- why new names must come later -----

  lemma FirstIndex(script: seq<Step>, name: string) returns (i: nat)
    requires name in Names(script)
    ensures i < |script| && script[i].name == name
  {
    var s :| s in script && s.name == name;
    i :| 0 <= i < |script| && script[i] == s;
  }

  lemma AllNamed(script: seq<Step>)
    ensures forall i :: 0 <= i < |script| ==> script[i].name in Names(script)
  {
  }

  lemma PrefixMeansLater(a: Files, b: Files, m: string, n: string)
    requires Script(a) <= Script(b) && m in a && n in b && n !in a
    ensures Before(m, n)
  {
    ScriptNames(a);
    ScriptNames(b);
    var i := FirstIndex(Script(a), m);
    var j := FirstIndex(Script(b), n);
    AllNamed(Script(a));
    assert Script(b)[i] == Script(a)[i];
    ScriptAscends(b, i, j);
  }

  lemma {:induction false} OnlyAppends(log: seq<Step>, todo: seq<Step>, budget: nat)
    ensures log <= Migrated(log, todo, budget).0
    decreases |todo|
  {
    if todo == [] || budget == 0 {
    } else if todo[0].name in Names(log) {
      OnlyAppends(log, todo[1..], budget - 1);
    } else if budget >= STATEMENTS {
      OnlyAppends(log + [todo[0]], todo[1..], budget - STATEMENTS);
    }
  }

  lemma PrefixMeansAllLater(a: Files, b: Files)
    requires Script(a) <= Script(b)
    ensures AllBefore(a.Keys, b.Keys - a.Keys)
  {
    forall m, n | m in a.Keys && n in b.Keys - a.Keys ensures Before(m, n) {
      PrefixMeansLater(a, b, m, n);
    }
  }

  lemma LaterIsKept(a: Files, b: Files, budget: nat)
    requires Keeps(a, b) && AllBefore(a.Keys, b.Keys - a.Keys) && 1 + STATEMENTS * |b| <= budget
    ensures Started(Script(a), b, budget).0 == Script(b)
  {
    GrowthExtends(a, b);
    StartFromPrefix(Script(a), b, budget);
  }

  lemma KeptIsLater(a: Files, b: Files, budget: nat)
    requires Started(Script(a), b, budget).0 == Script(b)
    ensures AllBefore(a.Keys, b.Keys - a.Keys)
  {
    if budget > 0 {
      OnlyAppends(Script(a), Script(b), budget - 1);
    }
    PrefixMeansAllLater(a, b);
  }

  /** A database that has all of release a ends up, under a longer release b that runs uninterrupted, with exactly
      b's list in b's order if and only if every new name comes after every old one. */
  lemma OrderKeptExactlyWhenLater(a: Files, b: Files, budget: nat)
    requires Keeps(a, b) && 1 + STATEMENTS * |b| <= budget
    ensures Started(Script(a), b, budget).0 == Script(b) <==> AllBefore(a.Keys, b.Keys - a.Keys)
  {
    if AllBefore(a.Keys, b.Keys - a.Keys) {
      LaterIsKept(a, b, budget);
    } else if Started(Script(a), b, budget).0 == Script(b) {
      KeptIsLater(a, b, budget);
    }
  }
}
