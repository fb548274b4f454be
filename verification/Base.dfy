/** Shared vocabulary: optional values, and time.

    The program keeps full-precision times in memory and whole seconds in the
    database. An instant is a number of nanoseconds since the Unix epoch; the
    clock is taken to run at least one second after it, so that a stored deadline
    is never mistaken for the value 0, which the database reads as "unknown".
  */
module Base {

  datatype Option<+T> = None | Some(value: T)

  const SECOND: int := 1_000_000_000
  const MINUTE: int := 60 * SECOND
  const DAY: int := 24 * 60 * MINUTE

  type Instant = t: int | SECOND <= t witness SECOND

  /** Whole seconds since the epoch, rounding towards the past. */
  function Unix(t: int): int {
    t / SECOND
  }

  lemma UnixMonotone(a: int, b: int)
    requires a <= b
    ensures Unix(a) <= Unix(b)
  {
  }

  /** A deadline as the tenants table stores it: the zero time becomes 0. */
  function UnixOrZero(t: Option<int>): int {
    match t
    case None => 0
    case Some(n) => Unix(n)
  }

  function TimeOrZero(sec: int): Option<int> {
    if sec <= 0 then None else Some(sec * SECOND)
  }

  ghost predicate NoDuplicates<T>(s: seq<T>) {
    forall i, j :: 0 <= i < j < |s| ==> s[i] != s[j]
  }

  function Elements<T>(s: seq<T>): set<T> {
    set x | x in s
  }

  lemma {:induction false} NoDuplicatesCount<T>(s: seq<T>)
    requires NoDuplicates(s)
    ensures |Elements(s)| == |s|
  {
    if s == [] {
    } else {
      var t := s[..|s| - 1];
      NoDuplicatesCount(t);
      assert s == t + [s[|s| - 1]];
      assert Elements(s) == Elements(t) + {s[|s| - 1]};
    }
  }

  lemma {:induction false} InjectiveImageCount<S, T>(dom: set<S>, f: map<S, T>, cod: set<T>)
    requires dom <= f.Keys
    requires forall x :: x in dom ==> f[x] in cod
    requires forall x, y :: x in dom && y in dom && f[x] == f[y] ==> x == y
    ensures |dom| <= |cod|
  {
    if dom == {} {
    } else {
      var x :| x in dom;
      InjectiveImageCount(dom - {x}, f, cod - {f[x]});
    }
  }

  lemma {:induction false} SubsetCount<T>(a: set<T>, b: set<T>)
    requires a <= b
    ensures |a| <= |b|
    ensures |a| == |b| ==> a == b
  {
    if a == {} {
    } else {
      var x :| x in a;
      SubsetCount(a - {x}, b - {x});
    }
  }
}
