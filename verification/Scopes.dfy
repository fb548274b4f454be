/** Scope lists: how LinkedIn's permission strings are split, stored and searched. */
module Scopes {

  predicate IsSeparator(c: char) {
    c == ',' || c == ' ' || c == '\t' || c == '\n' || c == '\r'
  }

  predicate AllSeparators(s: string) {
    forall i :: 0 <= i < |s| ==> IsSeparator(s[i])
  }

  predicate NoSeparator(s: string) {
    forall i :: 0 <= i < |s| ==> !IsSeparator(s[i])
  }

  /** A scope proper: not empty, and free of separators. */
  predicate IsWord(s: string) {
    s != "" && NoSeparator(s)
  }

  predicate AllWords(ws: seq<string>) {
    forall i :: 0 <= i < |ws| ==> IsWord(ws[i])
  }

  /** Every character of s is a separator, or none is. */
  predicate Uniform(s: string, separators: bool) {
    if separators then AllSeparators(s) else NoSeparator(s)
  }

  /** Cuts a string after its longest prefix made of separators, or of non-separators. */
  function Span(s: string, separators: bool): (r: (string, string))
    ensures r.0 + r.1 == s && Uniform(r.0, separators)
    ensures r.1 != "" ==> IsSeparator(r.1[0]) != separators
  {
    if s == "" || IsSeparator(s[0]) != separators then ("", s) else
      var (p, rest) := Span(s[1..], separators);
      ([s[0]] + p, rest)
  }

  /** The maximal runs of non-separators of a string, in order. */
  function Fields(s: string): (ws: seq<string>)
    decreases |s|
  {
    var (gap, t) := Span(s, true);
    if t == "" then [] else
      var (w, rest) := Span(t, false);
      assert w != "" && |gap + t| == |gap| + |t| && |w + rest| == |w| + |rest|;
      [w] + Fields(rest)
  }

  lemma {:induction false} FieldsAreWords(s: string)
    ensures AllWords(Fields(s))
    decreases |s|
  {
    var (gap, t) := Span(s, true);
    if t != "" {
      var (w, rest) := Span(t, false);
      assert w != "" && |gap + t| == |gap| + |t| && |w + rest| == |w| + |rest|;
      FieldsAreWords(rest);
    }
  }

  /** The loop computes Fields. */
  method ParseScopes(raw: string) returns (out: seq<string>)
    ensures out == Fields(raw)
  {
    out := [];
    var fields := Fields(raw);
    FieldsAreWords(raw);
    for i := 0 to |fields|
      invariant out == fields[..i]
    {
      assert IsWord(fields[i]);
      if fields[i] != "" {
        out := out + [fields[i]];
      }
    }
  }

  /** Commas, blanks, tabs and line ends come between scopes, */
  lemma SeparatorSeparates(v: string, c: char, w: string)
    requires IsWord(v) && IsWord(w) && c in {',', ' ', '\t', '\n', '\r'}
    ensures Fields(v + [c] + w) == [v, w]
  {
    FieldsStep("", v, [c] + w);
    FieldsStep([c], w, "");
    assert "" + v + ([c] + w) == v + [c] + w && [c] + w + "" == [c] + w;
  }

  /** and anything else is part of one. */
  lemma OthersDoNot(v: string, c: char, w: string)
    requires IsWord(v) && IsWord(w) && c !in {',', ' ', '\t', '\n', '\r'}
    ensures Fields(v + [c] + w) == [v + [c] + w]
  {
    FieldsStep("", v + [c] + w, "");
    assert "" + (v + [c] + w) + "" == v + [c] + w;
  }

  method HasScope(scopes: seq<string>, scope: string) returns (found: bool)
    ensures found <==> scope in scopes
  {
    for i := 0 to |scopes|
      invariant scope !in scopes[..i]
    {
      if scopes[i] == scope {
        return true;
      }
    }
    return false;
  }

  /** The stored form: scopes separated by one blank. */
  function Join(ws: seq<string>): string {
    if ws == [] then "" else if |ws| == 1 then ws[0] else ws[0] + " " + Join(ws[1..])
  }

  // ----- a scope list is its words, whatever stands between them -----

  /** Words with given material around them: gap, word, gap, ..., word, gap. */
  function Weave(gaps: seq<string>, ws: seq<string>): string
    requires |gaps| == |ws| + 1
  {
    if ws == [] then gaps[0] else gaps[0] + ws[0] + Weave(gaps[1..], ws[1..])
  }

  /** Gaps are made of separators, and only the outer two may be empty. */
  predicate ProperGaps(gaps: seq<string>) {
    && (forall i :: 0 <= i < |gaps| ==> AllSeparators(gaps[i]))
    && forall i :: 0 < i < |gaps| - 1 ==> gaps[i] != ""
  }

  lemma {:induction false} SpanIs(p: string, rest: string, separators: bool)
    requires Uniform(p, separators)
    requires rest != "" ==> IsSeparator(rest[0]) != separators
    ensures Span(p + rest, separators) == (p, rest)
  {
    if p == "" {
      assert p + rest == rest;
    } else {
      assert (p + rest)[1..] == p[1..] + rest;
      SpanIs(p[1..], rest, separators);
      assert p == [p[0]] + p[1..];
    }
  }

  lemma FieldsStep(gap: string, w: string, tail: string)
    requires AllSeparators(gap) && IsWord(w)
    requires tail != "" ==> IsSeparator(tail[0])
    ensures Fields(gap + w + tail) == [w] + Fields(tail)
  {
    assert gap + w + tail == gap + (w + tail);
    assert (w + tail)[0] == w[0];
    SpanIs(gap, w + tail, true);
    SpanIs(w, tail, false);
  }

  /** Reading back: any words, woven with any separators, parse to those words. */
  lemma {:induction false} FieldsOfWeave(gaps: seq<string>, ws: seq<string>)
    requires |gaps| == |ws| + 1 && ProperGaps(gaps) && AllWords(ws)
    ensures Fields(Weave(gaps, ws)) == ws
  {
    if ws == [] {
      SpanIs(gaps[0], "", true);
      assert gaps[0] + "" == gaps[0];
    } else {
      var g, v := gaps[1..], ws[1..];
      assert ProperGaps(g) && AllWords(v);
      FieldsOfWeave(g, v);
      TailStartsWithSeparator(g, v);
      FieldsStep(gaps[0], ws[0], Weave(g, v));
      assert ws == [ws[0]] + v;
    }
  }

  lemma TailStartsWithSeparator(gaps: seq<string>, ws: seq<string>)
    requires |gaps| == |ws| + 1 && ProperGaps(gaps)
    requires ws != [] ==> gaps[0] != ""
    ensures var tail := Weave(gaps, ws); tail != "" ==> IsSeparator(tail[0])
  {
  }

  /** What stands between the words of a string. */
  function Gaps(s: string): (gaps: seq<string>)
    ensures |gaps| == |Fields(s)| + 1
    decreases |s|
  {
    var (gap, t) := Span(s, true);
    if t == "" then [s] else
      var (w, rest) := Span(t, false);
      assert w != "" && |gap + t| == |gap| + |t| && |w + rest| == |w| + |rest|;
      [gap] + Gaps(rest)
  }

  /** Every string is its own words woven with its own proper gaps, so with
      FieldsOfWeave the parser is determined on all inputs. */
  lemma {:induction false} WeaveOfFields(s: string)
    ensures ProperGaps(Gaps(s)) && Weave(Gaps(s), Fields(s)) == s
    ensures s != "" && IsSeparator(s[0]) ==> Gaps(s)[0] != ""
    decreases |s|, 1
  {
    var (gap, t) := Span(s, true);
    if t == "" {
      assert gap + t == gap;
    } else {
      var (w, rest) := Span(t, false);
      assert w != "" && |gap + t| == |gap| + |t| && |w + rest| == |w| + |rest|;
      assert gap + w + rest == gap + (w + rest);
      StepGaps(gap, w, rest);
      assert gap != "" || s == t;
    }
  }

  lemma {:induction false} StepGaps(gap: string, w: string, rest: string)
    requires AllSeparators(gap) && (rest != "" ==> IsSeparator(rest[0]))
    ensures var gaps := [gap] + Gaps(rest); var ws := [w] + Fields(rest);
            ProperGaps(gaps) && Weave(gaps, ws) == gap + w + rest
    decreases |rest|, 2
  {
    WeaveOfFields(rest);
    ExtendGaps(gap, w, Gaps(rest), Fields(rest));
    if Fields(rest) != [] {
      assert rest != "";
    }
  }

  lemma ExtendGaps(gap: string, w: string, gaps: seq<string>, ws: seq<string>)
    requires |gaps| == |ws| + 1 && ProperGaps(gaps) && AllSeparators(gap)
    ensures Weave([gap] + gaps, [w] + ws) == gap + w + Weave(gaps, ws)
    ensures (ws != [] ==> gaps[0] != "") ==> ProperGaps([gap] + gaps)
  {
  }

  /** Two strings parse alike exactly when they differ only in their separators. */
  lemma SeparatorsDoNotMatter(x: string, y: string)
    ensures Fields(x) == Fields(y) <==>
            exists g, h, ws | |g| == |h| == |ws| + 1 && ProperGaps(g) && ProperGaps(h) && AllWords(ws) ::
              x == Weave(g, ws) && y == Weave(h, ws)
  {
    WeaveOfFields(x);
    WeaveOfFields(y);
    FieldsAreWords(x);
    forall g, h, ws | |g| == |h| == |ws| + 1 && ProperGaps(g) && ProperGaps(h) && AllWords(ws)
                      && x == Weave(g, ws) && y == Weave(h, ws)
      ensures Fields(x) == Fields(y)
    {
      FieldsOfWeave(g, ws);
      FieldsOfWeave(h, ws);
    }
    if Fields(x) == Fields(y) {
      assert x == Weave(Gaps(x), Fields(x)) && y == Weave(Gaps(y), Fields(x));
    }
  }

  /** Storing then reading a list of scopes changes nothing. */
  lemma {:induction false} JoinThenParse(ws: seq<string>)
    requires AllWords(ws)
    ensures Fields(Join(ws)) == ws
  {
    if ws == [] {
    } else {
      var gaps := [""] + seq(|ws| - 1, _ => " ") + [""];
      WeaveBlanks(ws);
      FieldsOfWeave(gaps, ws);
    }
  }

  lemma {:induction false} WeaveBlanks(ws: seq<string>)
    requires ws != []
    ensures Weave([""] + seq(|ws| - 1, _ => " ") + [""], ws) == Join(ws)
  {
    var gaps := [""] + seq(|ws| - 1, _ => " ") + [""];
    if |ws| == 1 {
      assert gaps[1..] == [""];
    } else {
      WeaveBlanks(ws[1..]);
      var inner := [""] + seq(|ws| - 2, _ => " ") + [""];
      assert gaps[1..] == [" "] + inner[1..];
      assert Weave(gaps[1..], ws[1..]) == " " + Weave(inner, ws[1..]);
    }
  }

  /** The law the storage relies on, for every raw list. */
  lemma ScopesSurviveStorage(raw: string)
    ensures Fields(Join(Fields(raw))) == Fields(raw)
  {
    FieldsAreWords(raw);
    JoinThenParse(Fields(raw));
  }
}
