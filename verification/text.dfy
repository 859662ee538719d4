/**
 The .NET string operations the application relies on, over `string` = `seq<char>`:
 `Char.IsWhiteSpace`, `string.IsNullOrWhiteSpace` (on non-null strings), `Trim`,
 `Split(..., StringSplitOptions.RemoveEmptyEntries)`, `string.Join`, `Replace` of one
 character, ordinal `Contains` and `IndexOf(char)`.
 */
module Text {
  import opened Seqs

  /** `Char.IsWhiteSpace`: the Unicode space, line and paragraph separators,
      U+0009..U+000D and U+0085. */
  predicate IsWhiteSpace(c: char) {
    || c == ' '
    || ('\t' <= c <= '\r')
    || c == '\U{85}' || c == '\U{A0}' || c == '\U{1680}'
    || ('\U{2000}' <= c <= '\U{200A}')
    || c == '\U{2028}' || c == '\U{2029}' || c == '\U{202F}' || c == '\U{205F}' || c == '\U{3000}'
  }

  /** `string.IsNullOrWhiteSpace` for a non-null string (the empty string is blank). */
  predicate IsBlank(s: string) {
    forall i :: 0 <= i < |s| ==> IsWhiteSpace(s[i])
  }

  predicate NotBlank(s: string) {
    !IsBlank(s)
  }

  predicate NonEmpty(s: string) {
    s != []
  }

  /** No character of `s` is in `cs`. */
  predicate Excludes(s: string, cs: set<char>) {
    forall i :: 0 <= i < |s| ==> s[i] !in cs
  }

  // ---------------------------------------------------------------- trimming

  /** Drops the leading characters that satisfy `ws`. */
  function TrimStartWith(s: string, ws: char -> bool): (r: string)
    ensures |r| <= |s| && r == s[|s| - |r|..]
    ensures r == [] || !ws(r[0])
  {
    if |s| > 0 && ws(s[0]) then TrimStartWith(s[1..], ws) else s
  }

  /** Only characters satisfying `ws` are dropped at the start. */
  lemma {:induction false} TrimStartDrops(s: string, ws: char -> bool)
    ensures forall i :: 0 <= i < |s| - |TrimStartWith(s, ws)| ==> ws(s[i])
  {
    if |s| > 0 && ws(s[0]) {
      TrimStartDrops(s[1..], ws);
      assert forall i :: 1 <= i < |s| ==> s[i] == s[1..][i - 1];
    }
  }

  /** Drops the trailing characters that satisfy `ws`. */
  function TrimEndWith(s: string, ws: char -> bool): (r: string)
    ensures |r| <= |s| && r == s[..|r|]
    ensures r == [] || !ws(r[|r| - 1])
  {
    if |s| > 0 && ws(s[|s| - 1]) then TrimEndWith(s[..|s| - 1], ws) else s
  }

  /** Only characters satisfying `ws` are dropped at the end. */
  lemma {:induction false} TrimEndDrops(s: string, ws: char -> bool)
    ensures forall i :: |TrimEndWith(s, ws)| <= i < |s| ==> ws(s[i])
  {
    if |s| > 0 && ws(s[|s| - 1]) {
      TrimEndDrops(s[..|s| - 1], ws);
    }
  }

  /** Neither end of `s` satisfies `ws`. */
  predicate IsTrimmedWith(s: string, ws: char -> bool) {
    s == [] || (!ws(s[0]) && !ws(s[|s| - 1]))
  }

  /** Drops the characters satisfying `ws` from both ends. */
  function TrimWith(s: string, ws: char -> bool): (r: string)
    ensures IsTrimmedWith(r, ws)
    ensures |r| <= |s|
    ensures forall c :: c in r ==> c in s
    ensures r == [] <==> forall i :: 0 <= i < |s| ==> ws(s[i])
  {
    var t := TrimStartWith(s, ws);
    var r := TrimEndWith(t, ws);
    TrimStartDrops(s, ws);
    TrimEndDrops(t, ws);
    var k := |s| - |t|;
    assert forall c :: c in r ==> c in t;
    assert forall c :: c in t ==> c in s;
    assert (forall i :: 0 <= i < |s| ==> ws(s[i])) ==> t == [] by {
      if t != [] {
        assert s[k] == t[0];
      }
    }
    r
  }

  /** Trimming a string that is already trimmed changes nothing. */
  lemma TrimWithTrimmed(s: string, ws: char -> bool)
    requires IsTrimmedWith(s, ws)
    ensures TrimWith(s, ws) == s
  {
    assert TrimStartWith(s, ws) == s;
    assert TrimEndWith(s, ws) == s;
  }

  /** Every character of `w` satisfies `ws`. */
  predicate AllWith(w: string, ws: char -> bool) {
    forall i :: 0 <= i < |w| ==> ws(w[i])
  }

  /** Leading padding before a non-padding character is dropped, and only it. */
  lemma {:induction false} TrimStartPadded(lead: string, x: string, ws: char -> bool)
    requires AllWith(lead, ws) && x != [] && !ws(x[0])
    ensures TrimStartWith(lead + x, ws) == x
    decreases |lead|
  {
    if lead == [] {
      assert lead + x == x;
    } else {
      assert (lead + x)[0] == lead[0];
      assert (lead + x)[1..] == lead[1..] + x;
      TrimStartPadded(lead[1..], x, ws);
    }
  }

  /** Trailing padding after a non-padding character is dropped, and only it. */
  lemma {:induction false} TrimEndPadded(x: string, trail: string, ws: char -> bool)
    requires AllWith(trail, ws) && x != [] && !ws(x[|x| - 1])
    ensures TrimEndWith(x + trail, ws) == x
    decreases |trail|
  {
    if trail == [] {
      assert x + trail == x;
    } else {
      var xt := x + trail;
      assert xt[|xt| - 1] == trail[|trail| - 1];
      assert xt[..|xt| - 1] == x + trail[..|trail| - 1];
      TrimEndPadded(x, trail[..|trail| - 1], ws);
    }
  }

  /** Trimming padding off a trimmed, non-empty core gives the core back. */
  lemma TrimWithPadded(lead: string, core: string, trail: string, ws: char -> bool)
    requires AllWith(lead, ws) && AllWith(trail, ws)
    requires core != [] && IsTrimmedWith(core, ws)
    ensures TrimWith(lead + core + trail, ws) == core
  {
    var ct := core + trail;
    assert lead + core + trail == lead + ct;
    assert ct[0] == core[0];
    TrimStartPadded(lead, ct, ws);
    TrimEndPadded(core, trail, ws);
  }

  /** What `TrimStartWith` removed is padding before its result. */
  lemma TrimStartParts(s: string, ws: char -> bool) returns (lead: string)
    ensures AllWith(lead, ws) && s == lead + TrimStartWith(s, ws)
  {
    var t := TrimStartWith(s, ws);
    lead := s[..|s| - |t|];
    TrimStartDrops(s, ws);
    forall i | 0 <= i < |lead| ensures ws(lead[i]) {
      assert lead[i] == s[i];
    }
  }

  /** What `TrimEndWith` removed is padding after its result. */
  lemma TrimEndParts(t: string, ws: char -> bool) returns (trail: string)
    ensures AllWith(trail, ws) && t == TrimEndWith(t, ws) + trail
  {
    var r := TrimEndWith(t, ws);
    trail := t[|r|..];
    TrimEndDrops(t, ws);
    forall i | 0 <= i < |trail| ensures ws(trail[i]) {
      assert trail[i] == t[|r| + i];
    }
  }

  /** Trimming both ends is trimming the start, then the end. */
  lemma TrimWithIsBoth(s: string, ws: char -> bool)
    ensures TrimWith(s, ws) == TrimEndWith(TrimStartWith(s, ws), ws)
  {
  }

  /** What trimming removed is padding on either side of the result. */
  lemma TrimWithParts(s: string, ws: char -> bool) returns (lead: string, trail: string)
    ensures AllWith(lead, ws) && AllWith(trail, ws)
    ensures s == lead + TrimWith(s, ws) + trail
  {
    var t := TrimStartWith(s, ws);
    var r := TrimEndWith(t, ws);
    TrimWithIsBoth(s, ws);
    lead := TrimStartParts(s, ws);
    trail := TrimEndParts(t, ws);
    assert t == r + trail;
    assert s == lead + t;
    assert lead + (r + trail) == lead + r + trail;
  }

  /** `string.Trim()`. */
  function Trim(s: string): (r: string)
    ensures IsTrimmedWith(r, IsWhiteSpace)
    ensures |r| <= |s|
    ensures forall c :: c in r ==> c in s
    ensures r == [] <==> IsBlank(s)
    ensures IsBlank(r) <==> IsBlank(s)
  {
    var r := TrimWith(s, IsWhiteSpace);
    assert r != [] ==> !IsWhiteSpace(r[0]);
    r
  }

  /** Trimming adds no character. */
  lemma TrimExcludes(s: string, cs: set<char>)
    requires Excludes(s, cs)
    ensures Excludes(Trim(s), cs)
  {
    var r := Trim(s);
    forall i | 0 <= i < |r| ensures r[i] !in cs {
      assert r[i] in r;
    }
  }

  /** Trimming twice is trimming once. */
  lemma TrimIdempotent(s: string)
    ensures Trim(Trim(s)) == Trim(s)
  {
    TrimWithTrimmed(Trim(s), IsWhiteSpace);
  }

  /** A string with non-whitespace ends is its own trim. */
  lemma TrimOfTrimmed(s: string)
    requires IsTrimmedWith(s, IsWhiteSpace)
    ensures Trim(s) == s
  {
    TrimWithTrimmed(s, IsWhiteSpace);
  }

  // --------------------------------------------------------------- splitting

  /** The index of the first character of `s` in `cs`, or -1 (`IndexOfAny`). */
  function IndexOfAny(s: string, cs: set<char>): (r: int)
    ensures -1 <= r < |s|
    ensures r >= 0 ==> s[r] in cs
  {
    if s == [] then -1
    else if s[0] in cs then 0
    else
      var k := IndexOfAny(s[1..], cs);
      if k < 0 then -1 else k + 1
  }

  /** No separator precedes the one `IndexOfAny` finds. */
  lemma {:induction false} IndexOfAnySkips(s: string, cs: set<char>)
    ensures var r := IndexOfAny(s, cs); Excludes(if r < 0 then s else s[..r], cs)
  {
    if s != [] && s[0] !in cs {
      IndexOfAnySkips(s[1..], cs);
      var k := IndexOfAny(s[1..], cs);
      var pre := if k < 0 then s[1..] else s[1..][..k];
      assert (if k < 0 then s else s[..k + 1]) == [s[0]] + pre;
    }
  }

  /** `IndexOfAny` finds the first separator. */
  lemma {:induction false} IndexOfAnyFirst(s: string, cs: set<char>, k: int)
    requires 0 <= k < |s| && s[k] in cs && Excludes(s[..k], cs)
    ensures IndexOfAny(s, cs) == k
  {
    if k > 0 {
      assert s[0] == s[..k][0];
      assert s[1..][..k - 1] == s[..k][1..];
      IndexOfAnyFirst(s[1..], cs, k - 1);
    }
  }

  /** A string without separators has none to find. */
  lemma {:induction false} IndexOfAnyNone(s: string, cs: set<char>)
    requires Excludes(s, cs)
    ensures IndexOfAny(s, cs) == -1
  {
    if s != [] {
      IndexOfAnyNone(s[1..], cs);
    }
  }

  /** `string.IndexOf(char)`. */
  function IndexOf(s: string, c: char): (r: int)
    ensures -1 <= r < |s|
    ensures r >= 0 ==> s[r] == c
  {
    IndexOfAny(s, {c})
  }

  /** `s.Split(separators, StringSplitOptions.RemoveEmptyEntries)`: the maximal runs
      of `s` free of separators, empty runs dropped, in order. */
  function Split(s: string, seps: set<char>): (r: seq<string>)
    decreases |s|
  {
    var k := IndexOfAny(s, seps);
    if k < 0 then (if s == [] then [] else [s])
    else (if k == 0 then [] else [s[..k]]) + Split(s[k + 1..], seps)
  }

  /** Every entry is non-empty and free of separators. */
  lemma {:induction false} SplitEntries(s: string, seps: set<char>)
    ensures forall x :: x in Split(s, seps) ==> x != [] && Excludes(x, seps)
    decreases |s|
  {
    IndexOfAnySkips(s, seps);
    var k := IndexOfAny(s, seps);
    if k >= 0 {
      SplitEntries(s[k + 1..], seps);
      SplitStep(s, seps, k);
    } else {
      assert Split(s, seps) == if s == [] then [] else [s];
    }
  }

  /** The entries of a blank string are blank. */
  lemma {:induction false} SplitBlank(s: string, seps: set<char>)
    requires IsBlank(s)
    ensures forall x :: x in Split(s, seps) ==> IsBlank(x)
    decreases |s|
  {
    var k := IndexOfAny(s, seps);
    if k >= 0 {
      var rest := s[k + 1..];
      assert IsBlank(rest) by {
        forall i | 0 <= i < |rest| ensures IsWhiteSpace(rest[i]) {
          assert rest[i] == s[k + 1 + i];
        }
      }
      SplitBlank(rest, seps);
      SplitStep(s, seps, k);
      if k > 0 {
        var head := s[..k];
        assert IsBlank(head) by {
          forall i | 0 <= i < |head| ensures IsWhiteSpace(head[i]) {
            assert head[i] == s[i];
          }
        }
      }
    } else {
      assert Split(s, seps) == if s == [] then [] else [s];
    }
  }

  /** Characters absent from `s` are absent from every entry. */
  lemma {:induction false} SplitExcludes(s: string, seps: set<char>, cs: set<char>)
    requires Excludes(s, cs)
    ensures forall x :: x in Split(s, seps) ==> Excludes(x, cs)
    decreases |s|
  {
    var k := IndexOfAny(s, seps);
    if k >= 0 {
      assert Excludes(s[..k], cs);
      assert Excludes(s[k + 1..], cs);
      SplitExcludes(s[k + 1..], seps, cs);
    }
  }

  /** A string without separators splits into itself, or into nothing when empty. */
  lemma SplitFree(s: string, seps: set<char>)
    requires Excludes(s, seps)
    ensures Split(s, seps) == if s == [] then [] else [s]
  {
    IndexOfAnyNone(s, seps);
  }

  /** One step of `Split`: the run before the first separator, then the rest. */
  lemma SplitStep(s: string, seps: set<char>, k: int)
    requires k == IndexOfAny(s, seps) && k >= 0
    ensures Split(s, seps) == (if k == 0 then [] else [s[..k]]) + Split(s[k + 1..], seps)
  {
  }

  /** Splitting at a separator that is the first one of the string. */
  lemma SplitAtFirst(a: string, c: char, b: string, seps: set<char>)
    requires c in seps && Excludes(a, seps)
    ensures Split(a + [c] + b, seps) == Split(a, seps) + Split(b, seps)
  {
    var s := a + [c] + b;
    assert s[..|a|] == a;
    IndexOfAnyFirst(s, seps, |a|);
    SplitStep(s, seps, |a|);
    assert s[|a| + 1..] == b;
    SplitFree(a, seps);
  }

  /** When `a` holds a separator, the first step of splitting `a + [c] + b` stays inside `a`. */
  lemma SplitConcatStep(a: string, c: char, b: string, seps: set<char>, k: int)
    requires c in seps && k == IndexOfAny(a, seps) && k >= 0
    ensures Split(a + [c] + b, seps)
         == (if k == 0 then [] else [a[..k]]) + Split(a[k + 1..] + [c] + b, seps)
  {
    var s := a + [c] + b;
    IndexOfAnySkips(a, seps);
    assert s[..k] == a[..k];
    IndexOfAnyFirst(s, seps, k);
    SplitStep(s, seps, k);
    assert s[k + 1..] == a[k + 1..] + [c] + b;
  }

  /** Splitting at one separator: the parts on either side split independently. */
  lemma {:induction false} SplitConcat(a: string, c: char, b: string, seps: set<char>)
    requires c in seps
    ensures Split(a + [c] + b, seps) == Split(a, seps) + Split(b, seps)
    decreases |a|
  {
    var k := IndexOfAny(a, seps);
    if k < 0 {
      IndexOfAnySkips(a, seps);
      SplitAtFirst(a, c, b, seps);
    } else {
      var head: seq<string> := if k == 0 then [] else [a[..k]];
      var rest := a[k + 1..];
      calc {
        Split(a + [c] + b, seps);
        { SplitConcatStep(a, c, b, seps, k); }
        head + Split(rest + [c] + b, seps);
        { SplitConcat(rest, c, b, seps); }
        head + (Split(rest, seps) + Split(b, seps));
        (head + Split(rest, seps)) + Split(b, seps);
        { SplitStep(a, seps, k); }
        Split(a, seps) + Split(b, seps);
      }
    }
  }

  /** Leading separators contribute no entries. */
  lemma {:induction false} SplitAfterSeparators(p: string, b: string, seps: set<char>)
    requires forall i :: 0 <= i < |p| ==> p[i] in seps
    ensures Split(p + b, seps) == Split(b, seps)
  {
    if p != [] {
      assert p + b == [] + [p[0]] + (p[1..] + b);
      SplitConcat([], p[0], p[1..] + b, seps);
      assert Split([], seps) == [];
      SplitAfterSeparators(p[1..], b, seps);
    } else {
      assert p + b == b;
    }
  }

  /** `string.Join(sep, xs)`. */
  function Join(sep: string, xs: seq<string>): string {
    if |xs| == 0 then []
    else if |xs| == 1 then xs[0]
    else xs[0] + sep + Join(sep, xs[1..])
  }

  /** A join never contains a character that neither the separator nor any entry contains. */
  lemma {:induction false} JoinExcludes(sep: string, xs: seq<string>, cs: set<char>)
    requires Excludes(sep, cs)
    requires forall i :: 0 <= i < |xs| ==> Excludes(xs[i], cs)
    ensures Excludes(Join(sep, xs), cs)
  {
    if |xs| > 1 {
      JoinExcludes(sep, xs[1..], cs);
      var r := Join(sep, xs[1..]);
      assert Join(sep, xs) == xs[0] + sep + r;
      assert forall i :: 0 <= i < |xs[0] + sep + r| ==> (xs[0] + sep + r)[i] !in cs by {
        forall i | 0 <= i < |xs[0] + sep + r|
          ensures (xs[0] + sep + r)[i] !in cs
        {
          if i < |xs[0]| {
          } else if i < |xs[0]| + |sep| {
            assert (xs[0] + sep + r)[i] == sep[i - |xs[0]|];
          } else {
            assert (xs[0] + sep + r)[i] == r[i - |xs[0]| - |sep|];
          }
        }
      }
    }
  }

  /** Joining separator-free entries with a non-empty run of separator characters
      and splitting again gives back the entries, less the empty ones. */
  lemma {:induction false} SplitJoin(sep: string, xs: seq<string>, seps: set<char>)
    requires |sep| > 0 && forall i :: 0 <= i < |sep| ==> sep[i] in seps
    requires forall i :: 0 <= i < |xs| ==> Excludes(xs[i], seps)
    ensures Split(Join(sep, xs), seps) == Filter(xs, NonEmpty)
  {
    if |xs| == 0 {
    } else if |xs| == 1 {
      SplitFree(xs[0], seps);
      assert xs == [xs[0]];
    } else {
      var h, rest := xs[0], Join(sep, xs[1..]);
      assert Join(sep, xs) == h + [sep[0]] + (sep[1..] + rest);
      calc {
        Split(Join(sep, xs), seps);
        { SplitConcat(h, sep[0], sep[1..] + rest, seps); }
        Split(h, seps) + Split(sep[1..] + rest, seps);
        { SplitAfterSeparators(sep[1..], rest, seps); }
        Split(h, seps) + Split(rest, seps);
        { SplitFree(h, seps); SplitJoin(sep, xs[1..], seps); }
        (if h == [] then [] else [h]) + Filter(xs[1..], NonEmpty);
        Filter(xs, NonEmpty);
      }
    }
  }

  // ------------------------------------------------------------- replacement

  /** `s.Replace(c.ToString(), with)`: every occurrence of `c` becomes `with`. */
  function ReplaceChar(s: string, c: char, with: string): (r: string)
    ensures c !in with ==> c !in r
  {
    if s == [] then [] else (if s[0] == c then with else [s[0]]) + ReplaceChar(s[1..], c, with)
  }

  lemma {:induction false} ReplaceConcat(a: string, b: string, c: char, with: string)
    ensures ReplaceChar(a + b, c, with) == ReplaceChar(a, c, with) + ReplaceChar(b, c, with)
  {
    if a != [] {
      var h := if a[0] == c then with else [a[0]];
      assert (a + b)[0] == a[0];
      assert (a + b)[1..] == a[1..] + b;
      ReplaceConcat(a[1..], b, c, with);
      calc {
        ReplaceChar(a + b, c, with);
        h + ReplaceChar(a[1..] + b, c, with);
        h + (ReplaceChar(a[1..], c, with) + ReplaceChar(b, c, with));
        (h + ReplaceChar(a[1..], c, with)) + ReplaceChar(b, c, with);
      }
    } else {
      assert a + b == b;
    }
  }

  lemma {:induction false} ReplaceAbsent(s: string, c: char, with: string)
    requires c !in s
    ensures ReplaceChar(s, c, with) == s
  {
    if s != [] {
      ReplaceAbsent(s[1..], c, with);
    }
  }

  /** Replacing a one-character separator that no entry contains re-joins with `with`. */
  lemma {:induction false} ReplaceJoin(xs: seq<string>, c: char, with: string)
    requires forall i :: 0 <= i < |xs| ==> c !in xs[i]
    ensures ReplaceChar(Join([c], xs), c, with) == Join(with, xs)
  {
    if |xs| == 1 {
      ReplaceAbsent(xs[0], c, with);
    } else if |xs| > 1 {
      var rest := Join([c], xs[1..]);
      ReplaceConcat(xs[0] + [c], rest, c, with);
      ReplaceConcat(xs[0], [c], c, with);
      ReplaceAbsent(xs[0], c, with);
      ReplaceJoin(xs[1..], c, with);
    }
  }

  // ------------------------------------------------------------------ search

  /** `sub` occurs in `s` starting at index `i`. */
  predicate OccursAt(s: string, sub: string, i: int) {
    0 <= i && i + |sub| <= |s| && s[i..i + |sub|] == sub
  }

  /** Ordinal `string.Contains(sub)`. */
  function Contains(s: string, sub: string): (r: bool)
    ensures r <==> exists i :: OccursAt(s, sub, i)
    decreases |s|
  {
    if |sub| <= |s| && s[..|sub|] == sub then
      assert OccursAt(s, sub, 0);
      true
    else if s == [] then
      false
    else
      var r := Contains(s[1..], sub);
      assert forall i :: OccursAt(s[1..], sub, i) <==> OccursAt(s, sub, i + 1) by {
        forall i ensures OccursAt(s[1..], sub, i) <==> OccursAt(s, sub, i + 1) {
          if 0 <= i && i + 1 + |sub| <= |s| {
            assert s[1..][i..i + |sub|] == s[i + 1..i + 1 + |sub|];
          }
        }
      }
      assert !OccursAt(s, sub, 0);
      assert (exists i :: OccursAt(s, sub, i)) ==> exists i :: OccursAt(s[1..], sub, i) by {
        if exists i :: OccursAt(s, sub, i) {
          var i :| OccursAt(s, sub, i);
          assert i >= 1;
          assert OccursAt(s[1..], sub, i - 1);
        }
      }
      r
  }

  /** An occurrence in either part is an occurrence in the concatenation. */
  lemma ContainsAppend(a: string, b: string, sub: string)
    requires Contains(a, sub) || Contains(b, sub)
    ensures Contains(a + b, sub)
  {
    if Contains(a, sub) {
      var i :| OccursAt(a, sub, i);
      assert (a + b)[i..i + |sub|] == a[i..i + |sub|];
      assert OccursAt(a + b, sub, i);
    } else {
      var i :| OccursAt(b, sub, i);
      assert (a + b)[|a| + i..|a| + i + |sub|] == b[i..i + |sub|];
      assert OccursAt(a + b, sub, |a| + i);
    }
  }

  /** A string contains itself. */
  lemma ContainsSelf(s: string)
    ensures Contains(s, s)
  {
    assert OccursAt(s, s, 0);
  }
}
