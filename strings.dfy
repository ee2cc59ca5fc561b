/**
 * String operations the application relies on, with the semantics of the
 * ECMAScript built-ins it calls: `startsWith`, `endsWith`, `split` with a
 * string separator, `join`, `trim`, and `replace` with a literal pattern
 * (first occurrence) or a global literal regular expression (every
 * occurrence, scanning left to right without overlap).
 */
module Strings {

  import opened Wrappers

  predicate StartsWith(s: string, prefix: string) {
    |prefix| <= |s| && s[..|prefix|] == prefix
  }

  predicate EndsWith(s: string, suffix: string) {
    |suffix| <= |s| && s[|s| - |suffix|..] == suffix
  }

  /** The length of the run of characters other than `stop` at the start of `s`: what a `[^stop]+` group takes. */
  function RunBefore(s: string, stop: char): (n: nat)
    ensures n <= |s|
    ensures forall k :: 0 <= k < n ==> s[k] != stop
    ensures n < |s| ==> s[n] == stop
  {
    if s == [] || s[0] == stop then 0 else 1 + RunBefore(s[1..], stop)
  }

  /** The run stops exactly where `stop` next occurs, or at the end. */
  lemma {:induction false} RunBeforeOf(run: string, rest: string, stop: char)
    requires stop !in run
    requires rest == [] || rest[0] == stop
    ensures RunBefore(run + rest, stop) == |run|
    decreases |run|
  {
    if run == [] {
      assert run + rest == rest;
    } else {
      assert (run + rest)[1..] == run[1..] + rest;
      assert run[0] in run;
      RunBeforeOf(run[1..], rest, stop);
    }
  }

  /** `sub` occurs in `s` starting at index `i`. */
  predicate OccursAt(s: string, sub: string, i: nat) {
    i + |sub| <= |s| && s[i..i + |sub|] == sub
  }

  predicate Contains(s: string, sub: string) {
    exists i: nat :: i <= |s| && OccursAt(s, sub, i)
  }

  /** An occurrence one place further in `s` is an occurrence in its tail. */
  lemma OccursAtTail(s: string, sub: string, i: nat)
    requires |s| > 0
    ensures OccursAt(s, sub, i + 1) <==> OccursAt(s[1..], sub, i)
  {
    if i + 1 + |sub| <= |s| {
      assert s[1..][i..i + |sub|] == s[i + 1..i + 1 + |sub|];
    }
  }

  lemma StartsWithOccursAt(s: string, sub: string, i: nat)
    requires i <= |s|
    ensures StartsWith(s[i..], sub) <==> OccursAt(s, sub, i)
  {
    if i + |sub| <= |s| {
      assert s[i..][..|sub|] == s[i..i + |sub|];
    }
  }

  // ---------------------------------------------------------------------
  // split / join
  // ---------------------------------------------------------------------

  /**
   * `s.split(sep)` for a non-empty string separator: the pieces between the
   * occurrences of `sep` found scanning from the left. There is always at
   * least one piece (`"".split(",")` is `[""]`).
   */
  function SplitOn(s: string, sep: string): (parts: seq<string>)
    requires |sep| > 0
    ensures |parts| >= 1
    decreases |s|
  {
    if StartsWith(s, sep) then [""] + SplitOn(s[|sep|..], sep)
    else if s == [] then [""]
    else
      var rest := SplitOn(s[1..], sep);
      [[s[0]] + rest[0]] + rest[1..]
  }

  /** `parts.join(sep)`. */
  function Join(parts: seq<string>, sep: string): string {
    if |parts| == 0 then ""
    else if |parts| == 1 then parts[0]
    else parts[0] + sep + Join(parts[1..], sep)
  }

  lemma JoinPrependChar(c: char, first: string, more: seq<string>, sep: string)
    ensures Join([[c] + first] + more, sep) == [c] + Join([first] + more, sep)
  {
    var ps := [[c] + first] + more;
    var qs := [first] + more;
    assert ps[1..] == more && qs[1..] == more;
  }

  /** Joining the pieces of a split with the same separator gives back the string. */
  lemma {:induction false} JoinSplit(s: string, sep: string)
    requires |sep| > 0
    ensures Join(SplitOn(s, sep), sep) == s
    decreases |s|
  {
    if StartsWith(s, sep) {
      var tail := s[|sep|..];
      calc {
        Join(SplitOn(s, sep), sep);
        Join([""] + SplitOn(tail, sep), sep);
        { JoinEmptyFirst(SplitOn(tail, sep), sep); }
        sep + Join(SplitOn(tail, sep), sep);
        { JoinSplit(tail, sep); }
        sep + tail;
        { assert s == s[..|sep|] + tail; }
        s;
      }
    } else if s != [] {
      var tail := s[1..];
      var rest := SplitOn(tail, sep);
      calc {
        Join(SplitOn(s, sep), sep);
        Join([[s[0]] + rest[0]] + rest[1..], sep);
        { JoinPrependChar(s[0], rest[0], rest[1..], sep); }
        [s[0]] + Join([rest[0]] + rest[1..], sep);
        { assert [rest[0]] + rest[1..] == rest; }
        [s[0]] + Join(rest, sep);
        { JoinSplit(tail, sep); }
        [s[0]] + tail;
        { assert s == [s[0]] + tail; }
        s;
      }
    }
  }

  lemma JoinEmptyFirst(rest: seq<string>, sep: string)
    requires |rest| >= 1
    ensures Join([""] + rest, sep) == sep + Join(rest, sep)
  {
    assert ([""] + rest)[1..] == rest;
  }

  /** No piece produced by a split contains the separator. */
  lemma {:induction false} SplitPiecesFree(s: string, sep: string)
    requires |sep| > 0
    ensures forall k :: 0 <= k < |SplitOn(s, sep)| ==> !Contains(SplitOn(s, sep)[k], sep)
    decreases |s|
  {
    var parts := SplitOn(s, sep);
    if StartsWith(s, sep) {
      SplitPiecesFree(s[|sep|..], sep);
      forall k | 0 <= k < |parts| ensures !Contains(parts[k], sep) {
        if k == 0 {
          assert parts[0] == "";
        } else {
          assert parts[k] == SplitOn(s[|sep|..], sep)[k - 1];
        }
      }
    } else if s == [] {
      assert parts == [""];
    } else {
      var rest := SplitOn(s[1..], sep);
      SplitPiecesFree(s[1..], sep);
      forall k | 0 <= k < |parts| ensures !Contains(parts[k], sep) {
        if k == 0 {
          var p := [s[0]] + rest[0];
          assert parts[0] == p;
          if Contains(p, sep) {
            var i: nat :| OccursAt(p, sep, i);
            if i == 0 {
              JoinSplit(s[1..], sep);
              assert s[1..] == Join(rest, sep);
              PrefixOfJoin(rest, sep);
              assert false;
            } else {
              OccursAtTail(p, sep, i - 1);
              assert false;
            }
          }
        } else {
          assert parts[k] == rest[k];
        }
      }
    }
  }

  /** A string without the separator splits into itself alone. */
  lemma {:induction false} SplitWithoutSeparator(s: string, sep: string)
    requires |sep| > 0
    requires !Contains(s, sep)
    ensures SplitOn(s, sep) == [s]
    decreases |s|
  {
    if StartsWith(s, sep) {
      assert OccursAt(s, sep, 0);
    } else if s != [] {
      if Contains(s[1..], sep) {
        var i: nat :| OccursAt(s[1..], sep, i);
        OccursAtTail(s, sep, i);
      }
      SplitWithoutSeparator(s[1..], sep);
      assert [s[0]] + s[1..] == s;
    }
  }

  lemma PrefixOfJoin(parts: seq<string>, sep: string)
    requires |parts| >= 1
    ensures StartsWith(Join(parts, sep), parts[0])
  {
    if |parts| > 1 {
      var j := Join(parts, sep);
      assert j == parts[0] + (sep + Join(parts[1..], sep));
      assert j[..|parts[0]|] == parts[0];
    }
  }

  // ---------------------------------------------------------------------
  // replace
  // ---------------------------------------------------------------------

  /**
   * `s.replace(/pat/g, rep)` for a literal pattern: every occurrence found
   * scanning from the left is replaced; the replacement text is not scanned
   * again.
   */
  function ReplaceAll(s: string, pat: string, rep: string): string
    requires |pat| > 0
    decreases |s|
  {
    if StartsWith(s, pat) then rep + ReplaceAll(s[|pat|..], pat, rep)
    else if s == [] then []
    else [s[0]] + ReplaceAll(s[1..], pat, rep)
  }

  /**
   * Global replacement is splitting on the pattern and joining with the
   * replacement, so every piece of text between occurrences is kept.
   */
  lemma {:induction false} ReplaceAllIsSplitJoin(s: string, pat: string, rep: string)
    requires |pat| > 0
    ensures ReplaceAll(s, pat, rep) == Join(SplitOn(s, pat), rep)
    decreases |s|
  {
    if StartsWith(s, pat) {
      var rest := SplitOn(s[|pat|..], pat);
      calc {
        ReplaceAll(s, pat, rep);
        rep + ReplaceAll(s[|pat|..], pat, rep);
        { ReplaceAllIsSplitJoin(s[|pat|..], pat, rep); }
        rep + Join(rest, rep);
        { JoinEmptyFirst(rest, rep); }
        Join([""] + rest, rep);
      }
    } else if s == [] {
    } else {
      var rest := SplitOn(s[1..], pat);
      calc {
        ReplaceAll(s, pat, rep);
        [s[0]] + ReplaceAll(s[1..], pat, rep);
        { ReplaceAllIsSplitJoin(s[1..], pat, rep); }
        [s[0]] + Join(rest, rep);
        { assert [rest[0]] + rest[1..] == rest; }
        [s[0]] + Join([rest[0]] + rest[1..], rep);
        { JoinPrependChar(s[0], rest[0], rest[1..], rep); }
        Join([[s[0]] + rest[0]] + rest[1..], rep);
      }
    }
  }

  /** A string without the pattern is left as it is by a global replacement. */
  lemma {:induction false} ReplaceAllAbsent(s: string, pat: string, rep: string)
    requires |pat| > 0
    requires !Contains(s, pat)
    ensures ReplaceAll(s, pat, rep) == s
    decreases |s|
  {
    if StartsWith(s, pat) {
      assert OccursAt(s, pat, 0);
    } else if s != [] {
      if Contains(s[1..], pat) {
        var i: nat :| OccursAt(s[1..], pat, i);
        OccursAtTail(s, pat, i);
      }
      ReplaceAllAbsent(s[1..], pat, rep);
      assert s == [s[0]] + s[1..];
    }
  }

  /** Text in which no occurrence starts is copied as it is. */
  lemma {:induction false} ReplaceAllSkip(x: string, t: string, pat: string, rep: string)
    requires |pat| > 0
    requires forall i: nat :: i < |x| ==> !OccursAt(x + t, pat, i)
    ensures ReplaceAll(x + t, pat, rep) == x + ReplaceAll(t, pat, rep)
    decreases |x|
  {
    if x != [] {
      var s := x + t;
      assert !StartsWith(s, pat) by {
        assert !OccursAt(s, pat, 0);
        StartsWithOccursAt(s, pat, 0);
        assert s[0..] == s;
      }
      assert ReplaceAll(s, pat, rep) == [s[0]] + ReplaceAll(s[1..], pat, rep);
      assert s[1..] == x[1..] + t;
      forall i: nat | i < |x[1..]| ensures !OccursAt(x[1..] + t, pat, i) {
        assert !OccursAt(s, pat, i + 1);
        OccursAtTail(s, pat, i);
      }
      ReplaceAllSkip(x[1..], t, pat, rep);
      assert ReplaceAll(s[1..], pat, rep) == x[1..] + ReplaceAll(t, pat, rep);
      assert s[0] == x[0] && [x[0]] + x[1..] == x;
      assert [s[0]] + (x[1..] + ReplaceAll(t, pat, rep)) == x + ReplaceAll(t, pat, rep);
    } else {
      assert x + t == t;
    }
  }

  /** An occurrence at the front is replaced and the scan goes on after it. */
  lemma ReplaceAllFront(t: string, pat: string, rep: string)
    requires |pat| > 0
    ensures ReplaceAll(pat + t, pat, rep) == rep + ReplaceAll(t, pat, rep)
  {
    assert (pat + t)[..|pat|] == pat;
    assert (pat + t)[|pat|..] == t;
  }

  /** Index of the first occurrence of `pat` in `s`, if any. */
  function IndexOf(s: string, pat: string): (r: Option<nat>)
    ensures r.Some? ==> OccursAt(s, pat, r.value)
    ensures r.Some? ==> forall j: nat :: j < r.value ==> !OccursAt(s, pat, j)
    ensures r.None? ==> !Contains(s, pat)
    decreases |s|
  {
    if StartsWith(s, pat) then Some(0)
    else if s == [] then None
    else
      match IndexOf(s[1..], pat)
      case None =>
        assert !Contains(s, pat) by {
          if Contains(s, pat) {
            var i: nat :| OccursAt(s, pat, i);
            if i > 0 { OccursAtTail(s, pat, i - 1); }
          }
        }
        None
      case Some(i) =>
        OccursAtTail(s, pat, i);
        assert forall j: nat :: j < i + 1 ==> !OccursAt(s, pat, j) by {
          forall j: nat | j < i + 1 ensures !OccursAt(s, pat, j) {
            if j > 0 && OccursAt(s, pat, j) {
              OccursAtTail(s, pat, j - 1);
            }
          }
        }
        Some(i + 1)
  }

  /**
   * `s.replace(pat, rep)` with a string pattern: only the first occurrence is
   * replaced; without one the string is returned unchanged.
   */
  function ReplaceFirst(s: string, pat: string, rep: string): (r: string)
    ensures !Contains(s, pat) ==> r == s
    ensures Contains(s, pat) ==>
      exists i: nat :: OccursAt(s, pat, i) && (forall j: nat :: j < i ==> !OccursAt(s, pat, j))
        && r == s[..i] + rep + s[i + |pat|..]
  {
    match IndexOf(s, pat)
    case None => s
    case Some(i) => s[..i] + rep + s[i + |pat|..]
  }

  // ---------------------------------------------------------------------
  // trim
  // ---------------------------------------------------------------------

  /**
   * The characters `String.prototype.trim` removes: the ECMAScript
   * WhiteSpace (tab, vertical tab, form feed, the byte order mark and the
   * Unicode space separators) and LineTerminator characters.
   */
  predicate IsSpace(c: char) {
    c == ' ' || c == '\t' || c == '\n' || c == '\r' || c == '\U{000B}' || c == '\U{000C}'
    || c == '\U{00A0}' || c == '\U{FEFF}' || c == '\U{1680}' || ('\U{2000}' <= c <= '\U{200A}')
    || c == '\U{2028}' || c == '\U{2029}' || c == '\U{202F}' || c == '\U{205F}' || c == '\U{3000}'
  }

  predicate AllSpace(s: string) {
    forall i :: 0 <= i < |s| ==> IsSpace(s[i])
  }

  lemma AllSpaceConcat(a: string, b: string)
    ensures AllSpace(a + b) <==> AllSpace(a) && AllSpace(b)
  {
    if AllSpace(a + b) {
      forall i | 0 <= i < |a| ensures IsSpace(a[i]) {
        assert (a + b)[i] == a[i];
      }
      forall i | 0 <= i < |b| ensures IsSpace(b[i]) {
        assert (a + b)[|a| + i] == b[i];
      }
    }
    if AllSpace(a) && AllSpace(b) {
      forall i | 0 <= i < |a + b| ensures IsSpace((a + b)[i]) {
        if i < |a| { assert (a + b)[i] == a[i]; } else { assert (a + b)[i] == b[i - |a|]; }
      }
    }
  }

  function TrimStart(s: string): (r: string)
    ensures |r| <= |s| && s[|s| - |r|..] == r
    ensures AllSpace(s[..|s| - |r|])
    ensures r != [] ==> !IsSpace(r[0])
    decreases |s|
  {
    if s != [] && IsSpace(s[0]) then
      var r := TrimStart(s[1..]);
      assert s[1..][..|s| - 1 - |r|] == s[1..|s| - |r|];
      r
    else s
  }

  function TrimEnd(s: string): (r: string)
    ensures |r| <= |s| && s[..|r|] == r
    ensures AllSpace(s[|r|..])
    ensures r != [] ==> !IsSpace(r[|r| - 1])
    decreases |s|
  {
    if s != [] && IsSpace(s[|s| - 1]) then
      var r := TrimEnd(s[..|s| - 1]);
      assert s[|r|..] == s[..|s| - 1][|r|..] + [s[|s| - 1]];
      AllSpaceConcat(s[..|s| - 1][|r|..], [s[|s| - 1]]);
      r
    else s
  }

  /** How much leading white space `trim()` removes. */
  function Lead(s: string): (a: nat)
    ensures a <= |s| && AllSpace(s[..a])
  {
    |s| - |TrimStart(s)|
  }

  /**
   * `s.trim()`: the string without its leading and trailing white space.
   */
  function Trim(s: string): (r: string)
    ensures |r| <= |s|
  {
    TrimEnd(TrimStart(s))
  }

  /**
   * What `trim()` keeps is a slice of the string, what it removes on either
   * side is white space only, and the result neither starts nor ends with
   * white space.
   */
  lemma TrimShape(s: string)
    ensures Lead(s) + |Trim(s)| <= |s| && s[Lead(s)..Lead(s) + |Trim(s)|] == Trim(s)
    ensures AllSpace(s[Lead(s) + |Trim(s)|..])
    ensures Trim(s) != [] ==> !IsSpace(Trim(s)[0]) && !IsSpace(Trim(s)[|Trim(s)| - 1])
  {
    TrimSlice(s);
    TrimEnds(s);
  }

  lemma TrimSlice(s: string)
    ensures Lead(s) + |Trim(s)| <= |s| && s[Lead(s)..Lead(s) + |Trim(s)|] == Trim(s)
    ensures AllSpace(s[Lead(s) + |Trim(s)|..])
  {
    var t := TrimStart(s);
    var r := TrimEnd(t);
    SliceOfSuffix(s, Lead(s), t, r);
  }

  lemma TrimEnds(s: string)
    ensures Trim(s) != [] ==> !IsSpace(Trim(s)[0]) && !IsSpace(Trim(s)[|Trim(s)| - 1])
  {
    var t := TrimStart(s);
    var r := TrimEnd(t);
    assert Trim(s) == r;
    if r != [] {
      assert t != [] && !IsSpace(t[0]);
      assert r[0] == t[0] by {
        assert t[..|r|] == r;
      }
      assert !IsSpace(r[|r| - 1]);
    }
  }

  /** A prefix `r` of the suffix `t` of `s` that starts at `a`, and what follows it. */
  lemma SliceOfSuffix(s: string, a: nat, t: string, r: string)
    requires a <= |s| && s[a..] == t && |r| <= |t| && t[..|r|] == r
    ensures a + |r| <= |s| && s[a..a + |r|] == r && s[a + |r|..] == t[|r|..]
  {
    assert s[a..a + |r|] == s[a..][..|r|];
    assert s[a + |r|..] == s[a..][|r|..];
  }

  /** A pattern found in a slice of a string is found in the string. */
  lemma ContainsInSlice(s: string, a: nat, b: nat, sub: string)
    requires a <= b <= |s|
    requires Contains(s[a..b], sub)
    ensures Contains(s, sub)
  {
    var i: nat :| i <= |s[a..b]| && OccursAt(s[a..b], sub, i);
    assert i + |sub| <= b - a;
    forall k | 0 <= k < |sub| ensures s[a + i + k] == sub[k] {
      assert s[a..b][i..i + |sub|][k] == sub[k];
    }
    assert s[a + i..a + i + |sub|] == sub;
    assert OccursAt(s, sub, a + i);
  }

  /** Trimming cannot make a pattern appear. */
  lemma TrimKeepsAbsence(s: string, sub: string)
    requires !Contains(s, sub)
    ensures !Contains(Trim(s), sub)
  {
    var t := Trim(s);
    var a := Lead(s);
    TrimShape(s);
    if Contains(t, sub) {
      ContainsInSlice(s, a, a + |t|, sub);
    }
  }

  /** A string without surrounding white space is its own trim. */
  lemma TrimmedIsFixed(s: string)
    requires s == [] || (!IsSpace(s[0]) && !IsSpace(s[|s| - 1]))
    ensures Trim(s) == s
  {
  }

  /** Trimming twice is trimming once. */
  lemma TrimIdempotent(s: string)
    ensures Trim(Trim(s)) == Trim(s)
  {
    TrimShape(s);
    TrimmedIsFixed(Trim(s));
  }

  lemma {:induction false} TrimStartAllSpace(s: string)
    requires AllSpace(s)
    ensures TrimStart(s) == ""
    decreases |s|
  {
    if s != [] {
      assert AllSpace(s[1..]) by {
        assert s == [s[0]] + s[1..];
        AllSpaceConcat([s[0]], s[1..]);
      }
      TrimStartAllSpace(s[1..]);
    }
  }

  /** Only a string made of white space trims to the empty string. */
  lemma TrimEmptyIffAllSpace(s: string)
    ensures Trim(s) == "" <==> AllSpace(s)
  {
    if AllSpace(s) {
      TrimStartAllSpace(s);
      assert Trim(s) == TrimEnd("");
    }
    if Trim(s) == "" {
      TrimEmptyAllSpace(s);
    }
  }

  lemma TrimEmptyAllSpace(s: string)
    requires Trim(s) == ""
    ensures AllSpace(s)
  {
    var a := Lead(s);
    TrimShape(s);
    assert AllSpace(s[..a]) && AllSpace(s[a..]);
    assert s == s[..a] + s[a..];
    AllSpaceConcat(s[..a], s[a..]);
  }
}
