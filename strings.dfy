/**
 * The pieces of Rust's `str` that the triage pipeline relies on:
 * `char::is_whitespace`, `str::trim`, `str::split` on one character and
 * `join` on a list of strings.  Strings are sequences of Unicode scalar
 * values, as Rust's `char` is.
 */
module Strings {

  /**
   * The Unicode White_Space property, which is what `char::is_whitespace`
   * tests: tab to carriage return, space, next line, no-break space, Ogham
   * space mark, the spaces from en quad to hair space, line and paragraph
   * separators, narrow no-break space, medium mathematical space and
   * ideographic space.
   */
  predicate IsWhitespace(c: char) {
    || ('\t' <= c <= '\r') || c == ' ' || c == '\U{85}' || c == '\U{A0}' || c == '\U{1680}'
    || ('\U{2000}' <= c <= '\U{200A}') || c == '\U{2028}' || c == '\U{2029}' || c == '\U{202F}'
    || c == '\U{205F}' || c == '\U{3000}'
  }

  predicate AllWhitespace(s: string) {
    forall i :: 0 <= i < |s| ==> IsWhitespace(s[i])
  }

  /** Neither end of `s` is whitespace: the shape of every result of `Trim`. */
  predicate IsTrimmed(s: string) {
    s == [] || (!IsWhitespace(s[0]) && !IsWhitespace(s[|s| - 1]))
  }

  /** The length of the longest whitespace prefix of `s`. */
  function LeadLength(s: string): (n: nat)
    ensures n <= |s|
    ensures forall k :: 0 <= k < n ==> IsWhitespace(s[k])
    ensures n == |s| || !IsWhitespace(s[n])
  {
    if s == [] || !IsWhitespace(s[0]) then 0 else 1 + LeadLength(s[1..])
  }

  /** The length of the longest whitespace suffix of `s`. */
  function TrailLength(s: string): (n: nat)
    ensures n <= |s|
    ensures forall k :: |s| - n <= k < |s| ==> IsWhitespace(s[k])
    ensures n == |s| || !IsWhitespace(s[|s| - n - 1])
  {
    if s == [] || !IsWhitespace(s[|s| - 1]) then 0 else 1 + TrailLength(s[..|s| - 1])
  }

  /**
   * `str::trim`: the slice of `s` left after removing the longest whitespace
   * prefix and then the longest whitespace suffix of what remains.
   */
  function Trim(s: string): string {
    var m := s[LeadLength(s)..];
    m[..|m| - TrailLength(m)]
  }

  /**
   * What `Trim` keeps: a trimmed slice of `s` with only whitespace before it
   * and only whitespace after it.
   */
  lemma TrimShape(s: string)
    ensures IsTrimmed(Trim(s))
    ensures LeadLength(s) + |Trim(s)| <= |s| && Trim(s) == s[LeadLength(s)..LeadLength(s) + |Trim(s)|]
    ensures forall k :: 0 <= k < LeadLength(s) ==> IsWhitespace(s[k])
    ensures forall k :: LeadLength(s) + |Trim(s)| <= k < |s| ==> IsWhitespace(s[k])
  {
    TrimEnds(s);
    TrimSlice(s);
  }

  lemma TrimEnds(s: string)
    ensures IsTrimmed(Trim(s))
  {
    var m := s[LeadLength(s)..];
    var j := |m| - TrailLength(m);
    if j > 0 {
      assert Trim(s)[0] == m[0] && Trim(s)[j - 1] == m[j - 1];
    }
  }

  lemma TrimSlice(s: string)
    ensures LeadLength(s) + |Trim(s)| <= |s| && Trim(s) == s[LeadLength(s)..LeadLength(s) + |Trim(s)|]
    ensures forall k :: LeadLength(s) + |Trim(s)| <= k < |s| ==> IsWhitespace(s[k])
  {
    var i := LeadLength(s);
    var m := s[i..];
    var j := |m| - TrailLength(m);
    assert Trim(s) == m[..j];
    forall k | i + j <= k < |s| ensures IsWhitespace(s[k]) {
      assert s[k] == m[k - i];
    }
  }

  /** Trimming only removes characters. */
  lemma TrimInside(s: string, c: char)
    requires c !in s
    ensures c !in Trim(s)
  {
    var r := Trim(s);
    var i := LeadLength(s);
    TrimShape(s);
    forall k | 0 <= k < |r| ensures r[k] != c {
      assert r[k] == s[i + k];
    }
  }

  /**
   * `Trim` is determined by its contract: whatever whitespace surrounds a
   * trimmed string, trimming gives that string back.
   */
  lemma {:induction false} TrimSurrounded(lead: string, m: string, trail: string)
    requires AllWhitespace(lead) && AllWhitespace(trail) && IsTrimmed(m)
    ensures Trim(lead + m + trail) == m
  {
    var s := lead + m + trail;
    if m == [] {
      LeadAllWhitespace(s);
    } else {
      LeadOf(lead, m + trail);
      assert s == lead + (m + trail);
      assert s[|lead|..] == m + trail;
      TrailOf(m, trail);
    }
  }

  lemma {:induction false} LeadAllWhitespace(s: string)
    requires AllWhitespace(s)
    ensures LeadLength(s) == |s|
  {
    if s != [] {
      LeadAllWhitespace(s[1..]);
    }
  }

  lemma {:induction false} LeadOf(lead: string, rest: string)
    requires AllWhitespace(lead) && rest != [] && !IsWhitespace(rest[0])
    ensures LeadLength(lead + rest) == |lead|
  {
    if lead != [] {
      assert (lead + rest)[1..] == lead[1..] + rest;
      LeadOf(lead[1..], rest);
    }
  }

  lemma {:induction false} TrailOf(rest: string, trail: string)
    requires AllWhitespace(trail) && rest != [] && !IsWhitespace(rest[|rest| - 1])
    ensures TrailLength(rest + trail) == |trail|
  {
    if trail != [] {
      assert (rest + trail)[..|rest + trail| - 1] == rest + trail[..|trail| - 1];
      TrailOf(rest, trail[..|trail| - 1]);
    }
  }

  /** Trimming twice is trimming once. */
  lemma TrimIdempotent(s: string)
    ensures Trim(Trim(s)) == Trim(s)
  {
    TrimShape(s);
    TrimSurrounded([], Trim(s), []);
    assert [] + Trim(s) + [] == Trim(s);
  }

  /** A blank string trims to the empty string. */
  lemma TrimBlank(s: string)
    requires AllWhitespace(s)
    ensures Trim(s) == []
  {
    TrimSurrounded(s, [], []);
    assert s + [] + [] == s;
  }

  /** The number of occurrences of `c` in `s`. */
  function Count(s: string, c: char): nat {
    if s == [] then 0 else (if s[0] == c then 1 else 0) + Count(s[1..], c)
  }

  /** `[String]::join(sep)`: the pieces with one `sep` between neighbours. */
  function Join(pieces: seq<string>, sep: string): string {
    if |pieces| == 0 then []
    else if |pieces| == 1 then pieces[0]
    else pieces[0] + sep + Join(pieces[1..], sep)
  }

  /** Appending one more piece to an unseparated join appends that piece. */
  lemma {:induction false} ConcatSnoc(pieces: seq<string>, x: string)
    ensures Join(pieces + [x], []) == Join(pieces, []) + x
  {
    if |pieces| == 1 {
      assert (pieces + [x])[1..] == [x];
    } else if |pieces| > 1 {
      assert (pieces + [x])[1..] == pieces[1..] + [x];
      ConcatSnoc(pieces[1..], x);
    } else {
      assert pieces + [x] == [x];
    }
  }

  /**
   * `str::split(sep)` on one character: the maximal `sep`-free pieces of `s`,
   * in order, empty pieces included; there is always at least one.
   */
  function Split(s: string, sep: char): (r: seq<string>)
    ensures |r| >= 1
  {
    if s == [] then [[]]
    else
      var rest := Split(s[1..], sep);
      if s[0] == sep then [[]] + rest else [[s[0]] + rest[0]] + rest[1..]
  }

  /** There is one more piece than there are separators. */
  lemma {:induction false} SplitCount(s: string, sep: char)
    ensures |Split(s, sep)| == Count(s, sep) + 1
  {
    if s != [] {
      SplitCount(s[1..], sep);
    }
  }

  /** No piece contains the separator, and joining the pieces with it gives `s` back. */
  lemma {:induction false} JoinSplit(s: string, sep: char)
    ensures forall p :: p in Split(s, sep) ==> sep !in p
    ensures Join(Split(s, sep), [sep]) == s
  {
    if s != [] {
      JoinSplit(s[1..], sep);
      SplitCons(s[0], s[1..], sep);
      assert s == [s[0]] + s[1..];
      var rest := Split(s[1..], sep);
      if s[0] == sep {
        assert Join([[]] + rest, [sep]) == [] + [sep] + Join(rest, [sep]);
      } else {
        JoinConsChar(s[0], rest, [sep]);
        assert forall p :: p in [[s[0]] + rest[0]] + rest[1..] ==> p == [s[0]] + rest[0] || p in rest;
      }
    }
  }

  lemma JoinConsChar(c: char, pieces: seq<string>, sep: string)
    requires |pieces| >= 1
    ensures Join([[c] + pieces[0]] + pieces[1..], sep) == [c] + Join(pieces, sep)
  {
    var q := [[c] + pieces[0]] + pieces[1..];
    assert q[1..] == pieces[1..];
    if |pieces| > 1 {
      assert Join(q, sep) == ([c] + pieces[0]) + sep + Join(pieces[1..], sep);
    }
  }

  /** Splitting on a separator that was put between `a` and `b` splits each side. */
  lemma {:induction false} SplitAppend(a: string, b: string, sep: char)
    ensures Split(a + [sep] + b, sep) == Split(a, sep) + Split(b, sep)
  {
    if a == [] {
      SplitCons(sep, b, sep);
      assert a + [sep] + b == [sep] + b;
    } else {
      SplitAppend(a[1..], b, sep);
      SplitAppendStep(a[0], a[1..], a[1..] + [sep] + b, Split(b, sep), sep);
      assert a + [sep] + b == [a[0]] + (a[1..] + [sep] + b);
      assert a == [a[0]] + a[1..];
    }
  }

  /** Putting `c` in front of both `t` and `a` keeps `Split(t)` extending `Split(a)` by `tail`. */
  lemma SplitAppendStep(c: char, a: string, t: string, tail: seq<string>, sep: char)
    requires Split(t, sep) == Split(a, sep) + tail
    ensures Split([c] + t, sep) == Split([c] + a, sep) + tail
  {
    var x := Split(a, sep);
    if c != sep {
      SplitConsOther(c, t, sep);
      SplitConsOther(c, a, sep);
      ConsHeadAppend(c, x, tail);
      assert Split([c] + t, sep) == [[c] + (x + tail)[0]] + (x + tail)[1..];
    } else {
      SplitConsSep(t, sep);
      SplitConsSep(a, sep);
      assert [[]] + (x + tail) == ([[]] + x) + tail;
    }
  }

  lemma ConsHeadAppend(c: char, x: seq<string>, y: seq<string>)
    requires |x| >= 1
    ensures [[c] + (x + y)[0]] + (x + y)[1..] == ([[c] + x[0]] + x[1..]) + y
  {
    assert (x + y)[0] == x[0];
    assert (x + y)[1..] == x[1..] + y;
  }

  lemma SplitConsOther(c: char, t: string, sep: char)
    requires c != sep
    ensures Split([c] + t, sep) == [[c] + Split(t, sep)[0]] + Split(t, sep)[1..]
  {
    assert ([c] + t)[1..] == t;
  }

  lemma SplitConsSep(t: string, sep: char)
    ensures Split([sep] + t, sep) == [[]] + Split(t, sep)
  {
    assert ([sep] + t)[1..] == t;
  }

  /** Splitting a string that starts with `c`. */
  lemma SplitCons(c: char, t: string, sep: char)
    ensures Split([c] + t, sep) ==
      if c == sep then [[]] + Split(t, sep) else [[c] + Split(t, sep)[0]] + Split(t, sep)[1..]
  {
    assert ([c] + t)[1..] == t;
  }

  /** `Split` undoes `Join` when no piece contains the separator. */
  lemma {:induction false} SplitJoin(pieces: seq<string>, sep: char)
    requires |pieces| >= 1
    requires forall p :: p in pieces ==> sep !in p
    ensures Split(Join(pieces, [sep]), sep) == pieces
  {
    SplitWithoutSep(pieces[0], sep);
    if |pieces| > 1 {
      SplitJoin(pieces[1..], sep);
      SplitAppend(pieces[0], Join(pieces[1..], [sep]), sep);
      assert pieces == [pieces[0]] + pieces[1..];
    }
  }

  /** A string without the separator splits into itself. */
  lemma SplitWithoutSep(s: string, sep: char)
    requires sep !in s
    ensures Split(s, sep) == [s]
  {
    JoinSplit(s, sep);
  }
}
