/**
 * The JavaScript string operations the form handling relies on:
 * `startsWith`, `trim`, `split` with a one-character separator, and the
 * truthiness test `!!x` on an optional string. Strings are sequences of
 * Unicode scalar values; none of the characters involved (the comma and the
 * white-space characters) lies outside the Basic Multilingual Plane, so the
 * results agree with JavaScript's UTF-16 view.
 */
module JsStrings {
  import opened Wrappers

  /** `s.startsWith(prefix)`. */
  predicate StartsWith(s: string, prefix: string)
    ensures StartsWith(s, prefix) <==> |prefix| <= |s| && forall i :: 0 <= i < |prefix| ==> s[i] == prefix[i]
  {
    |prefix| <= |s| && s[..|prefix|] == prefix
  }

  /** `!!v` for a value that is a string or `undefined`: only defined non-empty strings are truthy. */
  predicate Truthy(v: Option<string>)
    ensures !Truthy(v) <==> v == None || v == Some("")
  {
    v.Some? && v.value != ""
  }

  /** The characters `String.prototype.trim` removes: WhiteSpace (including category Zs) and LineTerminator. */
  predicate IsJsWhitespace(c: char)
  {
    || c == '\t' || c == '\U{000B}' || c == '\U{000C}' || c == ' ' || c == '\U{00A0}' || c == '\U{FEFF}'
    || c == '\U{1680}' || ('\U{2000}' <= c <= '\U{200A}') || c == '\U{202F}' || c == '\U{205F}' || c == '\U{3000}'
    || c == '\n' || c == '\r' || c == '\U{2028}' || c == '\U{2029}'
  }

  /** Every character of `s` is white space (true of the empty string). */
  predicate IsBlank(s: string)
  {
    forall i :: 0 <= i < |s| ==> IsJsWhitespace(s[i])
  }

  /** Position of the first `c` in `s`, or `|s|` when `s` has none (JavaScript's -1). */
  function IndexOf(s: string, c: char): (i: nat)
    ensures i <= |s|
    ensures i < |s| ==> s[i] == c
    ensures forall j :: 0 <= j < i ==> s[j] != c
  {
    if s == [] then 0 else if s[0] == c then 0 else 1 + IndexOf(s[1..], c)
  }

  /** The number of occurrences of `c` in `s`. */
  function Count(s: string, c: char): (n: nat)
    ensures n == 0 <==> c !in s
    ensures n <= |s|
  {
    if s == [] then 0 else (if s[0] == c then 1 else 0) + Count(s[1..], c)
  }

  /** `s.trimStart()`. */
  function TrimStart(s: string): (r: string)
    ensures |r| <= |s| && r == s[|s| - |r|..]
    ensures r != [] ==> !IsJsWhitespace(r[0])
    ensures IsBlank(s[..|s| - |r|])
  {
    if s != [] && IsJsWhitespace(s[0]) then
      var tail := s[1..];
      var r := TrimStart(tail);
      assert r == s[|s| - |r|..] by { assert tail[|tail| - |r|..] == s[|s| - |r|..]; }
      assert s[..|s| - |r|] == [s[0]] + tail[..|tail| - |r|];
      r
    else s
  }

  /** `s.trimEnd()`. */
  function TrimEnd(s: string): (r: string)
    ensures |r| <= |s| && r == s[..|r|]
    ensures r != [] ==> !IsJsWhitespace(r[|r| - 1])
    ensures IsBlank(s[|r|..])
  {
    if s != [] && IsJsWhitespace(s[|s| - 1]) then
      var init := s[..|s| - 1];
      var r := TrimEnd(init);
      assert r == s[..|r|] by { assert init[..|r|] == s[..|r|]; }
      assert s[|r|..] == init[|r|..] + [s[|s| - 1]];
      r
    else s
  }

  /**
   * `r` is `s` with the white space at both ends removed, the first `a`
   * characters being the removed leading part: what remains neither starts
   * nor ends with white space.
   */
  predicate IsTrimmedSlice(s: string, a: nat, r: string)
  {
    && a + |r| <= |s|
    && r == s[a..a + |r|]
    && IsBlank(s[..a])
    && IsBlank(s[a + |r|..])
    && (r != [] ==> !IsJsWhitespace(r[0]) && !IsJsWhitespace(r[|r| - 1]))
  }

  /** `s.trim()`: the middle part of `s` left after removing white space from both ends. */
  function Trim(s: string): (r: string)
    ensures IsTrimmedSlice(s, |s| - |TrimStart(s)|, r)
  {
    TrimSpan(s);
    TrimEnd(TrimStart(s))
  }

  lemma TrimSpan(s: string)
    ensures IsTrimmedSlice(s, |s| - |TrimStart(s)|, TrimEnd(TrimStart(s)))
  {
    var t := TrimStart(s);
    var r := TrimEnd(t);
    assert |t| <= |s| && t == s[|s| - |t|..] && IsBlank(s[..|s| - |t|]);
    assert |r| <= |t| && r == t[..|r|] && IsBlank(t[|r|..]);
    TrimmedSliceOf(s, t, r);
  }

  /**
   * Removing a blank prefix of `s` (leaving `t`) and then a blank suffix of
   * `t` (leaving `r`) leaves a slice of `s` framed by the two blank parts.
   */
  lemma TrimmedSliceOf(s: string, t: string, r: string)
    requires |t| <= |s| && t == s[|s| - |t|..] && IsBlank(s[..|s| - |t|])
    requires t != [] ==> !IsJsWhitespace(t[0])
    requires |r| <= |t| && r == t[..|r|] && IsBlank(t[|r|..])
    requires r != [] ==> !IsJsWhitespace(r[|r| - 1])
    ensures IsTrimmedSlice(s, |s| - |t|, r)
  {
    var a := |s| - |t|;
    assert r == s[a..a + |r|];
    assert t[|r|..] == s[a + |r|..];
    if r != [] {
      assert r[0] == t[0];
    }
  }

  /** `s.trim() === ''` holds exactly for the strings made only of white space. */
  lemma TrimEmptyIffBlank(s: string)
    ensures Trim(s) == "" <==> IsBlank(s)
  {
    var t := TrimStart(s);
    if Trim(s) == "" {
      assert t[0..] == t;
      assert t == [];
      assert s[..|s| - |t|] == s;
    } else {
      var r := TrimEnd(t);
      assert r != [] && !IsJsWhitespace(r[0]);
      assert r[0] == s[|s| - |t|];
    }
  }

  /**
   * `s.split(sep)` for a one-character separator and no limit: the pieces
   * between consecutive occurrences of `sep`, none of them trimmed.
   */
  function Split(s: string, sep: char): (pieces: seq<string>)
    ensures |pieces| >= 1
    ensures pieces[0] == s[..IndexOf(s, sep)]
    decreases |s|
  {
    var i := IndexOf(s, sep);
    if i == |s| then [s] else [s[..i]] + Split(s[i + 1..], sep)
  }

  /** `pieces.join(sep)` for a one-character separator. */
  function Join(pieces: seq<string>, sep: char): (s: string)
  {
    if pieces == [] then ""
    else if |pieces| == 1 then pieces[0]
    else pieces[0] + [sep] + Join(pieces[1..], sep)
  }

  /** No piece of a split contains the separator. */
  predicate NoSeparator(pieces: seq<string>, sep: char)
  {
    forall k :: 0 <= k < |pieces| ==> sep !in pieces[k]
  }

  lemma {:induction false} CountAppend(a: string, b: string, c: char)
    ensures Count(a + b, c) == Count(a, c) + Count(b, c)
    decreases |a|
  {
    if a != [] {
      assert (a + b)[1..] == a[1..] + b;
      CountAppend(a[1..], b, c);
    } else {
      assert a + b == b;
    }
  }

  /** `IndexOf` is determined by its contract: the first position holding `c`, or `|s|`. */
  lemma IndexOfAt(s: string, c: char, k: nat)
    requires k <= |s|
    requires forall j :: 0 <= j < k ==> s[j] != c
    requires k < |s| ==> s[k] == c
    ensures IndexOf(s, c) == k
  {
  }

  /** k separators give k + 1 pieces. */
  lemma {:induction false} SplitPieceCount(s: string, sep: char)
    ensures |Split(s, sep)| == Count(s, sep) + 1
    decreases |s|
  {
    var i := IndexOf(s, sep);
    if i == |s| {
      assert sep !in s;
    } else {
      SplitPieceCount(s[i + 1..], sep);
      CountFrom(s, sep, i);
    }
  }

  /** When the first `c` sits at `i`, the count is one more than the count after it. */
  lemma {:induction false} CountFrom(s: string, c: char, i: nat)
    requires i < |s| && s[i] == c
    requires forall j :: 0 <= j < i ==> s[j] != c
    ensures Count(s, c) == 1 + Count(s[i + 1..], c)
    decreases i
  {
    if i > 0 {
      CountFrom(s[1..], c, i - 1);
      assert s[1..][i..] == s[i + 1..];
    }
  }

  /** No piece contains the separator. */
  lemma {:induction false} SplitHasNoSeparator(s: string, sep: char)
    ensures NoSeparator(Split(s, sep), sep)
    decreases |s|
  {
    var i := IndexOf(s, sep);
    if i < |s| {
      var before, after := s[..i], s[i + 1..];
      var rest := Split(after, sep);
      assert Split(s, sep) == [before] + rest;
      SplitHasNoSeparator(after, sep);
      assert sep !in before;
      NoSeparatorCons(before, rest, sep);
    }
  }

  lemma NoSeparatorCons(p: string, ps: seq<string>, sep: char)
    requires sep !in p && NoSeparator(ps, sep)
    ensures NoSeparator([p] + ps, sep)
  {
    forall k | 0 <= k < |[p] + ps| ensures sep !in ([p] + ps)[k] {
      if k > 0 { assert ([p] + ps)[k] == ps[k - 1]; }
    }
  }

  /** Joining the pieces with the separator gives back the input. */
  lemma {:induction false} JoinSplit(s: string, sep: char)
    ensures Join(Split(s, sep), sep) == s
    decreases |s|
  {
    var i := IndexOf(s, sep);
    if i < |s| {
      var before, after := s[..i], s[i + 1..];
      var rest := Split(after, sep);
      assert Split(s, sep) == [before] + rest;
      JoinSplit(after, sep);
      JoinCons(before, rest, sep);
      assert s == before + [sep] + after;
    }
  }

  /** Joining a list with at least two elements: the head, the separator, the joined rest. */
  lemma JoinCons(p: string, ps: seq<string>, sep: char)
    requires |ps| >= 1
    ensures Join([p] + ps, sep) == p + [sep] + Join(ps, sep)
  {
    assert ([p] + ps)[1..] == ps;
  }

  /** Splitting undoes joining, for any non-empty list of separator-free pieces. */
  lemma {:induction false} SplitJoin(pieces: seq<string>, sep: char)
    requires |pieces| >= 1
    requires NoSeparator(pieces, sep)
    ensures Split(Join(pieces, sep), sep) == pieces
    decreases |pieces|
  {
    var s := Join(pieces, sep);
    var p := pieces[0];
    assert sep !in p;
    if |pieces| == 1 {
      IndexOfAt(s, sep, |s|);
    } else {
      var tail := pieces[1..];
      var rest := Join(tail, sep);
      assert s == p + [sep] + rest;
      SplitAfterPiece(p, rest, sep);
      NoSeparatorTail(pieces, sep);
      SplitJoin(tail, sep);
      assert pieces == [p] + tail;
    }
  }

  /** A separator-free piece followed by the separator: the split is that piece, then the split of the rest. */
  lemma SplitAfterPiece(p: string, rest: string, sep: char)
    requires sep !in p
    ensures Split(p + [sep] + rest, sep) == [p] + Split(rest, sep)
  {
    var s := p + [sep] + rest;
    assert forall j :: 0 <= j < |p| ==> s[j] == p[j];
    IndexOfAt(s, sep, |p|);
    assert s[..|p|] == p;
    assert s[|p| + 1..] == rest;
  }

  lemma NoSeparatorTail(pieces: seq<string>, sep: char)
    requires |pieces| >= 1 && NoSeparator(pieces, sep)
    ensures NoSeparator(pieces[1..], sep)
  {
    forall k | 0 <= k < |pieces[1..]| ensures sep !in pieces[1..][k] {
      assert pieces[1..][k] == pieces[k + 1];
    }
  }

  /** The pieces of a split are the only non-empty list of separator-free pieces that joins back to the input. */
  lemma SplitUnique(s: string, pieces: seq<string>, sep: char)
    requires |pieces| >= 1 && NoSeparator(pieces, sep) && Join(pieces, sep) == s
    ensures pieces == Split(s, sep)
  {
    SplitJoin(pieces, sep);
  }
}
