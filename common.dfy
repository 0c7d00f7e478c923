/** Shared vocabulary: optional JavaScript values, identifiers, character classes,
    JavaScript's `trim`, an ASCII approximation of `toLowerCase`, and removal of
    an identifier from an array of identifiers. */
module Common {

  import Seqs

  /** A JavaScript value that may be `undefined` (or `null`). Comparing two
      `Option`s with `==` behaves like `===` on such values: two absent values
      are equal, exactly as `undefined === undefined` is true. */
  datatype Option<T> = None | Some(value: T)

  /** Applies `f` to every element, or gives nothing when `f` gives nothing
      for any of them. */
  function AllOrNothing<A, B>(f: A -> Option<B>, xs: seq<A>): (r: Option<seq<B>>)
    ensures r.Some? <==> forall i :: 0 <= i < |xs| ==> f(xs[i]).Some?
    ensures r.Some? ==> |r.value| == |xs| && forall i :: 0 <= i < |xs| ==> f(xs[i]) == Some(r.value[i])
  {
    if xs == [] then Some([])
    else
      var first := f(xs[0]);
      var rest := AllOrNothing(f, xs[1..]);
      assert forall i :: 1 <= i < |xs| ==> xs[i] == xs[1..][i - 1];
      if first.Some? && rest.Some? then
        var r := [first.value] + rest.value;
        assert forall i :: 1 <= i < |xs| ==> r[i] == rest.value[i - 1];
        Some(r)
      else
        None
  }

  /** Opaque identifiers (user ids, list ids, item ids) are strings. */
  type Id = string

  // ---------------------------------------------------------------------------
  // Character classes and trimming
  // ---------------------------------------------------------------------------

  /** The characters JavaScript's `\s` matches and `String.prototype.trim`
      removes: WhiteSpace and LineTerminator code points. */
  predicate IsSpace(c: char)
  {
    c == '\t' || c == '\n' || c == '\U{B}' || c == '\U{C}' || c == '\r' || c == ' ' ||
    c == '\U{A0}' || c == '\U{1680}' || ('\U{2000}' <= c <= '\U{200A}') ||
    c == '\U{2028}' || c == '\U{2029}' || c == '\U{202F}' || c == '\U{205F}' ||
    c == '\U{3000}' || c == '\U{FEFF}'
  }

  predicate NoSpace(s: string)
  {
    forall i :: 0 <= i < |s| ==> !IsSpace(s[i])
  }

  /** The ASCII digits, the only characters `\d` matches. */
  predicate IsDigit(c: char)
  {
    '0' <= c <= '9'
  }

  /** `trimStart`: the suffix left once the leading spaces are dropped. */
  function TrimStart(s: string): (r: string)
    ensures r == [] || !IsSpace(r[0])
    ensures |r| <= |s| && r == s[|s| - |r|..]
    ensures forall i :: 0 <= i < |s| - |r| ==> IsSpace(s[i])
  {
    if s != [] && IsSpace(s[0]) then
      var r := TrimStart(s[1..]);
      assert s[1..][|s[1..]| - |r|..] == s[|s| - |r|..];
      assert forall i :: 1 <= i < |s| ==> s[i] == s[1..][i - 1];
      r
    else
      s
  }

  /** `trimEnd`: the prefix left once the trailing spaces are dropped. */
  function TrimEnd(s: string): (r: string)
    ensures r == [] || !IsSpace(r[|r| - 1])
    ensures |r| <= |s| && r == s[..|r|]
    ensures forall i :: |r| <= i < |s| ==> IsSpace(s[i])
  {
    if s != [] && IsSpace(s[|s| - 1]) then
      var t := s[..|s| - 1];
      var r := TrimEnd(t);
      assert t[..|r|] == s[..|r|];
      r
    else
      s
  }

  /** JavaScript's `String.prototype.trim`. `TrimCutsSpaces` states what it
      cuts off. */
  function Trim(s: string): (r: string)
    ensures r == [] || (!IsSpace(r[0]) && !IsSpace(r[|r| - 1]))
    ensures |r| <= |s|
  {
    var t := TrimStart(s);
    var r := TrimEnd(t);
    assert r != [] ==> r[0] == t[0];
    r
  }

  /** `trim` cuts off exactly the leading and trailing spaces: its result is
      the slice of `s` that starts after the `k` leading spaces, and
      everything before and after that slice is a space. Together with the
      result having no space at either end, this fixes the result. */
  lemma TrimCutsSpaces(s: string)
    ensures var k := |s| - |TrimStart(s)|; var r := Trim(s);
      k + |r| <= |s| && r == s[k..k + |r|] &&
      (forall i :: 0 <= i < k ==> IsSpace(s[i])) &&
      (forall i :: k + |r| <= i < |s| ==> IsSpace(s[i]))
  {
    var t := TrimStart(s);
    var r := TrimEnd(t);
    assert r == Trim(s);
    TrimRun(s, t, r);
  }

  /** The slice facts behind `TrimCutsSpaces`, stated on the strings
      `trimStart` and `trimEnd` return. */
  lemma TrimRun(s: string, t: string, r: string)
    requires |t| <= |s| && t == s[|s| - |t|..]
    requires |r| <= |t| && r == t[..|r|]
    requires forall i :: |r| <= i < |t| ==> IsSpace(t[i])
    ensures var k := |s| - |t|;
      k + |r| <= |s| && r == s[k..k + |r|] &&
      (forall i :: k + |r| <= i < |s| ==> IsSpace(s[i]))
  {
    var k := |s| - |t|;
    forall i | k + |r| <= i < |s| ensures IsSpace(s[i]) {
      assert s[i] == t[i - k];
    }
  }

  /** A string with no space at either end: what `trim` returns. */
  predicate IsTrimmed(s: string)
  {
    s == [] || (!IsSpace(s[0]) && !IsSpace(s[|s| - 1]))
  }

  /** The strings `trim` leaves as they are are exactly the trimmed ones. */
  lemma TrimmedIsFixed(s: string)
    ensures IsTrimmed(s) <==> Trim(s) == s
  {
    if IsTrimmed(s) {
      TrimOfTrimmed(s);
    }
  }

  /** A string with no space at either end is its own trimmed form. */
  lemma {:induction false} TrimOfTrimmed(s: string)
    requires IsTrimmed(s)
    ensures Trim(s) == s
  {
    assert TrimStart(s) == s;
    assert TrimEnd(s) == s;
  }

  /** Trimming twice is trimming once. */
  lemma TrimIdempotent(s: string)
    ensures Trim(Trim(s)) == Trim(s)
  {
    TrimOfTrimmed(Trim(s));
  }

  // ---------------------------------------------------------------------------
  // Case folding (ASCII approximation of `toLowerCase`)
  // ---------------------------------------------------------------------------

  function LowerChar(c: char): (r: char)
    ensures IsSpace(r) <==> IsSpace(c)
    ensures 'A' <= c <= 'Z' ==> r != c
  {
    if 'A' <= c <= 'Z' then (c as int + 32) as char else c
  }

  /** `toLowerCase`, restricted to the ASCII letters A-Z. */
  function Lower(s: string): (r: string)
    ensures |r| == |s|
    ensures forall i :: 0 <= i < |s| ==> r[i] == LowerChar(s[i])
  {
    if s == [] then [] else [LowerChar(s[0])] + Lower(s[1..])
  }

  /** The case-insensitive equality that the duplicate checks use:
      `a.toLowerCase() === b.toLowerCase()`. */
  predicate SameIgnoringCase(a: string, b: string)
  {
    Lower(a) == Lower(b)
  }

  lemma LowerIdempotent(s: string)
    ensures Lower(Lower(s)) == Lower(s)
  {
  }

  /** Lower-casing and trimming commute, so the order in which a schema applies
      `trim` and `lowercase` makes no difference. */
  lemma {:induction false} LowerTrimCommute(s: string)
    ensures Lower(Trim(s)) == Trim(Lower(s))
  {
    LowerTrimStart(s);
    LowerTrimEnd(TrimStart(s));
  }

  lemma {:induction false} LowerTrimStart(s: string)
    ensures Lower(TrimStart(s)) == TrimStart(Lower(s))
  {
    if s != [] {
      assert Lower(s)[1..] == Lower(s[1..]);
      if IsSpace(s[0]) {
        LowerTrimStart(s[1..]);
      }
    }
  }

  lemma {:induction false} LowerTrimEnd(s: string)
    ensures Lower(TrimEnd(s)) == TrimEnd(Lower(s))
  {
    if s != [] {
      assert Lower(s)[..|s| - 1] == Lower(s[..|s| - 1]);
      if IsSpace(s[|s| - 1]) {
        LowerTrimEnd(s[..|s| - 1]);
      }
    }
  }

  // ---------------------------------------------------------------------------
  // Removing an identifier from an array of identifiers
  // ---------------------------------------------------------------------------

  /** `ids.filter(id => id !== x)`. */
  function Without(ids: seq<Id>, x: Id): (r: seq<Id>)
    ensures x !in r
    ensures forall y :: y in r <==> y in ids && y != x
    ensures |r| <= |ids|
  {
    Seqs.Filter(y => y != x, ids)
  }

  lemma WithoutAppend(a: seq<Id>, b: seq<Id>, x: Id)
    ensures Without(a + b, x) == Without(a, x) + Without(b, x)
  {
    Seqs.FilterAppend(y => y != x, a, b);
  }

  /** Removing an identifier that is not there changes nothing. */
  lemma WithoutAbsent(ids: seq<Id>, x: Id)
    requires x !in ids
    ensures Without(ids, x) == ids
  {
    Seqs.FilterKeepsAll(y => y != x, ids);
  }

  /** The identifiers that remain keep their order. */
  lemma WithoutKeepsOrder(ids: seq<Id>, x: Id)
    ensures Seqs.IsSubsequence(Without(ids, x), ids)
    ensures forall y :: multiset(Without(ids, x))[y] == if y == x then 0 else multiset(ids)[y]
  {
    Seqs.FilterIsSubsequence(y => y != x, ids);
    Seqs.FilterMultiset(y => y != x, ids);
  }
}
