/** The few Python string operations the fetcher relies on, with their
    Python semantics: `str.split(sep)`, `sep.join(xs)`, `str.find`,
    `str.upper()` as far as a comparison with an ASCII word can tell, and
    `str.strip()`. */
module Strings {
  import opened Wrappers

  /** `sep` occurs in `s` starting at index `i`. */
  predicate OccursAt(s: string, sep: string, i: nat) {
    i + |sep| <= |s| && s[i..i + |sep|] == sep
  }

  /** `i` is the leftmost occurrence of `sep` in `s`. */
  predicate IsFirstOccurrence(s: string, sep: string, i: nat) {
    OccursAt(s, sep, i) && forall j :: 0 <= j < i ==> !OccursAt(s, sep, j)
  }

  lemma OccursAtTail(s: string, sep: string, i: nat)
    requires |s| > 0
    ensures OccursAt(s, sep, i + 1) <==> OccursAt(s[1..], sep, i)
  {
    if i + 1 + |sep| <= |s| {
      assert s[1..][i..i + |sep|] == s[i + 1..i + 1 + |sep|];
    }
  }

  lemma OccursAtTails(s: string, sep: string)
    requires |s| > 0
    ensures forall i: nat :: 0 < i ==> (OccursAt(s, sep, i) <==> OccursAt(s[1..], sep, i - 1))
  {
    forall i: nat | 0 < i ensures OccursAt(s, sep, i) <==> OccursAt(s[1..], sep, i - 1) {
      OccursAtTail(s, sep, i - 1);
    }
  }

  /** Python's `s.find(sep)`: the index of the leftmost occurrence, if any. */
  function IndexOf(s: string, sep: string): (r: Option<nat>)
    ensures r.Some? ==> IsFirstOccurrence(s, sep, r.value)
    ensures r.None? ==> forall i :: !OccursAt(s, sep, i)
    decreases |s|
  {
    if |s| < |sep| then None
    else if s[..|sep|] == sep then Some(0)
    else
      var r := IndexOf(s[1..], sep);
      OccursAtTails(s, sep);
      assert s[0..|sep|] == s[..|sep|];
      if r.None? then None else Some(r.value + 1)
  }

  /** Python's `s.split(sep)`: cut `s` at every leftmost, non-overlapping
      occurrence of `sep`; a string without `sep` yields `[s]`. */
  function Split(s: string, sep: string): (parts: seq<string>)
    requires sep != ""
    ensures |parts| >= 1
    decreases |s|
  {
    if |s| < |sep| then [s]
    else if s[..|sep|] == sep then [""] + Split(s[|sep|..], sep)
    else
      var rest := Split(s[1..], sep);
      [[s[0]] + rest[0]] + rest[1..]
  }

  /** Without an occurrence of `sep`, splitting gives the string back whole. */
  lemma {:induction false} SplitWithout(s: string, sep: string)
    requires sep != ""
    requires forall i :: !OccursAt(s, sep, i)
    ensures Split(s, sep) == [s]
    decreases |s|
  {
    if |s| >= |sep| {
      assert !OccursAt(s, sep, 0);
      forall i: nat ensures !OccursAt(s[1..], sep, i) {
        OccursAtTail(s, sep, i);
      }
      SplitWithout(s[1..], sep);
      assert [s[0]] + s[1..] == s;
    }
  }

  /** Splitting cuts first at the leftmost occurrence of `sep`. */
  lemma {:induction false} SplitAtFirst(s: string, sep: string, i: nat)
    requires sep != ""
    requires IsFirstOccurrence(s, sep, i)
    ensures Split(s, sep) == [s[..i]] + Split(s[i + |sep|..], sep)
    decreases i
  {
    if i == 0 {
      assert s[..|sep|] == sep;
    } else {
      assert !OccursAt(s, sep, 0);
      OccursAtTail(s, sep, i - 1);
      forall j | 0 <= j < i - 1 ensures !OccursAt(s[1..], sep, j) {
        OccursAtTail(s, sep, j);
      }
      SplitAtFirst(s[1..], sep, i - 1);
      assert s[1..][i - 1 + |sep|..] == s[i + |sep|..];
      assert [s[0]] + s[1..][..i - 1] == s[..i];
    }
  }

  /** The first piece of a split is a prefix of the string, and unless it is
      the whole string, `sep` follows it. */
  lemma {:induction false} SplitHead(s: string, sep: string)
    requires sep != ""
    ensures Split(s, sep)[0] <= s
    ensures |Split(s, sep)[0]| < |s| ==> OccursAt(s, sep, |Split(s, sep)[0]|)
    decreases |s|
  {
    if |s| >= |sep| && s[..|sep|] != sep {
      var h := Split(s[1..], sep)[0];
      SplitHead(s[1..], sep);
      OccursAtTail(s, sep, |h|);
      assert Split(s, sep)[0] == [s[0]] + h;
      assert [s[0]] + h <= [s[0]] + s[1..] == s;
    } else if |s| >= |sep| {
      assert Split(s, sep)[0] == "";
      assert OccursAt(s, sep, 0);
    }
  }

  /** The prefix of `s` before the first `c` (all of `s` if there is none). */
  function UpTo(s: string, c: char): (r: string)
    ensures r <= s && c !in r
    ensures |r| < |s| ==> s[|r|] == c
  {
    if s == [] || s[0] == c then [] else [s[0]] + UpTo(s[1..], c)
  }

  /** Cutting at a one-character separator: the first piece is `UpTo`. */
  lemma {:induction false} SplitHeadOneChar(s: string, c: char)
    ensures Split(s, [c])[0] == UpTo(s, c)
    decreases |s|
  {
    if |s| >= 1 && s[..1] != [c] {
      assert s[0] != c;
      SplitHeadOneChar(s[1..], c);
    }
  }

  /** `UpTo` sees only the part of `s` up to the first `c`. */
  lemma {:induction false} UpToOfPrefix(p: string, s: string, c: char)
    requires p <= s
    requires |p| < |s| ==> s[|p|] == c
    ensures UpTo(p, c) == UpTo(s, c)
    decreases |p|
  {
    if p != [] && p[0] != c {
      UpToOfPrefix(p[1..], s[1..], c);
    }
  }

  /** Piece 1 of a split, cut again at the separator's first character,
      is the text after the first occurrence up to that character. */
  lemma SecondPieceUpTo(s: string, sep: string, i: nat)
    requires sep != "" && IsFirstOccurrence(s, sep, i)
    ensures |Split(s, sep)| >= 2
    ensures Split(Split(s, sep)[1], [sep[0]])[0] == UpTo(s[i + |sep|..], sep[0])
  {
    var rest := s[i + |sep|..];
    SplitAtFirst(s, sep, i);
    var piece := Split(rest, sep)[0];
    assert Split(s, sep)[1] == piece;
    SplitHead(rest, sep);
    if |piece| < |rest| {
      assert rest[|piece|..|piece| + |sep|][0] == rest[|piece|];
    }
    UpToOfPrefix(piece, rest, sep[0]);
    SplitHeadOneChar(piece, sep[0]);
  }

  /** Python's `sep.join(xs)`. */
  function Join(xs: seq<string>, sep: string): (r: string)
    ensures xs == [] ==> r == ""
    ensures |xs| == 1 ==> r == xs[0]
  {
    if xs == [] then ""
    else if |xs| == 1 then xs[0]
    else xs[0] + sep + Join(xs[1..], sep)
  }

  /** A string without the separator's first character has no occurrence of it. */
  lemma NoOccurrenceWithoutHead(s: string, sep: string)
    requires sep != "" && sep[0] !in s
    ensures forall i :: !OccursAt(s, sep, i)
  {
    forall i: nat ensures !OccursAt(s, sep, i) {
      if i + |sep| <= |s| { assert s[i..i + |sep|][0] == s[i]; }
    }
  }

  /** If no piece contains the separator's first character, splitting the
      joined string gives the pieces back. */
  lemma {:induction false} SplitJoin(xs: seq<string>, sep: string)
    requires sep != "" && |xs| >= 1
    requires forall k :: 0 <= k < |xs| ==> sep[0] !in xs[k]
    ensures Split(Join(xs, sep), sep) == xs
  {
    var x := xs[0];
    if |xs| == 1 {
      NoOccurrenceWithoutHead(x, sep);
      SplitWithout(x, sep);
    } else {
      var s := Join(xs, sep);
      var rest := Join(xs[1..], sep);
      assert s == x + sep + rest;
      assert OccursAt(s, sep, |x|) by {
        assert s[|x|..|x| + |sep|] == sep;
      }
      forall j | 0 <= j < |x| ensures !OccursAt(s, sep, j) {
        assert s[j] == x[j];
        if j + |sep| <= |s| { assert s[j..j + |sep|][0] == s[j]; }
      }
      SplitAtFirst(s, sep, |x|);
      assert s[..|x|] == x;
      assert s[|x| + |sep|..] == rest;
      SplitJoin(xs[1..], sep);
    }
  }

  /** Python's upper-casing of one character, for the characters whose
      upper case is an ASCII letter: the ASCII lower-case letters, the
      dotless i (U+0131) and the long s (U+017F). Every other character is
      kept; see `UpperEquals` for why a comparison with an upper-case ASCII
      word cannot tell the difference. */
  function UpperChar(c: char): char {
    if 'a' <= c <= 'z' then (c as int - 32) as char
    else if c == 'ı' then 'I'
    else if c == 'ſ' then 'S'
    else c
  }

  function Upper(s: string): (r: string)
    ensures |r| == |s|
  {
    seq(|s|, i requires 0 <= i < |s| => UpperChar(s[i]))
  }

  predicate IsUpperAsciiLetter(c: char) { 'A' <= c <= 'Z' }

  /** A string upper-cases to an upper-case ASCII word exactly when it has
      the word's length and every character upper-cases to the character of
      the word at that place. */
  lemma UpperEquals(s: string, w: string)
    requires forall k :: 0 <= k < |w| ==> IsUpperAsciiLetter(w[k])
    ensures Upper(s) == w <==> |s| == |w| && forall k :: 0 <= k < |s| ==> UpperChar(s[k]) == w[k]
  {
    if |s| == |w| && forall k :: 0 <= k < |s| ==> UpperChar(s[k]) == w[k] {
      assert forall k :: 0 <= k < |s| ==> Upper(s)[k] == w[k];
    }
  }

  /** Python's `str.isspace()` for one character. */
  predicate IsSpace(c: char) {
    || '\t' <= c <= '\r'            // tab, line feed, vertical tab, form feed, carriage return
    || '\U{1C}' <= c <= ' '          // the four information separators and the space
    || c == '\U{85}' || c == '\U{A0}' || c == '\U{1680}'
    || '\U{2000}' <= c <= '\U{200A}'
    || c == '\U{2028}' || c == '\U{2029}' || c == '\U{202F}' || c == '\U{205F}' || c == '\U{3000}'
  }

  /** `s` without its leading white space. */
  function StripStart(s: string): string {
    if s != [] && IsSpace(s[0]) then StripStart(s[1..]) else s
  }

  /** `s` without its trailing white space. */
  function StripEnd(s: string): string {
    if s != [] && IsSpace(s[|s| - 1]) then StripEnd(s[..|s| - 1]) else s
  }

  /** Python's `s.strip()`. */
  function Strip(s: string): string {
    StripEnd(StripStart(s))
  }

  lemma {:induction false} StripStartCutsSpaces(s: string)
    ensures |StripStart(s)| <= |s| && StripStart(s) == s[|s| - |StripStart(s)|..]
    ensures forall k :: 0 <= k < |s| - |StripStart(s)| ==> IsSpace(s[k])
    ensures StripStart(s) != "" ==> !IsSpace(StripStart(s)[0])
  {
    if s != [] && IsSpace(s[0]) {
      var t := StripStart(s[1..]);
      StripStartCutsSpaces(s[1..]);
      assert StripStart(s) == t && |s| - |t| == |s[1..]| - |t| + 1;
      assert forall k :: 1 <= k < |s| - |t| ==> s[k] == s[1..][k - 1];
    }
  }

  lemma {:induction false} StripEndCutsSpaces(s: string)
    ensures |StripEnd(s)| <= |s| && StripEnd(s) == s[..|StripEnd(s)|]
    ensures forall k :: |StripEnd(s)| <= k < |s| ==> IsSpace(s[k])
    ensures StripEnd(s) != "" ==> !IsSpace(StripEnd(s)[|StripEnd(s)| - 1])
  {
    if s != [] && IsSpace(s[|s| - 1]) {
      StripEndCutsSpaces(s[..|s| - 1]);
    }
  }

  /** Stripping removes white space at both ends only: what is left is a
      slice of `s` that starts and ends with a non-space, and everything cut
      away is white space. */
  lemma StripIsSlice(s: string) returns (i: nat, j: nat)
    ensures i <= j <= |s| && Strip(s) == s[i..j]
    ensures forall k :: 0 <= k < i ==> IsSpace(s[k])
    ensures forall k :: j <= k < |s| ==> IsSpace(s[k])
    ensures Strip(s) != "" ==> !IsSpace(Strip(s)[0]) && !IsSpace(Strip(s)[|Strip(s)| - 1])
  {
    var t := StripStart(s);
    var r := StripEnd(t);
    StripStartCutsSpaces(s);
    StripEndCutsSpaces(t);
    assert Strip(s) == r;
    i := |s| - |t|;
    j := i + |r|;
    assert t == s[i..];
    assert r == t[..|r|];
    assert r == s[i..j];
    forall k | j <= k < |s| ensures IsSpace(s[k]) {
      assert s[k] == t[k - i];
      assert |r| <= k - i < |t|;
    }
    if r != "" {
      assert r[0] == t[0];
    }
  }

  /** Stripping twice is stripping once. */
  lemma StripIdempotent(s: string)
    ensures Strip(Strip(s)) == Strip(s)
  {
    var r := Strip(s);
    var _, _ := StripIsSlice(s);
    if r != "" {
      assert !IsSpace(r[0]);
      assert StripStart(r) == r;
      assert StripEnd(r) == r;
    }
  }
}
