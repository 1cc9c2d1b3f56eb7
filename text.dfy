/** Python's `str` operations that the analysis pipeline relies on:
    `lower()`, the `in` substring test, `startswith`, `strip()` and `split(sep)`. */
module Text {
  import opened Optional

  /** The characters for which Python's `str.isspace()` holds; `strip()` removes exactly these. */
  predicate IsSpace(c: char) {
    || '\t' <= c <= '\r'
    || '\U{1C}' <= c <= ' '
    || c == '\U{85}' || c == '\U{A0}' || c == '\U{1680}'
    || '\U{2000}' <= c <= '\U{200A}'
    || c == '\U{2028}' || c == '\U{2029}' || c == '\U{202F}' || c == '\U{205F}' || c == '\U{3000}'
  }

  /** ASCII case mapping of one character. */
  function LowerChar(c: char): char {
    if 'A' <= c <= 'Z' then (c as int + 32) as char else c
  }

  /** `s.lower()`, restricted to the ASCII letters. */
  function Lower(s: string): (r: string)
    ensures |r| == |s|
    ensures forall i :: 0 <= i < |s| ==> r[i] == LowerChar(s[i])
  {
    seq(|s|, i requires 0 <= i < |s| => LowerChar(s[i]))
  }

  /** Lower-casing twice is lower-casing once. */
  lemma LowerIdempotent(s: string)
    ensures Lower(Lower(s)) == Lower(s)
  {
  }

  /** A text without capital letters is its own lower-case form. */
  lemma LowerUnchanged(s: string)
    requires forall c <- s :: !('A' <= c <= 'Z')
    ensures Lower(s) == s
  {
    assert forall i :: 0 <= i < |s| ==> s[i] in s;
  }

  /** `s.startswith(p)`. */
  predicate StartsWith(s: string, p: string) {
    |p| <= |s| && s[..|p|] == p
  }

  /** `s.startswith(p)` holds exactly when `s` is at least as long as `p` and agrees with it position by position. */
  lemma StartsWithIff(s: string, p: string)
    ensures StartsWith(s, p) <==> |p| <= |s| && forall i :: 0 <= i < |p| ==> s[i] == p[i]
  {
    if |p| <= |s| && forall i :: 0 <= i < |p| ==> s[i] == p[i] {
      assert s[..|p|] == p;
    }
  }

  /** `p in s`: some suffix of `s` starts with `p`. */
  predicate Contains(s: string, p: string)
    decreases |s|
  {
    StartsWith(s, p) || (|s| > 0 && Contains(s[1..], p))
  }

  /** An occurrence of `p` at position `i` makes `p in s` true. */
  lemma {:induction false} ContainsAt(s: string, p: string, i: nat)
    requires i <= |s| && StartsWith(s[i..], p)
    ensures Contains(s, p)
    decreases i
  {
    if i > 0 {
      assert s[1..][i - 1..] == s[i..];
      ContainsAt(s[1..], p, i - 1);
    }
  }

  /** Conversely, `p in s` exhibits a position at which `p` occurs. */
  lemma {:induction false} ContainsWitness(s: string, p: string) returns (i: nat)
    requires Contains(s, p)
    ensures i + |p| <= |s| && StartsWith(s[i..], p)
    decreases |s|
  {
    if StartsWith(s, p) {
      i := 0;
    } else {
      var j := ContainsWitness(s[1..], p);
      assert s[1..][j..] == s[j + 1..];
      i := j + 1;
    }
  }

  /** `p in s` holds exactly when `p` occurs in `s` at some position. */
  lemma ContainsIff(s: string, p: string)
    ensures Contains(s, p) <==> exists i :: 0 <= i && i + |p| <= |s| && StartsWith(s[i..], p)
  {
    if Contains(s, p) {
      var i := ContainsWitness(s, p);
    }
    if exists i :: 0 <= i && i + |p| <= |s| && StartsWith(s[i..], p) {
      var i :| 0 <= i && i + |p| <= |s| && StartsWith(s[i..], p);
      ContainsAt(s, p, i);
    }
  }

  /** A text shorter than `p` never contains it. */
  lemma {:induction false} ShorterNotContains(s: string, p: string)
    requires |s| < |p|
    ensures !Contains(s, p)
    decreases |s|
  {
    if |s| > 0 {
      ShorterNotContains(s[1..], p);
    }
  }

  /** A text in which some character of `p` never occurs does not contain `p`. */
  lemma {:induction false} MissingChar(s: string, p: string, k: nat)
    requires k < |p| && forall i :: 0 <= i < |s| ==> s[i] != p[k]
    ensures !Contains(s, p)
    decreases |s|
  {
    if |s| > 0 {
      MissingChar(s[1..], p, k);
      assert !StartsWith(s, p) by {
        if |p| <= |s| {
          assert s[..|p|][k] == s[k];
        }
      }
    }
  }

  /** A text in which no position that leaves room for `p` holds the first character of `p` does not contain `p`. */
  lemma {:induction false} NoStartMatch(s: string, p: string)
    requires |p| > 0 && forall i :: 0 <= i && i + |p| <= |s| ==> s[i] != p[0]
    ensures !Contains(s, p)
    decreases |s|
  {
    if |s| > 0 {
      forall i | 0 <= i && i + |p| <= |s[1..]| ensures s[1..][i] != p[0] {
        assert s[1..][i] == s[i + 1];
      }
      NoStartMatch(s[1..], p);
      assert !StartsWith(s, p) by {
        if |p| <= |s| {
          assert s[..|p|][0] == s[0];
        }
      }
    }
  }

  /** The first position at or after `i` that does not hold whitespace (`|s|` if there is none). */
  function SkipSpaces(s: string, i: nat): (a: nat)
    requires i <= |s|
    ensures i <= a <= |s|
    ensures forall k :: i <= k < a ==> IsSpace(s[k])
    ensures a == |s| || !IsSpace(s[a])
    decreases |s| - i
  {
    if i < |s| && IsSpace(s[i]) then SkipSpaces(s, i + 1) else i
  }

  /** The end of `s[lo..j]` once the whitespace at its right end is dropped. */
  function BackSpaces(s: string, lo: nat, j: nat): (b: nat)
    requires lo <= j <= |s|
    ensures lo <= b <= j
    ensures forall k :: b <= k < j ==> IsSpace(s[k])
    ensures b == lo || !IsSpace(s[b - 1])
    decreases j
  {
    if j > lo && IsSpace(s[j - 1]) then BackSpaces(s, lo, j - 1) else j
  }

  /** Where `strip()` starts the text it keeps. */
  function StripFrom(s: string): nat {
    SkipSpaces(s, 0)
  }

  /** `r` is the slice of `s` at offset `a`, with only whitespace around it. */
  predicate IsTrimmedAt(s: string, r: string, a: nat) {
    && a + |r| <= |s| && r == s[a..a + |r|]
    && (forall i :: 0 <= i < a ==> IsSpace(s[i]))
    && (forall i :: a + |r| <= i < |s| ==> IsSpace(s[i]))
  }

  /** `s.strip()`: the slice of `s` at `StripFrom(s)` left once the whitespace around it is removed. */
  function Strip(s: string): (r: string)
    ensures IsTrimmedAt(s, r, StripFrom(s))
    ensures r == [] || (!IsSpace(r[0]) && !IsSpace(r[|r| - 1]))
  {
    var a := SkipSpaces(s, 0);
    s[a..BackSpaces(s, a, |s|)]
  }

  /** Text without whitespace at either end is left alone by `strip()`. */
  lemma StripUnpadded(s: string)
    requires s == [] || (!IsSpace(s[0]) && !IsSpace(s[|s| - 1]))
    ensures Strip(s) == s
  {
  }

  /** The first position at which `sep` occurs in `s` (`s.find(sep)`, with `None` for -1). */
  function Find(s: string, sep: string): (r: Option<nat>)
    requires sep != []
    ensures r.Some? ==> r.value + |sep| <= |s| && StartsWith(s[r.value..], sep)
    ensures r.Some? ==> forall j :: 0 <= j < r.value ==> !StartsWith(s[j..], sep)
    ensures r.None? <==> !Contains(s, sep)
    decreases |s|
  {
    if StartsWith(s, sep) then Some(0)
    else if |s| < |sep| then
      ShorterNotContains(s, sep);
      None
    else match Find(s[1..], sep)
      case None => None
      case Some(j) =>
        assert forall k :: 1 <= k <= |s| ==> s[1..][k - 1..] == s[k..];
        Some(j + 1)
  }

  /** `s.split(sep)`: the pieces between the non-overlapping occurrences of `sep`, found left to right. */
  function Split(s: string, sep: string): (parts: seq<string>)
    requires sep != []
    ensures |parts| >= 1
    decreases |s|
  {
    match Find(s, sep)
    case None => [s]
    case Some(i) => [s[..i]] + Split(s[i + |sep|..], sep)
  }

  /** The empty text splits into one empty piece. */
  lemma SplitEmpty(sep: string)
    requires sep != []
    ensures Split("", sep) == [""]
  {
    assert !StartsWith("", sep);
  }

  /** `sep.join(parts)`. */
  function Join(parts: seq<string>, sep: string): string {
    if |parts| == 0 then ""
    else if |parts| == 1 then parts[0]
    else parts[0] + sep + Join(parts[1..], sep)
  }

  /** Joining the pieces of a split with the separator gives back the original text. */
  lemma {:induction false} SplitJoin(s: string, sep: string)
    requires sep != []
    ensures Join(Split(s, sep), sep) == s
    decreases |s|
  {
    var found := Find(s, sep);
    if found.Some? {
      var i := found.value;
      var rest := s[i + |sep|..];
      SplitJoin(rest, sep);
      SplitStep(s, sep, i);
      Reassemble(s, sep, i);
    }
  }

  /** One step of `Split`: the piece before the first separator, then the split of the rest. */
  lemma SplitStep(s: string, sep: string, i: nat)
    requires sep != [] && Find(s, sep) == Some(i)
    ensures Join(Split(s, sep), sep) == s[..i] + sep + Join(Split(s[i + |sep|..], sep), sep)
  {
    SplitPieces(s, sep, i);
    JoinCons(s[..i], Split(s[i + |sep|..], sep), sep);
  }

  /** Joining a piece in front of at least one more puts a separator between them. */
  lemma JoinCons(x: string, tail: seq<string>, sep: string)
    requires |tail| >= 1
    ensures Join([x] + tail, sep) == x + sep + Join(tail, sep)
  {
    assert ([x] + tail)[1..] == tail;
  }

  /** Cutting `s` around an occurrence of `sep` at `i` and gluing it back gives `s`. */
  lemma Reassemble(s: string, sep: string, i: nat)
    requires sep != [] && i + |sep| <= |s| && StartsWith(s[i..], sep)
    ensures s == s[..i] + sep + s[i + |sep|..]
  {
    assert s[i..][..|sep|] == sep;
    assert s == s[..i] + s[i..][..|sep|] + s[i + |sep|..];
  }

  /** No piece of a split contains the separator. */
  lemma {:induction false} SplitPiecesFree(s: string, sep: string)
    requires sep != []
    ensures forall k :: 0 <= k < |Split(s, sep)| ==> !Contains(Split(s, sep)[k], sep)
    decreases |s|
  {
    var found := Find(s, sep);
    if found.Some? {
      var i := found.value;
      var rest := s[i + |sep|..];
      SplitPiecesFree(rest, sep);
      PrefixBeforeFirst(s, sep, i);
      SplitPieces(s, sep, i);
    }
  }

  /** The pieces of `s` are its prefix before the first separator, then the pieces of the rest. */
  lemma {:induction false} SplitPieces(s: string, sep: string, i: nat)
    requires sep != [] && Find(s, sep) == Some(i)
    ensures Split(s, sep) == [s[..i]] + Split(s[i + |sep|..], sep)
  {
    var rest := Split(s[i + |sep|..], sep);
    var parts := Split(s, sep);
    assert parts == [s[..i]] + rest;
  }

  /** A text in which `p` occurs at no position does not contain `p`. */
  lemma {:induction false} NoOccurrence(t: string, p: string)
    requires forall j :: 0 <= j <= |t| ==> !StartsWith(t[j..], p)
    ensures !Contains(t, p)
    decreases |t|
  {
    assert t[0..] == t;
    if |t| > 0 {
      forall j | 0 <= j <= |t[1..]| ensures !StartsWith(t[1..][j..], p) {
        assert t[1..][j..] == t[j + 1..];
      }
      NoOccurrence(t[1..], p);
    }
  }

  /** The text before the first occurrence of `sep` does not contain `sep`. */
  lemma PrefixBeforeFirst(s: string, sep: string, i: nat)
    requires sep != [] && i + |sep| <= |s| && Find(s, sep) == Some(i)
    ensures !Contains(s[..i], sep)
  {
    var t := s[..i];
    forall j | 0 <= j <= |t| ensures !StartsWith(t[j..], sep) {
      if j + |sep| <= |t| {
        assert t[j..][..|sep|] == s[j..][..|sep|];
      }
    }
    NoOccurrence(t, sep);
  }
}
