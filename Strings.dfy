/** The PHP string primitives the normalisers use: explode, implode and
    array_values(array_filter(...)) on a list of strings. */
module Strings {
  import opened Wrappers

  /** `needle` occurs in `s` starting at index `i`. */
  predicate OccursAt(s: string, needle: string, i: nat) {
    i + |needle| <= |s| && s[i..i + |needle|] == needle
  }

  lemma OccursShift(s: string, needle: string, j: nat)
    requires |s| > 0 && j >= 1
    ensures OccursAt(s, needle, j) <==> OccursAt(s[1..], needle, j - 1)
  {
    if j + |needle| <= |s| {
      assert s[1..][j - 1..j - 1 + |needle|] == s[j..j + |needle|];
    }
  }

  /** The first index at which `needle` occurs in `s` (PHP strpos). */
  function IndexOf(s: string, needle: string): (r: Option<nat>)
    requires |needle| > 0
    ensures r.Some? ==> OccursAt(s, needle, r.value)
    ensures forall j: nat {:trigger OccursAt(s, needle, j)} ::
              (r.None? || j < r.value) ==> !OccursAt(s, needle, j)
    decreases |s|
  {
    if |s| < |needle| then None
    else if s[..|needle|] == needle then Some(0)
    else
      var rest := IndexOf(s[1..], needle);
      assert !OccursAt(s, needle, 0);
      forall j: nat | j >= 1 ensures OccursAt(s, needle, j) <==> OccursAt(s[1..], needle, j - 1) {
        OccursShift(s, needle, j);
      }
      match rest
      case None => None
      case Some(k) => Some(k + 1)
  }

  /** PHP implode: the pieces joined with `glue` between consecutive ones. */
  function Implode(glue: string, pieces: seq<string>): string
    decreases |pieces|
  {
    if |pieces| == 0 then ""
    else if |pieces| == 1 then pieces[0]
    else pieces[0] + glue + Implode(glue, pieces[1..])
  }

  /** PHP explode with a non-empty delimiter: the pieces between occurrences of
      `delimiter`, scanning left to right. Always at least one piece; joining the
      pieces back with the delimiter gives `s`, and no piece contains the delimiter. */
  function Explode(delimiter: string, s: string): (parts: seq<string>)
    requires |delimiter| > 0
    ensures |parts| >= 1
    ensures Implode(delimiter, parts) == s
    ensures forall k :: 0 <= k < |parts| ==> IndexOf(parts[k], delimiter).None?
    decreases |s|
  {
    match IndexOf(s, delimiter)
    case None => [s]
    case Some(i) =>
      var head := s[..i];
      var rest := Explode(delimiter, s[i + |delimiter|..]);
      assert s == head + delimiter + s[i + |delimiter|..] by {
        assert s == s[..i] + s[i..i + |delimiter|] + s[i + |delimiter|..];
      }
      assert IndexOf(head, delimiter).None? by {
        forall j: nat | j + |delimiter| <= |head|
          ensures OccursAt(head, delimiter, j) ==> OccursAt(s, delimiter, j)
        {
          assert head[j..j + |delimiter|] == s[j..j + |delimiter|];
        }
      }
      [head] + rest
  }

  /** The index of `c` in a string that holds it after a prefix free of it. */
  lemma IndexOfAfterFreePrefix(p: string, c: char, rest: string)
    requires c !in p
    ensures IndexOf(p + [c] + rest, [c]) == Some(|p|)
  {
    var s := p + [c] + rest;
    assert OccursAt(s, [c], |p|) by { assert s[|p|..|p| + 1] == [c]; }
    forall j: nat | j < |p| ensures !OccursAt(s, [c], j) {
      assert s[j..j + 1] == [p[j]];
    }
  }

  /** Explode undoes Implode for a one-character delimiter that no piece contains. */
  lemma {:induction false} ExplodeImplode(c: char, pieces: seq<string>)
    requires |pieces| >= 1
    requires forall k :: 0 <= k < |pieces| ==> c !in pieces[k]
    ensures Explode([c], Implode([c], pieces)) == pieces
    decreases |pieces|
  {
    if |pieces| == 1 {
      var p := pieces[0];
      forall j: nat | j < |p| ensures !OccursAt(p, [c], j) {
        assert p[j..j + 1] == [p[j]];
      }
    } else {
      var p := pieces[0];
      var tail := Implode([c], pieces[1..]);
      assert Implode([c], pieces) == p + [c] + tail;
      IndexOfAfterFreePrefix(p, c, tail);
      ExplodeImplode(c, pieces[1..]);
      assert (p + [c] + tail)[..|p|] == p;
      assert (p + [c] + tail)[|p| + 1..] == tail;
    }
  }

  /** No piece of an explode on a one-character delimiter holds that character. */
  lemma ExplodeCharFree(c: char, s: string)
    ensures forall k :: 0 <= k < |Explode([c], s)| ==> c !in Explode([c], s)[k]
  {
    var parts := Explode([c], s);
    forall k, j | 0 <= k < |parts| && 0 <= j < |parts[k]| ensures parts[k][j] != c {
      assert parts[k][j..j + 1] == [parts[k][j]];
      assert !OccursAt(parts[k], [c], j);
    }
  }

  /** The first piece of an explode is a prefix of the exploded string. */
  lemma ExplodeHeadPrefix(delimiter: string, s: string)
    requires |delimiter| > 0
    ensures |Explode(delimiter, s)[0]| <= |s| && s[..|Explode(delimiter, s)[0]|] == Explode(delimiter, s)[0]
  {
    var parts := Explode(delimiter, s);
    if |parts| > 1 {
      assert s == parts[0] + delimiter + Implode(delimiter, parts[1..]);
    }
  }

  /** What the normalisers rely on when they split on one character: the pieces are free
      of it, the first piece is a prefix of the string, and a string without the
      character is its own single piece. */
  lemma ExplodeChar(c: char, s: string)
    ensures forall k :: 0 <= k < |Explode([c], s)| ==> c !in Explode([c], s)[k]
    ensures |Explode([c], s)[0]| <= |s| && s[..|Explode([c], s)[0]|] == Explode([c], s)[0]
    ensures c !in s ==> Explode([c], s) == [s]
  {
    ExplodeCharFree(c, s);
    ExplodeHeadPrefix([c], s);
    if c !in s {
      ExplodeImplode(c, [s]);
    }
  }

  /** `seg` is the run of `s` that starts at `i` and stops at the next `c` or at the end
      of `s`. At most one string is such a run. */
  predicate RunAt(s: string, c: char, i: nat, seg: string) {
    && i + |seg| <= |s| && s[i..i + |seg|] == seg && c !in seg
    && (i + |seg| == |s| || s[i + |seg|] == c)
  }

  /** A run is determined by where it starts. */
  lemma RunUnique(s: string, c: char, i: nat, a: string, b: string)
    requires RunAt(s, c, i, a) && RunAt(s, c, i, b)
    ensures a == b
  {
    if |a| < |b| {
      assert false;
    } else if |b| < |a| {
      assert false;
    }
  }

  /** An explode on one character: the first piece is the longest prefix free of the
      character, there is a second piece exactly when the character occurs, and the
      remaining pieces are the explode of what follows its first occurrence. */
  lemma ExplodeFirst(c: char, s: string)
    ensures RunAt(s, c, 0, Explode([c], s)[0])
    ensures |Explode([c], s)| > 1 <==> c in s
    ensures |Explode([c], s)| > 1 ==> Explode([c], s)[1..] == Explode([c], s[|Explode([c], s)[0]| + 1..])
  {
    var parts := Explode([c], s);
    ExplodeCharFree(c, s);
    ExplodeHeadPrefix([c], s);
    assert s[0..|parts[0]|] == s[..|parts[0]|];
    match IndexOf(s, [c])
    case None =>
      assert parts == [s];
    case Some(i) =>
      assert s[i..i + 1] == [c];
      assert s[i] == c;
  }

  /** A run at the start of a suffix is a run of the whole string at the suffix's offset. */
  lemma RunShift(s: string, c: char, i: nat, seg: string)
    requires i <= |s| && RunAt(s[i..], c, 0, seg)
    ensures RunAt(s, c, i, seg)
  {
    assert s[i..i + |seg|] == s[i..][0..|seg|];
    assert i + |seg| < |s| ==> s[i + |seg|] == s[i..][|seg|];
  }

  /** The first two pieces of an explode on one character are the runs of the string
      before and after the first occurrence of the character. */
  lemma ExplodeRuns(c: char, s: string)
    ensures RunAt(s, c, 0, Explode([c], s)[0])
    ensures |Explode([c], s)| > 1 <==> c in s
    ensures |Explode([c], s)| > 1 ==> RunAt(s, c, |Explode([c], s)[0]| + 1, Explode([c], s)[1])
  {
    var parts := Explode([c], s);
    ExplodeFirst(c, s);
    if |parts| > 1 {
      var i := |parts[0]| + 1;
      ExplodeFirst(c, s[i..]);
      assert parts[1] == parts[1..][0];
      RunShift(s, c, i, parts[1]);
    }
  }

  /** A string lacking one of the needle's characters does not contain the needle. */
  lemma IndexOfMissingChar(s: string, needle: string, j: nat)
    requires j < |needle| && needle[j] !in s
    ensures IndexOf(s, needle) == None
  {
    forall i: nat | i + |needle| <= |s| ensures !OccursAt(s, needle, i) {
      assert s[i..i + |needle|][j] == s[i + j];
    }
  }

  /** An occurrence with none before it is the one strpos reports. */
  lemma IndexOfFirst(s: string, needle: string, i: nat)
    requires |needle| > 0 && OccursAt(s, needle, i)
    requires forall j: nat {:trigger OccursAt(s, needle, j)} :: j < i ==> !OccursAt(s, needle, j)
    ensures IndexOf(s, needle) == Some(i)
  {
  }

  /** An occurrence found in a string stays the first one when more text is appended. */
  lemma IndexOfExtend(s: string, needle: string, rest: string)
    requires |needle| > 0 && IndexOf(s, needle).Some?
    ensures IndexOf(s + rest, needle) == IndexOf(s, needle)
  {
    var i := IndexOf(s, needle).value;
    var t := s + rest;
    assert OccursAt(t, needle, i) by {
      assert t[i..i + |needle|] == s[i..i + |needle|];
    }
    forall j: nat | j < i ensures !OccursAt(t, needle, j) {
      assert t[j..j + |needle|] == s[j..j + |needle|];
      assert !OccursAt(s, needle, j);
    }
    IndexOfFirst(t, needle, i);
  }

  /** A piece whose first delimiter is the one appended after it explodes off the front. */
  lemma ExplodeCons(delimiter: string, p: string, rest: string)
    requires |delimiter| > 0 && IndexOf(p + delimiter, delimiter) == Some(|p|)
    ensures Explode(delimiter, p + delimiter + rest) == [p] + Explode(delimiter, rest)
  {
    var s := p + delimiter + rest;
    IndexOfExtend(p + delimiter, delimiter, rest);
    assert s[..|p|] == p;
    assert s[|p| + |delimiter|..] == rest;
  }

  /** Explode undoes Implode for any delimiter that each piece, followed by the
      delimiter, first contains right after the piece. */
  lemma {:induction false} ExplodeImplodeBy(delimiter: string, pieces: seq<string>)
    requires |delimiter| > 0 && |pieces| >= 1
    requires forall k :: 0 <= k < |pieces| ==> IndexOf(pieces[k] + delimiter, delimiter) == Some(|pieces[k]|)
    ensures Explode(delimiter, Implode(delimiter, pieces)) == pieces
    decreases |pieces|
  {
    var p := pieces[0];
    if |pieces| == 1 {
      if IndexOf(p, delimiter).Some? {
        IndexOfExtend(p, delimiter, delimiter);
        assert false;
      }
    } else {
      ExplodeCons(delimiter, p, Implode(delimiter, pieces[1..]));
      ExplodeImplodeBy(delimiter, pieces[1..]);
    }
  }

  /** A piece free of a one-character delimiter explodes off the front. */
  lemma ExplodeFront(c: char, p: string, rest: string)
    requires c !in p
    ensures Explode([c], p + [c] + rest) == [p] + Explode([c], rest)
  {
    IndexOfAfterFreePrefix(p, c, "");
    assert p + [c] + "" == p + [c];
    ExplodeCons([c], p, rest);
  }

  /** A piece free of `c`, followed by nothing or by text starting with `c`, is the
      first piece of the explode. */
  lemma ExplodeRunEnd(c: char, p: string, rest: string)
    requires c !in p && (rest == [] || rest[0] == c)
    ensures Explode([c], p + rest)[0] == p
  {
    var s := p + rest;
    assert RunAt(s, c, 0, p) by {
      assert s[0..|p|] == p;
      assert |p| < |s| ==> s[|p|] == rest[0];
    }
    ExplodeFirst(c, s);
    RunUnique(s, c, 0, Explode([c], s)[0], p);
  }

  /** Three pieces free of `c`, joined by `c` and followed by nothing or by text starting
      with `c`, are the first three pieces of the explode. */
  lemma ExplodeFirstThree(c: char, a: string, b: string, m: string, rest: string)
    requires c !in a && c !in b && c !in m && (rest == [] || rest[0] == c)
    ensures var parts := Explode([c], a + [c] + b + [c] + m + rest);
            |parts| >= 3 && parts[0] == a && parts[1] == b && parts[2] == m
  {
    assert a + [c] + b + [c] + m + rest == a + [c] + (b + [c] + (m + rest));
    ExplodeFront(c, a, b + [c] + (m + rest));
    ExplodeFront(c, b, m + rest);
    ExplodeRunEnd(c, m, rest);
  }

  /** A piece holding no two-character delimiter whose characters differ first meets
      that delimiter where the copy appended to it begins: a match starting on the
      piece's last character would need the delimiter's two characters to be equal. */
  lemma PairAfter(p: string, d: string)
    requires |d| == 2 && d[0] != d[1] && IndexOf(p, d).None?
    ensures IndexOf(p + d, d) == Some(|p|)
  {
    var s := p + d;
    assert OccursAt(s, d, |p|) by {
      assert s[|p|..|p| + 2] == d;
    }
    forall j: nat | j < |p| ensures !OccursAt(s, d, j) {
      if j + 2 <= |p| {
        assert s[j..j + 2] == p[j..j + 2];
        assert !OccursAt(p, d, j);
      } else {
        assert s[j..j + 2][1] == d[0];
      }
    }
    IndexOfFirst(s, d, |p|);
  }

  /** Explode on ", " undoes Implode for pieces that hold no ", ". */
  lemma ExplodeImplodeCommaSpace(pieces: seq<string>)
    requires |pieces| >= 1
    requires forall k :: 0 <= k < |pieces| ==> IndexOf(pieces[k], ", ").None?
    ensures Explode(", ", Implode(", ", pieces)) == pieces
  {
    forall k | 0 <= k < |pieces| ensures IndexOf(pieces[k] + ", ", ", ") == Some(|pieces[k]|) {
      PairAfter(pieces[k], ", ");
    }
    ExplodeImplodeBy(", ", pieces);
  }

  /** The number of occurrences of `c` in `s`. */
  function Count(c: char, s: string): nat
    decreases |s|
  {
    if |s| == 0 then 0 else (if s[0] == c then 1 else 0) + Count(c, s[1..])
  }

  lemma {:induction false} CountConcat(c: char, s: string, t: string)
    ensures Count(c, s + t) == Count(c, s) + Count(c, t)
    decreases |s|
  {
    if |s| > 0 {
      assert (s + t)[1..] == s[1..] + t;
      CountConcat(c, s[1..], t);
    } else {
      assert s + t == t;
    }
  }

  lemma {:induction false} CountFree(c: char, s: string)
    requires c !in s
    ensures Count(c, s) == 0
    decreases |s|
  {
    if |s| > 0 {
      CountFree(c, s[1..]);
    }
  }

  /** Joining n pieces free of `c` with `c` puts exactly n - 1 copies of `c` in the result. */
  lemma {:induction false} ImplodeCount(c: char, pieces: seq<string>)
    requires |pieces| >= 1
    requires forall k :: 0 <= k < |pieces| ==> c !in pieces[k]
    ensures Count(c, Implode([c], pieces)) == |pieces| - 1
    decreases |pieces|
  {
    CountFree(c, pieces[0]);
    if |pieces| > 1 {
      ImplodeCount(c, pieces[1..]);
      CountConcat(c, pieces[0], [c]);
      CountConcat(c, pieces[0] + [c], Implode([c], pieces[1..]));
    }
  }

  /** An explode on a one-character delimiter gives one more piece than the string
      holds delimiters. */
  lemma ExplodeCount(c: char, s: string)
    ensures |Explode([c], s)| == Count(c, s) + 1
  {
    ExplodeCharFree(c, s);
    ImplodeCount(c, Explode([c], s));
  }

  /** PHP truthiness of a string: "" and "0" are falsy. */
  predicate Truthy(s: string) {
    s != "" && s != "0"
  }

  /** array_values(array_filter($pieces)): the truthy pieces, in order, re-indexed from 0. */
  function FilterFalsy(pieces: seq<string>): (kept: seq<string>)
    ensures |kept| <= |pieces|
    ensures forall k :: 0 <= k < |kept| ==> Truthy(kept[k])
    ensures forall x :: x in kept <==> x in pieces && Truthy(x)
    decreases |pieces|
  {
    if |pieces| == 0 then []
    else if Truthy(pieces[0]) then [pieces[0]] + FilterFalsy(pieces[1..])
    else FilterFalsy(pieces[1..])
  }

  /** array_filter keeps order and multiplicity: filtering a concatenation filters each
      part and concatenates the results. */
  lemma {:induction false} FilterFalsyAppend(a: seq<string>, b: seq<string>)
    ensures FilterFalsy(a + b) == FilterFalsy(a) + FilterFalsy(b)
    decreases |a|
  {
    if |a| == 0 {
      assert a + b == b;
    } else {
      assert (a + b)[0] == a[0];
      assert (a + b)[1..] == a[1..] + b;
      FilterFalsyAppend(a[1..], b);
    }
  }

  /** A single piece is kept exactly when it is truthy. */
  lemma FilterFalsyOne(x: string)
    ensures Truthy(x) ==> FilterFalsy([x]) == [x]
    ensures !Truthy(x) ==> FilterFalsy([x]) == []
  {
    assert [x][1..] == [];
  }
}
