/** Options and results, and the few facts about sets, sequences and strings the runtime relies on. */
module Wrappers {
  datatype Option<+T> = None | Some(value: T)

  datatype Result<+T, +E> = Ok(value: T) | Err(error: E)
}

module Sets {
  lemma {:induction false} SubsetIsNoLarger<T>(a: set<T>, b: set<T>)
    requires a <= b
    ensures |a| <= |b|
    ensures a != b ==> |a| < |b|
  {
    if a != b {
      assert !(b <= a);
      var x :| x in b && x !in a;
      SubsetIsNoLarger(a, b - {x});
    }
  }
}

module Sequences {
  /** The parts joined in order. */
  function Flatten<T>(parts: seq<seq<T>>): seq<T> {
    if parts == [] then [] else parts[0] + Flatten(parts[1..])
  }

  lemma {:induction false} FlattenSplit<T>(a: seq<seq<T>>, b: seq<seq<T>>)
    ensures Flatten(a + b) == Flatten(a) + Flatten(b)
  {
    if a == [] {
      assert a + b == b;
    } else {
      assert (a + b)[1..] == a[1..] + b;
      FlattenSplit(a[1..], b);
    }
  }

  lemma {:induction false} FlattenOne<T>(part: seq<T>)
    ensures Flatten([part]) == part
  {
    assert Flatten([part][1..]) == [];
  }

  lemma {:induction false} Regroup3<T>(a: seq<T>, b: seq<T>, c: seq<T>)
    ensures a + (b + c) == (a + b) + c
  {
  }
}

module Text {
  /** The characters `str.strip`, `str.isspace` and the regex class `\s` treat as white space. */
  predicate IsSpace(c: char) {
    || '\t' <= c <= '\r' || '\U{1C}' <= c <= ' ' || c == '\U{85}' || c == '\U{A0}' || c == '\U{1680}'
    || '\U{2000}' <= c <= '\U{200A}' || c == '\U{2028}' || c == '\U{2029}' || c == '\U{202F}'
    || c == '\U{205F}' || c == '\U{3000}'
  }

  predicate Blank(s: string) {
    forall i :: 0 <= i < |s| ==> IsSpace(s[i])
  }

  /** The first position from i on that is not white space. */
  function StripStart(s: string, i: nat): (j: nat)
    requires i <= |s|
    ensures i <= j <= |s|
    ensures forall k :: i <= k < j ==> IsSpace(s[k])
    ensures j < |s| ==> !IsSpace(s[j])
    decreases |s| - i
  {
    if i < |s| && IsSpace(s[i]) then StripStart(s, i + 1) else i
  }

  /** The position behind the last character of s[i..k] that is not white space. */
  function StripEnd(s: string, i: nat, k: nat): (j: nat)
    requires i <= k <= |s|
    ensures i <= j <= k
    ensures forall m :: j <= m < k ==> IsSpace(s[m])
    ensures j > i ==> !IsSpace(s[j - 1])
  {
    if i < k && IsSpace(s[k - 1]) then StripEnd(s, i, k - 1) else k
  }

  function Strip(s: string): (r: string) {
    var j := StripStart(s, 0);
    s[j..StripEnd(s, j, |s|)]
  }

  /** Neither end of s is white space. */
  predicate Trimmed(s: string) {
    s == [] || (!IsSpace(s[0]) && !IsSpace(s[|s| - 1]))
  }

  /** Stripping leaves the one trimmed text that white space alone surrounds. */
  lemma {:induction false} StripCuts(s: string)
    ensures Trimmed(Strip(s))
    ensures Strip(s) == [] <==> Blank(s)
  {
  }

  lemma {:induction false} StripIsSlice(s: string) returns (a: nat, b: nat)
    ensures a <= b <= |s| && Strip(s) == s[a..b]
  {
    a := StripStart(s, 0);
    b := StripEnd(s, a, |s|);
  }

  lemma {:induction false} StripOfPadded(before: string, s: string, after: string)
    requires Blank(before) && Trimmed(s) && s != [] && Blank(after)
    ensures Strip(before + s + after) == s
  {
    var t := before + s + after;
    var n := |before| + |s|;
    assert forall i :: 0 <= i < |before| ==> t[i] == before[i];
    assert forall i :: n <= i < |t| ==> t[i] == after[i - n];
    assert t[|before|] == s[0] && t[n - 1] == s[|s| - 1];
    assert StripStart(t, 0) == |before|;
    assert StripEnd(t, |before|, |t|) == n;
  }

  lemma {:induction false} StripOfTrimmed(s: string)
    requires Trimmed(s)
    ensures Strip(s) == s
  {
    if s != [] {
      StripOfPadded([], s, []);
      assert [] + s + [] == s;
    }
  }

  lemma {:induction false} SliceOfSlice(t: string, i: nat, j: nat, a: nat, b: nat)
    requires i <= j <= |t| && a <= b <= j - i
    ensures t[i..j][a..b] == t[i + a..i + b]
  {
    var u, v := t[i..j][a..b], t[i + a..i + b];
    assert forall k :: 0 <= k < |u| ==> u[k] == v[k];
  }

  // ----- The order Python compares strings in -----

  predicate Less(a: string, b: string) {
    |b| > 0 && (|a| == 0 || a[0] < b[0] || (a[0] == b[0] && Less(a[1..], b[1..])))
  }

  lemma {:induction false} LessIsTotal(a: string, b: string)
    ensures Less(a, b) || a == b || Less(b, a)
  {
    if |a| > 0 && |b| > 0 && a[0] == b[0] {
      LessIsTotal(a[1..], b[1..]);
      assert a == [a[0]] + a[1..] && b == [b[0]] + b[1..];
    }
  }

  lemma {:induction false} LessIsTransitive(a: string, b: string, c: string)
    requires Less(a, b) && Less(b, c)
    ensures Less(a, c)
  {
    if |a| > 0 && a[0] == b[0] == c[0] {
      LessIsTransitive(a[1..], b[1..], c[1..]);
    }
  }

  lemma {:induction false} LessIsIrreflexive(a: string)
    ensures !Less(a, a)
  {
    if |a| > 0 {
      LessIsIrreflexive(a[1..]);
    }
  }

  lemma {:induction false} LessIsAsymmetric(a: string, b: string)
    requires Less(a, b)
    ensures !Less(b, a)
  {
    if Less(b, a) {
      LessIsTransitive(a, b, a);
      LessIsIrreflexive(a);
    }
  }

  /** At n the strings differ, or a ends, for the first time. */
  predicate LessAt(a: string, b: string, n: int) {
    0 <= n <= |a| && n < |b| && a[..n] == b[..n] && (n == |a| || a[n] < b[n])
  }

  /** Strings are compared at the first character they differ in; a proper prefix comes first. */
  lemma {:induction false} LessIsLexicographic(a: string, b: string)
    ensures Less(a, b) <==> exists n :: LessAt(a, b, n)
  {
    forall n | LessAt(a, b, n) ensures Less(a, b) {
      LessFrom(a, b, n);
    }
    if Less(a, b) {
      var n := FirstDifference(a, b);
    }
  }

  lemma {:induction false} LessFrom(a: string, b: string, n: nat)
    requires LessAt(a, b, n)
    ensures Less(a, b)
  {
    if n > 0 {
      assert a[0] == a[..n][0] == b[..n][0] == b[0];
      assert a[1..][..n - 1] == a[..n][1..] && b[1..][..n - 1] == b[..n][1..];
      LessFrom(a[1..], b[1..], n - 1);
    }
  }

  lemma {:induction false} FirstDifference(a: string, b: string) returns (n: nat)
    requires Less(a, b)
    ensures LessAt(a, b, n)
  {
    if |a| == 0 || a[0] < b[0] {
      n := 0;
    } else {
      var m := FirstDifference(a[1..], b[1..]);
      n := m + 1;
      assert a[..n] == [a[0]] + a[1..][..m] && b[..n] == [b[0]] + b[1..][..m];
    }
  }
}
