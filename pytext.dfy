/** The few pieces of Python's `str` behaviour that setup.py relies on:
    `strip()` with no argument, `replace(old, "")`, and the `<` ordering that
    `sorted` uses on string keys. */
module PyText {

  /** Python's `str.isspace` for one character: exactly the characters that
      `str.strip()` removes when called without an argument. */
  predicate IsSpace(c: char) {
    || c == ' '
    || '\U{9}' <= c <= '\U{D}'        // \t \n \v \f \r
    || '\U{1C}' <= c <= '\U{1F}'      // file, group, record and unit separators
    || c == '\U{85}' || c == '\U{A0}' || c == '\U{1680}'
    || '\U{2000}' <= c <= '\U{200A}'
    || c == '\U{2028}' || c == '\U{2029}' || c == '\U{202F}' || c == '\U{205F}' || c == '\U{3000}'
  }

  predicate NoSpaceAtEnds(s: string) {
    s == [] || (!IsSpace(s[0]) && !IsSpace(s[|s| - 1]))
  }

  /** `s.lstrip()`. */
  function TrimLeft(s: string): (r: string)
    ensures |r| <= |s| && r == s[|s| - |r|..]
    ensures forall i :: 0 <= i < |s| - |r| ==> IsSpace(s[i])
    ensures r != [] ==> !IsSpace(r[0])
  {
    if s != [] && IsSpace(s[0]) then TrimLeft(s[1..]) else s
  }

  /** `s.rstrip()`. */
  function TrimRight(s: string): (r: string)
    ensures |r| <= |s| && r == s[..|r|]
    ensures forall i :: |r| <= i < |s| ==> IsSpace(s[i])
    ensures r != [] ==> !IsSpace(r[|r| - 1])
  {
    if s != [] && IsSpace(s[|s| - 1]) then TrimRight(s[..|s| - 1]) else s
  }

  /** `r` is the slice of `s` that starts at `lo`, and everything of `s` outside
      that slice is whitespace. */
  predicate SliceWithinSpace(s: string, lo: int, r: string) {
    && 0 <= lo <= |s| - |r| && r == s[lo..lo + |r|]
    && (forall i :: 0 <= i < lo ==> IsSpace(s[i]))
    && (forall i :: lo + |r| <= i < |s| ==> IsSpace(s[i]))
  }

  /** `s.strip()`: `s` without its leading and trailing whitespace. */
  function Strip(s: string): (r: string)
    ensures NoSpaceAtEnds(r)
    ensures exists lo :: SliceWithinSpace(s, lo, r)
  {
    var l := TrimLeft(s);
    var r := TrimRight(l);
    TrimBoth(s, l, r);
    r
  }

  /** Trimming the left end and then the right end keeps a slice of `s` with
      whitespace only around it and at neither of its ends. */
  lemma TrimBoth(s: string, l: string, r: string)
    requires |l| <= |s| && l == s[|s| - |l|..]
    requires forall i :: 0 <= i < |s| - |l| ==> IsSpace(s[i])
    requires l != [] ==> !IsSpace(l[0])
    requires |r| <= |l| && r == l[..|r|]
    requires forall i :: |r| <= i < |l| ==> IsSpace(l[i])
    requires r != [] ==> !IsSpace(r[|r| - 1])
    ensures NoSpaceAtEnds(r)
    ensures SliceWithinSpace(s, |s| - |l|, r)
  {
    var lo := |s| - |l|;
    forall t | 0 <= t < |r| ensures r[t] == s[lo + t] {
      assert r[t] == l[t];
    }
    assert r == s[lo..lo + |r|];
    forall i | lo + |r| <= i < |s| ensures IsSpace(s[i]) {
      assert s[i] == l[i - lo];
    }
    if r != [] {
      assert r[0] == l[0];
    }
  }

  /** `w` occurs in `s` starting at position `i`. */
  predicate OccursAt(s: string, w: string, i: int) {
    0 <= i && i + |w| <= |s| && s[i..i + |w|] == w
  }

  /** `s.replace(w, "")`: every occurrence of `w`, taken left to right without
      overlap, deleted. */
  function RemoveAll(s: string, w: string): (r: string)
    requires w != []
    ensures |r| <= |s|
    ensures (forall i :: !OccursAt(s, w, i)) ==> r == s
    ensures (exists i :: OccursAt(s, w, i)) ==> |r| <= |s| - |w|
  {
    if |s| < |w| then s
    else if s[..|w|] == w then
      assert OccursAt(s, w, 0);
      RemoveAll(s[|w|..], w)
    else
      var t := RemoveAll(s[1..], w);
      assert forall i :: OccursAt(s[1..], w, i) ==> OccursAt(s, w, i + 1) by {
        forall i | OccursAt(s[1..], w, i) ensures OccursAt(s, w, i + 1) {
          assert s[i + 1..i + 1 + |w|] == s[1..][i..i + |w|];
        }
      }
      assert forall i :: 1 <= i && OccursAt(s, w, i) ==> OccursAt(s[1..], w, i - 1) by {
        forall i | 1 <= i && OccursAt(s, w, i) ensures OccursAt(s[1..], w, i - 1) {
          assert s[1..][i - 1..i - 1 + |w|] == s[i..i + |w|];
        }
      }
      [s[0]] + t
  }

  /** A name that holds no ".pdf" and then ends in ".pdf" loses exactly that
      ending: `"notes.pdf".replace(".pdf", "")` is `"notes"`. */
  lemma {:induction false} RemoveAllTrailing(x: string)
    requires forall i :: !OccursAt(x, ".pdf", i)
    ensures RemoveAll(x + ".pdf", ".pdf") == x
  {
    var s := x + ".pdf";
    if x == [] {
      assert s == ".pdf" && s[..4] == ".pdf" && s[4..] == [];
    } else {
      if |x| >= 4 {
        assert s[..4] == x[..4];
        assert !OccursAt(x, ".pdf", 0);
      } else {
        assert s[..4][|x|] == s[|x|] == '.';
      }
      assert s[..4] != ".pdf";
      assert s[1..] == x[1..] + ".pdf";
      forall i | OccursAt(x[1..], ".pdf", i) ensures false {
        assert x[i + 1..i + 5] == x[1..][i..i + 4];
        assert OccursAt(x, ".pdf", i + 1);
      }
      RemoveAllTrailing(x[1..]);
      assert x == [x[0]] + x[1..];
    }
  }

  /** Python's `a < b` on strings: lexicographic by code point, a proper prefix
      coming first. */
  predicate StrLt(a: string, b: string) {
    if a == [] then b != []
    else if b == [] then false
    else a[0] < b[0] || (a[0] == b[0] && StrLt(a[1..], b[1..]))
  }

  lemma {:induction false} StrLtIrreflexive(a: string)
    ensures !StrLt(a, a)
  {
    if a != [] { StrLtIrreflexive(a[1..]); }
  }

  lemma {:induction false} StrLtTrichotomy(a: string, b: string)
    ensures a == b || StrLt(a, b) || StrLt(b, a)
  {
    if a != [] && b != [] && a[0] == b[0] {
      StrLtTrichotomy(a[1..], b[1..]);
      if a[1..] == b[1..] { assert a == [a[0]] + a[1..] && b == [b[0]] + b[1..]; }
    }
  }

  lemma {:induction false} StrLtTransitive(a: string, b: string, c: string)
    requires StrLt(a, b) && StrLt(b, c)
    ensures StrLt(a, c)
  {
    if a != [] && a[0] == b[0] && b[0] == c[0] {
      StrLtTransitive(a[1..], b[1..], c[1..]);
    }
  }

  lemma StrLtAsymmetric(a: string, b: string)
    requires StrLt(a, b)
    ensures !StrLt(b, a)
  {
    if StrLt(b, a) {
      StrLtTransitive(a, b, a);
      StrLtIrreflexive(a);
    }
  }

  /** "Not less than" chains: if b is not below a and c is not below b, c is not below a. */
  lemma NotLtTransitive(a: string, b: string, c: string)
    requires !StrLt(b, a) && !StrLt(c, b)
    ensures !StrLt(c, a)
  {
    StrLtTrichotomy(a, b);
    if StrLt(c, a) && a != b {
      StrLtTransitive(c, a, b);
    }
  }
}
