/**
 * The Python string operations the planner applies to building types and
 * segment ids: `str.lower()`, `str.strip()`, `", ".join(...)` and
 * `str.split(", ")`.
 */
module Text {

  // ---------------------------------------------------------------------
  // lower() and strip()
  // ---------------------------------------------------------------------

  /** Upper-case letters of ASCII and Latin-1 (U+00C0..U+00DE without U+00D7), the ones `str.lower()` shifts by 32. */
  predicate IsUpper(c: char)
  {
    ('A' <= c <= 'Z') || ('\U{C0}' <= c <= '\U{DE}' && c != '\U{D7}')
  }

  function LowerChar(c: char): (d: char)
    ensures !IsUpper(d)
    ensures !IsUpper(c) ==> d == c
  {
    if IsUpper(c) then (c as int + 32) as char else c
  }

  function Lower(s: string): (r: string)
    ensures |r| == |s|
  {
    if s == [] then [] else [LowerChar(s[0])] + Lower(s[1..])
  }

  /** `str.lower()` maps every character on its own, and leaves no upper-case letter. */
  lemma {:induction false} LowerSpec(s: string)
    ensures forall k | 0 <= k < |s| :: Lower(s)[k] == LowerChar(s[k]) && !IsUpper(Lower(s)[k])
  {
    if s != [] {
      LowerSpec(s[1..]);
      assert forall k | 1 <= k < |s| :: Lower(s)[k] == Lower(s[1..])[k - 1];
    }
  }

  /** The characters for which `str.isspace()` holds, those `str.strip()` removes. */
  predicate IsSpace(c: char)
  {
    || ('\t' <= c <= '\r') || c == ' '
    || ('\U{1C}' <= c <= '\U{1F}') || c == '\U{85}' || c == '\U{A0}' || c == '\U{1680}'
    || ('\U{2000}' <= c <= '\U{200A}') || c == '\U{2028}' || c == '\U{2029}'
    || c == '\U{202F}' || c == '\U{205F}' || c == '\U{3000}'
  }

  function StripLeft(s: string): (r: string)
    ensures |r| <= |s|
  {
    if s != [] && IsSpace(s[0]) then StripLeft(s[1..]) else s
  }

  /** `lstrip()` removes exactly the leading white space: what is left is a suffix that does not start with white space. */
  lemma {:induction false} StripLeftSpec(s: string)
    ensures var r := StripLeft(s);
      && r == s[|s| - |r|..]
      && (r != [] ==> !IsSpace(r[0]))
      && forall k | 0 <= k < |s| - |r| :: IsSpace(s[k])
  {
    if s != [] && IsSpace(s[0]) {
      StripLeftSpec(s[1..]);
    }
  }

  function StripRight(s: string): (r: string)
    ensures |r| <= |s|
  {
    if s != [] && IsSpace(s[|s| - 1]) then StripRight(s[..|s| - 1]) else s
  }

  /** `rstrip()` removes exactly the trailing white space: what is left is a prefix that does not end with white space. */
  lemma {:induction false} StripRightSpec(s: string)
    ensures var r := StripRight(s);
      && r == s[..|r|]
      && (r != [] ==> !IsSpace(r[|r| - 1]))
      && forall k | |r| <= k < |s| :: IsSpace(s[k])
  {
    if s != [] && IsSpace(s[|s| - 1]) {
      StripRightSpec(s[..|s| - 1]);
    }
  }

  /** `s.strip()`. */
  function Strip(s: string): string
  {
    StripRight(StripLeft(s))
  }

  /** The normalisation of a building type: `type.lower().strip()`. */
  function Normalize(s: string): string
  {
    Strip(Lower(s))
  }

  /** The result of `strip()` neither starts nor ends with white space. */
  lemma StripSpec(s: string)
    ensures var r := Strip(s); r != [] ==> !IsSpace(r[0]) && !IsSpace(r[|r| - 1])
  {
    StripLeftSpec(s);
    StripRightSpec(StripLeft(s));
  }

  lemma {:induction false} LowerIdempotent(s: string)
    ensures Lower(Lower(s)) == Lower(s)
  {
    if s != [] {
      LowerIdempotent(s[1..]);
      assert Lower(s)[1..] == Lower(s[1..]);
    }
  }

  /** Lower-casing never turns a white-space character into another character, nor anything else into white space. */
  lemma LowerKeepsSpace(c: char)
    ensures IsSpace(LowerChar(c)) <==> IsSpace(c)
  {
  }

  lemma {:induction false} StripLeftLower(s: string)
    ensures StripLeft(Lower(s)) == Lower(StripLeft(s))
  {
    if s != [] {
      LowerKeepsSpace(s[0]);
      assert Lower(s)[1..] == Lower(s[1..]);
      StripLeftLower(s[1..]);
    }
  }

  lemma {:induction false} StripRightLower(s: string)
    ensures StripRight(Lower(s)) == Lower(StripRight(s))
  {
    if s != [] {
      LowerSpec(s);
      LowerKeepsSpace(s[|s| - 1]);
      assert Lower(s)[..|s| - 1] == Lower(s[..|s| - 1]) by {
        LowerSpec(s[..|s| - 1]);
      }
      StripRightLower(s[..|s| - 1]);
    }
  }

  lemma StripLeftIdempotent(s: string)
    ensures StripLeft(StripLeft(s)) == StripLeft(s)
  {
    StripLeftSpec(s);
  }

  lemma StripRightIdempotent(s: string)
    ensures StripRight(StripRight(s)) == StripRight(s)
  {
    StripRightSpec(s);
  }

  /** A string that does not start with white space still does not after a right strip. */
  lemma StripRightKeepsLeft(s: string)
    requires s == [] || !IsSpace(s[0])
    ensures StripLeft(StripRight(s)) == StripRight(s)
  {
    StripRightSpec(s);
  }

  /** `strip()` after `lower()` gives the same string as `lower()` after `strip()`. */
  lemma NormalizeIsLowerStrip(s: string)
    ensures Normalize(s) == Lower(Strip(s))
  {
    StripLeftLower(s);
    StripRightLower(StripLeft(s));
  }

  lemma StripIdempotent(s: string)
    ensures Strip(Strip(s)) == Strip(s)
  {
    var y := StripLeft(s);
    StripLeftSpec(s);
    StripRightKeepsLeft(y);
    StripRightIdempotent(y);
  }

  /**
   * Normalising twice changes nothing: the building types the planner
   * builds with `str(...).strip().lower()` and passes to `Batiment`, which
   * applies `lower().strip()` again, come out as if normalised once.
   */
  lemma NormalizeStable(s: string)
    ensures Normalize(s) == Lower(Strip(s))
    ensures Normalize(Lower(Strip(s))) == Normalize(s)
    ensures Normalize(Normalize(s)) == Normalize(s)
  {
    NormalizeIsLowerStrip(s);
    var x := Strip(s);
    NormalizeIsLowerStrip(Lower(x));
    StripLeftLower(x);
    StripRightLower(StripLeft(x));
    assert Strip(Lower(x)) == Lower(Strip(x));
    LowerIdempotent(Strip(x));
    StripIdempotent(s);
  }

  // ---------------------------------------------------------------------
  // ", ".join(...) and str.split(", ")
  // ---------------------------------------------------------------------

  const Separator: string := ", "

  /** `sep` occurs in `s` at position `k`. */
  predicate OccursAt(s: string, sep: string, k: nat)
  {
    k + |sep| <= |s| && s[k..k + |sep|] == sep
  }

  predicate Contains(s: string, sep: string)
  {
    exists k: nat | k <= |s| :: OccursAt(s, sep, k)
  }

  /** Position of the first occurrence of `sep` in `s`, or `|s|` when there is none. */
  function Find(s: string, sep: string): (k: nat)
    requires |sep| > 0
    ensures k <= |s|
    ensures k < |s| ==> OccursAt(s, sep, k)
    ensures forall j: nat | j < k :: !OccursAt(s, sep, j)
  {
    if |s| < |sep| then |s|
    else if s[..|sep|] == sep then 0
    else
      var k := Find(s[1..], sep);
      assert forall j: nat | 1 <= j <= k :: !OccursAt(s, sep, j) by {
        forall j: nat | 1 <= j <= k ensures !OccursAt(s, sep, j) {
          ShiftOccurs(s, sep, j);
        }
      }
      assert k + 1 < |s| ==> OccursAt(s, sep, k + 1) by {
        if k + 1 < |s| {
          ShiftOccurs(s, sep, k + 1);
        }
      }
      k + 1
  }

  lemma ShiftOccurs(s: string, sep: string, j: nat)
    requires 1 <= j
    ensures OccursAt(s, sep, j) <==> 1 <= |s| && OccursAt(s[1..], sep, j - 1)
  {
    if j + |sep| <= |s| {
      SliceOfTail(s, j - 1, |sep|);
    }
  }

  lemma SliceOfTail(s: string, j: nat, n: nat)
    requires j + 1 + n <= |s|
    ensures s[j + 1..j + 1 + n] == s[1..][j..j + n]
  {
  }

  /** `sep.join(xs)`. */
  function Join(xs: seq<string>, sep: string): string
  {
    if xs == [] then ""
    else if |xs| == 1 then xs[0]
    else xs[0] + sep + Join(xs[1..], sep)
  }

  /** `s.split(sep)` for a non-empty separator: cut at each leftmost occurrence. */
  function Split(s: string, sep: string): (r: seq<string>)
    requires |sep| > 0
    ensures |r| > 0
    decreases |s|
  {
    var k := Find(s, sep);
    if k == |s| then [s] else [s[..k]] + Split(s[k + |sep|..], sep)
  }

  /**
   * Splitting on `", "` gives back the ids joined with `", "`, provided
   * there is at least one id and none contains the separator.  (The empty
   * list is joined to `""`, which splits to `[""]`.)
   */
  lemma {:induction false} SplitJoin(xs: seq<string>)
    requires |xs| > 0
    requires forall x | x in xs :: !Contains(x, Separator)
    ensures Split(Join(xs, Separator), Separator) == xs
  {
    var x := xs[0];
    assert !Contains(x, Separator);
    if |xs| == 1 {
      assert Find(x, Separator) == |x|;
    } else {
      var t := Join(xs[1..], Separator);
      var s := x + Separator + t;
      assert OccursAt(s, Separator, |x|) by {
        assert s[|x|..|x| + 2] == Separator;
      }
      forall j: nat | j < |x|
        ensures !OccursAt(s, Separator, j)
      {
        if j + 2 <= |x| {
          assert s[j..j + 2] == x[j..j + 2];
          assert j <= |x| && !OccursAt(x, Separator, j);
        } else {
          assert s[j + 1] == ',';
        }
      }
      assert Find(s, Separator) == |x|;
      assert s[|x| + 2..] == t;
      assert s[..|x|] == x;
      assert forall y | y in xs[1..] :: y in xs;
      SplitJoin(xs[1..]);
    }
  }

  /** The one list the round trip loses: no ids at all come back as one empty id. */
  lemma SplitJoinEmpty()
    ensures Split(Join([], Separator), Separator) == [""]
  {
    assert Find("", Separator) == 0;
  }
}
