/** The three JavaScript string operations the core uses:
    `String.prototype.trim`, `String.prototype.includes` and
    `Array.prototype.join` on an array of strings. The exact Unicode
    whitespace set of `trim` is a parameter, `isSpace`. */
module JsText {

  /** `sub` occurs in `s` starting at position `k`. */
  predicate OccursAt(sub: string, s: string, k: nat)
  {
    k + |sub| <= |s| && s[k..k + |sub|] == sub
  }

  /** `s.includes(sub)`: `sub` occurs somewhere in `s`, compared character by
      character (so case-sensitively). The empty string is included in every
      string, and no string includes a longer one. */
  function Includes(s: string, sub: string): (r: bool)
    ensures sub == [] ==> r
    ensures r ==> |sub| <= |s|
  {
    assert sub == [] ==> OccursAt(sub, s, 0);
    exists k: nat | k <= |s| :: OccursAt(sub, s, k)
  }

  /** A string without a lower-case 'j' does not include "json". */
  lemma NoJNoJson(s: string)
    requires 'j' !in s
    ensures !Includes(s, "json")
  {
    forall k: nat | k <= |s| ensures !OccursAt("json", s, k) {
      assert k < |s| ==> s[k] in s;
    }
  }

  /** Every string includes itself. */
  lemma IncludesSelf(s: string)
    ensures Includes(s, s)
  {
    assert OccursAt(s, s, 0);
  }

  /** What a string includes, its extensions on either side include too. */
  lemma IncludesExtend(s: string, sub: string, left: string, right: string)
    requires Includes(s, sub)
    ensures Includes(left + s, sub) && Includes(s + right, sub)
  {
    var k: nat :| k <= |s| && OccursAt(sub, s, k);
    assert (left + s)[|left| + k..|left| + k + |sub|] == s[k..k + |sub|];
    assert OccursAt(sub, left + s, |left| + k);
    assert (s + right)[k..k + |sub|] == s[k..k + |sub|];
    assert OccursAt(sub, s + right, k);
  }

  /** The leading-whitespace half of `trim`: drops leading whitespace. The result is a suffix of `s`. */
  function TrimStart(s: string, isSpace: char -> bool): (r: string)
    ensures |r| <= |s| && r == s[|s| - |r|..]
    ensures r == [] || !isSpace(r[0])
    ensures forall k :: 0 <= k < |s| - |r| ==> isSpace(s[k])
  {
    if |s| > 0 && isSpace(s[0]) then
      var r := TrimStart(s[1..], isSpace);
      assert forall k :: 1 <= k < |s| - |r| ==> s[k] == s[1..][k - 1];
      r
    else s
  }

  /** The trailing-whitespace half of `trim`: drops trailing whitespace. The result is a prefix of `s`. */
  function TrimEnd(s: string, isSpace: char -> bool): (r: string)
    ensures |r| <= |s| && r == s[..|r|]
    ensures r == [] || !isSpace(r[|r| - 1])
    ensures forall k :: |r| <= k < |s| ==> isSpace(s[k])
  {
    if |s| > 0 && isSpace(s[|s| - 1]) then
      var r := TrimEnd(s[..|s| - 1], isSpace);
      assert forall k :: |r| <= k < |s| - 1 ==> s[k] == s[..|s| - 1][k];
      r
    else s
  }

  /** `s.trim()`: the infix of `s` left after removing whitespace at both ends.
      It starts where the leading whitespace ends, everything dropped before
      and after it is whitespace, and it is empty exactly when every character
      of `s` is whitespace. */
  function Trim(s: string, isSpace: char -> bool): (r: string)
    ensures |r| <= |s|
    ensures r == [] <==> forall k :: 0 <= k < |s| ==> isSpace(s[k])
    ensures r != [] ==> !isSpace(r[0]) && !isSpace(r[|r| - 1])
    ensures OccursAt(r, s, |s| - |TrimStart(s, isSpace)|)
    ensures forall k :: 0 <= k < |s| - |TrimStart(s, isSpace)| ==> isSpace(s[k])
    ensures forall k :: |s| - |TrimStart(s, isSpace)| + |r| <= k < |s| ==> isSpace(s[k])
  {
    var t := TrimStart(s, isSpace);
    var r := TrimEnd(t, isSpace);
    TrimmedInfix(s, t, r, isSpace);
    r
  }

  /** The two halves of `Trim` compose: `r` sits at offset `|s| - |t|` in `s`,
      what follows it in `s` is whitespace, and it is empty only when all of
      `s` is whitespace. */
  lemma TrimmedInfix(s: string, t: string, r: string, isSpace: char -> bool)
    requires |t| <= |s| && t == s[|s| - |t|..]
    requires |r| <= |t| && r == t[..|r|]
    requires forall k :: 0 <= k < |s| - |t| ==> isSpace(s[k])
    requires forall k :: |r| <= k < |t| ==> isSpace(t[k])
    ensures r == s[|s| - |t|..|s| - |t| + |r|]
    ensures OccursAt(r, s, |s| - |t|)
    ensures forall k :: |s| - |t| + |r| <= k < |s| ==> isSpace(s[k])
    ensures r == [] ==> forall k :: 0 <= k < |s| ==> isSpace(s[k])
  {
    var a := |s| - |t|;
    assert t == s[a..];
    assert r == t[..|r|];
    assert s[a..a + |r|] == t[..|r|];
    forall k | a + |r| <= k < |s| ensures isSpace(s[k]) {
      assert s[k] == t[k - a];
    }
    if r == [] {
      forall k | 0 <= k < |s| ensures isSpace(s[k]) {
        if k >= a {
          assert s[k] == t[k - a];
        }
      }
    }
  }

  /** `xs.join(sep)`: the strings of `xs` with `sep` between neighbours;
      the empty array gives the empty string. */
  function Join(xs: seq<string>, sep: string): (r: string)
    ensures xs == [] ==> r == ""
    ensures |xs| == 1 ==> r == xs[0]
  {
    if xs == [] then ""
    else if |xs| == 1 then xs[0]
    else xs[0] + sep + Join(xs[1..], sep)
  }

  /** A non-empty array joins to a string that starts with its first element
      and ends with its last. */
  lemma {:induction false} JoinEnds(xs: seq<string>, sep: string)
    requires xs != []
    ensures |xs[0]| <= |Join(xs, sep)| && Join(xs, sep)[..|xs[0]|] == xs[0]
    ensures |xs[|xs| - 1]| <= |Join(xs, sep)|
      && Join(xs, sep)[|Join(xs, sep)| - |xs[|xs| - 1]|..] == xs[|xs| - 1]
  {
    if |xs| > 1 {
      JoinEnds(xs[1..], sep);
      var rest := Join(xs[1..], sep);
      assert Join(xs, sep) == xs[0] + (sep + rest);
      assert xs[1..][|xs[1..]| - 1] == xs[|xs| - 1];
    }
  }

  /** Each element of a joined array occurs in the joined string. */
  lemma {:induction false} JoinIncludesElement(xs: seq<string>, sep: string, i: nat)
    requires i < |xs|
    ensures Includes(Join(xs, sep), xs[i])
  {
    if i == 0 {
      IncludesSelf(xs[0]);
      if |xs| > 1 {
        IncludesExtend(xs[0], xs[0], "", sep + Join(xs[1..], sep));
        assert xs[0] + (sep + Join(xs[1..], sep)) == Join(xs, sep);
      }
    } else {
      JoinIncludesElement(xs[1..], sep, i - 1);
      IncludesExtend(Join(xs[1..], sep), xs[i], xs[0] + sep, "");
    }
  }
}
