/** The Python string operations the engine relies on, over `seq<char>`
    (one `char` per code point, as Python's `str`). */
module Text {

  /** `t` occurs in `s` starting at index `k`. */
  predicate OccursAt(s: string, t: string, k: int) {
    0 <= k && k + |t| <= |s| && s[k..k + |t|] == t
  }

  /** An occurrence in `s` past index 0 is an occurrence in `s[1..]`, one place earlier. */
  lemma OccursAtTail(s: string, t: string)
    requires |s| > 0
    ensures forall k :: 1 <= k ==> (OccursAt(s, t, k) <==> OccursAt(s[1..], t, k - 1))
    ensures forall k :: 0 <= k ==> (OccursAt(s[1..], t, k) <==> OccursAt(s, t, k + 1))
  {
    forall k | 0 <= k
      ensures OccursAt(s[1..], t, k) <==> OccursAt(s, t, k + 1)
    {
      if k + |t| <= |s| - 1 {
        assert s[1..][k..k + |t|] == s[k + 1..k + 1 + |t|];
      }
    }
    forall k | 1 <= k
      ensures OccursAt(s, t, k) <==> OccursAt(s[1..], t, k - 1)
    {
      assert OccursAt(s[1..], t, k - 1) <==> OccursAt(s, t, k - 1 + 1);
    }
  }

  /** Python's `s.find(t)`: the lowest index at which `t` occurs in `s`, or -1
      when it occurs nowhere (an empty `t` is found at 0). */
  function Find(s: string, t: string): (r: int)
    ensures r == -1 || OccursAt(s, t, r)
    ensures r == -1 <==> forall k :: !OccursAt(s, t, k)
    ensures forall k :: 0 <= k < r ==> !OccursAt(s, t, k)
    decreases |s|
  {
    if |t| > |s| then -1
    else if s[..|t|] == t then 0
    else
      OccursAtTail(s, t);
      var r := Find(s[1..], t);
      if r == -1 then -1 else r + 1
  }

  /** Python's `t in s` for strings. */
  predicate Contains(s: string, t: string) {
    Find(s, t) != -1
  }

  /** A text occurs inside any concatenation around it, right after what precedes it. */
  lemma OccursInside(a: string, b: string, c: string)
    ensures OccursAt(a + b + c, b, |a|) && Contains(a + b + c, b)
  {
    var s := a + b + c;
    assert s[|a|..|a| + |b|] == b;
    assert OccursAt(s, b, |a|);
    assert Find(s, b) != -1;
  }

  /** A text occurs at the end of any concatenation that ends with it. */
  lemma OccursAtEnd(a: string, b: string)
    ensures Contains(a + b, b)
  {
    var s := a + b;
    assert s[|a|..|a| + |b|] == b;
    assert OccursAt(s, b, |a|);
    assert Find(s, b) != -1;
  }

  predicate IsUpper(c: char) { 'A' <= c <= 'Z' }
  predicate IsLower(c: char) { 'a' <= c <= 'z' }
  predicate IsLetter(c: char) { IsUpper(c) || IsLower(c) }

  /** A letter's lower-case form; anything else is kept. */
  function LowerChar(c: char): (r: char)
    ensures IsUpper(c) ==> IsLower(r) && r as int == c as int + 32
    ensures !IsUpper(c) ==> r == c
  {
    if IsUpper(c) then (c as int + 32) as char else c
  }

  /** A letter's upper-case form; anything else is kept. */
  function UpperChar(c: char): (r: char)
    ensures IsLower(c) ==> IsUpper(r) && r as int == c as int - 32
    ensures !IsLower(c) ==> r == c
  {
    if IsLower(c) then (c as int - 32) as char else c
  }

  /** Python's `s.lower()` on ASCII letters: each upper-case letter becomes
      its lower-case form, everything else is kept. */
  function Lower(s: string): (r: string)
    ensures |r| == |s|
    ensures forall i :: 0 <= i < |s| && !IsUpper(s[i]) ==> r[i] == s[i]
    ensures forall i :: 0 <= i < |s| && IsUpper(s[i]) ==> IsLower(r[i]) && UpperChar(r[i]) == s[i]
  {
    seq(|s|, i requires 0 <= i < |s| => LowerChar(s[i]))
  }

  /** Lower-casing twice is lower-casing once, and leaves no upper-case letter. */
  lemma LowerIsIdempotent(s: string)
    ensures Lower(Lower(s)) == Lower(s)
    ensures forall i :: 0 <= i < |s| ==> !IsUpper(Lower(s)[i])
  {
  }

  /** Whether index `i` of `s` starts a word:
      `i` is 0 or the character before is not a letter. */
  predicate WordStart(s: string, i: int)
    requires 0 <= i <= |s|
  {
    i == 0 || !IsLetter(s[i - 1])
  }

  /** Python's `s.title()` on ASCII letters: a letter that starts a word is
      upper-cased, a letter that follows a letter is lower-cased, everything
      else is kept. */
  function Title(s: string): (r: string)
    ensures |r| == |s|
    ensures forall i :: 0 <= i < |s| && WordStart(s, i) && IsLower(s[i]) ==>
      IsUpper(r[i]) && LowerChar(r[i]) == s[i]
    ensures forall i :: 0 <= i < |s| && !WordStart(s, i) && IsUpper(s[i]) ==>
      IsLower(r[i]) && UpperChar(r[i]) == s[i]
    ensures forall i :: 0 <= i < |s| && !IsLetter(s[i]) ==> r[i] == s[i]
    ensures forall i :: 0 <= i < |s| && WordStart(s, i) && IsUpper(s[i]) ==> r[i] == s[i]
    ensures forall i :: 0 <= i < |s| && !WordStart(s, i) && IsLower(s[i]) ==> r[i] == s[i]
  {
    seq(|s|, i requires 0 <= i < |s| => TitleAt(s, i))
  }

  /** The character title-casing puts at index `i` of `s`. */
  function TitleAt(s: string, i: int): (c: char)
    requires 0 <= i < |s|
    ensures WordStart(s, i) && IsLower(s[i]) ==> IsUpper(c) && LowerChar(c) == s[i]
    ensures !WordStart(s, i) && IsUpper(s[i]) ==> IsLower(c) && UpperChar(c) == s[i]
    ensures !IsLetter(s[i]) ==> c == s[i]
    ensures WordStart(s, i) && IsUpper(s[i]) ==> c == s[i]
    ensures !WordStart(s, i) && IsLower(s[i]) ==> c == s[i]
  {
    if !WordStart(s, i) then LowerChar(s[i]) else UpperChar(s[i])
  }

  /** Title-casing changes nothing but the case of letters. */
  lemma TitleChangesCaseOnly(s: string)
    ensures forall i :: 0 <= i < |s| ==> LowerChar(Title(s)[i]) == LowerChar(s[i])
  {
  }

  /** Title-casing keeps which characters are letters, so words start where
      they did, and afterwards a letter is upper-case exactly where a word starts. */
  lemma TitleCapitalisesWords(s: string)
    ensures forall i :: 0 <= i < |s| ==> IsLetter(Title(s)[i]) == IsLetter(s[i])
    ensures forall i :: 0 <= i < |s| && IsLetter(Title(s)[i]) ==> (IsUpper(Title(s)[i]) <==> WordStart(Title(s), i))
  {
    var t := Title(s);
    forall i | 0 <= i < |s|
      ensures IsLetter(t[i]) == IsLetter(s[i])
    {
    }
    forall i | 0 <= i < |s| && IsLetter(t[i])
      ensures IsUpper(t[i]) <==> WordStart(t, i)
    {
      assert WordStart(t, i) == WordStart(s, i) by {
        if i > 0 {
          assert IsLetter(t[i - 1]) == IsLetter(s[i - 1]);
        }
      }
    }
  }

  /** Title-casing keeps where words start, so it is idempotent. */
  lemma TitleIsIdempotent(s: string)
    ensures Title(Title(s)) == Title(s)
  {
    var t := Title(s);
    forall i | 0 <= i < |s|
      ensures IsLetter(t[i]) == IsLetter(s[i])
    {
    }
  }

  /** Python's `s.replace(pat, rep)` for a non-empty `pat`: every occurrence,
      scanning left to right without overlaps. */
  function Replace(s: string, pat: string, rep: string): (r: string)
    requires pat != ""
    ensures rep == "" ==> |r| <= |s|
    ensures rep == "" && Find(s, pat) >= 0 ==> |r| <= |s| - |pat|
    ensures |rep| == |pat| ==> |r| == |s|
    decreases |s|
  {
    if |s| < |pat| then s
    else if s[..|pat|] == pat then rep + Replace(s[|pat|..], pat, rep)
    else [s[0]] + Replace(s[1..], pat, rep)
  }

  /** Where `pat` does not start, `replace` keeps the character and goes on. */
  lemma ReplaceStep(s: string, pat: string, rep: string)
    requires pat != "" && |s| >= 1 && !OccursAt(s, pat, 0)
    ensures Replace(s, pat, rep) == [s[0]] + Replace(s[1..], pat, rep)
  {
    if |s| < |pat| {
      assert s == [s[0]] + s[1..];
    }
  }

  /** Where `pat` does not start in `s` it does not start the rest of `s` either. */
  lemma NoOccurrenceAtTail(s: string, pat: string, j: nat)
    requires j < |s| && !OccursAt(s, pat, j)
    ensures !OccursAt(s[j..], pat, 0)
  {
    if |pat| <= |s| - j {
      assert s[j..][..|pat|] == s[j..j + |pat|];
    }
  }

  /** `replace` keeps a prefix in which `pat` starts nowhere. */
  lemma {:induction false} ReplaceSkips(s: string, pat: string, rep: string, k: nat)
    requires pat != "" && k <= |s|
    requires forall j :: 0 <= j < k ==> !OccursAt(s, pat, j)
    ensures Replace(s, pat, rep) == s[..k] + Replace(s[k..], pat, rep)
  {
    if k > 0 {
      ReplaceSkips(s, pat, rep, k - 1);
      var u := s[k - 1..];
      NoOccurrenceAtTail(s, pat, k - 1);
      ReplaceStep(u, pat, rep);
      assert u[1..] == s[k..];
      assert s[..k] == s[..k - 1] + [u[0]];
    }
  }

  /** `replace` rewrites the occurrence `find` reports first, keeps what comes
      before it and goes on after it; with no occurrence it changes nothing. */
  lemma ReplaceAtFirst(s: string, pat: string, rep: string)
    requires pat != ""
    ensures Find(s, pat) == -1 ==> Replace(s, pat, rep) == s
    ensures Find(s, pat) >= 0 ==>
      Replace(s, pat, rep) == s[..Find(s, pat)] + rep + Replace(s[Find(s, pat) + |pat|..], pat, rep)
  {
    var f := Find(s, pat);
    if f == -1 {
      ReplaceSkips(s, pat, rep, |s|);
      assert s[..|s|] == s;
    } else {
      ReplaceSkips(s, pat, rep, f);
      var u := s[f..];
      assert u[..|pat|] == pat;
      assert u[|pat|..] == s[f + |pat|..];
    }
  }

  /** Replacing one character by another rewrites exactly the places it stood. */
  lemma {:induction false} ReplaceCharByChar(s: string, c: char, d: char)
    ensures |Replace(s, [c], [d])| == |s|
    ensures forall i :: 0 <= i < |s| ==> Replace(s, [c], [d])[i] == if s[i] == c then d else s[i]
    decreases |s|
  {
    if |s| >= 1 {
      ReplaceCharByChar(s[1..], c, d);
      assert s[..1] == [s[0]];
      assert Replace(s, [c], [d]) == (if s[0] == c then [d] else [s[0]]) + Replace(s[1..], [c], [d]);
    }
  }

  /** Replacing a character by text that does not contain it leaves none of it. */
  lemma {:induction false} ReplaceCharLeavesNone(s: string, c: char, rep: string)
    requires c !in rep
    ensures c !in Replace(s, [c], rep)
    decreases |s|
  {
    if |s| >= 1 {
      if s[..1] == [c] {
        ReplaceCharLeavesNone(s[1..], c, rep);
      } else {
        assert s[0] != c by { assert s[..1] == [s[0]]; }
        ReplaceCharLeavesNone(s[1..], c, rep);
      }
    }
  }

  /** Without an occurrence of `pat` there is nothing to replace. */
  lemma {:induction false} ReplaceAbsent(s: string, pat: string, rep: string)
    requires pat != "" && forall k :: !OccursAt(s, pat, k)
    ensures Replace(s, pat, rep) == s
    decreases |s|
  {
    if |s| >= |pat| {
      assert !OccursAt(s, pat, 0);
      OccursAtTail(s, pat);
      ReplaceAbsent(s[1..], pat, rep);
      assert s == [s[0]] + s[1..];
    }
  }

  /** Python's `s.startswith(p)`: `p` occurs at index 0, so `find` gives 0. */
  predicate StartsWith(s: string, p: string)
    ensures StartsWith(s, p) <==> OccursAt(s, p, 0)
    ensures StartsWith(s, p) ==> Find(s, p) == 0
  {
    |p| <= |s| && s[..|p|] == p
  }

  /** Python's `s[:k]` for `k >= 0`. */
  function Prefix(s: string, k: nat): (r: string)
    ensures |r| == if k < |s| then k else |s|
    ensures r <= s
  {
    if k < |s| then s[..k] else s
  }

  /** Python's `a <= b` on strings: lexicographic by code point, a prefix first. */
  predicate LexLe(a: string, b: string)
    decreases |a|
  {
    |a| == 0 || (|b| > 0 && (a[0] < b[0] || (a[0] == b[0] && LexLe(a[1..], b[1..]))))
  }

  lemma {:induction false} LexLeTotal(a: string, b: string)
    ensures LexLe(a, b) || LexLe(b, a)
    decreases |a|
  {
    if |a| > 0 && |b| > 0 && a[0] == b[0] {
      LexLeTotal(a[1..], b[1..]);
    }
  }

  lemma {:induction false} LexLeTransitive(a: string, b: string, c: string)
    requires LexLe(a, b) && LexLe(b, c)
    ensures LexLe(a, c)
    decreases |a|
  {
    if |a| > 0 && a[0] == b[0] && b[0] == c[0] {
      LexLeTransitive(a[1..], b[1..], c[1..]);
    }
  }

  lemma {:induction false} LexLeAntisymmetric(a: string, b: string)
    requires LexLe(a, b) && LexLe(b, a)
    ensures a == b
    decreases |a|
  {
    if |a| > 0 {
      LexLeAntisymmetric(a[1..], b[1..]);
      assert a == [a[0]] + a[1..] && b == [b[0]] + b[1..];
    }
  }
}
