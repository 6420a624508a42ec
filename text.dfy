/** The string operations the order pages rely on: ASCII case folding
    (`toLowerCase`, `toUpperCase`), substring search (`includes`) and the
    lexicographic `<` that JavaScript applies to two strings. */
module Text {

  predicate IsUpperAscii(c: char) { 'A' <= c <= 'Z' }

  predicate IsLowerAscii(c: char) { 'a' <= c <= 'z' }

  /** `toLowerCase` on one character, restricted to ASCII letters. */
  function LowerChar(c: char): char
  {
    if IsUpperAscii(c) then (c as int + 32) as char else c
  }

  /** `toUpperCase` on one character, restricted to ASCII letters. */
  function UpperChar(c: char): char
  {
    if IsLowerAscii(c) then (c as int - 32) as char else c
  }

  /** `toLowerCase()` on ASCII letters: same length, each character lowered,
      and no upper-case letter left. */
  function ToLower(s: string): (r: string)
    ensures |r| == |s|
    ensures forall i :: 0 <= i < |s| ==> r[i] == LowerChar(s[i])
    ensures forall i :: 0 <= i < |r| ==> !IsUpperAscii(r[i])
  {
    seq(|s|, i requires 0 <= i < |s| => LowerChar(s[i]))
  }

  /** `toUpperCase()` on ASCII letters: same length, each character raised,
      and no lower-case letter left. */
  function ToUpper(s: string): (r: string)
    ensures |r| == |s|
    ensures forall i :: 0 <= i < |s| ==> r[i] == UpperChar(s[i])
    ensures forall i :: 0 <= i < |r| ==> !IsLowerAscii(r[i])
  {
    seq(|s|, i requires 0 <= i < |s| => UpperChar(s[i]))
  }

  /** Two characters have the same upper case exactly when they have the same
      lower case: both hold when they are equal or the two cases of one letter. */
  lemma SameFoldChar(c: char, d: char)
    ensures UpperChar(c) == UpperChar(d) <==> LowerChar(c) == LowerChar(d)
    ensures LowerChar(c) == LowerChar(d) <==> (c == d || (IsUpperAscii(c) && d as int == c as int + 32) || (IsUpperAscii(d) && c as int == d as int + 32))
  {
  }

  /** Under ASCII case folding, comparing upper-cased strings and comparing
      lower-cased strings agree, so the shop page (upper case) and the admin
      page (lower case) test status equality the same way. (Full Unicode
      folding breaks this: "ı" and "i" share an upper case but not a lower
      case.) */
  lemma {:induction false} SameFold(a: string, b: string)
    ensures ToUpper(a) == ToUpper(b) <==> ToLower(a) == ToLower(b)
  {
    if |a| == |b| {
      forall i | 0 <= i < |a| ensures UpperChar(a[i]) == UpperChar(b[i]) <==> LowerChar(a[i]) == LowerChar(b[i]) {
        SameFoldChar(a[i], b[i]);
      }
      if ToUpper(a) == ToUpper(b) {
        assert forall i :: 0 <= i < |a| ==> ToUpper(a)[i] == ToUpper(b)[i];
        assert forall i :: 0 <= i < |a| ==> ToLower(a)[i] == ToLower(b)[i];
      }
      if ToLower(a) == ToLower(b) {
        assert forall i :: 0 <= i < |a| ==> ToLower(a)[i] == ToLower(b)[i];
        assert forall i :: 0 <= i < |a| ==> ToUpper(a)[i] == ToUpper(b)[i];
      }
    } else {
      assert |ToUpper(a)| != |ToUpper(b)|;
      assert |ToLower(a)| != |ToLower(b)|;
    }
  }

  /** `t` occurs in `s` starting at position `i`. */
  predicate OccursAt(s: string, t: string, i: nat)
  {
    i + |t| <= |s| && s[i..i + |t|] == t
  }

  /** `s.includes(t)`: `t` occurs in `s` as a contiguous block, scanning from
      the front. */
  function Contains(s: string, t: string): (b: bool)
    ensures b <==> exists i: nat :: OccursAt(s, t, i)
    decreases |s|
  {
    if |s| < |t| then false
    else if s[..|t|] == t then assert OccursAt(s, t, 0); true
    else
      var rest := Contains(s[1..], t);
      assert rest ==> exists i: nat :: OccursAt(s, t, i) by {
        if rest {
          var j: nat :| OccursAt(s[1..], t, j);
          assert s[1..][j..j + |t|] == s[j + 1..j + 1 + |t|];
          assert OccursAt(s, t, j + 1);
        }
      }
      assert (exists i: nat :: OccursAt(s, t, i)) ==> rest by {
        if exists i: nat :: OccursAt(s, t, i) {
          var i: nat :| OccursAt(s, t, i);
          assert i != 0;
          assert s[1..][i - 1..i - 1 + |t|] == s[i..i + |t|];
          assert OccursAt(s[1..], t, i - 1);
        }
      }
      rest
  }

  /** Every string contains the empty string, so an empty search term keeps
      every order even where the source tests it separately. */
  lemma ContainsEmpty(s: string)
    ensures Contains(s, "")
  {
    assert OccursAt(s, "", 0);
  }

  /** `a` and `b` agree on their first `k` characters, and at position `k`
      either `a` has ended while `b` goes on, or `a` has the smaller
      character. */
  predicate LexLessAt(a: string, b: string, k: nat)
  {
    && k <= |a| && k <= |b| && a[..k] == b[..k]
    && ((k == |a| && k < |b|) || (k < |a| && k < |b| && a[k] < b[k]))
  }

  /** JavaScript's `a < b` on two strings: lexicographic by character code,
      a proper prefix being smaller. */
  predicate StrLess(a: string, b: string): (r: bool)
    ensures r <==> exists k: nat :: LexLessAt(a, b, k)
  {
    if a == [] then
      assert b != [] ==> LexLessAt(a, b, 0);
      b != []
    else if b == [] then false
    else if a[0] != b[0] then
      assert a[0] < b[0] ==> LexLessAt(a, b, 0);
      a[0] < b[0]
    else
      var rest := StrLess(a[1..], b[1..]);
      assert rest ==> exists k: nat :: LexLessAt(a, b, k) by {
        if rest {
          var j: nat :| LexLessAt(a[1..], b[1..], j);
          assert a[..j + 1] == [a[0]] + a[1..][..j];
          assert b[..j + 1] == [b[0]] + b[1..][..j];
          assert LexLessAt(a, b, j + 1);
        }
      }
      assert (exists k: nat :: LexLessAt(a, b, k)) ==> rest by {
        if exists k: nat :: LexLessAt(a, b, k) {
          var k: nat :| LexLessAt(a, b, k);
          assert k != 0;
          assert a[1..][..k - 1] == a[..k][1..] && b[1..][..k - 1] == b[..k][1..];
          assert LexLessAt(a[1..], b[1..], k - 1);
        }
      }
      rest
  }

  /** `<` on strings is never true in both directions. */
  lemma {:induction false} StrLessAsymmetric(a: string, b: string)
    ensures !(StrLess(a, b) && StrLess(b, a))
  {
    if a != [] && b != [] && a[0] == b[0] {
      StrLessAsymmetric(a[1..], b[1..]);
    }
  }

  /** `<` on strings is a strict total order: two different strings are
      always ordered one way. */
  lemma {:induction false} StrLessTotal(a: string, b: string)
    ensures a != b ==> StrLess(a, b) || StrLess(b, a)
  {
    if a != [] && b != [] && a[0] == b[0] {
      StrLessTotal(a[1..], b[1..]);
      if a[1..] == b[1..] {
        assert a == [a[0]] + a[1..] && b == [b[0]] + b[1..];
      }
    }
  }

  /** `<` on strings is transitive. */
  lemma {:induction false} StrLessTransitive(a: string, b: string, c: string)
    requires StrLess(a, b) && StrLess(b, c)
    ensures StrLess(a, c)
  {
    if a != [] && a[0] == b[0] && b[0] == c[0] {
      StrLessTransitive(a[1..], b[1..], c[1..]);
    }
  }
}
