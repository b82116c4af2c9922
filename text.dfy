/**
 The string primitives the page script relies on: ASCII case mapping
 (`toLowerCase`, `toUpperCase`), substring search (`includes`) and
 replacement of the first occurrence of a character (`replace` with a
 one-character string pattern).
 */
module Text {

  /** `toLowerCase` on one character, restricted to ASCII letters. */
  function LowerChar(c: char): char
  {
    if 'A' <= c <= 'Z' then (c as int + 32) as char else c
  }

  /** `toUpperCase` on one character, restricted to ASCII letters. */
  function UpperChar(c: char): char
  {
    if 'a' <= c <= 'z' then (c as int - 32) as char else c
  }

  /** `s.toLowerCase()`: each character lower-cased in place. */
  function Lower(s: string): (r: string)
  {
    seq(|s|, i requires 0 <= i < |s| => LowerChar(s[i]))
  }

  /** `s.toUpperCase()`: each character upper-cased in place. */
  function Upper(s: string): (r: string)
  {
    seq(|s|, i requires 0 <= i < |s| => UpperChar(s[i]))
  }

  /** Lower-casing a character forgets its original case. */
  lemma LowerCharForgetsCase(c: char)
    ensures LowerChar(UpperChar(c)) == LowerChar(c)
    ensures LowerChar(LowerChar(c)) == LowerChar(c)
    ensures !('A' <= LowerChar(c) <= 'Z')
  {
  }

  /** Lower-casing a string forgets its original case. */
  lemma LowerForgetsCase(s: string)
    ensures Lower(Upper(s)) == Lower(s)
    ensures Lower(Lower(s)) == Lower(s)
  {
    forall i | 0 <= i < |s|
      ensures Lower(Upper(s))[i] == Lower(s)[i] && Lower(Lower(s))[i] == Lower(s)[i]
    {
      LowerCharForgetsCase(s[i]);
    }
  }

  predicate StartsWith(s: string, prefix: string)
  {
    |prefix| <= |s| && s[..|prefix|] == prefix
  }

  /** `s.includes(sub)`: `sub` starts at some position of `s`. */
  function Includes(s: string, sub: string): bool
    decreases |s|
  {
    StartsWith(s, sub) || (|s| > 0 && Includes(s[1..], sub))
  }

  /** `sub` occurs in `s` starting at index `i`. */
  ghost predicate OccursAt(s: string, sub: string, i: int)
  {
    0 <= i && i + |sub| <= |s| && s[i..i + |sub|] == sub
  }

  /** `Includes` finds exactly the substrings that occur somewhere. */
  lemma {:induction false} IncludesIffOccurs(s: string, sub: string)
    ensures Includes(s, sub) <==> exists i :: OccursAt(s, sub, i)
    decreases |s|
  {
    if StartsWith(s, sub) {
      assert OccursAt(s, sub, 0);
    } else if |s| > 0 {
      IncludesIffOccurs(s[1..], sub);
      if Includes(s[1..], sub) {
        var j :| OccursAt(s[1..], sub, j);
        assert s[1..][j..j + |sub|] == s[j + 1..j + 1 + |sub|];
        assert OccursAt(s, sub, j + 1);
      } else {
        forall i | OccursAt(s, sub, i)
          ensures i > 0 && OccursAt(s[1..], sub, i - 1)
        {
          assert i == 0 ==> StartsWith(s, sub);
          assert s[1..][i - 1..i - 1 + |sub|] == s[i..i + |sub|];
        }
      }
    }
  }

  /** Every string includes the empty string. */
  lemma IncludesEmpty(s: string)
    ensures Includes(s, "")
  {
    assert StartsWith(s, "");
  }

  /** A non-empty pattern whose first character is absent is not included. */
  lemma {:induction false} NotIncludedWithoutFirstChar(s: string, sub: string)
    requires |sub| > 0 && sub[0] !in s
    ensures !Includes(s, sub)
    decreases |s|
  {
    if |s| > 0 {
      assert s[0] != sub[0];
      NotIncludedWithoutFirstChar(s[1..], sub);
    }
  }

  /** Lower-casing distributes over concatenation. */
  lemma LowerAppend(a: string, b: string)
    ensures Lower(a + b) == Lower(a) + Lower(b)
  {
  }

  /** A string with no upper-case ASCII letter is its own lower-cased form. */
  lemma LowerKeepsNonUpper(s: string)
    requires forall c :: c in s ==> !('A' <= c <= 'Z')
    ensures Lower(s) == s
  {
    forall i | 0 <= i < |s|
      ensures Lower(s)[i] == s[i]
    {
      assert s[i] in s;
    }
  }

  /** A lower-case letter appears in the lower-cased string only if it or its capital appears in the original. */
  lemma LowerExcludes(s: string, c: char)
    requires 'a' <= c <= 'z' && c !in s && UpperChar(c) !in s
    ensures c !in Lower(s)
  {
    forall i | 0 <= i < |s|
      ensures Lower(s)[i] != c
    {
      assert s[i] in s;
    }
  }

  /**
   When the first character of `sub` occurs in `a + [c] + b` at most at
   the position of `c`, and the character after it is not the second
   character of `sub`, then `sub` is not included.
   */
  lemma NotIncludedAround(a: string, c: char, b: string, sub: string)
    requires |sub| > 1 && sub[0] !in a && sub[0] !in b
    requires c == sub[0] ==> b != [] && b[0] != sub[1]
    ensures !Includes(a + [c] + b, sub)
  {
    var s := a + [c] + b;
    IncludesIffOccurs(s, sub);
    forall i | 0 <= i && i + |sub| <= |s|
      ensures !OccursAt(s, sub, i)
    {
      assert s[i..i + |sub|][0] == s[i];
      if i < |a| {
        assert s[i] == a[i];
      } else if i > |a| {
        assert s[i] == b[i - |a| - 1];
      } else {
        assert s[i..i + |sub|][1] == s[i + 1] == b[0];
      }
    }
  }

  /** `s.replace(from, to)` for one-character strings `from` and `to`: only the first `from` is replaced. */
  function ReplaceFirst(s: string, from: char, to: char): string
  {
    if s == [] then []
    else if s[0] == from then [to] + s[1..]
    else [s[0]] + ReplaceFirst(s[1..], from, to)
  }

  /** Position `i` of the result is `to` exactly when `s[i]` is the first `from`; every other character is kept. */
  lemma {:induction false} ReplaceFirstChangesOnlyFirst(s: string, from: char, to: char)
    ensures |ReplaceFirst(s, from, to)| == |s|
    ensures forall i :: 0 <= i < |s| ==>
      ReplaceFirst(s, from, to)[i] == (if s[i] == from && from !in s[..i] then to else s[i])
  {
    if s != [] && s[0] != from {
      ReplaceFirstChangesOnlyFirst(s[1..], from, to);
      forall i | 1 <= i < |s|
        ensures ReplaceFirst(s, from, to)[i] == (if s[i] == from && from !in s[..i] then to else s[i])
      {
        assert s[..i] == [s[0]] + s[1..][..i - 1];
      }
    }
  }

  /** With no `from` in `s`, replacing leaves `s` unchanged. */
  lemma ReplaceFirstAbsent(s: string, from: char, to: char)
    requires from !in s
    ensures ReplaceFirst(s, from, to) == s
  {
    ReplaceFirstChangesOnlyFirst(s, from, to);
  }
}
