/**
 * String operations the normaliser relies on: the ordinal order in which Json.NET compares two
 * string values (code unit by code unit, a proper prefix first), and lower-casing.
 */
module Text {

  /**
   * Ordinal comparison: `a` sorts at or before `b`. The empty string comes first, a prefix comes
   * before its extensions, and otherwise the first character decides.
   */
  function StrLe(a: string, b: string): (r: bool)
    ensures a <= b ==> r
    ensures a != [] && b == [] ==> !r
    ensures a != [] && b != [] && a[0] != b[0] ==> (r <==> a[0] < b[0])
  {
    if a == [] then true
    else if b == [] then false
    else if a[0] != b[0] then a[0] < b[0]
    else StrLe(a[1..], b[1..])
  }

  /** `a` and `b` agree before position `i` and `a` has the smaller character there. */
  ghost predicate FirstDifferenceAt(a: string, b: string, i: nat) {
    i < |a| && i < |b| && a[..i] == b[..i] && a[i] < b[i]
  }

  /** The textbook lexicographic order: `a` is a prefix of `b`, or they first differ at a smaller character of `a`. */
  ghost predicate Lexicographic(a: string, b: string) {
    a <= b || exists i: nat :: FirstDifferenceAt(a, b, i)
  }

  /** `StrLe` is the lexicographic order. */
  lemma StrLeIsLexicographic(a: string, b: string)
    ensures StrLe(a, b) <==> Lexicographic(a, b)
  {
    if StrLe(a, b) {
      StrLeIsLexicographicForward(a, b);
    }
    if Lexicographic(a, b) {
      StrLeIsLexicographicBackward(a, b);
    }
  }

  lemma {:induction false} StrLeIsLexicographicForward(a: string, b: string)
    requires StrLe(a, b)
    ensures Lexicographic(a, b)
  {
    if a == [] {
    } else if a[0] != b[0] {
      assert FirstDifferenceAt(a, b, 0);
    } else {
      var a', b' := a[1..], b[1..];
      StrLeIsLexicographicForward(a', b');
      assert a == [a[0]] + a' && b == [b[0]] + b';
      if !(a' <= b') {
        var i: nat :| FirstDifferenceAt(a', b', i);
        assert a[..i + 1] == [a[0]] + a'[..i] && b[..i + 1] == [b[0]] + b'[..i];
        assert FirstDifferenceAt(a, b, i + 1);
      }
    }
  }

  lemma {:induction false} StrLeIsLexicographicBackward(a: string, b: string)
    requires Lexicographic(a, b)
    ensures StrLe(a, b)
  {
    if a == [] {
    } else if a <= b {
      assert a[0] == b[0];
      StrLeIsLexicographicBackward(a[1..], b[1..]);
    } else {
      var i: nat :| FirstDifferenceAt(a, b, i);
      if i > 0 {
        assert a[..i][0] == b[..i][0];
        assert a[1..][..i - 1] == a[1..i] == b[1..i] == b[1..][..i - 1];
        assert FirstDifferenceAt(a[1..], b[1..], i - 1);
        StrLeIsLexicographicBackward(a[1..], b[1..]);
      }
    }
  }

  lemma {:induction false} StrLeTotal(a: string, b: string)
    ensures StrLe(a, b) || StrLe(b, a)
  {
    if a != [] && b != [] && a[0] == b[0] {
      StrLeTotal(a[1..], b[1..]);
    }
  }

  lemma {:induction false} StrLeTransitive(a: string, b: string, c: string)
    requires StrLe(a, b) && StrLe(b, c)
    ensures StrLe(a, c)
  {
    if a != [] && b != [] && c != [] && a[0] == b[0] == c[0] {
      StrLeTransitive(a[1..], b[1..], c[1..]);
    }
  }

  lemma {:induction false} StrLeAntisymmetric(a: string, b: string)
    requires StrLe(a, b) && StrLe(b, a)
    ensures a == b
  {
    if a != [] && b != [] {
      StrLeAntisymmetric(a[1..], b[1..]);
      assert a == [a[0]] + a[1..] && b == [b[0]] + b[1..];
    }
  }

  predicate IsAsciiUpper(c: char) { 'A' <= c <= 'Z' }

  /** The lower-case form of one character; ASCII capitals map to their small letters. */
  function LowerChar(c: char): (r: char)
    ensures !IsAsciiUpper(r)
    ensures IsAsciiUpper(c) ==> 'a' <= r <= 'z' && r as int - 'a' as int == c as int - 'A' as int
    ensures !IsAsciiUpper(c) ==> r == c
  {
    if IsAsciiUpper(c) then (c as int - 'A' as int + 'a' as int) as char else c
  }

  /** `string.ToLower()`: every character lower-cased, the length unchanged. */
  function ToLower(s: string): (r: string)
    ensures |r| == |s|
    ensures forall i :: 0 <= i < |s| ==> r[i] == LowerChar(s[i])
  {
    if s == [] then [] else [LowerChar(s[0])] + ToLower(s[1..])
  }
}
