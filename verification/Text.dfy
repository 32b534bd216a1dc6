/** Trimming and lower-casing, over any alphabet, and the order of texts. */
module Text {

  /** Which characters are white space, and the lower case of each character. */
  datatype Alphabet = Alphabet(space: char -> bool, lower: char -> char)

  function Lower(al: Alphabet, s: string): (r: string)
    ensures |r| == |s| && forall i | 0 <= i < |s| :: r[i] == al.lower(s[i])
  {
    seq(|s|, i requires 0 <= i < |s| => al.lower(s[i]))
  }

  function TrimLeft(al: Alphabet, s: string): string {
    if s != "" && al.space(s[0]) then TrimLeft(al, s[1..]) else s
  }

  function TrimRight(al: Alphabet, s: string): string {
    if s != "" && al.space(s[|s| - 1]) then TrimRight(al, s[..|s| - 1]) else s
  }

  function Trim(al: Alphabet, s: string): string {
    TrimRight(al, TrimLeft(al, s))
  }

  /** No white space at either end. */
  predicate Trimmed(al: Alphabet, s: string) {
    s != "" ==> !al.space(s[0]) && !al.space(s[|s| - 1])
  }

  lemma {:induction false} TrimLeftEnds(al: Alphabet, s: string)
    ensures TrimLeft(al, s) != "" ==> !al.space(TrimLeft(al, s)[0])
  {
    if s != "" && al.space(s[0]) {
      TrimLeftEnds(al, s[1..]);
    }
  }

  lemma {:induction false} TrimRightEnds(al: Alphabet, s: string)
    ensures TrimRight(al, s) <= s
    ensures TrimRight(al, s) != "" ==> !al.space(TrimRight(al, s)[|TrimRight(al, s)| - 1])
  {
    if s != "" && al.space(s[|s| - 1]) {
      TrimRightEnds(al, s[..|s| - 1]);
    }
  }

  lemma {:induction false} TrimIsTrimmed(al: Alphabet, s: string)
    ensures Trimmed(al, Trim(al, s))
  {
    TrimLeftEnds(al, s);
    TrimRightEnds(al, TrimLeft(al, s));
  }

  /** All of the text is white space. */
  predicate Blank(al: Alphabet, s: string) {
    forall i | 0 <= i < |s| :: al.space(s[i])
  }

  /** Trimming takes white space off both ends, all of it, and nothing else. */
  lemma {:induction false} TrimTakesOff(al: Alphabet, s: string) returns (left: string, right: string)
    ensures s == left + Trim(al, s) + right && Blank(al, left) && Blank(al, right)
    ensures Trimmed(al, Trim(al, s))
    ensures Trim(al, s) == "" <==> Blank(al, s)
  {
    TrimIsTrimmed(al, s);
    left := TrimLeftTakesOff(al, s);
    right := TrimRightTakesOff(al, TrimLeft(al, s));
    if Trim(al, s) != "" {
      assert s[|left|] == Trim(al, s)[0];
    } else {
      assert s == left + right;
    }
  }

  lemma {:induction false} TrimLeftTakesOff(al: Alphabet, s: string) returns (left: string)
    ensures s == left + TrimLeft(al, s) && Blank(al, left)
  {
    if s != "" && al.space(s[0]) {
      var rest := TrimLeftTakesOff(al, s[1..]);
      left := [s[0]] + rest;
    } else {
      left := "";
    }
  }

  lemma {:induction false} TrimRightTakesOff(al: Alphabet, s: string) returns (right: string)
    ensures s == TrimRight(al, s) + right && Blank(al, right)
  {
    if s != "" && al.space(s[|s| - 1]) {
      var rest := TrimRightTakesOff(al, s[..|s| - 1]);
      right := rest + [s[|s| - 1]];
    } else {
      right := "";
    }
  }

  /** Trimming leaves a trimmed text alone, so a stored flow key is its own trimmed form. */
  lemma {:induction false} TrimmedIsFixed(al: Alphabet, s: string)
    requires Trimmed(al, s)
    ensures Trim(al, s) == s
  {
  }

  /** Texts by their first difference, a prefix before what it begins. */
  predicate TextLess(a: string, b: string) {
    if b == "" then false
    else if a == "" then true
    else if a[0] != b[0] then a[0] < b[0]
    else TextLess(a[1..], b[1..])
  }

  /** They agree up to some place, where the first one ends or has the smaller character. */
  ghost predicate Precedes(a: string, b: string) {
    exists k: nat :: DiffersFirstAt(a, b, k)
  }

  predicate DiffersFirstAt(a: string, b: string, k: nat) {
    k <= |a| && k < |b| && a[..k] == b[..k] && (k < |a| ==> a[k] < b[k])
  }

  lemma {:induction false} TextLessIff(a: string, b: string)
    ensures TextLess(a, b) <==> Precedes(a, b)
  {
    if b == "" {
      assert forall k: nat :: !DiffersFirstAt(a, b, k);
    } else if a == "" || a[0] != b[0] {
      assert TextLess(a, b) ==> DiffersFirstAt(a, b, 0);
      assert forall k: nat | k > 0 && k <= |a| && k <= |b| :: a[..k][0] == a[0] && b[..k][0] == b[0];
    } else {
      TextLessIff(a[1..], b[1..]);
      if TextLess(a, b) {
        var k: nat :| DiffersFirstAt(a[1..], b[1..], k);
        assert a[..k + 1] == [a[0]] + a[1..][..k] && b[..k + 1] == [b[0]] + b[1..][..k];
        assert DiffersFirstAt(a, b, k + 1);
      }
      if Precedes(a, b) {
        var k: nat :| DiffersFirstAt(a, b, k);
        assert k > 0;
        assert a[1..][..k - 1] == a[..k][1..] && b[1..][..k - 1] == b[..k][1..];
        assert DiffersFirstAt(a[1..], b[1..], k - 1);
      }
    }
  }

  lemma {:induction false} TextLessLinear(a: string, b: string)
    ensures a == b ==> !TextLess(a, b)
    ensures a != b ==> TextLess(a, b) != TextLess(b, a)
  {
    if a != "" && b != "" {
      TextLessLinear(a[1..], b[1..]);
      assert a == [a[0]] + a[1..] && b == [b[0]] + b[1..];
    }
  }

  lemma {:induction false} TextLessTransitive(a: string, b: string, c: string)
    requires TextLess(a, b) && TextLess(b, c)
    ensures TextLess(a, c)
  {
    if a != "" && a[0] == b[0] && b[0] == c[0] {
      TextLessTransitive(a[1..], b[1..], c[1..]);
    }
  }
}
