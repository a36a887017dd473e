/** The string operations the service relies on, over sequences of runes.
    Case mapping covers ASCII letters; white space is the Latin-1 white space of `unicode.IsSpace`. */
module Text {

  datatype Option<+T> = None | Some(value: T)

  predicate IsSpace(c: char) {
    c == ' ' || '\t' <= c <= '\r' || c == '\U{85}' || c == '\U{A0}'
  }

  function LowerRune(c: char): char {
    if 'A' <= c <= 'Z' then (c as int + 32) as char else c
  }

  function UpperRune(c: char): char {
    if 'a' <= c <= 'z' then (c as int - 32) as char else c
  }

  function ToLower(s: string): string {
    seq(|s|, i requires 0 <= i < |s| => LowerRune(s[i]))
  }

  function ToUpper(s: string): string {
    seq(|s|, i requires 0 <= i < |s| => UpperRune(s[i]))
  }

  predicate EqualFold(a: string, b: string) {
    ToLower(a) == ToLower(b)
  }

  function TrimLeft(s: string): string {
    if s != [] && IsSpace(s[0]) then TrimLeft(s[1..]) else s
  }

  function TrimRight(s: string): string {
    if s != [] && IsSpace(s[|s| - 1]) then TrimRight(s[..|s| - 1]) else s
  }

  function TrimSpace(s: string): string {
    TrimRight(TrimLeft(s))
  }

  /** A string that `TrimSpace` leaves alone. */
  predicate Trimmed(s: string) {
    s == [] || (!IsSpace(s[0]) && !IsSpace(s[|s| - 1]))
  }

  lemma TrimRightShape(s: string)
    ensures TrimRight(s) <= s
    ensures TrimRight(s) == [] || !IsSpace(TrimRight(s)[|TrimRight(s)| - 1])
  {
  }

  lemma TrimLeftShape(s: string)
    ensures TrimLeft(s) == [] || !IsSpace(TrimLeft(s)[0])
    ensures forall c :: c in TrimLeft(s) ==> c in s
  {
  }

  lemma TrimSpaceTrims(s: string)
    ensures Trimmed(TrimSpace(s))
  {
    TrimLeftShape(s);
    TrimRightShape(TrimLeft(s));
  }

  predicate Blank(s: string) {
    forall i :: 0 <= i < |s| ==> IsSpace(s[i])
  }

  /** `TrimSpace` cuts the white space at both ends and nothing else. */
  lemma TrimSpaceCutsTheEnds(s: string) returns (front: string, back: string)
    ensures s == front + TrimSpace(s) + back && Blank(front) && Blank(back) && Trimmed(TrimSpace(s))
  {
    TrimSpaceTrims(s);
    front := CutLeft(s);
    back := CutRight(TrimLeft(s));
    assert s == front + (TrimSpace(s) + back);
  }

  lemma CutLeft(s: string) returns (front: string)
    ensures s == front + TrimLeft(s) && Blank(front)
  {
    if s != [] && IsSpace(s[0]) {
      front := CutLeft(s[1..]);
      front := [s[0]] + front;
    } else {
      front := [];
    }
  }

  lemma CutRight(s: string) returns (back: string)
    ensures s == TrimRight(s) + back && Blank(back)
  {
    if s != [] && IsSpace(s[|s| - 1]) {
      back := CutRight(s[..|s| - 1]);
      back := back + [s[|s| - 1]];
    } else {
      back := [];
    }
  }

  /** Blanks around a trimmed text are exactly what `TrimSpace` takes away. */
  lemma TrimSpaceOfPadded(front: string, text: string, back: string)
    requires Blank(front) && Blank(back) && Trimmed(text)
    ensures TrimSpace(front + text + back) == text
  {
    var s := front + text + back;
    var f, b := TrimSpaceCutsTheEnds(s);
    SameCore(front, text, back, f, TrimSpace(s), b);
  }

  lemma CoreOf(front: string, text: string, back: string)
    requires Blank(front) && Blank(back) && Trimmed(text)
    ensures var s, i, j := front + text + back, |front|, |front| + |text|;
            && text == s[i..j]
            && (forall k :: 0 <= k < i || j <= k < |s| ==> IsSpace(s[k]))
            && (text != "" ==> !IsSpace(s[i]) && !IsSpace(s[j - 1]))
  {
    var s := front + text + back;
    assert forall k :: |front| + |text| <= k < |s| ==> s[k] == back[k - |front| - |text|];
  }

  lemma SameCore(front: string, text: string, back: string, f: string, t: string, b: string)
    requires front + text + back == f + t + b && Blank(front) && Blank(back) && Blank(f) && Blank(b)
    requires Trimmed(text) && Trimmed(t)
    ensures text == t
  {
    CoreOf(front, text, back);
    CoreOf(f, t, b);
  }

  lemma BlankIsTrimmedAway(s: string)
    ensures TrimSpace(s) == "" <==> Blank(s)
  {
    var front, back := TrimSpaceCutsTheEnds(s);
    if Blank(s) {
      TrimSpaceOfPadded(s, "", "");
      assert s + "" + "" == s;
    }
    assert TrimSpace(s) == "" ==> s == front + back;
  }

  lemma SpacesAre(c: char)
    ensures IsSpace(c) <==> c in {' ', '\t', '\n', '\U{B}', '\U{C}', '\r', '\U{85}', '\U{A0}'}
  {
  }

  /** Case mapping moves ASCII letters by 32 and leaves everything else in place. */
  lemma CaseMapping(s: string, i: nat)
    requires i < |s|
    ensures |ToLower(s)| == |s| == |ToUpper(s)|
    ensures ToLower(s)[i] == if s[i] in "ABCDEFGHIJKLMNOPQRSTUVWXYZ" then (s[i] as int + 32) as char else s[i]
    ensures ToUpper(s)[i] == if s[i] in "abcdefghijklmnopqrstuvwxyz" then (s[i] as int - 32) as char else s[i]
  {
    CapitalsAreARange(s[i]);
    SmallLettersAreARange(s[i]);
  }

  lemma EqualFoldIgnoresCase(s: string)
    ensures EqualFold(ToUpper(s), s) && EqualFold(s, ToLower(s))
  {
  }

  lemma CapitalsAreARange(c: char)
    ensures c in "ABCDEFGHIJKLMNOPQRSTUVWXYZ" <==> 'A' <= c <= 'Z'
  {
    var letters := "ABCDEFGHIJKLMNOPQRSTUVWXYZ";
    if 'A' <= c <= 'Z' { assert letters[c as int - 'A' as int] == c; }
  }

  lemma SmallLettersAreARange(c: char)
    ensures c in "abcdefghijklmnopqrstuvwxyz" <==> 'a' <= c <= 'z'
  {
    var letters := "abcdefghijklmnopqrstuvwxyz";
    if 'a' <= c <= 'z' { assert letters[c as int - 'a' as int] == c; }
  }

  lemma TrimSpaceSubset(s: string)
    ensures forall c :: c in TrimSpace(s) ==> c in s
  {
    TrimLeftShape(s);
    TrimRightShape(TrimLeft(s));
  }

  lemma TrimSpaceFixes(s: string)
    requires Trimmed(s)
    ensures TrimSpace(s) == s
  {
  }

  lemma LowerKeepsTrimmed(s: string)
    requires Trimmed(s)
    ensures Trimmed(ToLower(s))
    ensures ToLower(ToLower(s)) == ToLower(s)
  {
  }

  /** Primary keys are compared as text; `First` picks the least one. */
  predicate Leq(a: string, b: string) {
    a == [] || (b != [] && (a[0] < b[0] || (a[0] == b[0] && Leq(a[1..], b[1..]))))
  }

  /** The texts agree up to some rune, and there the first has the smaller one. */
  ghost predicate DiffersBelow(a: string, b: string) {
    exists k :: 0 <= k < |a| && k < |b| && a[..k] == b[..k] && a[k] < b[k]
  }

  lemma DiffersInTails(c: char, a: string, b: string)
    ensures DiffersBelow([c] + a, [c] + b) <==> DiffersBelow(a, b)
  {
    var x, y := [c] + a, [c] + b;
    if k :| 0 <= k < |a| && k < |b| && a[..k] == b[..k] && a[k] < b[k] {
      assert x[..k + 1] == [c] + a[..k] && y[..k + 1] == [c] + b[..k] && x[k + 1] < y[k + 1];
    }
    if k :| 0 <= k < |x| && k < |y| && x[..k] == y[..k] && x[k] < y[k] {
      assert a[..k - 1] == x[..k][1..] && b[..k - 1] == y[..k][1..] && a[k - 1] < b[k - 1];
    }
  }

  lemma DiffersAtOnce(a: string, b: string)
    requires a != [] && b != [] && a[0] != b[0]
    ensures DiffersBelow(a, b) <==> a[0] < b[0]
  {
    if a[0] < b[0] { assert a[..0] == b[..0]; }
    forall k | 0 < k <= |a| && k <= |b| ensures a[..k] != b[..k] {
      assert a[..k][0] != b[..k][0];
    }
  }

  /** The order is the usual one: a prefix comes first, otherwise the first difference decides. */
  lemma LeqIsLexicographic(a: string, b: string)
    ensures Leq(a, b) <==> a <= b || DiffersBelow(a, b)
  {
    if a != [] && b != [] {
      if a[0] == b[0] {
        LeqIsLexicographic(a[1..], b[1..]);
        DiffersInTails(a[0], a[1..], b[1..]);
        assert a == [a[0]] + a[1..] && b == [b[0]] + b[1..];
      } else {
        DiffersAtOnce(a, b);
      }
    }
  }

  lemma LeqTotal(a: string, b: string)
    ensures Leq(a, b) || Leq(b, a)
  {
  }

  lemma LeqAntisymmetric(a: string, b: string)
    requires Leq(a, b) && Leq(b, a)
    ensures a == b
  {
    if a != [] {
      LeqAntisymmetric(a[1..], b[1..]);
      assert a == [a[0]] + a[1..] && b == [b[0]] + b[1..];
    }
  }

  lemma LeqTransitive(a: string, b: string, c: string)
    requires Leq(a, b) && Leq(b, c)
    ensures Leq(a, c)
  {
  }

  predicate IsLeast(x: string, ids: set<string>) {
    x in ids && forall y :: y in ids ==> Leq(x, y)
  }

  lemma LeastExists(ids: set<string>) returns (x: string)
    requires ids != {}
    ensures IsLeast(x, ids)
  {
    var y :| y in ids;
    LeqTotal(y, y);
    if ids == {y} {
      return y;
    }
    var rest := ids - {y};
    var z := LeastExists(rest);
    LeqTotal(y, z);
    if Leq(y, z) {
      forall w | w in ids ensures Leq(y, w) {
        if w != y {
          assert w in rest;
          LeqTransitive(y, z, w);
        }
      }
      return y;
    }
    return z;
  }

  lemma LeastUnique(ids: set<string>)
    ensures forall x, y :: IsLeast(x, ids) && IsLeast(y, ids) ==> x == y
  {
    forall x, y | IsLeast(x, ids) && IsLeast(y, ids) ensures x == y {
      LeqAntisymmetric(x, y);
    }
  }

  lemma LeastIsThere(ids: set<string>)
    requires ids != {}
    ensures exists x :: IsLeast(x, ids)
  {
    var x := LeastExists(ids);
  }

  /** The row `First` returns among the rows with the given keys. */
  function Least(ids: set<string>): (x: string)
    requires ids != {}
    ensures IsLeast(x, ids)
  {
    LeastIsThere(ids);
    LeastUnique(ids);
    var x :| x in ids && IsLeast(x, ids);
    x
  }
}
