/** Sequences compared item by item, and texts joined by a separator. */
module Lexical {
  /** The first difference decides, and a prefix comes before what it starts. */
  predicate Before<T(==)>(a: seq<T>, b: seq<T>, less: (T, T) -> bool) {
    b != [] && (a == [] || less(a[0], b[0]) || (a[0] == b[0] && Before(a[1..], b[1..], less)))
  }

  predicate CharLess(x: char, y: char) { x < y }

  predicate TextBefore(a: string, b: string) { Before(a, b, CharLess) }

  lemma {:induction false} TextCompare(a: string, b: string)
    ensures a == b || TextBefore(a, b) || TextBefore(b, a)
    ensures !(TextBefore(a, b) && TextBefore(b, a)) && !TextBefore(a, a)
  {
    if a != [] {
      TextCompare(a[1..], a[1..]);
      if b != [] {
        TextCompare(a[1..], b[1..]);
        assert a == [a[0]] + a[1..] && b == [b[0]] + b[1..];
      }
    }
  }

  lemma {:induction false} TextChain(a: string, b: string, c: string)
    requires TextBefore(a, b) && TextBefore(b, c)
    ensures TextBefore(a, c)
  {
    if a != [] && a[0] == b[0] && b[0] == c[0] {
      TextChain(a[1..], b[1..], c[1..]);
    }
  }

  /** A text splits at its first separator in one way. */
  lemma FirstSeparator(a: string, x: string, b: string, y: string, mark: char)
    requires a + [mark] + x == b + [mark] + y && mark !in a && mark !in b
    ensures a == b && x == y
  {
    var s := a + [mark] + x;
    assert s == b + [mark] + y;
    assert s[|a|] == mark && s[|b|] == mark;
    assert forall k :: 0 <= k < |a| ==> s[k] == a[k];
    assert forall k :: 0 <= k < |b| ==> s[k] == b[k];
    assert |a| == |b|;
    assert s[..|a|] == a && s[..|b|] == b;
    assert s[|a| + 1..] == x && s[|b| + 1..] == y;
  }
}
