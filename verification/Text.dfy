/** Byte order of strings, as Rust compares and sorts them. */
module Text {

  predicate StringBefore(a: string, b: string) {
    if b == "" then false
    else if a == "" then true
    else a[0] < b[0] || (a[0] == b[0] && StringBefore(a[1..], b[1..]))
  }

  lemma {:induction false} PrefixDecides(a: string, b: string, x: string, y: string)
    requires |a| == |b|
    ensures StringBefore(a, b) ==> StringBefore(a + x, b + y)
    ensures a == b ==> (StringBefore(a + x, b + y) <==> StringBefore(x, y))
  {
    if a == "" {
      assert a + x == x && b + y == y;
    } else {
      assert (a + x)[1..] == a[1..] + x && (b + y)[1..] == b[1..] + y;
      PrefixDecides(a[1..], b[1..], x, y);
    }
  }

  /** Of two strings exactly one is before the other, or they are equal. */
  lemma {:induction false} Trichotomy(a: string, b: string)
    ensures a == b || StringBefore(a, b) || StringBefore(b, a)
    ensures !(StringBefore(a, b) && StringBefore(b, a)) && (a == b ==> !StringBefore(a, b))
  {
    if a != "" && b != "" && a[0] == b[0] {
      Trichotomy(a[1..], b[1..]);
      assert a == [a[0]] + a[1..] && b == [b[0]] + b[1..];
    }
  }

  lemma {:induction false} Transitive(a: string, b: string, c: string)
    requires StringBefore(a, b) && StringBefore(b, c)
    ensures StringBefore(a, c)
  {
    if a != "" && a[0] == b[0] == c[0] { Transitive(a[1..], b[1..], c[1..]); }
  }
}
