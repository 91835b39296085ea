/** Names that are glued together from parts. */
module Text {

  const HASH_SUFFIX_LENGTH := 9

  /** A name cut to a maximum length; `digest` is the hash suffix of names that are too long. */
  function Truncate(name: string, max: nat, digest: string -> string): string
    requires max > HASH_SUFFIX_LENGTH
  {
    if |name| <= max then name else name[..max - HASH_SUFFIX_LENGTH] + "-" + digest(name)
  }

  lemma CancelPrefix(prefix: string, x: string, y: string)
    ensures prefix + x == prefix + y <==> x == y
    ensures prefix + x <= prefix + y <==> x <= y
  {
    assert (prefix + x)[|prefix|..] == x && (prefix + y)[|prefix|..] == y;
    if prefix + x <= prefix + y {
      assert x == (prefix + y)[|prefix|..|prefix + x|] == y[..|x|];
    }
    if x <= y {
      assert y == x + y[|x|..];
      assert prefix + y == (prefix + x) + y[|x|..];
    }
  }

  /** The text before the first separator and the text after it can be told apart. */
  lemma SplitAtFirst(separator: char, a: string, x: string, b: string, y: string)
    requires separator !in a && separator !in b
    ensures a + [separator] <= b + [separator] + y ==> a == b
    ensures a + [separator] + x == b + [separator] + y <==> a == b && x == y
  {
    var long := b + [separator] + y;
    if a + [separator] <= long {
      assert long[|a|] == (a + [separator])[|a|] == separator;
      assert forall i | 0 <= i < |b| :: long[i] == b[i] != separator;
      assert forall i | 0 <= i < |a| :: long[i] == (a + [separator])[i] == a[i] != separator;
      assert long[|b|] == separator;
      assert |a| == |b|;
      assert a == long[..|a|] == b;
    }
    assert a + [separator] <= a + [separator] + x;
    CancelPrefix(a + [separator], x, y);
  }
}
