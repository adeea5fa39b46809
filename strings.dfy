/** Concatenation of a list of strings, the operation both `pdf_str += page_text`
    and the chunk round trip are stated with. */
module Strings {

  /** All strings of `parts`, in order, glued together. */
  function Join(parts: seq<string>): (s: string)
  {
    if parts == [] then "" else parts[0] + Join(parts[1..])
  }

  /** Joining is a monoid homomorphism: the join of two lists is the join of
      the first followed by the join of the second. */
  lemma {:induction false} JoinAppend(a: seq<string>, b: seq<string>)
    ensures Join(a + b) == Join(a) + Join(b)
  {
    if a == [] {
      assert a + b == b;
    } else {
      assert (a + b)[0] == a[0];
      assert (a + b)[1..] == a[1..] + b;
      JoinAppend(a[1..], b);
    }
  }

  /** Appending one string to the list appends it to the join; this is the
      step of an accumulating `+=` loop. */
  lemma JoinSnoc(a: seq<string>, x: string)
    ensures Join(a + [x]) == Join(a) + x
  {
    JoinAppend(a, [x]);
    assert [x][1..] == [];
  }
}
