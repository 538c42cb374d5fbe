/** Text values and their order, code point by code point. */
module Texts {
  import opened Sorting

  datatype Text = Text(chars: string)

  predicate LexLe(a: string, b: string) {
    a == [] || (b != [] && (a[0] < b[0] || (a[0] == b[0] && LexLe(a[1..], b[1..]))))
  }

  predicate TextLe(a: Text, b: Text) {
    LexLe(a.chars, b.chars)
  }

  lemma {:induction false} LexTotal(a: string, b: string)
    ensures LexLe(a, b) || LexLe(b, a)
  {
    if a != [] && b != [] && a[0] == b[0] {
      LexTotal(a[1..], b[1..]);
    }
  }

  lemma {:induction false} LexAntisymmetric(a: string, b: string)
    requires LexLe(a, b) && LexLe(b, a)
    ensures a == b
  {
    if a != [] && b != [] {
      LexAntisymmetric(a[1..], b[1..]);
      assert a == [a[0]] + a[1..] && b == [b[0]] + b[1..];
    }
  }

  lemma {:induction false} LexTransitive(a: string, b: string, c: string)
    requires LexLe(a, b) && LexLe(b, c)
    ensures LexLe(a, c)
  {
    if a != [] && b != [] && c != [] && a[0] == b[0] == c[0] {
      LexTransitive(a[1..], b[1..], c[1..]);
    }
  }

  /** Texts that begin alike are in the order of what follows. */
  lemma {:induction false} SameBeginning(common: string, a: string, b: string)
    ensures LexLe(common + a, common + b) <==> LexLe(a, b)
  {
    if common == [] {
      assert common + a == a && common + b == b;
    } else {
      SameBeginning(common[1..], a, b);
      assert (common + a)[1..] == common[1..] + a && (common + b)[1..] == common[1..] + b;
    }
  }

  /** A text comes before its extensions, and otherwise the first difference decides. */
  lemma DictionaryOrder(common: string, a: string, b: string)
    requires a != [] && b != [] && a[0] < b[0]
    ensures LexLe(common, common + a) && !LexLe(common + a, common)
    ensures LexLe(common + a, common + b) && !LexLe(common + b, common + a)
  {
    SameBeginning(common, a, b);
    SameBeginning(common, b, a);
    SameBeginning(common, [], a);
    SameBeginning(common, a, []);
    assert common + [] == common;
  }

  /** The order of texts is total, and equal only on equal texts. */
  lemma TextOrder()
    ensures TotalPreorder(TextLe)
    ensures forall a, b :: TextLe(a, b) && TextLe(b, a) ==> a == b
  {
    forall a, b ensures TextLe(a, b) || TextLe(b, a) {
      LexTotal(a.chars, b.chars);
    }
    forall a, b | TextLe(a, b) && TextLe(b, a) ensures a == b {
      LexAntisymmetric(a.chars, b.chars);
    }
    forall a, b, c | TextLe(a, b) && TextLe(b, c) ensures TextLe(a, c) {
      LexTransitive(a.chars, b.chars, c.chars);
    }
  }
}
