/** Lexicographic order. Rust compares strings as UTF-8 bytes, which is the order of the code points. */
module Ordering {
  ghost predicate StrictOrder<T(!new)>(less: (T, T) -> bool) {
    && (forall a :: !less(a, a))
    && (forall a, b :: a != b ==> less(a, b) || less(b, a))
    && (forall a, b, c :: less(a, b) && less(b, c) ==> less(a, c))
  }

  predicate SeqLess<T(==)>(a: seq<T>, b: seq<T>, less: (T, T) -> bool) {
    if b == [] then false
    else if a == [] then true
    else less(a[0], b[0]) || (a[0] == b[0] && SeqLess(a[1..], b[1..], less))
  }

  predicate CharLess(a: char, b: char) {
    a < b
  }

  predicate IntLess(a: int, b: int) {
    a < b
  }

  predicate StringLess(a: string, b: string) {
    SeqLess(a, b, CharLess)
  }

  predicate IntsLess(a: seq<int>, b: seq<int>) {
    SeqLess(a, b, IntLess)
  }

  lemma {:induction false} SeqIrreflexive<T(!new)>(a: seq<T>, less: (T, T) -> bool)
    requires StrictOrder(less)
    ensures !SeqLess(a, a, less)
  {
    if a != [] {
      SeqIrreflexive(a[1..], less);
    }
  }

  lemma {:induction false} SeqTotal<T(!new)>(a: seq<T>, b: seq<T>, less: (T, T) -> bool)
    requires StrictOrder(less)
    ensures a == b || SeqLess(a, b, less) || SeqLess(b, a, less)
  {
    if a != [] && b != [] && a[0] == b[0] {
      SeqTotal(a[1..], b[1..], less);
      if a[1..] == b[1..] {
        assert a == [a[0]] + a[1..] && b == [b[0]] + b[1..];
      }
    }
  }

  lemma {:induction false} SeqTransitive<T(!new)>(a: seq<T>, b: seq<T>, c: seq<T>, less: (T, T) -> bool)
    requires StrictOrder(less) && SeqLess(a, b, less) && SeqLess(b, c, less)
    ensures SeqLess(a, c, less)
  {
    if a != [] && a[0] == b[0] && b[0] == c[0] {
      SeqTransitive(a[1..], b[1..], c[1..], less);
    }
  }

  lemma StringOrder()
    ensures StrictOrder(StringLess)
  {
    forall a ensures !StringLess(a, a) {
      SeqIrreflexive(a, CharLess);
    }
    forall a, b | a != b ensures StringLess(a, b) || StringLess(b, a) {
      SeqTotal(a, b, CharLess);
    }
    forall a, b, c | StringLess(a, b) && StringLess(b, c) ensures StringLess(a, c) {
      SeqTransitive(a, b, c, CharLess);
    }
  }

  lemma IntsOrder()
    ensures StrictOrder(IntsLess)
  {
    forall a ensures !IntsLess(a, a) {
      SeqIrreflexive(a, IntLess);
    }
    forall a, b | a != b ensures IntsLess(a, b) || IntsLess(b, a) {
      SeqTotal(a, b, IntLess);
    }
    forall a, b, c | IntsLess(a, b) && IntsLess(b, c) ensures IntsLess(a, c) {
      SeqTransitive(a, b, c, IntLess);
    }
  }
}
