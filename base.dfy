/** Kotlin's nullable values and `Int`, and a fact about permutations. */
module Base {

  datatype Option<+T> = None | Some(value: T) {

    /** The Elvis operator `x ?: default`. */
    function GetOr(default: T): T {
      match this
      case Some(v) => v
      case None => default
    }
  }

  /** Bounds of Kotlin's 32-bit `Int`. */
  const MinInt: int := -0x8000_0000
  const MaxInt: int := 0x7fff_ffff

  /** Kotlin's `Int`. */
  type Int32 = x: int | -0x8000_0000 <= x <= 0x7fff_ffff

  /** Kotlin renders a null inside a string template as the text "null". */
  function TemplateText(s: Option<string>): string {
    s.GetOr("null")
  }

  /** Taking out the element at `j` takes one copy of it out of the multiset. */
  lemma RemoveAt<T>(s: seq<T>, j: nat)
    requires j < |s|
    ensures s == s[..j] + ([s[j]] + s[j + 1..])
    ensures multiset(s[..j] + s[j + 1..]) == multiset(s) - multiset{s[j]}
  {
    var before, after := s[..j], s[j + 1..];
    assert s == before + ([s[j]] + after);
    assert multiset(s) == multiset(before) + multiset([s[j]] + after);
    assert multiset([s[j]] + after) == multiset{s[j]} + multiset(after);
    assert multiset(before + after) == multiset(before) + multiset(after);
  }

  /**
   * Where the first element of `a` sits in its permutation `b`; the rest of
   * `a` is a permutation of `b` without it.
   */
  lemma PermutationHead<T>(a: seq<T>, b: seq<T>) returns (j: nat)
    requires a != [] && multiset(a) == multiset(b)
    ensures j < |b| && b[j] == a[0]
    ensures b == b[..j] + ([a[0]] + b[j + 1..])
    ensures multiset(a[1..]) == multiset(b[..j] + b[j + 1..])
  {
    assert a[0] in multiset(a);
    j :| 0 <= j < |b| && b[j] == a[0];
    RemoveAt(a, 0);
    assert a[..0] + a[1..] == a[1..];
    RemoveAt(b, j);
  }
}
