/**
 * Rust's `core::cmp::Ordering`, and lexicographic comparison of integer sequences,
 * which is the order `#[derive(Ord)]` gives a struct: its fields compared one after
 * the other, in declaration order.
 */
module Ordering {
  datatype Ordering = Less | Equal | Greater {
    /** The ordering seen from the other operand. */
    function Reverse(): (r: Ordering)
      ensures r == Less <==> this == Greater
      ensures r == Equal <==> this == Equal
      ensures r == Greater <==> this == Less
    {
      match this
      case Less => Greater
      case Equal => Equal
      case Greater => Less
    }
  }

  /** `Ord::cmp` on integers. */
  function CompareInt(x: int, y: int): (r: Ordering)
    ensures r == Less <==> x < y
    ensures r == Equal <==> x == y
    ensures r == Greater <==> x > y
  {
    if x < y then Less else if x == y then Equal else Greater
  }

  /**
   * Lexicographic comparison: the first position where the sequences differ decides;
   * when one is a prefix of the other, the shorter one is smaller.
   */
  function LexCompare(s: seq<int>, t: seq<int>): (r: Ordering)
    ensures r == Equal <==> s == t
    decreases |s|
  {
    if |s| == 0 then (if |t| == 0 then Equal else Less)
    else if |t| == 0 then Greater
    else
      match CompareInt(s[0], t[0])
      case Equal =>
        var rest := LexCompare(s[1..], t[1..]);
        assert s == [s[0]] + s[1..] && t == [t[0]] + t[1..];
        rest
      case Less => Less
      case Greater => Greater
  }

  /** Swapping the operands reverses the result. */
  lemma {:induction false} LexCompareAntisymmetric(s: seq<int>, t: seq<int>)
    ensures LexCompare(t, s) == LexCompare(s, t).Reverse()
    decreases |s|
  {
    if |s| > 0 && |t| > 0 && s[0] == t[0] {
      LexCompareAntisymmetric(s[1..], t[1..]);
    }
  }

  /** "Less than or equal" is transitive. */
  lemma {:induction false} LexCompareTransitive(s: seq<int>, t: seq<int>, u: seq<int>)
    requires LexCompare(s, t) != Greater && LexCompare(t, u) != Greater
    ensures LexCompare(s, u) != Greater
    decreases |s|
  {
    if |s| > 0 && |t| > 0 && |u| > 0 && s[0] == t[0] && t[0] == u[0] {
      LexCompareTransitive(s[1..], t[1..], u[1..]);
    }
  }
}
