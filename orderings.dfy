/**
 * `std::cmp::Ordering` and the comparison of integers, used by the hand-written comparators.
 * As in Rust, `Less` means "sorts first".
 */
module Orderings {

  datatype Ordering = Less | Equal | Greater {
    /** `Ordering::reverse`: `Less` and `Greater` swapped. */
    function Reverse(): (r: Ordering)
      ensures r == Equal <==> this == Equal
      ensures r == Less <==> this == Greater
    {
      match this
      case Less => Greater
      case Equal => Equal
      case Greater => Less
    }
  }

  lemma ReverseInvolutive(o: Ordering)
    ensures o.Reverse().Reverse() == o
  {
  }

  function CmpInt(a: int, b: int): (r: Ordering)
    ensures r == Less <==> a < b
    ensures r == Equal <==> a == b
    ensures r == Greater <==> a > b
  {
    if a < b then Less else if a == b then Equal else Greater
  }

  /** `Ordering::then`: the first comparison unless it is `Equal`. */
  function Then(first: Ordering, second: Ordering): Ordering {
    if first == Equal then second else first
  }
}
