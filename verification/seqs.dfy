/** `Array.prototype.indexOf`, as `getStaticPosition` and
    `getChildNodeSprite` use it. */
module Seqs {

  /** `xs.indexOf(x)`: the first position of `x`, or -1 when absent. */
  function IndexOf<T(==)>(xs: seq<T>, x: T): (r: int)
    ensures r == -1 <==> x !in xs
    ensures r != -1 ==> 0 <= r < |xs| && xs[r] == x && x !in xs[..r]
  {
    if |xs| == 0 then -1
    else if xs[0] == x then 0
    else
      var k := IndexOf(xs[1..], x);
      if k == -1 then -1 else k + 1
  }

}
