/** Sequence helpers used by the image transforms. */
module PixelHelper {

  /** The elements of `s` in reverse order: element k of the result is element
      |s| - 1 - k of `s`. */
  function Reverse<T>(s: seq<T>): (r: seq<T>)
    ensures |r| == |s|
    ensures forall k :: 0 <= k < |s| ==> r[k] == s[|s| - 1 - k]
  {
    if s == [] then [] else Reverse(s[1..]) + [s[0]]
  }

  /** Reversing twice gives back the original sequence. */
  lemma {:induction false} ReverseInvolution<T>(s: seq<T>)
    ensures Reverse(Reverse(s)) == s
  {
    var rr := Reverse(Reverse(s));
    forall k | 0 <= k < |s|
      ensures rr[k] == s[k]
    {
      assert rr[k] == Reverse(s)[|s| - 1 - k];
    }
  }
}
