/** Small general-purpose pieces shared by the other modules: an optional
    value, a projection over a sequence, concatenation of blocks and
    Python's suffix test. */
module Util {

  datatype Option<+T> = None | Some(value: T)

  /** `f` applied to every element of `s`, in order. */
  function Map<A, B>(f: A -> B, s: seq<A>): (r: seq<B>)
    ensures |r| == |s|
    ensures forall i :: 0 <= i < |s| ==> r[i] == f(s[i])
  {
    seq(|s|, i requires 0 <= i < |s| => f(s[i]))
  }

  /** The blocks of `blocks` concatenated in order. */
  function Flatten<T>(blocks: seq<seq<T>>): seq<T>
  {
    if blocks == [] then [] else Flatten(blocks[..|blocks| - 1]) + blocks[|blocks| - 1]
  }

  lemma FlattenSnoc<T>(blocks: seq<seq<T>>, b: seq<T>)
    ensures Flatten(blocks + [b]) == Flatten(blocks) + b
  {
    assert (blocks + [b])[..|blocks|] == blocks;
  }

  lemma {:induction false} FlattenAppend<T>(x: seq<seq<T>>, y: seq<seq<T>>)
    ensures Flatten(x + y) == Flatten(x) + Flatten(y)
  {
    if y == [] {
      assert x + y == x;
    } else {
      var z := y[..|y| - 1];
      assert y == z + [y[|y| - 1]];
      assert x + y == (x + z) + [y[|y| - 1]];
      FlattenAppend(x, z);
      FlattenSnoc(x + z, y[|y| - 1]);
      FlattenSnoc(z, y[|y| - 1]);
    }
  }

  /** Concatenating non-empty blocks gives at least one element per block. */
  lemma {:induction false} FlattenLength<T>(blocks: seq<seq<T>>)
    requires forall k :: 0 <= k < |blocks| ==> |blocks[k]| > 0
    ensures |Flatten(blocks)| >= |blocks|
  {
    if blocks != [] {
      FlattenLength(blocks[..|blocks| - 1]);
    }
  }

  /** Python's `str.endswith`. */
  predicate EndsWith(s: string, suffix: string)
  {
    |suffix| <= |s| && s[|s| - |suffix|..] == suffix
  }
}
