/** Small shared definitions. */
module Common {

  datatype Option<+T> = None | Some(value: T) {
    function GetOr(other: T): T {
      if Some? then value else other
    }
  }

  newtype byte = x: int | 0 <= x < 256

  /** A Go string: an immutable byte sequence. */
  type Text = seq<byte>

  function Max(a: nat, b: nat): nat {
    if a < b then b else a
  }

  /** `r` occurs in `s` at offset `i`. */
  predicate At(s: seq<byte>, i: nat, r: seq<byte>) {
    i + |r| <= |s| && forall k :: 0 <= k < |r| ==> s[i + k] == r[k]
  }

  lemma AtSplit(s: seq<byte>, i: nat, a: seq<byte>, b: seq<byte>)
    ensures At(s, i, a + b) <==> At(s, i, a) && At(s, i + |a|, b)
  {
    if At(s, i, a + b) {
      forall k | 0 <= k < |a| ensures s[i + k] == a[k] {
        assert (a + b)[k] == a[k];
      }
      forall k | 0 <= k < |b| ensures s[i + |a| + k] == b[k] {
        assert (a + b)[|a| + k] == b[k];
      }
    }
  }

  lemma AtOne(s: seq<byte>, i: nat, b: byte)
    ensures At(s, i, [b]) <==> i < |s| && s[i] == b
  {
    if At(s, i, [b]) {
      assert s[i + 0] == [b][0];
    }
  }

  lemma AtNone(s: seq<byte>, i: nat)
    ensures At(s, i, []) <==> i <= |s|
  {
  }

  lemma AtIsSlice(s: seq<byte>, i: nat, r: seq<byte>)
    requires At(s, i, r)
    ensures s[i..i + |r|] == r
  {
  }
}
