/** Optional values, and mapping a fallible step over a sequence. */
module Wrappers {

  /** A value that may be absent: JavaScript's `undefined` or a row the database did not find. */
  datatype Option<+T> = None | Some(value: T)

  /** Applies `f` to every element and fails as a whole as soon as one application fails:
      the shape of `xs.map(f)` inside a `try` whose callback may throw. */
  function MapAll<A, B>(xs: seq<A>, f: A -> Option<B>): (r: Option<seq<B>>)
    ensures r.Some? <==> forall i :: 0 <= i < |xs| ==> f(xs[i]).Some?
    ensures r.Some? ==> |r.value| == |xs|
    ensures r.Some? ==> forall i :: 0 <= i < |xs| ==> f(xs[i]) == Some(r.value[i])
  {
    if |xs| == 0 then Some([])
    else
      match f(xs[0])
      case None => None
      case Some(y) =>
        match MapAll(xs[1..], f)
        case None =>
          assert exists i :: 1 <= i < |xs| && f(xs[i]).None? by {
            var j :| 0 <= j < |xs[1..]| && f(xs[1..][j]).None?;
            assert f(xs[j + 1]).None?;
          }
          None
        case Some(ys) => Some([y] + ys)
  }

  /** Mapping one more element at the end extends a successful result by that element's image. */
  lemma MapAllSnoc<A, B>(xs: seq<A>, x: A, f: A -> Option<B>)
    requires MapAll(xs, f).Some? && f(x).Some?
    ensures MapAll(xs + [x], f) == Some(MapAll(xs, f).value + [f(x).value])
  {
    var ys := MapAll(xs, f).value;
    assert forall i :: 0 <= i < |xs + [x]| ==> f((xs + [x])[i]).Some? by {
      forall i | 0 <= i < |xs + [x]|
        ensures f((xs + [x])[i]).Some?
      {
        if i < |xs| {
          assert (xs + [x])[i] == xs[i];
        }
      }
    }
    var zs := MapAll(xs + [x], f).value;
    assert forall i :: 0 <= i < |zs| ==> zs[i] == (ys + [f(x).value])[i] by {
      forall i | 0 <= i < |zs|
        ensures zs[i] == (ys + [f(x).value])[i]
      {
        assert f((xs + [x])[i]) == Some(zs[i]);
        if i < |xs| {
          assert (xs + [x])[i] == xs[i];
        }
      }
    }
    assert |zs| == |ys| + 1;
    assert zs == ys + [f(x).value];
  }
}
