/** Optional values, standing for Python's `None` and for fetches that yield nothing. */
module Wrappers {

  datatype Option<+T> = None | Some(value: T) {

    /** The wrapped value, or `default` when there is none. */
    function GetOr(default: T): T
    {
      match this
      case Some(v) => v
      case None => default
    }
  }

  /** Returns the first present value of `xs`: the first of an ordered list of fallbacks that succeeded. */
  function FirstSome<T>(xs: seq<Option<T>>): (r: Option<T>)
    decreases |xs|
  {
    if xs == [] then None
    else if xs[0].Some? then xs[0]
    else FirstSome(xs[1..])
  }

  /** Scanning the fallbacks from position i: take entry i if present, else go on with the rest. */
  lemma FirstSomeStep<T>(xs: seq<Option<T>>, i: nat)
    requires i < |xs|
    ensures FirstSome(xs[i..]) == if xs[i].Some? then xs[i] else FirstSome(xs[i + 1..])
  {
    assert xs[i..][0] == xs[i];
    assert xs[i..][1..] == xs[i + 1..];
  }

  /** `FirstSome` picks entry k exactly when entry k is present and every earlier entry is absent. */
  lemma {:induction false} FirstSomePicksFirstPresent<T>(xs: seq<Option<T>>)
    ensures FirstSome(xs).None? <==> forall j :: 0 <= j < |xs| ==> xs[j].None?
    ensures FirstSome(xs).Some? ==>
              exists k :: 0 <= k < |xs| && xs[k] == FirstSome(xs) && forall j :: 0 <= j < k ==> xs[j].None?
    decreases |xs|
  {
    if xs != [] && xs[0].None? {
      FirstSomePicksFirstPresent(xs[1..]);
      if FirstSome(xs).Some? {
        var k :| 0 <= k < |xs[1..]| && xs[1..][k] == FirstSome(xs[1..]) && forall j :: 0 <= j < k ==> xs[1..][j].None?;
        assert xs[k + 1] == FirstSome(xs);
        assert forall j :: 0 <= j < k + 1 ==> xs[j].None? by {
          forall j | 0 <= j < k + 1 ensures xs[j].None? {
            if j > 0 { assert xs[j] == xs[1..][j - 1]; }
          }
        }
      } else {
        forall j | 0 <= j < |xs| ensures xs[j].None? {
          if j > 0 { assert xs[j] == xs[1..][j - 1]; }
        }
      }
    } else if xs != [] {
      assert xs[0] == FirstSome(xs);
    }
  }

  /** A position where the first present value stands. */
  lemma FirstSomeFound<T>(xs: seq<Option<T>>) returns (k: nat)
    requires FirstSome(xs).Some?
    ensures k < |xs| && xs[k] == FirstSome(xs)
  {
    FirstSomePicksFirstPresent(xs);
    k :| 0 <= k < |xs| && xs[k] == FirstSome(xs) && forall j :: 0 <= j < k ==> xs[j].None?;
  }
}
