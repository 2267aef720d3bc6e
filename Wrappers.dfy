/** Small failure-carrying datatypes shared by the dashboard model. */
module Wrappers {

  /** A value that may be absent. */
  datatype Option<+T> = None | Some(value: T)

  /** The value as a sequence of at most one element. */
  function OptionToSeq<T>(o: Option<T>): (r: seq<T>)
    ensures |r| <= 1 && (o.Some? <==> |r| == 1)
    ensures o.Some? ==> r[0] == o.value
  {
    match o
    case None => []
    case Some(v) => [v]
  }

  /** The values of the present elements, in order. */
  function Somes<T>(os: seq<Option<T>>): seq<T>
  {
    if |os| == 0 then [] else Somes(os[..|os| - 1]) + OptionToSeq(os[|os| - 1])
  }

  /** The number of absent elements. */
  function CountNone<T>(os: seq<Option<T>>): nat
  {
    if |os| == 0 then 0 else CountNone(os[..|os| - 1]) + (if os[|os| - 1].None? then 1 else 0)
  }

  lemma SomesAppend<T>(os: seq<Option<T>>, o: Option<T>)
    ensures Somes(os + [o]) == Somes(os) + OptionToSeq(o)
    ensures CountNone(os + [o]) == CountNone(os) + (if o.None? then 1 else 0)
  {
    assert (os + [o])[..|os|] == os;
  }

  /** A value present twice at the end is kept twice. */
  lemma SomesAppendTwice<T>(os: seq<Option<T>>, x: T)
    ensures Somes(os + [Some(x), Some(x)]) == Somes(os) + [x, x]
  {
    SomesAppend(os, Some(x));
    SomesAppend(os + [Some(x)], Some(x));
    assert os + [Some(x)] + [Some(x)] == os + [Some(x), Some(x)];
  }

  /** Every element is either present and kept, or absent and counted. */
  lemma {:induction false} SomesAccounting<T>(os: seq<Option<T>>)
    ensures |Somes(os)| + CountNone(os) == |os|
    ensures forall x :: x in Somes(os) <==> Some(x) in os
  {
    if |os| > 0 {
      var init := os[..|os| - 1];
      SomesAccounting(init);
      assert os == init + [os[|os| - 1]];
      forall x
        ensures Some(x) in os <==> Some(x) in init || os[|os| - 1] == Some(x)
      {
      }
    }
  }
}
