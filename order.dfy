/** Selection of a least element, as Python's `min(xs, key=...)` performs it. */
module Order {

  /** The index of the FIRST element with the least key: Python's `min` keeps the
      earliest of several equally small elements. */
  function ArgMin<T>(s: seq<T>, key: T -> int): (k: nat)
    requires |s| > 0
    ensures k < |s|
  {
    if |s| == 1 then 0
    else
      var k := ArgMin(s[..|s| - 1], key);
      if key(s[|s| - 1]) < key(s[k]) then |s| - 1 else k
  }

  /** The selected element has the least key, and every earlier one a greater key. */
  lemma {:induction false} ArgMinSpec<T>(s: seq<T>, key: T -> int)
    requires |s| > 0
    ensures forall j :: 0 <= j < |s| ==> key(s[ArgMin(s, key)]) <= key(s[j])
    ensures forall j :: 0 <= j < ArgMin(s, key) ==> key(s[ArgMin(s, key)]) < key(s[j])
  {
    if |s| > 1 {
      var init := s[..|s| - 1];
      ArgMinSpec(init, key);
      assert forall j :: 0 <= j < |init| ==> s[j] == init[j];
    }
  }
}
