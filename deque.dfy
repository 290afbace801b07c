/** `collections.deque(maxlen=cap)` as a value: appending to a full deque
    drops its leftmost item. */
module Deque {

  /** `d.append(x)` on a deque created with `maxlen=cap`. */
  function Push<T>(d: seq<T>, x: T, cap: nat): (r: seq<T>)
    requires |d| <= cap
    ensures |r| <= cap
    ensures cap > 0 ==> |r| > 0 && r[|r| - 1] == x
    ensures |d| < cap ==> r == d + [x]
  {
    if |d| < cap then d + [x]
    else if cap == 0 then []
    else d[1..] + [x]
  }

  /** Reference definition: the last min(|s|, cap) items of `s`, in order. */
  function Window<T>(s: seq<T>, cap: nat): (w: seq<T>)
    ensures |w| == if |s| <= cap then |s| else cap
  {
    if |s| <= cap then s else s[|s| - cap..]
  }

  /** The window keeps the history's newest items: its item i is the
      history's item |s| - |w| + i. */
  lemma WindowIsSuffix<T>(s: seq<T>, cap: nat)
    ensures forall i :: 0 <= i < |Window(s, cap)| ==>
      Window(s, cap)[i] == s[|s| - |Window(s, cap)| + i]
  {
  }

  /** Appending to the deque that holds the window of a history gives the
      window of the longer history: oldest item evicted first. */
  lemma {:induction false} PushWindow<T>(s: seq<T>, x: T, cap: nat)
    ensures Push(Window(s, cap), x, cap) == Window(s + [x], cap)
  {
    var w := Window(s, cap);
    if |s| < cap {
      assert w == s;
    } else if cap == 0 {
    } else {
      assert |w| == cap;
      var t := s + [x];
      assert Window(t, cap) == t[|t| - cap..];
      assert w[1..] + [x] == t[|t| - cap..];
    }
  }

  /** A deque of capacity 2 after three appends holds the last two items. */
  lemma {:induction false} PushEvictsOldest<T>(a: T, b: T, c: T)
    ensures Push(Push(Push([], a, 2), b, 2), c, 2) == [b, c]
  {
    assert Push([], a, 2) == [a];
    assert Push([a], b, 2) == [a, b];
    assert [a, b][1..] == [b];
  }
}
