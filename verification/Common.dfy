/** What the other modules share. */
module Common {

  datatype Option<T> = None | Some(value: T)

  ghost predicate Distinct<T>(s: seq<T>) {
    forall i, j | 0 <= i < j < |s| :: s[i] != s[j]
  }

  /** What leaves a queue and what stays is what was in it and what came, over two stretches as over each. */
  lemma QueuesJoin<T>(g: seq<T>, gs: seq<T>, last: seq<T>, mid: seq<T>, first: seq<T>, c: seq<T>, cs: seq<T>)
    requires gs + last == mid + cs && g + mid == first + c
    ensures g + gs + last == first + (c + cs)
  {
    assert g + gs + last == g + (gs + last) && g + (mid + cs) == (g + mid) + cs && first + c + cs == first + (c + cs);
  }
}
