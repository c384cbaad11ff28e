/** The optional value used throughout the model, and numbers nobody uses yet. */
module Options {
  datatype Option<+T> = None | Some(value: T)

  /** A number above all used ones. */
  lemma {:induction false} UnusedNumber(used: set<nat>) returns (n: nat)
    ensures forall k :: k in used ==> k < n
    decreases |used|
  {
    if used == {} {
      n := 0;
    } else {
      var k :| k in used;
      var above := UnusedNumber(used - {k});
      n := if above <= k then k + 1 else above;
      forall j | j in used ensures j < n {
        assert j == k || j in used - {k};
      }
    }
  }
}
