/** Cutting text at the first of some characters, as `find`, `partition`, `indexOf` and URL parsing do. */
module Text {
  /** The first position holding one of the stops; the length when there is none. */
  function FirstOf(s: string, stops: set<char>): (k: nat)
    ensures k <= |s| && (k < |s| ==> s[k] in stops)
    ensures forall i | 0 <= i < k :: s[i] !in stops
  {
    if s == "" || s[0] in stops then 0 else FirstOf(s[1..], stops) + 1
  }

  predicate Free(s: string, stops: set<char>) {
    forall i | 0 <= i < |s| :: s[i] !in stops
  }

  lemma {:induction false} CutAt(front: string, back: string, stops: set<char>)
    requires Free(front, stops) && (back == "" || back[0] in stops)
    ensures var k := FirstOf(front + back, stops); k == |front| && (front + back)[..k] == front && (front + back)[k..] == back
  {
    if front == "" {
      assert front + back == back;
    } else {
      assert (front + back)[0] == front[0] && (front + back)[1..] == front[1..] + back;
      CutAt(front[1..], back, stops);
    }
  }

  lemma FreeTogether(a: string, b: string, stops: set<char>)
    requires Free(a, stops) && Free(b, stops)
    ensures Free(a + b, stops)
  {
  }
}
