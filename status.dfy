/** Status codes in the C convention: zero is success, anything else a failure. */
module Status {
  /**
   * The first nonzero status of `rs`, or 0 when every one is zero: the
   * result of running steps in order and stopping at the first failure.
   */
  function FirstNonzero(rs: seq<int>): (r: int)
    ensures r == 0 <==> forall i :: 0 <= i < |rs| ==> rs[i] == 0
    ensures r != 0 ==> exists i :: 0 <= i < |rs| && rs[i] == r && forall j :: 0 <= j < i ==> rs[j] == 0
  {
    if rs == [] then 0
    else if rs[0] != 0 then rs[0]
    else
      var r := FirstNonzero(rs[1..]);
      assert r != 0 ==> exists i :: 0 <= i < |rs[1..]| && rs[1..][i] == r && forall j :: 0 <= j < i ==> rs[1..][j] == 0;
      assert r != 0 ==> exists i :: 1 <= i < |rs| && rs[i] == r && forall j :: 0 <= j < i ==> rs[j] == 0;
      r
  }

  /** Three steps run in order: the first failure is the result. */
  lemma FirstNonzeroOfThree(a: int, b: int, c: int)
    ensures FirstNonzero([a, b, c]) == if a != 0 then a else if b != 0 then b else c
  {
    assert [a, b, c][1..] == [b, c] && [b, c][1..] == [c] && [c][1..] == [];
    assert FirstNonzero([c]) == c;
    assert FirstNonzero([b, c]) == if b != 0 then b else c;
  }
}
