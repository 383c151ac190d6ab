/** How many entries of disk_blocks are FREE. */
module FreeCount {

  function CountFree(u: seq<bool>): nat {
    if |u| == 0 then 0 else CountFree(u[..|u| - 1]) + (if u[|u| - 1] then 0 else 1)
  }

  lemma {:induction false} SomeFree(u: seq<bool>)
    ensures CountFree(u) > 0 <==> exists i :: 0 <= i < |u| && !u[i]
  {
    if |u| > 0 {
      var v := u[..|u| - 1];
      SomeFree(v);
      if i :| 0 <= i < |u| && !u[i] {
        assert i < |v| ==> !v[i];
      }
      if CountFree(v) > 0 {
        var i :| 0 <= i < |v| && !v[i];
        assert !u[i];
      }
    }
  }

  lemma {:induction false} TakeOne(u: seq<bool>, i: int)
    requires 0 <= i < |u| && !u[i]
    ensures CountFree(u[i := true]) == CountFree(u) - 1
  {
    var v := u[i := true];
    var n := |u| - 1;
    if i == n {
      assert v[..n] == u[..n];
    } else {
      TakeOne(u[..n], i);
      assert v[..n] == u[..n][i := true];
    }
  }
}
