/** How a worker picks its two backends: `determine_backends` of src/worker.c. */
module Selection {
  import opened Wire

  datatype Role = Unknown | Master | Slave

  datatype Status = Starting | Ok | Failed | HalfUp

  /** A BACKEND. `conf` stands for the connection settings, which only a reload changes. */
  datatype Backend = Backend(serial: nat, conf: nat, weight: nat, threshold: nat, role: Role, status: Status, lag: nat)

  predicate Viable(b: Backend)
  {
    b.role != Master && b.status == Ok && b.lag < b.threshold
  }

  /** How many of the random values are to select this backend. */
  function Share(b: Backend): nat
  {
    if Viable(b) then b.weight else 0
  }

  function Total(table: seq<Backend>): nat
  {
    if table == [] then 0 else Total(table[..|table| - 1]) + Share(table[|table| - 1])
  }

  /** The `weights` array after the first loop: running sums, with zero left where a backend is not viable. */
  function Weights(table: seq<Backend>): (w: seq<nat>)
    ensures |w| == |table|
  {
    if table == [] then []
    else
      var rest := table[..|table| - 1];
      var last := table[|table| - 1];
      Weights(rest) + [if Viable(last) then Total(table) else 0]
  }

  /** The second loop: the first index from `i` on whose weight reaches `r`. */
  function Reached(weights: seq<nat>, r: nat, i: nat): Option<nat>
    requires i <= |weights|
    decreases |weights| - i
  {
    if i == |weights| then None else if r <= weights[i] then Some(i) else Reached(weights, r, i + 1)
  }

  function LastMaster(table: seq<Backend>): Option<nat>
  {
    if table == [] then None
    else if table[|table| - 1].role == Master then Some(|table| - 1)
    else LastMaster(table[..|table| - 1])
  }

  lemma OneMore(table: seq<Backend>, i: nat)
    requires i < |table|
    ensures Total(table[..i + 1]) == Total(table[..i]) + Share(table[i])
    ensures Weights(table[..i + 1]) == Weights(table[..i]) + [if Viable(table[i]) then Total(table[..i + 1]) else 0]
    ensures LastMaster(table[..i + 1]) == if table[i].role == Master then Some(i) else LastMaster(table[..i])
  {
    assert table[..i + 1][..i] == table[..i];
  }

  lemma {:induction false} WeightAt(table: seq<Backend>, i: nat)
    requires i < |table|
    ensures Weights(table)[i] == if Viable(table[i]) then Total(table[..i + 1]) else 0
    decreases |table|
  {
    var n := |table| - 1;
    OneMore(table, n);
    assert table[..n + 1] == table;
    if i < n {
      WeightAt(table[..n], i);
      assert table[..n][..i + 1] == table[..i + 1];
    }
  }

  lemma {:induction false} TotalGrows(table: seq<Backend>, i: nat, j: nat)
    requires i <= j <= |table|
    ensures Total(table[..i]) <= Total(table[..j])
    decreases j
  {
    if i < j {
      TotalGrows(table, i, j - 1);
      OneMore(table, j - 1);
    }
  }

  /** With `i - 1` backends passed over, the search stops at `i` or goes on to exactly the same end. */
  lemma {:induction false} ReachedFrom(table: seq<Backend>, r: nat, i: nat)
    requires i <= |table| && Total(table[..i]) < r <= Total(table)
    ensures var k := Reached(Weights(table), r, i);
            k.Some? && i <= k.value < |table| && Viable(table[k.value])
            && Total(table[..k.value]) < r <= Total(table[..k.value + 1])
    decreases |table| - i
  {
    assert table[..|table|] == table;
    OneMore(table, i);
    WeightAt(table, i);
    if r > Weights(table)[i] {
      ReachedFrom(table, r, i + 1);
    }
  }

  /** A value from 1 to the total selects a healthy slave that does not lag: the one into whose stretch of the running
      sums, which is as long as its weight, it falls. */
  lemma SelectsTheStretch(table: seq<Backend>, r: nat, i: nat)
    requires 1 <= r <= Total(table) && i < |table|
    ensures var b, low := table[i], Total(table[..i]);
            Reached(Weights(table), r, 0) == Some(i) <==>
              && b.role != Master && b.status == Ok && b.lag < b.threshold
              && low < r <= low + b.weight
  {
    ReachedFrom(table, r, 0);
    OneMore(table, i);
    var k := Reached(Weights(table), r, 0).value;
    if k < i {
      TotalGrows(table, k + 1, i);
    } else if i < k {
      TotalGrows(table, i + 1, k);
    }
  }

  ghost function Winners(table: seq<Backend>, i: nat): set<nat>
  {
    set r: nat | 1 <= r <= Total(table) && Reached(Weights(table), r, 0) == Some(i)
  }

  /** Each backend is selected by exactly as many of the values 1 to the total as its weight says, if it is a healthy
      slave that does not lag, and by none if it is not. */
  lemma SelectedByWeight(table: seq<Backend>, i: nat)
    requires i < |table|
    ensures var b := table[i];
            |Winners(table, i)| == if b.role != Master && b.status == Ok && b.lag < b.threshold then b.weight else 0
  {
    var low := Total(table[..i]);
    OneMore(table, i);
    assert table[..|table|] == table;
    TotalGrows(table, i + 1, |table|);
    forall r: nat
      ensures r in Winners(table, i) <==> r in Between(low, low + Share(table[i]))
    {
      if 1 <= r <= Total(table) {
        SelectsTheStretch(table, r, i);
      }
    }
    assert Winners(table, i) == Between(low, low + Share(table[i]));
    BetweenSize(low, Share(table[i]));
  }

  /** The total is zero if and only if no such backend has any weight. */
  lemma {:induction false} NothingToSelectIff(table: seq<Backend>)
    ensures Total(table) == 0 <==>
            forall k | 0 <= k < |table| && table[k].role != Master && table[k].status == Ok
                       && table[k].lag < table[k].threshold :: table[k].weight == 0
    decreases |table|
  {
    if table != [] {
      var n := |table| - 1;
      NothingToSelectIff(table[..n]);
      assert forall k | 0 <= k < n :: table[..n][k] == table[k];
    }
  }

  /** The master is the last backend with that role. */
  lemma {:induction false} LastMasterIs(table: seq<Backend>)
    ensures match LastMaster(table)
            case None => forall k | 0 <= k < |table| :: table[k].role != Master
            case Some(i) =>
              i < |table| && table[i].role == Master && forall k | i < k < |table| :: table[k].role != Master
    decreases |table|
  {
    if table != [] && table[|table| - 1].role != Master {
      var n := |table| - 1;
      LastMasterIs(table[..n]);
      assert forall k | 0 <= k < n :: table[..n][k] == table[k];
    }
  }

  function Between(low: nat, high: nat): set<nat>
  {
    set r: nat | r <= high && Above(r, low)
  }

  predicate Above(r: nat, low: nat) { low < r }

  lemma {:induction false} BetweenSize(low: nat, n: nat)
    ensures |Between(low, low + n)| == n
  {
    if n == 0 {
      assert Between(low, low) == {};
    } else {
      BetweenSize(low, n - 1);
      assert Between(low, low + n) == Between(low, low + n - 1) + {low + n};
    }
  }

  /** The random value runs from zero, and zero selects the backend at index 0 whatever it is. The reader
      is a viable slave if and only if the value is not zero or that backend happens to be one. */
  lemma ReaderIsViableIff(table: seq<Backend>, r: nat)
    requires 0 < Total(table) && r <= Total(table)
    ensures var k := Reached(Weights(table), r, 0);
            && k.Some? && k.value < |table|
            && (r == 0 ==> k == Some(0))
            && var b, first := table[k.value], table[0];
               (b.role != Master && b.status == Ok && b.lag < b.threshold
                <==> r > 0 || (first.role != Master && first.status == Ok && first.lag < first.threshold))
  {
    if r > 0 {
      ReachedFrom(table, r, 0);
    }
  }

  /** `determine_backends`, on a random value in the range `pgr_rand` draws from. */
  method DetermineBackends(table: seq<Backend>, r: nat) returns (rc: int, reader: Option<nat>, writer: Option<nat>)
    requires r <= Total(table)
    // the master is the last one
    ensures match writer
            case None => forall k | 0 <= k < |table| :: table[k].role != Master
            case Some(i) =>
              i < |table| && table[i].role == Master && forall k | i < k < |table| :: table[k].role != Master
    // there is a reader unless no healthy slave that does not lag has any weight
    ensures rc == 0 || rc == -1
    ensures rc == -1 <==>
            forall k | 0 <= k < |table| && table[k].role != Master && table[k].status == Ok
                       && table[k].lag < table[k].threshold :: table[k].weight == 0
    ensures reader == if rc == -1 then None else Reached(Weights(table), r, 0)
    // a positive value selects such a one
    ensures rc == 0 && r > 0 ==>
              && reader.Some? && reader.value < |table|
              && var b, low := table[reader.value], Total(table[..reader.value]);
                 && b.role != Master && b.status == Ok && b.lag < b.threshold
                 && low < r <= low + b.weight
  {
    hide Reached, LastMaster, Total, Weights;
    reader, writer := None, None;
    var cumulative := 0;
    var weights := new nat[|table|](_ => 0);
    Before(table);
    for i := 0 to |table|
      invariant cumulative == Total(table[..i]) && writer == LastMaster(table[..i])
      invariant weights[..i] == Weights(table[..i])
      invariant forall k :: i <= k < |table| ==> weights[k] == 0
    {
      OneMore(table, i);
      if table[i].role == Master {
        writer := Some(i);
      } else if table[i].status == Ok && table[i].lag < table[i].threshold {
        cumulative := cumulative + table[i].weight;
        weights[i] := cumulative;
      }
      assert weights[..i + 1] == weights[..i] + [weights[i]];
    }
    assert table[..|table|] == table && weights[..] == Weights(table);
    NothingToSelectIff(table);
    LastMasterIs(table);
    if cumulative == 0 {
      return -1, None, writer;
    }
    ReaderIs(table, r);
    for i := 0 to |table|
      invariant Reached(Weights(table), r, 0) == Reached(Weights(table), r, i) && weights[..] == Weights(table)
    {
      assert weights[..][i] == weights[i];
      ReachedNext(Weights(table), r, i);
      if r <= weights[i] {
        return 0, Some(i), writer;
      }
    }
    ReachedNext(Weights(table), r, |table|);
    assert false;
    return -1, None, writer;
  }

  lemma Before(table: seq<Backend>)
    ensures Total(table[..0]) == 0 && LastMaster(table[..0]) == None && Weights(table[..0]) == []
  {
  }

  lemma ReachedNext(weights: seq<nat>, r: nat, i: nat)
    requires i <= |weights|
    ensures Reached(weights, r, i)
         == if i == |weights| then None else if r <= weights[i] then Some(i) else Reached(weights, r, i + 1)
  {
  }

  lemma ReaderIs(table: seq<Backend>, r: nat)
    requires 0 < Total(table) && r <= Total(table)
    ensures var k := Reached(Weights(table), r, 0);
            && k.Some? && k.value < |table|
            && (r > 0 ==>
                  var b, low := table[k.value], Total(table[..k.value]);
                  && b.role != Master && b.status == Ok && b.lag < b.threshold && low < r <= low + b.weight)
  {
    hide Reached, Total, Weights;
    ReaderIsViableIff(table, r);
    if r > 0 {
      SelectsTheStretch(table, r, Reached(Weights(table), r, 0).value);
    }
  }
}
