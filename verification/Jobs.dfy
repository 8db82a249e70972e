/** Job reservation: a worker never promises its mirrors more jobs than it has. */
module Jobs {
  import opened Trees

  ghost function Total(m: map<string, nat>): nat {
    if m == map[] then 0
    else
      var k :| k in m;
      m[k] + Total(m - {k})
  }

  /** The total can be taken in any order. */
  lemma {:induction false} TotalAt(m: map<string, nat>, k: string)
    requires k in m
    ensures Total(m) == m[k] + Total(m - {k})
    decreases |m|
  {
    var j :| j in m && Total(m) == m[j] + Total(m - {j});
    if j != k {
      TotalAt(m - {j}, k);
      TotalAt(m - {k}, j);
      assert m - {j} - {k} == m - {k} - {j};
    }
  }

  lemma TotalMore(m: map<string, nat>, k: string, count: nat)
    requires k !in m
    ensures Total(m[k := count]) == Total(m) + count
  {
    TotalAt(m[k := count], k);
    assert m[k := count] - {k} == m;
  }

  lemma TotalLess(g: map<string, nat>, k: string)
    ensures Total(g - {k}) <= Total(g)
  {
    if k in g {
      TotalAt(g, k);
    } else {
      assert g - {k} == g;
    }
  }

  lemma TotalPut(g: map<string, nat>, k: string, count: nat)
    ensures Total(g[k := count]) <= Total(g) + count
    ensures k !in g ==> Total(g[k := count]) == Total(g) + count
  {
    TotalAt(g[k := count], k);
    assert g[k := count] - {k} == g - {k};
    TotalLess(g, k);
    if k !in g {
      TotalMore(g, k, count);
    }
  }

  class WorkerMirrors {
    const jobs: nat
    /** maxJobCount of each mirror, by the master's address. */
    var mirrorMap: map<string, nat>

    ghost predicate Valid()
      reads this`mirrorMap
    {
      Total(mirrorMap) <= jobs
    }

    constructor (jobs: nat)
      ensures Valid() && this.jobs == jobs && mirrorMap == map[]
    {
      this.jobs, mirrorMap := jobs, map[];
    }

    /** getMirror: grant what is asked for, or what is left, or refuse. */
    method GetMirror(key: string, reserveCount: int) returns (granted: Option<nat>)
      requires Valid()
      modifies this`mirrorMap
      ensures Valid()
      ensures granted.None? <==> reserveCount <= 0 || Total(old(mirrorMap)) == jobs
      ensures granted.None? ==> mirrorMap == old(mirrorMap)
      ensures granted.Some? ==> mirrorMap == old(mirrorMap)[key := granted.value]
      ensures granted.Some? ==> 0 < granted.value <= reserveCount
      ensures granted.Some? ==> Total(mirrorMap) <= Total(old(mirrorMap)) + granted.value <= jobs
      ensures granted.Some? && granted.value < reserveCount ==> Total(old(mirrorMap)) + granted.value == jobs
    {
      if reserveCount <= 0 {
        return None;
      }
      var used, rest := 0, mirrorMap;
      while rest != map[]
        invariant mirrorMap == old(mirrorMap)
        invariant used + Total(rest) == Total(mirrorMap)
        decreases |rest|
      {
        var k :| k in rest;
        TotalAt(rest, k);
        used := used + rest[k];
        rest := rest - {k};
      }
      var remaining := jobs - used;
      if remaining <= 0 {
        return None;
      }
      var count := if remaining < reserveCount then remaining else reserveCount;
      TotalPut(mirrorMap, key, count);
      mirrorMap := mirrorMap[key := count];
      granted := Some(count);
    }

    /** DropMirror. */
    method DropMirror(key: string)
      requires Valid()
      modifies this`mirrorMap
      ensures Valid() && mirrorMap == old(mirrorMap) - {key}
      ensures key in old(mirrorMap) ==> Total(mirrorMap) + old(mirrorMap)[key] == Total(old(mirrorMap))
    {
      if key in mirrorMap {
        TotalAt(mirrorMap, key);
      } else {
        assert mirrorMap - {key} == mirrorMap;
      }
      mirrorMap := mirrorMap - {key};
    }
  }
}
