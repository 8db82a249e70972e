/** The fixed-size cache: a hand goes round a circular buffer; adding an entry, or finding one, puts
    it where the hand points and moves the hand on. */
module Lru {
  import opened Trees

  datatype Slot = Empty | Full(key: string, val: int)

  /** The buffer, the hand (nextEvict), and for each key of the map the slot its entry says it is in. */
  datatype Ring = Ring(slots: seq<Slot>, next: nat, live: map<string, nat>)

  predicate At(r: Ring, key: string, i: nat) {
    i < |r.slots| && r.slots[i].Full? && r.slots[i].key == key
  }

  /** Every key of the map leads to a slot that holds it. */
  predicate Wf(r: Ring) {
    r.next < |r.slots| && forall k :: k in r.live ==> At(r, k, r.live[k])
  }

  predicate Known(r: Ring, i: nat)
    requires i < |r.slots|
  {
    r.slots[i].Full? ==> r.slots[i].key in r.live && r.live[r.slots[i].key] == i
  }

  /** The filled slots and the keys of the map correspond one to one. */
  predicate OneToOne(r: Ring) {
    Wf(r) && forall i :: 0 <= i < |r.slots| ==> Known(r, i)
  }

  function Next(r: Ring): nat
    requires r.next < |r.slots|
  {
    if r.next + 1 == |r.slots| then 0 else r.next + 1
  }

  function Evicted(r: Ring): map<string, nat>
    requires r.next < |r.slots|
  {
    if r.slots[r.next].Full? then r.live - {r.slots[r.next].key} else r.live
  }

  function Added(r: Ring, key: string, val: int): Ring
    requires r.next < |r.slots|
  {
    Ring(r.slots[r.next := Full(key, val)], Next(r), Evicted(r)[key := r.next])
  }

  /** The entry that was under the hand moves to the slot the found one leaves. */
  function Displaced(r: Ring, i: nat): map<string, nat>
    requires r.next < |r.slots|
  {
    map k | k in r.live :: if r.live[k] == r.next then i else r.live[k]
  }

  function Found(r: Ring, key: string): Ring
    requires Wf(r) && key in r.live
  {
    var i := r.live[key];
    Ring(r.slots[i := r.slots[r.next]][r.next := r.slots[i]], Next(r), Displaced(r, i)[key := r.next])
  }

  /** How many steps the hand is away from slot `i`. */
  function Distance(r: Ring, i: nat): (d: nat)
    requires r.next < |r.slots| && i < |r.slots|
    ensures d < |r.slots|
  {
    if i < r.next then i + |r.slots| - r.next else i - r.next
  }

  /** Adding keeps the map a faithful index of the buffer exactly when the key is new, or is the one
      being evicted. */
  lemma AddOneToOneIff(r: Ring, key: string, val: int)
    requires OneToOne(r)
    ensures Wf(Added(r, key, val))
    ensures OneToOne(Added(r, key, val)) <==> (key in r.live ==> r.live[key] == r.next)
  {
    var s := Added(r, key, val);
    if key in r.live && r.live[key] != r.next {
      assert !Known(s, r.live[key]);
    } else {
      forall i | 0 <= i < |s.slots|
        ensures Known(s, i)
      {
        assert Known(r, i);
        assert Known(r, r.next);
      }
    }
  }

  lemma FoundOneToOne(r: Ring, key: string)
    requires Wf(r) && key in r.live
    ensures Wf(Found(r, key))
    ensures Found(r, key).live.Keys == r.live.Keys
    ensures OneToOne(r) ==> OneToOne(Found(r, key))
  {
    var i, s := r.live[key], Found(r, key);
    forall k | k in s.live
      ensures At(s, k, s.live[k])
    {
      assert At(r, k, r.live[k]);
    }
    if OneToOne(r) {
      forall j | 0 <= j < |s.slots|
        ensures Known(s, j)
      {
        assert Known(r, j) && Known(r, i) && Known(r, r.next);
      }
    }
  }

  // ---------------------------------------------------------------- runs

  datatype Op = Add(key: string, val: int) | Get(key: string)

  function Do(r: Ring, op: Op): Ring
    requires Wf(r)
  {
    match op
    case Add(k, v) => Added(r, k, v)
    case Get(k) => if k in r.live then Found(r, k) else r
  }

  /** The hand moves on an add and on a hit, not on a miss. */
  predicate Moves(r: Ring, op: Op) {
    op.Add? || op.key in r.live
  }

  lemma DoWf(r: Ring, op: Op)
    requires Wf(r)
    ensures Wf(Do(r, op)) && |Do(r, op).slots| == |r.slots|
  {
    if op.Get? && op.key in r.live {
      FoundOneToOne(r, op.key);
    }
  }

  ghost predicate IsRun(r: Ring, ops: seq<Op>, trace: seq<Ring>) {
    && |trace| == |ops| + 1
    && trace[0] == r
    && forall i :: 0 <= i < |ops| ==> Wf(trace[i]) && trace[i + 1] == Do(trace[i], ops[i])
  }

  /** Every add of the run is of an absent key, or of the one being evicted. */
  ghost predicate Clean(trace: seq<Ring>, ops: seq<Op>)
    requires |trace| == |ops| + 1
  {
    forall i :: 0 <= i < |ops| && ops[i].Add? && ops[i].key in trace[i].live ==>
      trace[i].live[ops[i].key] == trace[i].next
  }

  /** How many of the first `n` operations moved the hand. */
  ghost function Turns(trace: seq<Ring>, ops: seq<Op>, n: nat): nat
    requires n <= |ops| < |trace|
  {
    if n == 0 then 0
    else Turns(trace, ops, n - 1) + if Moves(trace[n - 1], ops[n - 1]) then 1 else 0
  }

  /** The value most recently added under `key` in the first `n` operations. */
  ghost function LastAdded(ops: seq<Op>, n: nat, key: string): Option<int>
    requires n <= |ops|
  {
    if n == 0 then None
    else if ops[n - 1].Add? && ops[n - 1].key == key then Some(ops[n - 1].val)
    else LastAdded(ops, n - 1, key)
  }

  function ValueOf(r: Ring, key: string): int
    requires Wf(r) && key in r.live
  {
    r.slots[r.live[key]].val
  }

  lemma DoKeeps(r: Ring, op: Op, key: string)
    requires Wf(r) && key in Do(r, op).live
    ensures Wf(Do(r, op))
    ensures op.Add? && op.key == key ==> ValueOf(Do(r, op), key) == op.val
    ensures !(op.Add? && op.key == key) ==> key in r.live && ValueOf(Do(r, op), key) == ValueOf(r, key)
  {
    DoWf(r, op);
    if op.Get? && op.key in r.live {
      assert At(r, key, r.live[key]) && At(r, op.key, r.live[op.key]);
    }
  }

  /** Whatever the run, a key that is present has the value last added for it. */
  lemma {:induction false} GetsLastAdded(size: nat, ops: seq<Op>, trace: seq<Ring>, n: nat, key: string)
    requires IsRun(Ring(seq(size, i => Empty), 0, map[]), ops, trace) && size > 0
    requires n <= |ops| && key in trace[n].live
    ensures Wf(trace[n]) && LastAdded(ops, n, key) == Some(ValueOf(trace[n], key))
  {
    DoKeeps(trace[n - 1], ops[n - 1], key);
    if !(ops[n - 1].Add? && ops[n - 1].key == key) {
      GetsLastAdded(size, ops, trace, n - 1, key);
    }
  }

  lemma {:induction false} RunOneToOne(r: Ring, ops: seq<Op>, trace: seq<Ring>, n: nat)
    requires OneToOne(r) && IsRun(r, ops, trace) && Clean(trace, ops) && n <= |ops|
    ensures OneToOne(trace[n]) && |trace[n].slots| == |r.slots|
  {
    if n > 0 {
      RunOneToOne(r, ops, trace, n - 1);
      var op := ops[n - 1];
      if op.Add? {
        AddOneToOneIff(trace[n - 1], op.key, op.val);
      } else if op.key in trace[n - 1].live {
        FoundOneToOne(trace[n - 1], op.key);
      }
    }
  }

  lemma AddSurvives(r: Ring, key: string, val: int, k: string)
    requires OneToOne(r) && k in r.live && Distance(r, r.live[k]) > 0 && (key in r.live ==> r.live[key] == r.next)
    ensures k in Added(r, key, val).live && Added(r, key, val).live[k] == r.live[k]
  {
    assert Known(r, r.next) && At(r, k, r.live[k]);
  }

  lemma FoundSurvives(r: Ring, key: string, k: string)
    requires OneToOne(r) && key in r.live && k in r.live && Distance(r, r.live[k]) > 0
    ensures k in Found(r, key).live
    ensures Found(r, key).live[k] == if k == key then r.next else r.live[k]
    ensures Found(r, key).slots[Found(r, key).live[k]] == r.slots[r.live[k]]
  {
    assert Known(r, r.next) && At(r, k, r.live[k]) && At(r, key, r.live[key]);
  }

  /** The hand came one step closer to slot `i`. */
  lemma Closer(r: Ring, s: Ring, i: nat)
    requires r.next < |r.slots| == |s.slots| && s.next == Next(r) && i < |r.slots|
    ensures i != r.next ==> Distance(s, i) == Distance(r, i) - 1
    ensures i == r.next ==> Distance(s, i) == |r.slots| - 1
  {
  }

  /** One step: an entry the hand is not pointing at stays, and the hand comes at most one closer. */
  lemma StepSurvives(r: Ring, op: Op, key: string)
    requires OneToOne(r) && key in r.live
    requires Distance(r, r.live[key]) > 0 || !Moves(r, op)
    requires op.Add? && op.key in r.live ==> r.live[op.key] == r.next
    ensures key in Do(r, op).live && Wf(Do(r, op))
    ensures Distance(Do(r, op), Do(r, op).live[key]) >= Distance(r, r.live[key]) - if Moves(r, op) then 1 else 0
    ensures ValueOf(Do(r, op), key) == ValueOf(r, key)
  {
    DoWf(r, op);
    if Moves(r, op) {
      if op.Add? {
        AddSurvives(r, op.key, op.val, key);
      } else {
        FoundSurvives(r, op.key, key);
      }
      Closer(r, Do(r, op), Do(r, op).live[key]);
    }
  }

  /** An entry just added or read (whose slot the hand has just left) is still there, unchanged,
      until the hand has moved `size` times more. */
  lemma {:induction false} Survives(r: Ring, ops: seq<Op>, trace: seq<Ring>, key: string, n: nat)
    requires OneToOne(r) && IsRun(r, ops, trace) && Clean(trace, ops) && n <= |ops|
    requires key in r.live && Turns(trace, ops, n) <= Distance(r, r.live[key])
    ensures Wf(trace[n]) && key in trace[n].live
    ensures ValueOf(trace[n], key) == ValueOf(r, key)
    ensures Distance(trace[n], trace[n].live[key]) >= Distance(r, r.live[key]) - Turns(trace, ops, n)
  {
    if n > 0 {
      Survives(r, ops, trace, key, n - 1);
      RunOneToOne(r, ops, trace, n - 1);
      StepSurvives(trace[n - 1], ops[n - 1], key);
    }
  }

  /** The hand is as far as it can be from an entry just added or read. */
  lemma JustUsed(r: Ring, op: Op)
    requires OneToOne(r) && Moves(r, op)
    ensures Wf(Do(r, op)) && op.key in Do(r, op).live
    ensures Distance(Do(r, op), Do(r, op).live[op.key]) == |r.slots| - 1
  {
    DoWf(r, op);
  }

  /** So an entry just added or read is still there, unchanged, after `size - 1` further turns of the
      hand. */
  lemma UsedSurvives(r: Ring, op: Op, ops: seq<Op>, trace: seq<Ring>, n: nat)
    requires OneToOne(r) && Moves(r, op) && (op.Add? && op.key in r.live ==> r.live[op.key] == r.next)
    requires IsRun(Do(r, op), ops, trace) && Clean(trace, ops) && n <= |ops| && Turns(trace, ops, n) < |r.slots|
    ensures Wf(Do(r, op)) && Wf(trace[n]) && op.key in Do(r, op).live && op.key in trace[n].live
    ensures ValueOf(trace[n], op.key) == ValueOf(Do(r, op), op.key)
    ensures op.Add? ==> ValueOf(trace[n], op.key) == op.val
  {
    JustUsed(r, op);
    if op.Get? {
      FoundOneToOne(r, op.key);
    } else {
      AddOneToOneIff(r, op.key, op.val);
      DoKeeps(r, op, op.key);
    }
    Survives(Do(r, op), ops, trace, op.key, n);
  }

  // ---------------------------------------------------------------- without that condition

  /** The operation adds something else while the hand points to a slot that holds the key, whether the
      map leads there or the slot is left over from an earlier add. */
  predicate Evicts(r: Ring, op: Op, key: string) {
    op.Add? && op.key != key && At(r, key, r.next)
  }

  lemma PresentStep(r: Ring, op: Op, key: string)
    requires Wf(r)
    ensures key in Do(r, op).live <==> (op.Add? && op.key == key) || (key in r.live && !Evicts(r, op, key))
  {
  }

  /** The key was there at the start, or was added last before operation `m`, and none from there to `n`
      evicts it. */
  ghost predicate KeptSince(trace: seq<Ring>, ops: seq<Op>, m: nat, n: nat, key: string)
    requires n <= |ops| < |trace|
  {
    && m <= n
    && (if m == 0 then key in trace[0].live else ops[m - 1].Add? && ops[m - 1].key == key)
    && forall i :: m <= i < n ==> !Evicts(trace[i], ops[i], key)
  }

  /** In every run, whatever is added again: a key is there if and only if since the start, or since it
      was last added, the hand has not reached a slot that holds it when something else was added. */
  lemma {:induction false} PresentIff(r: Ring, ops: seq<Op>, trace: seq<Ring>, n: nat, key: string)
    requires IsRun(r, ops, trace) && n <= |ops|
    ensures key in trace[n].live <==> exists m :: 0 <= m <= n && KeptSince(trace, ops, m, n, key)
  {
    if n == 0 {
      assert key in trace[0].live <==> KeptSince(trace, ops, 0, 0, key);
    } else {
      PresentIff(r, ops, trace, n - 1, key);
      PresentStep(trace[n - 1], ops[n - 1], key);
      if key in trace[n].live {
        if ops[n - 1].Add? && ops[n - 1].key == key {
          assert KeptSince(trace, ops, n, n, key);
        } else {
          var m :| 0 <= m <= n - 1 && KeptSince(trace, ops, m, n - 1, key);
          assert KeptSince(trace, ops, m, n, key);
        }
      }
      if m :| 0 <= m <= n && KeptSince(trace, ops, m, n, key) {
        assert m < n ==> KeptSince(trace, ops, m, n - 1, key);
      }
    }
  }

  /** All operations are adds of other keys. */
  predicate OthersAdded(ops: seq<Op>, key: string) {
    forall i :: 0 <= i < |ops| ==> ops[i].Add? && ops[i].key != key
  }

  /** The hand has gone round `n` slots, and the others are as they were. */
  lemma {:induction false} AddsAlong(r: Ring, ops: seq<Op>, trace: seq<Ring>, key: string, n: nat)
    requires IsRun(r, ops, trace) && OthersAdded(ops, key) && n <= |ops| && n <= |r.slots| && Wf(r)
    ensures Wf(trace[n]) && |trace[n].slots| == |r.slots|
    ensures trace[n].next == if r.next + n < |r.slots| then r.next + n else r.next + n - |r.slots|
    ensures forall i :: 0 <= i < |r.slots| && Distance(r, i) >= n ==> trace[n].slots[i] == r.slots[i]
    ensures forall i :: 0 <= i < |r.slots| && Distance(r, i) < n ==> !At(trace[n], key, i)
  {
    if n > 0 {
      AddsAlong(r, ops, trace, key, n - 1);
      DoWf(trace[n - 1], ops[n - 1]);
    }
  }

  /** How many adds of other keys a key survives is settled by the nearest slot that holds it: it is there
      after `n` of them if and only if every such slot is at least `n` steps ahead of the hand. A key that
      was added again while it was there has two. */
  lemma {:induction false} LostByAddsIff(r: Ring, ops: seq<Op>, trace: seq<Ring>, key: string, n: nat)
    requires IsRun(r, ops, trace) && OthersAdded(ops, key) && n <= |ops| && Wf(r) && key in r.live
    ensures key in trace[n].live <==> forall i :: 0 <= i < |r.slots| && At(r, key, i) ==> Distance(r, i) >= n
  {
    if n > 0 {
      LostByAddsIff(r, ops, trace, key, n - 1);
      PresentStep(trace[n - 1], ops[n - 1], key);
      if key in trace[n - 1].live {
        assert Distance(r, r.live[key]) >= n - 1;
        AddsAlong(r, ops, trace, key, n - 1);
        var h := trace[n - 1].next;
        assert Distance(r, h) == n - 1;
        assert At(trace[n - 1], key, h) <==> At(r, key, h);
        assert forall i :: 0 <= i < |r.slots| && Distance(r, i) == n - 1 ==> i == h;
      }
    }
  }

  /** Re-adding a present key shortens its life: the slot of the first entry, when the hand gets there,
      takes the second entry out of the map, though it was added only one turn ago. */
  lemma ReaddedIsLost(trace: seq<Ring>)
    requires IsRun(Ring([Empty, Empty], 0, map[]), [Add("a", 1), Add("a", 2), Add("b", 3)], trace)
    ensures !OneToOne(trace[2]) && "a" in trace[2].live && Distance(trace[2], trace[2].live["a"]) == 1
    ensures "a" !in trace[3].live && At(trace[3], "a", 1)
  {
    assert trace[1] == Do(trace[0], Add("a", 1));
    assert trace[2] == Do(trace[1], Add("a", 2));
    assert trace[3] == Do(trace[2], Add("b", 3));
    assert !Known(trace[2], 0);
  }

  // ---------------------------------------------------------------- the class

  class CacheEntry {
    const key: string
    const val: int
    var index: nat

    constructor (key: string, val: int, index: nat)
      ensures this.key == key && this.val == val && this.index == index
    {
      this.key, this.val, this.index := key, val, index;
    }
  }

  function SlotOf(e: CacheEntry?): Slot {
    if e == null then Empty else Full(e.key, e.val)
  }

  function SlotsOf(entries: seq<CacheEntry?>): seq<Slot> {
    seq(|entries|, i requires 0 <= i < |entries| => SlotOf(entries[i]))
  }

  lemma SlotsSwapped(entries: seq<CacheEntry?>, i: nat, j: nat)
    requires i < |entries| && j < |entries|
    ensures SlotsOf(entries[i := entries[j]][j := entries[i]]) ==
      SlotsOf(entries)[j := SlotsOf(entries)[i]][i := SlotsOf(entries)[j]]
  {
  }

  function IndexOf(contents: map<string, CacheEntry>): map<string, nat>
    reads contents.Values
  {
    map k | k in contents :: contents[k].index
  }

  /** Every entry of the buffer knows its slot. */
  ghost predicate Indexed(entries: seq<CacheEntry?>)
    reads entries
  {
    forall i :: 0 <= i < |entries| && entries[i] != null ==> entries[i].index == i
  }

  ghost predicate InPlace(e: CacheEntry, k: string, entries: seq<CacheEntry?>)
    reads e
  {
    e.key == k && e.index < |entries| && entries[e.index] == e
  }

  /** The map leads to entries of the buffer. */
  ghost predicate Placed(contents: map<string, CacheEntry>, entries: seq<CacheEntry?>)
    reads contents.Values
  {
    forall k :: k in contents ==> InPlace(contents[k], k, entries)
  }

  /** The largest sum of `lookups` recorded ages. */
  ghost function MaxAges(lookups: nat, size: nat): int {
    if lookups == 0 then 0 else MaxAges(lookups - 1, size) + size - 1
  }

  lemma {:induction false} MaxAgesIs(lookups: nat, size: nat)
    ensures MaxAges(lookups, size) == lookups * (size - 1)
  {
    if lookups > 0 {
      MaxAgesIs(lookups - 1, size);
    }
  }

  lemma MeanBelow(sum: nat, count: nat, bound: nat)
    requires count > 0 && sum <= count * bound
    ensures sum / count <= bound
  {
    assert sum == count * (sum / count) + sum % count;
    assert count * (sum / count - bound) <= 0;
  }

  class LruCache {
    const lastUsedKeys: array<CacheEntry?>
    var nextEvict: nat
    var ages: int
    var lookups: nat
    var contents: map<string, CacheEntry>

    ghost predicate Valid()
      reads this`nextEvict, this`contents, lastUsedKeys, lastUsedKeys[..], contents.Values
    {
      && nextEvict < lastUsedKeys.Length
      && Indexed(lastUsedKeys[..])
      && Placed(contents, lastUsedKeys[..])
    }

    ghost function State(): Ring
      reads this`nextEvict, this`contents, lastUsedKeys, contents.Values
    {
      Ring(SlotsOf(lastUsedKeys[..]), nextEvict, IndexOf(contents))
    }

    /** The mean recorded age is at least 0 and below the size. */
    ghost predicate Sensible()
      reads this`ages, this`lookups
    {
      0 <= ages <= MaxAges(lookups, lastUsedKeys.Length)
    }

    constructor (size: nat)
      requires size > 0
      ensures Valid() && Sensible() && fresh(lastUsedKeys)
      ensures State() == Ring(seq(size, i => Empty), 0, map[])
    {
      lastUsedKeys := new CacheEntry?[size](i => null);
      nextEvict, ages, lookups, contents := 0, 0, 0, map[];
    }

    method MoveHand()
      requires nextEvict < lastUsedKeys.Length
      modifies this`nextEvict
      ensures nextEvict == if old(nextEvict) + 1 == lastUsedKeys.Length then 0 else old(nextEvict) + 1
    {
      nextEvict := (nextEvict + 1) % lastUsedKeys.Length;
    }

    /** The entry under the hand leaves the map. */
    method Evict()
      requires Valid()
      modifies this`contents
      ensures Valid() && State() == old(State()).(live := Evicted(old(State())))
      ensures forall k :: k in contents ==> contents[k].index != nextEvict
    {
      var evict := lastUsedKeys[nextEvict];
      if evict != null {
        contents := contents - {evict.key};
      }
    }

    /** A new entry takes the slot under the hand, whose old entry has left the map. */
    method Install(e: CacheEntry)
      requires Valid() && e !in contents.Values && e !in lastUsedKeys[..] && e.index == nextEvict
      requires forall k :: k in contents ==> contents[k].index != nextEvict
      modifies this`contents, lastUsedKeys
      ensures Valid()
      ensures State() ==
        Ring(old(State()).slots[nextEvict := SlotOf(e)], nextEvict, old(State()).live[e.key := nextEvict])
    {
      ghost var before, entries := State(), lastUsedKeys[..];
      contents := contents[e.key := e];
      lastUsedKeys[nextEvict] := e;
      assert lastUsedKeys[..] == entries[nextEvict := e];
      assert SlotsOf(lastUsedKeys[..]) == before.slots[nextEvict := SlotOf(e)];
    }

    method Add(key: string, val: int)
      requires Valid()
      modifies this`nextEvict, this`contents, lastUsedKeys
      ensures Valid()
      ensures State() == Added(old(State()), key, val)
    {
      Evict();
      var e := new CacheEntry(key, val, nextEvict);
      Install(e);
      ghost var after := State();
      MoveHand();
      assert State() == after.(next := nextEvict);
    }

    /** Two entries trade places, and learn their new slots. */
    method Swap(i: nat, j: nat)
      requires i < lastUsedKeys.Length && j < lastUsedKeys.Length && Indexed(lastUsedKeys[..])
      modifies lastUsedKeys, if lastUsedKeys[i] == null then {} else {lastUsedKeys[i]},
               if lastUsedKeys[j] == null then {} else {lastUsedKeys[j]}
      ensures lastUsedKeys[..] == old(lastUsedKeys[..])[i := old(lastUsedKeys[j])][j := old(lastUsedKeys[i])]
      ensures Indexed(lastUsedKeys[..])
    {
      lastUsedKeys[i], lastUsedKeys[j] := lastUsedKeys[j], lastUsedKeys[i];
      if lastUsedKeys[i] != null {
        lastUsedKeys[i].index := i;
      }
      if lastUsedKeys[j] != null {
        lastUsedKeys[j].index := j;
      }
    }

    lemma StateWf()
      requires Valid()
      ensures Wf(State()) && State().live.Keys == contents.Keys
    {
      forall k | k in contents
        ensures At(State(), k, contents[k].index)
      {
        assert InPlace(contents[k], k, lastUsedKeys[..]);
      }
    }

    /** The entry found trades places with the one under the hand, and the hand moves on. */
    method Use(v: CacheEntry, ghost key: string)
      requires Valid() && key in contents && contents[key] == v && Wf(State())
      modifies this`nextEvict, lastUsedKeys, lastUsedKeys[..]
      ensures Valid()
      ensures State() == Found(old(State()), key)
    {
      ghost var before, entries, slot := State(), lastUsedKeys[..], v.index;
      ghost var after := Found(before, key);
      assert InPlace(v, key, entries);
      SlotsSwapped(entries, before.next, slot);
      Swap(nextEvict, v.index);
      MoveHand();
      forall k | k in contents
        ensures InPlace(contents[k], k, lastUsedKeys[..]) && contents[k].index == after.live[k]
      {
        assert old(InPlace(contents[k], k, lastUsedKeys[..]));
        if contents[k] == entries[before.next] {
          assert lastUsedKeys[..][slot] == contents[k];
        } else if contents[k] == v {
          assert lastUsedKeys[..][before.next] == contents[k];
        }
      }
      assert IndexOf(contents) == after.live;
    }

    /** The recorded age of an entry says how many turns ago the hand left it. */
    method Record(v: CacheEntry, ghost key: string)
      requires Valid() && Sensible() && Wf(State()) && key in contents && contents[key] == v
      modifies this`ages, this`lookups
      ensures Sensible() && lookups == old(lookups) + 1
      ensures ages == old(ages) + lastUsedKeys.Length - 1 - Distance(State(), State().live[key])
    {
      assert InPlace(v, key, lastUsedKeys[..]);
      var i := v.index;
      if i < nextEvict {
        i := i + lastUsedKeys.Length;
      }
      var age := lastUsedKeys.Length - (i - nextEvict) - 1;
      ages := ages + age;
      lookups := lookups + 1;
    }

    method Get(key: string) returns (val: Option<int>)
      requires Valid() && Sensible()
      modifies this`nextEvict, this`ages, this`lookups, lastUsedKeys, lastUsedKeys[..]
      ensures Valid() && Sensible()
      ensures val.Some? <==> key in old(State()).live
      ensures val.None? ==> State() == old(State()) && ages == old(ages) && lookups == old(lookups)
      ensures val.Some? ==>
        && Wf(old(State()))
        && val.value == ValueOf(old(State()), key)
        && State() == Found(old(State()), key)
        && lookups == old(lookups) + 1
        && ages == old(ages) + lastUsedKeys.Length - 1 - Distance(old(State()), old(State()).live[key])
    {
      if key !in contents {
        return None;
      }
      StateWf();
      var v := contents[key];
      assert InPlace(v, key, lastUsedKeys[..]);
      ghost var before := State();
      Record(v, key);
      assert State() == before;
      Use(v, key);
      assert State() == Found(before, key);
      val := Some(v.val);
    }

    /** A mean age between 0 and the size. */
    method AverageAge() returns (age: int)
      requires lastUsedKeys.Length > 0 && Sensible()
      ensures 0 <= age < lastUsedKeys.Length
    {
      if lookups == 0 {
        return 0;
      }
      age := ages / lookups;
      MaxAgesIs(lookups, lastUsedKeys.Length);
      MeanBelow(ages, lookups, lastUsedKeys.Length - 1);
    }
  }
}
