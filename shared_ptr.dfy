/**
 * The reference-counted handle `MySharedPtr<MyTestClass>` of
 * toy_implementations/shared_ptr_toy_impl/main.cpp over an explicit heap:
 * the shared `size_t` counter and the managed `MyTestClass` are objects with
 * a `freed` flag that `delete` sets, and the set of live handles is a ghost
 * registry against which the counters are checked.
 */
module SharedPtr {

  /** The heap-allocated `size_t` reference count. */
  class Counter {
    var count: nat
    var freed: bool

    constructor (n: nat)
      ensures count == n && !freed
    {
      count := n;
      freed := false;
    }
  }

  /** `MyTestClass`: one immutable string. */
  class Payload {
    const value: string
    var freed: bool

    constructor (value: string)
      ensures this.value == value && !freed
    {
      this.value := value;
      freed := false;
    }

    /** `getValue()`, which reads the object and so must not run on freed memory. */
    function GetValue(): string
      requires !freed
      reads this
    {
      value
    }
  }

  /** How many handles in a snapshot of `m_pRefCount` fields point at `c`. */
  function CountIn(rcs: seq<Counter?>, c: Counter): nat
  {
    if |rcs| == 0 then 0
    else CountIn(rcs[..|rcs| - 1], c) + (if rcs[|rcs| - 1] == c then 1 else 0)
  }

  /** Appending one more handle adds one to the count of its counter and to no other. */
  lemma CountInAppend(rcs: seq<Counter?>, x: Counter?, c: Counter)
    ensures CountIn(rcs + [x], c) == CountIn(rcs, c) + (if x == c then 1 else 0)
  {
    assert (rcs + [x])[..|rcs|] == rcs;
  }

  /** Concatenated snapshots count separately. */
  lemma {:induction false} CountInConcat(a: seq<Counter?>, b: seq<Counter?>, c: Counter)
    ensures CountIn(a + b, c) == CountIn(a, c) + CountIn(b, c)
    decreases |b|
  {
    if |b| == 0 {
      assert a + b == a;
    } else {
      assert (a + b)[..|a + b| - 1] == a + b[..|b| - 1];
      CountInConcat(a, b[..|b| - 1], c);
    }
  }

  /** Re-pointing handle `k` moves one unit of count from its old counter to its new one. */
  lemma {:induction false} CountInUpdate(rcs: seq<Counter?>, k: nat, x: Counter?, c: Counter)
    requires k < |rcs|
    ensures CountIn(rcs[k := x], c) + (if rcs[k] == c then 1 else 0)
         == CountIn(rcs, c) + (if x == c then 1 else 0)
    decreases |rcs|
  {
    if k < |rcs| - 1 {
      assert rcs[k := x][..|rcs| - 1] == rcs[..|rcs| - 1][k := x];
      CountInUpdate(rcs[..|rcs| - 1], k, x, c);
    } else {
      assert rcs[k := x][..|rcs| - 1] == rcs[..|rcs| - 1];
    }
  }

  /** Dropping handle `k` takes one unit of count from its counter. */
  lemma CountInRemove(rcs: seq<Counter?>, k: nat, c: Counter)
    requires k < |rcs|
    ensures CountIn(rcs[..k] + rcs[k + 1..], c) + (if rcs[k] == c then 1 else 0) == CountIn(rcs, c)
  {
    assert rcs == rcs[..k] + [rcs[k]] + rcs[k + 1..];
    CountInConcat(rcs[..k] + [rcs[k]], rcs[k + 1..], c);
    CountInConcat(rcs[..k], rcs[k + 1..], c);
    CountInAppend(rcs[..k], rcs[k], c);
  }

  /** A handle that points at `rcs[k]` is one of the handles counted for it. */
  lemma {:induction false} CountInPositive(rcs: seq<Counter?>, k: nat)
    requires k < |rcs| && rcs[k] != null
    ensures CountIn(rcs, rcs[k]) >= 1
    decreases |rcs|
  {
    if k < |rcs| - 1 {
      CountInPositive(rcs[..|rcs| - 1], k);
    }
  }

  /** When a counter's count is 1, the handle `k` pointing at it is the only one. */
  lemma {:induction false} CountInOne(rcs: seq<Counter?>, k: nat, j: nat)
    requires k < |rcs| && j < |rcs| && rcs[k] != null
    requires CountIn(rcs, rcs[k]) == 1 && rcs[j] == rcs[k]
    ensures j == k
  {
    if j != k {
      var c := rcs[k];
      var lo, hi := if j < k then j else k, if j < k then k else j;
      assert rcs == rcs[..hi] + rcs[hi..];
      CountInConcat(rcs[..hi], rcs[hi..], c);
      CountInPositive(rcs[..hi], lo);
      CountInPositive(rcs[hi..], 0);
    }
  }

  /**
   * What one handle sees of the heap: its two pointers and, when they are
   * not null, the count and the freed flags of what they point at.
   */
  datatype Cell = Cell(rc: Counter?, obj: Payload?, count: nat, rcFreed: bool, objFreed: bool)

  const NullCell := Cell(null, null, 0, false, false)

  /** The counter pointers of a snapshot, in order. */
  function Rcs(s: seq<Cell>): (r: seq<Counter?>)
    ensures |r| == |s|
    ensures forall i :: 0 <= i < |s| ==> r[i] == s[i].rc
  {
    seq(|s|, i requires 0 <= i < |s| => s[i].rc)
  }

  /** A handle without a counter has no object either. */
  predicate NullsClear(s: seq<Cell>)
  {
    forall i :: 0 <= i < |s| && s[i].rc == null ==> s[i] == NullCell
  }

  /** Handles share a counter exactly when they share an object. */
  predicate Paired(s: seq<Cell>)
  {
    forall i, j :: 0 <= i < |s| && 0 <= j < |s| ==> (s[i].rc == s[j].rc <==> s[i].obj == s[j].obj)
  }

  /** Every handle with a counter owns a live object and a live counter that holds how many handles point at it. */
  predicate Live(s: seq<Cell>)
  {
    forall i :: 0 <= i < |s| && s[i].rc != null ==>
      s[i].obj != null && !s[i].rcFreed && !s[i].objFreed && s[i].count == CountIn(Rcs(s), s[i].rc)
  }

  /** The reference-counting invariant over a snapshot of the live handles. */
  predicate CountedCells(s: seq<Cell>)
  {
    NullsClear(s) && Paired(s) && Live(s)
  }

  /** Decrement the count of `c`, and free it and its object if the count reaches 0. */
  function Release(s: seq<Cell>, c: Counter): (r: seq<Cell>)
    ensures |r| == |s|
    ensures forall i :: 0 <= i < |s| ==> r[i].rc == s[i].rc && r[i].obj == s[i].obj
    ensures forall i :: 0 <= i < |s| && s[i].rc != c ==> r[i] == s[i]
  {
    seq(|s|, i requires 0 <= i < |s| =>
      if s[i].rc == c && s[i].count >= 1 then
        s[i].(count := s[i].count - 1, rcFreed := s[i].count == 1, objFreed := s[i].count == 1)
      else s[i])
  }

  /** Increment the count of `c`. */
  function Bump(s: seq<Cell>, c: Counter): (r: seq<Cell>)
    ensures |r| == |s|
    ensures forall i :: 0 <= i < |s| ==> r[i].rc == s[i].rc && r[i].obj == s[i].obj
    ensures forall i :: 0 <= i < |s| && s[i].rc != c ==> r[i] == s[i]
  {
    seq(|s|, i requires 0 <= i < |s| => if s[i].rc == c then s[i].(count := s[i].count + 1) else s[i])
  }

  /** A snapshot, or the registry, without handle `k`. */
  function Without<T>(s: seq<T>, k: nat): (r: seq<T>)
    requires k < |s|
    ensures |r| == |s| - 1
    ensures forall i :: 0 <= i < |r| ==> r[i] == (if i < k then s[i] else s[i + 1])
  {
    s[..k] + s[k + 1..]
  }

  lemma RcsWithout(s: seq<Cell>, k: nat)
    requires k < |s|
    ensures Rcs(Without(s, k)) == Rcs(s)[..k] + Rcs(s)[k + 1..]
  {
  }

  /** A default-constructed handle joins the live handles without touching any count. */
  lemma AppendNullCounted(s: seq<Cell>)
    requires CountedCells(s)
    ensures CountedCells(s + [NullCell])
  {
    var t := s + [NullCell];
    assert Rcs(t) == Rcs(s) + [null];
    forall i | 0 <= i < |t| && t[i].rc != null
      ensures t[i].count == CountIn(Rcs(t), t[i].rc)
    {
      CountInAppend(Rcs(s), null, t[i].rc);
    }
  }

  lemma {:induction false} CountInAbsent(rcs: seq<Counter?>, c: Counter)
    requires forall i :: 0 <= i < |rcs| ==> rcs[i] != c
    ensures CountIn(rcs, c) == 0
    decreases |rcs|
  {
    if |rcs| > 0 {
      CountInAbsent(rcs[..|rcs| - 1], c);
    }
  }

  /** A handle with a fresh object and a fresh counter at 1 joins the live handles. */
  lemma AppendFreshCounted(s: seq<Cell>, c: Counter, p: Payload)
    requires CountedCells(s)
    requires forall i :: 0 <= i < |s| ==> s[i].rc != c && s[i].obj != p
    ensures CountedCells(s + [Cell(c, p, 1, false, false)])
  {
    var t := s + [Cell(c, p, 1, false, false)];
    assert Rcs(t) == Rcs(s) + [c];
    forall i | 0 <= i < |t| && t[i].rc != null
      ensures t[i].count == CountIn(Rcs(t), t[i].rc)
    {
      CountInAppend(Rcs(s), c, t[i].rc);
      if i == |s| {
        CountInAbsent(Rcs(s), c);
      }
    }
  }

  /** The copy constructor: the counter of handle `k` gains one, and the new handle shares it. */
  lemma CopyCounted(s: seq<Cell>, k: nat)
    requires CountedCells(s) && k < |s| && s[k].rc != null
    ensures CountedCells(Bump(s, s[k].rc) + [Bump(s, s[k].rc)[k]])
  {
    var c := s[k].rc;
    var b := Bump(s, c);
    var t := b + [b[k]];
    assert Rcs(t) == Rcs(s) + [c];
    assert Paired(t);
    forall i | 0 <= i < |t| && t[i].rc != null
      ensures t[i].count == CountIn(Rcs(t), t[i].rc)
    {
      CountInAppend(Rcs(s), c, t[i].rc);
    }
  }

  /** The move constructor: handle `k` is nulled and the new handle takes its cell unchanged. */
  lemma MoveCounted(s: seq<Cell>, k: nat)
    requires CountedCells(s) && k < |s| && s[k].rc != null
    ensures CountedCells(s[k := NullCell] + [s[k]])
  {
    var c := s[k].rc;
    var t := s[k := NullCell] + [s[k]];
    assert Rcs(t) == Rcs(s)[k := null] + [c];
    assert Paired(t);
    forall i | 0 <= i < |t| && t[i].rc != null
      ensures t[i].count == CountIn(Rcs(t), t[i].rc)
    {
      CountInAppend(Rcs(s)[k := null], c, t[i].rc);
      CountInUpdate(Rcs(s), k, null, t[i].rc);
    }
  }

  /** Dropping a handle keeps the pointer structure of the others. */
  lemma WithoutShape(s: seq<Cell>, k: nat)
    requires k < |s| && NullsClear(s) && Paired(s)
    ensures NullsClear(Without(s, k)) && Paired(Without(s, k))
  {
    var t := Without(s, k);
    forall i, j | 0 <= i < |t| && 0 <= j < |t|
      ensures t[i].rc == t[j].rc <==> t[i].obj == t[j].obj
    {
      var i', j' := if i < k then i else i + 1, if j < k then j else j + 1;
      assert t[i] == s[i'] && t[j] == s[j'];
    }
  }

  /**
   * The destructor of a non-null handle `k`: its counter loses one, and when
   * it reaches 0 no other live handle points at it, so dropping `k` leaves
   * no live handle on freed memory.
   */
  lemma DestroyCounted(s: seq<Cell>, k: nat)
    requires CountedCells(s) && k < |s| && s[k].rc != null
    ensures CountedCells(Without(Release(s, s[k].rc), k))
  {
    var r := Release(s, s[k].rc);
    assert NullsClear(r) && Paired(r);
    WithoutShape(r, k);
    var t := Without(r, k);
    forall i | 0 <= i < |t| && t[i].rc != null
      ensures t[i].obj != null && !t[i].rcFreed && !t[i].objFreed && t[i].count == CountIn(Rcs(t), t[i].rc)
    {
      DestroyLiveAt(s, k, i);
    }
  }

  lemma DestroyLiveAt(s: seq<Cell>, k: nat, i: nat)
    requires Live(s) && k < |s| && s[k].rc != null && i < |s| - 1
    requires Without(Release(s, s[k].rc), k)[i].rc != null
    ensures var t := Without(Release(s, s[k].rc), k);
      t[i].obj != null && !t[i].rcFreed && !t[i].objFreed && t[i].count == CountIn(Rcs(t), t[i].rc)
  {
    DestroyFlagsAt(s, k, i);
    DestroyCountAt(s, k, i);
  }

  /** The destructor frees nothing that a remaining handle points at. */
  lemma DestroyFlagsAt(s: seq<Cell>, k: nat, i: nat)
    requires Live(s) && k < |s| && s[k].rc != null && i < |s| - 1
    requires Without(Release(s, s[k].rc), k)[i].rc != null
    ensures var t := Without(Release(s, s[k].rc), k);
      t[i].obj != null && !t[i].rcFreed && !t[i].objFreed
  {
    var c := s[k].rc;
    var r := Release(s, c);
    var t := Without(r, k);
    var j := if i < k then i else i + 1;
    assert t[i] == r[j];
    assert Rcs(r) == Rcs(s);
    RcsWithout(r, k);
    CountInPositive(Rcs(s), k);
    CountInRemove(Rcs(s), k, t[i].rc);
    if t[i].rc == c && s[k].count == 1 {
      CountInOne(Rcs(s), k, j);
    }
  }

  /** After the destructor each remaining count is the number of remaining handles on it. */
  lemma DestroyCountAt(s: seq<Cell>, k: nat, i: nat)
    requires Live(s) && k < |s| && s[k].rc != null && i < |s| - 1
    requires Without(Release(s, s[k].rc), k)[i].rc != null
    ensures var t := Without(Release(s, s[k].rc), k);
      t[i].count == CountIn(Rcs(t), t[i].rc)
  {
    var c := s[k].rc;
    var r := Release(s, c);
    var t := Without(r, k);
    var j := if i < k then i else i + 1;
    assert t[i] == r[j];
    assert Rcs(r) == Rcs(s);
    RcsWithout(r, k);
    CountInPositive(Rcs(s), k);
    CountInRemove(Rcs(s), k, t[i].rc);
    if t[i].rc == c && s[k].count == 1 {
      CountInOne(Rcs(s), k, j);
    }
  }

  /** The destructor of a null handle `k` changes no count. */
  lemma DestroyNullCounted(s: seq<Cell>, k: nat)
    requires CountedCells(s) && k < |s| && s[k].rc == null
    ensures CountedCells(Without(s, k))
  {
    WithoutShape(s, k);
    var t := Without(s, k);
    RcsWithout(s, k);
    forall i | 0 <= i < |t| && t[i].rc != null
      ensures t[i].count == CountIn(Rcs(t), t[i].rc)
    {
      CountInRemove(Rcs(s), k, t[i].rc);
    }
  }

  /** The live handles of `hs` as the heap shows them. */
  ghost function Snap(hs: seq<Handle>): (r: seq<Cell>)
    reads hs, Counters(hs), Payloads(hs)
    ensures |r| == |hs|
  {
    seq(|hs|, i reads hs, Counters(hs), Payloads(hs) requires 0 <= i < |hs| =>
      Cell(hs[i].rc, hs[i].obj,
           if hs[i].rc != null then hs[i].rc.count else 0,
           hs[i].rc != null && hs[i].rc.freed,
           hs[i].obj != null && hs[i].obj.freed))
  }

  /** The counters the handles point at. */
  ghost function Counters(hs: seq<Handle>): set<Counter>
    reads hs
  {
    set i | 0 <= i < |hs| && hs[i].rc != null :: hs[i].rc
  }

  /** The objects the handles point at. */
  ghost function Payloads(hs: seq<Handle>): set<Payload>
    reads hs
  {
    set i | 0 <= i < |hs| && hs[i].obj != null :: hs[i].obj
  }

  /** Dropping a handle from the registry drops its cell from the snapshot. */
  lemma SnapUnregister(hs: seq<Handle>, k: nat)
    requires k < |hs|
    ensures Snap(Without(hs, k)) == Without(Snap(hs), k)
  {
    var u := Without(hs, k);
    assert Counters(u) <= Counters(hs) by {
      forall c | c in Counters(u) ensures c in Counters(hs) {
        var i :| 0 <= i < |u| && u[i].rc == c;
        assert hs[if i < k then i else i + 1].rc == c;
      }
    }
    assert Payloads(u) <= Payloads(hs) by {
      forall p | p in Payloads(u) ensures p in Payloads(hs) {
        var i :| 0 <= i < |u| && u[i].obj == p;
        assert hs[if i < k then i else i + 1].obj == p;
      }
    }
  }

  /** No handle is registered twice. */
  predicate Distinct(hs: seq<Handle>)
  {
    forall i, j :: 0 <= i < j < |hs| ==> hs[i] != hs[j]
  }

  /** The invariant on the heap: distinct live handles whose snapshot is counted. */
  ghost predicate Counted(hs: seq<Handle>)
    reads hs, Counters(hs), Payloads(hs)
  {
    && Distinct(hs)
    && CountedCells(Snap(hs))
  }

  /** Copy assignment of handle `e` into handle `t`: release `t`'s counter, then share `e`'s and add one. */
  function AssignCopy(s: seq<Cell>, t: nat, e: nat): seq<Cell>
    requires t < |s| && e < |s| && s[e].rc != null
  {
    var r := if s[t].rc != null then Release(s, s[t].rc) else s;
    var b := Bump(r, s[e].rc);
    b[t := b[e]]
  }

  /** Move assignment of handle `e` into handle `t`: release `t`'s counter, take `e`'s cell, null `e`. */
  function AssignMove(s: seq<Cell>, t: nat, e: nat): seq<Cell>
    requires t < |s| && e < |s|
  {
    var r := if s[t].rc != null then Release(s, s[t].rc) else s;
    r[t := r[e]][e := NullCell]
  }

  /** Sharing a cell and then counting it is counting and then sharing. */
  lemma BumpShare(s: seq<Cell>, t: nat, e: nat, c: Counter)
    requires t < |s| && e < |s| && s[e].rc == c
    ensures Bump(s[t := s[e]], c) == Bump(s, c)[t := Bump(s, c)[e]]
  {
  }

  /** After copy assignment each handle still points at a live object and a live counter. */
  lemma CopyAssignLiveAt(s: seq<Cell>, t: nat, e: nat, i: nat)
    requires CountedCells(s) && t < |s| && e < |s| && s[e].rc != null
    requires t != e || s[t].count >= 2
    requires i < |s| && AssignCopy(s, t, e)[i].rc != null
    ensures var a := AssignCopy(s, t, e);
      a[i].obj != null && !a[i].rcFreed && !a[i].objFreed && a[i].count == CountIn(Rcs(a), a[i].rc)
  {
    CopyAssignFlagsAt(s, t, e, i);
    CopyAssignCountAt(s, t, e, i);
  }

  /** A copy assignment frees nothing that a remaining handle points at. */
  lemma CopyAssignFlagsAt(s: seq<Cell>, t: nat, e: nat, i: nat)
    requires CountedCells(s) && t < |s| && e < |s| && s[e].rc != null
    requires t != e || s[t].count >= 2
    requires i < |s| && AssignCopy(s, t, e)[i].rc != null
    ensures var a := AssignCopy(s, t, e);
      a[i].obj != null && !a[i].rcFreed && !a[i].objFreed
  {
    var a := AssignCopy(s, t, e);
    var ce := s[e].rc;
    var src := if i == t then e else i;
    var c := s[src].rc;
    assert Rcs(a) == Rcs(s)[t := ce];
    CountInUpdate(Rcs(s), t, ce, c);
    CountInPositive(Rcs(s), src);
    if s[t].rc != null {
      CountInPositive(Rcs(s), t);
      if s[t].count == 1 && c == s[t].rc {
        CountInOne(Rcs(s), t, src);
        CountInOne(Rcs(s), t, e);
      }
    }
  }

  /** After copy assignment each count is the old one, less one for `t`'s counter, plus one for `e`'s. */
  lemma CopyAssignCountAt(s: seq<Cell>, t: nat, e: nat, i: nat)
    requires CountedCells(s) && t < |s| && e < |s| && s[e].rc != null
    requires t != e || s[t].count >= 2
    requires i < |s| && AssignCopy(s, t, e)[i].rc != null
    ensures var a := AssignCopy(s, t, e);
      a[i].count == CountIn(Rcs(a), a[i].rc)
  {
    var a := AssignCopy(s, t, e);
    var ce := s[e].rc;
    var src := if i == t then e else i;
    var c := s[src].rc;
    assert Rcs(a) == Rcs(s)[t := ce];
    CountInUpdate(Rcs(s), t, ce, c);
    CountInPositive(Rcs(s), src);
    if s[t].rc != null {
      CountInPositive(Rcs(s), t);
      if s[t].count == 1 && c == s[t].rc {
        CountInOne(Rcs(s), t, src);
        CountInOne(Rcs(s), t, e);
      }
    }
  }

  /** Copy assignment keeps the invariant unless a handle holding the only reference is assigned to itself. */
  lemma CopyAssignCounted(s: seq<Cell>, t: nat, e: nat)
    requires CountedCells(s) && t < |s| && e < |s| && s[e].rc != null
    requires t != e || s[t].count >= 2
    ensures CountedCells(AssignCopy(s, t, e))
  {
    var a := AssignCopy(s, t, e);
    assert NullsClear(a);
    forall i, j | 0 <= i < |a| && 0 <= j < |a|
      ensures a[i].rc == a[j].rc <==> a[i].obj == a[j].obj
    {
      var i', j' := if i == t then e else i, if j == t then e else j;
      assert a[i].rc == s[i'].rc && a[i].obj == s[i'].obj;
      assert a[j].rc == s[j'].rc && a[j].obj == s[j'].obj;
    }
    forall i | 0 <= i < |a| && a[i].rc != null
      ensures a[i].obj != null && !a[i].rcFreed && !a[i].objFreed && a[i].count == CountIn(Rcs(a), a[i].rc)
    {
      CopyAssignLiveAt(s, t, e, i);
    }
  }

  /**
   * Assigning a handle that holds the only reference to itself frees the
   * object and the counter, then writes 1 into the freed counter: the handle
   * is left on freed memory and the invariant is broken.
   */
  lemma SelfCopyAssignFrees(s: seq<Cell>, t: nat)
    requires CountedCells(s) && t < |s| && s[t].rc != null && s[t].count == 1
    ensures AssignCopy(s, t, t)[t].rcFreed && AssignCopy(s, t, t)[t].objFreed
    ensures AssignCopy(s, t, t)[t].count == 1
    ensures !CountedCells(AssignCopy(s, t, t))
  {
    assert AssignCopy(s, t, t)[t].rc != null;
  }

  /** After move assignment each handle still points at a live object and a live counter. */
  lemma MoveAssignLiveAt(s: seq<Cell>, t: nat, e: nat, i: nat)
    requires CountedCells(s) && t < |s| && e < |s| && t != e && s[e].rc != null
    requires i < |s| && AssignMove(s, t, e)[i].rc != null
    ensures var a := AssignMove(s, t, e);
      a[i].obj != null && !a[i].rcFreed && !a[i].objFreed && a[i].count == CountIn(Rcs(a), a[i].rc)
  {
    MoveAssignFlagsAt(s, t, e, i);
    MoveAssignCountAt(s, t, e, i);
  }

  /** A move assignment frees nothing that a remaining handle points at. */
  lemma MoveAssignFlagsAt(s: seq<Cell>, t: nat, e: nat, i: nat)
    requires CountedCells(s) && t < |s| && e < |s| && t != e && s[e].rc != null
    requires i < |s| && AssignMove(s, t, e)[i].rc != null
    ensures var a := AssignMove(s, t, e);
      a[i].obj != null && !a[i].rcFreed && !a[i].objFreed
  {
    var a := AssignMove(s, t, e);
    var ce := s[e].rc;
    var src := if i == t then e else i;
    var c := s[src].rc;
    assert Rcs(a) == Rcs(s)[t := ce][e := null];
    CountInUpdate(Rcs(s), t, ce, c);
    CountInUpdate(Rcs(s)[t := ce], e, null, c);
    CountInPositive(Rcs(s), src);
    if s[t].rc != null {
      CountInPositive(Rcs(s), t);
      if s[t].count == 1 && c == s[t].rc {
        CountInOne(Rcs(s), t, src);
      }
    }
  }

  /** After move assignment each count is the old one, less one for `t`'s counter. */
  lemma MoveAssignCountAt(s: seq<Cell>, t: nat, e: nat, i: nat)
    requires CountedCells(s) && t < |s| && e < |s| && t != e && s[e].rc != null
    requires i < |s| && AssignMove(s, t, e)[i].rc != null
    ensures var a := AssignMove(s, t, e);
      a[i].count == CountIn(Rcs(a), a[i].rc)
  {
    var a := AssignMove(s, t, e);
    var ce := s[e].rc;
    var src := if i == t then e else i;
    var c := s[src].rc;
    assert Rcs(a) == Rcs(s)[t := ce][e := null];
    CountInUpdate(Rcs(s), t, ce, c);
    CountInUpdate(Rcs(s)[t := ce], e, null, c);
    CountInPositive(Rcs(s), src);
    if s[t].rc != null {
      CountInPositive(Rcs(s), t);
      if s[t].count == 1 && c == s[t].rc {
        CountInOne(Rcs(s), t, src);
      }
    }
  }

  /** Move assignment between two different handles keeps the invariant. */
  lemma MoveAssignCounted(s: seq<Cell>, t: nat, e: nat)
    requires CountedCells(s) && t < |s| && e < |s| && t != e && s[e].rc != null
    ensures CountedCells(AssignMove(s, t, e))
  {
    var a := AssignMove(s, t, e);
    assert NullsClear(a);
    forall i, j | 0 <= i < |a| && 0 <= j < |a|
      ensures a[i].rc == a[j].rc <==> a[i].obj == a[j].obj
    {
      if i != e && j != e {
        var i', j' := if i == t then e else i, if j == t then e else j;
        assert a[i].rc == s[i'].rc && a[i].obj == s[i'].obj;
        assert a[j].rc == s[j'].rc && a[j].obj == s[j'].obj;
      }
    }
    forall i | 0 <= i < |a| && a[i].rc != null
      ensures a[i].obj != null && !a[i].rcFreed && !a[i].objFreed && a[i].count == CountIn(Rcs(a), a[i].rc)
    {
      MoveAssignLiveAt(s, t, e, i);
    }
  }

  /** `MySharedPtr<MyTestClass>`: a possibly null object pointer and counter pointer. */
  class Handle {
    var obj: Payload?
    var rc: Counter?

    /** `MySharedPtr() = default`: both pointers null. */
    constructor Default(ghost hs: seq<Handle>)
      requires Counted(hs)
      ensures obj == null && rc == null
      ensures Counted(hs + [this])
    {
      obj := null;
      rc := null;
      new;
      ghost var t := hs + [this];
      assert Snap(t) == old(Snap(hs)) + [NullCell];
      AppendNullCounted(old(Snap(hs)));
    }

    /** `MySharedPtr(args...)`: a fresh object and a fresh counter at 1. */
    constructor Make(value: string, ghost hs: seq<Handle>)
      requires Counted(hs)
      ensures fresh(obj) && fresh(rc) && obj != null && rc != null
      ensures obj.value == value && !obj.freed && rc.count == 1 && !rc.freed
      ensures Counted(hs + [this])
    {
      var p := new Payload(value);
      var c := new Counter(1);
      obj := p;
      rc := c;
      new;
      ghost var t := hs + [this];
      assert Snap(t) == old(Snap(hs)) + [Cell(c, p, 1, false, false)];
      AppendFreshCounted(old(Snap(hs)), c, p);
    }

    /** The copy constructor: share `e`'s object and counter and add one to the count. */
    constructor Copy(e: Handle, ghost hs: seq<Handle>, ghost k: nat)
      requires Counted(hs) && k < |hs| && hs[k] == e && e.rc != null
      modifies e.rc
      ensures obj == e.obj && rc == e.rc && rc.count == old(e.rc.count) + 1
      ensures Snap(hs + [this]) == Bump(old(Snap(hs)), e.rc) + [Bump(old(Snap(hs)), e.rc)[k]]
      ensures Counted(hs + [this])
    {
      obj := e.obj;
      rc := e.rc;
      new;
      rc.count := rc.count + 1;
      ghost var s := old(Snap(hs));
      assert Snap(hs + [this]) == Bump(s, rc) + [Bump(s, rc)[k]];
      CopyCounted(s, k);
    }

    /** The move constructor: take `e`'s object and counter, leaving `e` null; no count changes. */
    constructor Move(e: Handle, ghost hs: seq<Handle>, ghost k: nat)
      requires Counted(hs) && k < |hs| && hs[k] == e && e.rc != null
      modifies e
      ensures obj == old(e.obj) && rc == old(e.rc) && e.obj == null && e.rc == null
      ensures Snap(hs + [this]) == old(Snap(hs))[k := NullCell] + [old(Snap(hs))[k]]
      ensures Counted(hs + [this])
    {
      obj := e.obj;
      rc := e.rc;
      new;
      e.obj := null;
      e.rc := null;
      ghost var s := old(Snap(hs));
      assert Snap(hs + [this]) == s[k := NullCell] + [s[k]];
      MoveCounted(s, k);
    }

    /**
     * Managing the previous reference, as the destructor and both assignments
     * do: a non-null handle takes one off its count and frees the object and
     * the counter when it reaches 0. The pointers are left as they were.
     */
    method ReleaseRef(ghost hs: seq<Handle>, ghost k: nat)
      requires Counted(hs) && k < |hs| && hs[k] == this
      modifies rc, obj
      ensures rc == old(rc) && obj == old(obj)
      ensures rc != null ==> rc.count == old(rc.count) - 1 && (rc.freed <==> old(rc.count) == 1)
      ensures rc != null && obj != null ==> (obj.freed <==> old(rc.count) == 1)
      ensures Snap(hs) == if rc != null then Release(old(Snap(hs)), rc) else old(Snap(hs))
    {
      ghost var s := Snap(hs);
      assert s[k].rc == rc && s[k].obj == obj;
      if obj != null && rc != null {
        CountInPositive(Rcs(s), k);
        rc.count := rc.count - 1;
        if rc.count == 0 {
          obj.freed := true;
          rc.freed := true;
        }
        assert Snap(hs) == Release(s, rc);
      }
    }

    /** The destructor of handle `k`: release its reference; the other handles stay counted. */
    method Destroy(ghost hs: seq<Handle>, ghost k: nat)
      requires Counted(hs) && k < |hs| && hs[k] == this
      modifies rc, obj
      ensures rc == old(rc) && obj == old(obj)
      ensures rc != null ==> rc.count == old(rc.count) - 1 && (rc.freed <==> old(rc.count) == 1)
      ensures rc != null && obj != null ==> (obj.freed <==> old(rc.count) == 1)
      ensures rc != null ==> Snap(Without(hs, k)) == Without(Release(old(Snap(hs)), rc), k)
      ensures rc == null ==> Snap(Without(hs, k)) == Without(old(Snap(hs)), k)
      ensures Counted(Without(hs, k))
    {
      ghost var s := Snap(hs);
      ReleaseRef(hs, k);
      SnapUnregister(hs, k);
      if rc != null {
        DestroyCounted(s, k);
      } else {
        DestroyNullCounted(s, k);
      }
    }

    /** Point this handle (`t`) at `e`'s object and counter (`ei`) and add one to the count. */
    method Share(e: Handle, ghost hs: seq<Handle>, ghost t: nat, ghost ei: nat)
      requires Distinct(hs) && t < |hs| && ei < |hs| && hs[t] == this && hs[ei] == e && e.rc != null
      modifies this, e.rc
      ensures obj == old(e.obj) && rc == old(e.rc) && rc.count == old(e.rc.count) + 1
      ensures Snap(hs) == Bump(old(Snap(hs))[t := old(Snap(hs))[ei]], rc)
    {
      obj := e.obj;
      rc := e.rc;
      rc.count := rc.count + 1;
    }

    /**
     * Copy assignment from handle `e` (`ei` in the registry) into this handle
     * (`t`): release the old counter, freeing on the last reference, then
     * share `e`'s object and counter and add one. When this handle holds the
     * only reference and is assigned to itself, the release frees what is
     * then shared and counted again.
     */
    method CopyAssign(e: Handle, ghost hs: seq<Handle>, ghost t: nat, ghost ei: nat)
      requires Counted(hs) && t < |hs| && ei < |hs| && hs[t] == this && hs[ei] == e && e.rc != null
      modifies this, rc, obj, e.rc
      ensures obj == old(e.obj) && rc == old(e.rc)
      ensures rc != null && rc.count == old(e.rc.count) + (if old(rc) == old(e.rc) then 0 else 1)
      ensures old(rc) != null && old(obj) != null && old(rc) != old(e.rc) ==>
        (old(rc).freed <==> old(rc.count) == 1) && (old(obj).freed <==> old(rc.count) == 1)
      ensures Snap(hs) == AssignCopy(old(Snap(hs)), t, ei)
      ensures this != e || (old(rc) != null && old(rc.count) >= 2) ==> Counted(hs)
      ensures this == e && old(rc) != null && old(rc.count) == 1 ==> rc.freed && obj.freed && rc.count == 1
    {
      ghost var s := Snap(hs);
      ReleaseRef(hs, t);
      ghost var r := Snap(hs);
      Share(e, hs, t, ei);
      BumpShare(r, t, ei, rc);
      if this != e || s[t].count >= 2 {
        CopyAssignCounted(s, t, ei);
      } else {
        SelfCopyAssignFrees(s, t);
      }
    }

    /** Point this handle (`t`) at `e`'s object and counter (`ei`) and null `e`; no count changes. */
    method Take(e: Handle, ghost hs: seq<Handle>, ghost t: nat, ghost ei: nat)
      requires Distinct(hs) && t < |hs| && ei < |hs| && t != ei && hs[t] == this && hs[ei] == e
      modifies this, e
      ensures obj == old(e.obj) && rc == old(e.rc) && e.obj == null && e.rc == null
      ensures Snap(hs) == old(Snap(hs))[t := old(Snap(hs))[ei]][ei := NullCell]
    {
      obj := e.obj;
      rc := e.rc;
      e.obj := null;
      e.rc := null;
    }

    /**
     * Move assignment from a different handle `e` (`ei` in the registry) into
     * this handle (`t`): release the old counter, freeing on the last
     * reference, then take `e`'s object and counter and leave `e` null.
     */
    method MoveAssign(e: Handle, ghost hs: seq<Handle>, ghost t: nat, ghost ei: nat)
      requires Counted(hs) && t < |hs| && ei < |hs| && hs[t] == this && hs[ei] == e
      requires this != e && e.rc != null
      modifies this, e, rc, obj
      ensures obj == old(e.obj) && rc == old(e.rc) && e.obj == null && e.rc == null
      ensures Snap(hs) == AssignMove(old(Snap(hs)), t, ei)
      ensures Counted(hs)
    {
      ghost var s := Snap(hs);
      ReleaseRef(hs, t);
      Take(e, hs, t, ei);
      MoveAssignCounted(s, t, ei);
    }

    /** `get()`: the managed object. */
    function Get(): Payload?
      reads this
    {
      obj
    }

    /** What `get()` gives on a counted handle is null exactly for a null handle, and otherwise live. */
    lemma GetLive(hs: seq<Handle>, k: nat)
      requires Counted(hs) && k < |hs| && hs[k] == this
      ensures Get() == null <==> rc == null
      ensures Get() != null ==> !Get().freed && rc != null && !rc.freed && rc.count >= 1
    {
      var s := Snap(hs);
      assert s[k].rc == rc && s[k].obj == obj;
      if rc != null {
        CountInPositive(Rcs(s), k);
      }
    }
  }

  /**
   * The first block of `main()`: a handle made on "asdf" is move-assigned
   * into the default handle `ptr` and then destroyed, null.
   */
  method MoveScope(ptr: Handle)
    requires ptr.rc == null && ptr.obj == null
    modifies ptr
    ensures ptr.rc != null && ptr.obj != null && fresh(ptr.rc) && fresh(ptr.obj)
    ensures ptr.obj.value == "asdf" && ptr.rc.count == 1 && Counted([ptr])
  {
    ghost var hs := [ptr];
    assert Snap(hs) == [NullCell];
    var ptr2 := new Handle.Make("asdf", hs);
    hs := hs + [ptr2];
    ptr.MoveAssign(ptr2, hs, 0, 1);
    ptr2.Destroy(hs, 1);
    assert Without(hs, 1) == [ptr];
  }

  /**
   * The second block of `main()`: a copy of `ptr` reads its value; then the
   * "fdsa" handle comes and goes; then the copy is destroyed.
   */
  method CopyScope(ptr: Handle) returns (copied: string, created: string, afterAssign: string,
                                         fdsaFreed: bool, count: nat)
    requires Counted([ptr]) && ptr.rc != null && ptr.obj != null
    modifies ptr.rc, ptr.obj
    ensures copied == ptr.obj.value && created == "fdsa" && afterAssign == ptr.obj.value
    ensures fdsaFreed && count == old(ptr.rc.count) + 2
    ensures ptr.rc.count == old(ptr.rc.count) && Counted([ptr])
  {
    var copy := new Handle.Copy(ptr, [ptr], 0);
    assert [ptr] + [copy] == [ptr, copy];
    copy.GetLive([ptr, copy], 1);
    copied := copy.Get().GetValue();
    created, afterAssign, fdsaFreed, count := AssignScope(ptr, copy);
    copy.Destroy([ptr, copy], 1);
    assert Without([ptr, copy], 1) == [ptr];
  }

  /**
   * Within the second block: a handle `ptr3` made on "fdsa" is copy-assigned
   * from `ptr`, which frees "fdsa" (its only reference) and adds one to
   * `ptr`'s count; `ptr3` then reads `ptr`'s value and is destroyed.
   */
  method AssignScope(ptr: Handle, copy: Handle) returns (created: string, afterAssign: string,
                                                         fdsaFreed: bool, count: nat)
    requires Counted([ptr, copy]) && ptr.rc != null && ptr.obj != null
    modifies ptr.rc, ptr.obj
    ensures created == "fdsa" && afterAssign == ptr.obj.value
    ensures fdsaFreed && count == old(ptr.rc.count) + 1
    ensures ptr.rc.count == old(ptr.rc.count) && Counted([ptr, copy])
  {
    var ptr3 := new Handle.Make("fdsa", [ptr, copy]);
    ghost var hs := [ptr, copy, ptr3];
    assert [ptr, copy] + [ptr3] == hs;
    ptr3.GetLive(hs, 2);
    var f := ptr3.Get();
    created := f.GetValue();
    ptr3.CopyAssign(ptr, hs, 2, 0);
    fdsaFreed := f.freed;
    count := ptr3.rc.count;
    ptr3.GetLive(hs, 2);
    afterAssign := ptr3.Get().GetValue();
    ptr3.Destroy(hs, 2);
    assert Without(hs, 2) == [ptr, copy];
  }

  /**
   * `main()`: a default handle takes over "asdf" by move assignment; a copy
   * of it reads "asdf"; a new handle on "fdsa" is copy-assigned from the
   * first, which frees "fdsa" and leaves three handles on "asdf"; the
   * destructors at the ends of the scopes free "asdf" last.
   */
  method MainTrace() returns (copied: string, created: string, afterAssign: string,
                              fdsaFreed: bool, count: nat, asdfFreed: bool)
    ensures copied == "asdf" && created == "fdsa" && afterAssign == "asdf"
    ensures fdsaFreed && count == 3
    ensures asdfFreed
  {
    var ptr := new Handle.Default([]);
    MoveScope(ptr);
    copied, created, afterAssign, fdsaFreed, count := CopyScope(ptr);
    ptr.Destroy([ptr], 0);
    asdfFreed := ptr.obj.freed;
  }
}
