/** What shifting means for a whole tree: validation, reruns after an interruption, the
    way back, and the order in which entries are visited. */
module IdTree {
  import opened IdShift

  predicate AllMapped(owner: Owners, order: seq<nat>, m: Mapping)
    requires Known(owner, order)
  {
    forall i :: i in order ==> MappedOwner(owner[i], m)
  }

  predicate NoneMissed(owner: Owners, order: seq<nat>, m: Mapping)
    requires Known(owner, order)
  {
    forall i :: i in order ==> !MissedOwner(owner[i], m)
  }

  /** After a successful shift the tree validates exactly when no owner was the
      missed one. */
  lemma ValidAfterShift(owner: Owners, order: seq<nat>, m: Mapping)
    requires Known(owner, order) && Shift(owner, order, m).ok
    ensures AllMapped(Shift(owner, order, m).owner, order, m) <==> NoneMissed(owner, order, m)
  {
    ShiftPointwise(owner, order, m);
    forall i | i in order
      ensures MappedOwner(Shift(owner, order, m).owner[i], m) <==> !MissedOwner(owner[i], m)
    {
      ShiftedOwnerIsMapped(owner[i], m);
    }
  }

  /** Visiting mapped owners changes nothing. */
  lemma {:induction false} MappedIsFixed(owner: Owners, order: seq<nat>, m: Mapping)
    requires Known(owner, order) && AllMapped(owner, order, m)
    ensures Shift(owner, order, m) == Outcome(owner, true)
    decreases |order|
  {
    if order != [] {
      var o := owner[order[0]];
      assert ShiftedOwner(o, m) == Ok(o);
      assert owner[order[0] := o] == owner;
      MappedIsFixed(owner, order[1..], m);
    }
  }

  /** Running again after an interruption: if the part already shifted holds no missed
      id the outcome is that of one uninterrupted run, and otherwise it fails. */
  lemma RerunAfterInterruption(owner: Owners, order: seq<nat>, n: nat, m: Mapping)
    requires Known(owner, order) && n <= |order| && Shift(owner, order[..n], m).ok
    ensures var mid := Shift(owner, order[..n], m).owner;
            if NoneMissed(owner, order[..n], m) then Shift(mid, order, m) == Shift(owner, order, m)
            else !Shift(mid, order, m).ok
  {
    var a, b := order[..n], order[n..];
    assert order == a + b;
    var mid := Shift(owner, a, m).owner;
    ShiftConcat(owner, a, b, m);
    ShiftConcat(mid, a, b, m);
    ValidAfterShift(owner, a, m);
    if NoneMissed(owner, a, m) {
      MappedIsFixed(mid, a, m);
    } else {
      var i :| i in a && MissedOwner(owner[i], m);
      ShiftPointwise(owner, a, m);
      ShiftedOwnerIsMapped(owner[i], m);
      ShiftSucceeds(mid, a, m);
    }
  }

  // ----- another visiting order -----

  lemma CountTwo(a: seq<nat>, x: nat, j: nat, k: nat)
    requires j < k < |a| && a[j] == x && a[k] == x
    ensures multiset(a)[x] >= 2
  {
    assert a == a[..k] + [a[k]] + a[k + 1..];
    assert a[..k][j] == x && x in multiset(a[..k]);
  }

  lemma TwoPlaces(a: seq<nat>, x: nat) returns (j: nat, k: nat)
    requires multiset(a)[x] >= 2
    ensures j < k < |a| && a[j] == x && a[k] == x
  {
    assert x in multiset(a) && x in a;
    j :| 0 <= j < |a| && a[j] == x;
    var b := a[..j] + a[j + 1..];
    assert a == a[..j] + [x] + a[j + 1..];
    assert multiset(a) == multiset(b) + multiset{x};
    assert x in multiset(b) && x in b;
    var i :| 0 <= i < |b| && b[i] == x;
    k := if i < j then i else i + 1;
    assert a[k] == x;
    if k < j { j, k := k, j; }
  }

  /** Success in terms of how often inodes are visited, not when. */
  lemma ShiftSucceedsByCount(owner: Owners, order: seq<nat>, m: Mapping)
    requires Known(owner, order)
    ensures Shift(owner, order, m).ok <==>
            forall i :: i in multiset(order) ==>
              CanShift(owner[i].uid, m.uid) && CanShift(owner[i].gid, m.gid) && (multiset(order)[i] >= 2 ==> !MissedOwner(owner[i], m))
  {
    ShiftSucceeds(owner, order, m);
    if forall j, k :: 0 <= j < k < |order| && order[j] == order[k] ==> !MissedOwner(owner[order[j]], m) {
      forall i | i in multiset(order) && multiset(order)[i] >= 2 ensures !MissedOwner(owner[i], m) {
        var j, k := TwoPlaces(order, i);
      }
    }
    forall j, k | 0 <= j < k < |order| && order[j] == order[k] ensures multiset(order)[order[j]] >= 2 {
      CountTwo(order, order[j], j, k);
    }
  }

  /** A successful shift does not depend on the visiting order. */
  lemma OrderDoesNotMatter(owner: Owners, order: seq<nat>, other: seq<nat>, m: Mapping)
    requires Known(owner, order) && Known(owner, other) && multiset(other) == multiset(order)
    ensures Shift(owner, other, m).ok <==> Shift(owner, order, m).ok
    ensures Shift(owner, order, m).ok ==> Shift(owner, other, m) == Shift(owner, order, m)
  {
    ShiftSucceedsByCount(owner, order, m);
    ShiftSucceedsByCount(owner, other, m);
    if Shift(owner, order, m).ok {
      ShiftPointwise(owner, order, m);
      ShiftPointwise(owner, other, m);
      var a, b := Shift(owner, order, m).owner, Shift(owner, other, m).owner;
      forall i | i in owner ensures a[i] == b[i] {
        assert i in order <==> i in multiset(order);
        assert i in other <==> i in multiset(other);
      }
      assert a == b;
    }
  }

  lemma SameInodesKnown(owner: Owners, order: seq<nat>, other: seq<nat>)
    requires Known(owner, order) && multiset(other) == multiset(order)
    ensures Known(owner, other)
  {
    forall i | 0 <= i < |other| ensures other[i] in owner {
      assert other[i] in multiset(order);
      assert other[i] in order;
    }
  }

  /** The rerun may list directories in another order than the interrupted run. */
  lemma RerunInAnyOrder(owner: Owners, order: seq<nat>, n: nat, other: seq<nat>, m: Mapping)
    requires Known(owner, order) && n <= |order| && Shift(owner, order[..n], m).ok
    requires multiset(other) == multiset(order)
    ensures Known(owner, other)
    ensures var mid := Shift(owner, order[..n], m).owner;
            if NoneMissed(owner, order[..n], m)
            then (Shift(mid, other, m).ok <==> Shift(owner, order, m).ok)
              && (Shift(owner, order, m).ok ==> Shift(mid, other, m) == Shift(owner, order, m))
            else !Shift(mid, other, m).ok
  {
    SameInodesKnown(owner, order, other);
    var mid := Shift(owner, order[..n], m).owner;
    RerunAfterInterruption(owner, order, n, m);
    OrderDoesNotMatter(mid, order, other, m);
  }

  /** Under a sound mapping no owner is ever missed. */
  lemma SoundTree(owner: Owners, order: seq<nat>, m: Mapping)
    requires Known(owner, order) && Sound(m.uid) && Sound(m.gid)
    ensures NoneMissed(owner, order, m)
  {
    SoundMissesNothing(m.uid);
    SoundMissesNothing(m.gid);
  }

  /** The container's view of a shifted tree is the original one, if the original ids
      lie in the container range and that range lies below the host range. */
  lemma UnshiftTree(owner: Owners, order: seq<nat>, m: Mapping, i: nat)
    requires Known(owner, order) && Shift(owner, order, m).ok && i in order
    requires m.uid.size <= m.uid.host && m.gid.size <= m.gid.host
    requires owner[i].uid < m.uid.size && owner[i].gid < m.gid.size
    ensures var after := Shift(owner, order, m).owner;
            && after[i].uid - m.uid.host == owner[i].uid
            && after[i].gid - m.gid.host == owner[i].gid
  {
    ShiftPointwise(owner, order, m);
    UnshiftExact(m.uid);
    UnshiftExact(m.gid);
  }

  /** With the range at the very end of the id space, one root-owned directory holding
      a file of the last container id shifts without error, does not validate, and
      cannot be shifted again. */
  lemma LastIdBreaks()
    ensures var range := IdMapping(0, MAX - 65_535, ID_MAP_SIZE);
            var m := Mapping(range, range);
            var owner: Owners := map[0 := Owner(0, 0), 1 := Owner(65_535, 0)];
            var once := Shift(owner, [0, 1], m);
            && once.ok && !AllMapped(once.owner, [0, 1], m) && !Shift(once.owner, [0, 1], m).ok
  {
    var range := IdMapping(0, MAX - 65_535, ID_MAP_SIZE);
    var m := Mapping(range, range);
    var owner: Owners := map[0 := Owner(0, 0), 1 := Owner(65_535, 0)];
    var order := [0, 1];
    ShiftSucceeds(owner, order, m);
    ValidAfterShift(owner, order, m);
    assert Missed(65_535, range) && 1 in order && MissedOwner(owner[1], m);
    assert order[..2] == order;
    RerunAfterInterruption(owner, order, 2, m);
  }

  // ----- visiting -----

  lemma {:induction false} VisitAllSnoc(entries: seq<Entry>, i: nat)
    requires i < |entries|
    ensures VisitAll(entries[..i + 1]) == VisitAll(entries[..i]) + Visit(entries[i])
    decreases i
  {
    if i == 0 {
      assert entries[..1][1..] == [] && entries[..0] == [];
    } else {
      var rest := entries[1..];
      assert entries[..i + 1][1..] == rest[..i] && entries[..i][1..] == rest[..i - 1];
      VisitAllSnoc(rest, i - 1);
      assert Visit(entries[0]) + (VisitAll(rest[..i - 1]) + Visit(entries[i])) ==
             (Visit(entries[0]) + VisitAll(rest[..i - 1])) + Visit(entries[i]);
    }
  }

  lemma {:induction false} ChildVisited(entries: seq<Entry>, i: nat)
    requires i < |entries|
    ensures forall n :: n in Visit(entries[i]) ==> n in VisitAll(entries)
    decreases i
  {
    if i > 0 { ChildVisited(entries[1..], i - 1); }
  }

  /** What is visited before, in and after one child. */
  lemma VisitSplits(e: Entry, i: nat)
    requires e.Dir? && i < |e.children|
    ensures [e.inode] + VisitAll(e.children[..i + 1]) ==
            ([e.inode] + VisitAll(e.children[..i])) + Visit(e.children[i])
    ensures forall n :: n in Visit(e.children[i]) ==> n in Visit(e)
    ensures [e.inode] + VisitAll(e.children[..i + 1]) <= Visit(e)
  {
    VisitAllSnoc(e.children, i);
    ChildVisited(e.children, i);
    VisitPrefix(e.children, i + 1);
    assert [e.inode] + (VisitAll(e.children[..i]) + Visit(e.children[i])) ==
           ([e.inode] + VisitAll(e.children[..i])) + Visit(e.children[i]);
  }

  lemma {:induction false} VisitPrefix(entries: seq<Entry>, i: nat)
    requires i <= |entries|
    ensures VisitAll(entries[..i]) <= VisitAll(entries)
    decreases |entries| - i
  {
    if i == |entries| {
      assert entries[..i] == entries;
    } else {
      VisitAllSnoc(entries, i);
      VisitPrefix(entries, i + 1);
    }
  }
}
