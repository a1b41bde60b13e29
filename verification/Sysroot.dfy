/** The sysroot operations in place: shifting, validating, and preparing with the
    marker. Any file operation may fail; `budget` counts those that still succeed. */
module Sysroot {
  import opened IdShift
  import opened IdTree

  /** Why an operation ended early. */
  datatype Stop = Io | Ids

  datatype Option<+T> = None | Some(value: T)

  class Rootfs {
    var owner: Owners
    var marker: Option<Mapping>
    var budget: nat

    constructor (owner: Owners, marker: Option<Mapping>, budget: nat)
      ensures this.owner == owner && this.marker == marker && this.budget == budget
    {
      this.owner, this.marker, this.budget := owner, marker, budget;
    }

    /** One file operation. */
    method Call() returns (ok: bool)
      modifies this`budget
      ensures !ok <==> old(budget) == 0
      ensures budget == if ok then old(budget) - 1 else 0
    {
      ok := budget > 0;
      if ok { budget := budget - 1; }
    }

    /** `shift_entry`: what it did is the shift of the first `done` inodes in visiting
        order; all of them on success. It stops for an id only where the fold stops. */
    method ShiftEntry(e: Entry, m: Mapping) returns (stop: Option<Stop>, ghost done: nat)
      requires Known(owner, Visit(e))
      modifies this`owner, this`budget
      ensures done <= |Visit(e)| && Shift(old(owner), Visit(e)[..done], m) == Outcome(owner, true)
      ensures owner.Keys == old(owner).Keys
      ensures stop.None? ==> done == |Visit(e)|
      ensures stop == Some(Ids) ==> Shift(old(owner), Visit(e), m) == Outcome(owner, false)
      ensures stop == Some(Io) ==> budget == 0
      decreases e
    {
      ghost var start := owner;
      assert Visit(e)[..0] == [] && Visit(e)[0] == e.inode;
      assert Visit(e)[..1] == [e.inode];
      done := 0;
      var ok := Call();
      if !ok { return Some(Io), 0; }
      var before := owner[e.inode];
      var shifted := ShiftedOwner(before, m);
      if shifted.Err? { return Some(Ids), 0; }
      if shifted.value != before {
        ok := Call();
        if !ok { return Some(Io), 0; }
        owner := owner[e.inode := shifted.value];
      }
      FirstShift(start, owner, e.inode, m);
      done := 1;
      if e.Dir? {
        ok := Call();
        if !ok { return Some(Io), 1; }
        stop, done := ShiftChildren(e, m, start);
        return;
      }
      return None, 1;
    }

    /** The loop over the directory entries. */
    method ShiftChildren(e: Entry, m: Mapping, ghost start: Owners) returns (stop: Option<Stop>, ghost done: nat)
      requires e.Dir? && Known(start, Visit(e)) && start.Keys == owner.Keys && Known(start, [e.inode])
      requires Shift(start, [e.inode], m) == Outcome(owner, true)
      modifies this`owner, this`budget
      ensures done <= |Visit(e)| && Shift(start, Visit(e)[..done], m) == Outcome(owner, true)
      ensures owner.Keys == start.Keys
      ensures stop.None? ==> done == |Visit(e)|
      ensures stop == Some(Ids) ==> Shift(start, Visit(e), m) == Outcome(owner, false)
      ensures stop == Some(Io) ==> budget == 0
      decreases e, 0
    {
      var i := 0;
      ghost var seen := [e.inode];
      assert e.children[..0] == [] && [e.inode] + [] == [e.inode];
      done := 1;
      while i < |e.children|
        invariant i <= |e.children| && seen == [e.inode] + VisitAll(e.children[..i])
        invariant seen <= Visit(e) && done == |seen|
        invariant owner.Keys == start.Keys && Shift(start, seen, m) == Outcome(owner, true)
      {
        var ok := Call();
        if !ok { assert Visit(e)[..done] == seen; return Some(Io), done; }
        VisitSplits(e, i);
        KnownChild(owner, e, i);
        ghost var mid, child := owner, Visit(e.children[i]);
        var result, part := ShiftEntry(e.children[i], m);
        done := |seen| + part;
        ResumeShift(start, seen, mid, child, part, Visit(e), m);
        if result.Some? { return result, done; }
        assert child[..part] == child;
        seen := seen + child;
        i := i + 1;
      }
      assert e.children[..i] == e.children;
      assert Visit(e)[..done] == seen;
      return None, done;
    }

    /** `validate_entry`: succeeds only on a fully mapped tree, and gives up on one
        only where a file operation failed. */
    method ValidateEntry(e: Entry, m: Mapping) returns (stop: Option<Stop>)
      requires Known(owner, Visit(e))
      modifies this`budget
      ensures stop.None? ==> AllMapped(owner, Visit(e), m)
      ensures stop == Some(Ids) ==> !AllMapped(owner, Visit(e), m)
      ensures stop == Some(Io) ==> budget == 0
      decreases e
    {
      var ok := Call();
      if !ok { return Some(Io); }
      assert Visit(e)[0] == e.inode && e.inode in Visit(e);
      if !MappedOwner(owner[e.inode], m) { return Some(Ids); }
      if e.File? {
        assert Visit(e) == [e.inode];
        return None;
      }
      ok := Call();
      if !ok { return Some(Io); }
      var i := 0;
      while i < |e.children|
        invariant i <= |e.children|
        invariant AllMappedIn(owner, VisitAll(e.children[..i]), m)
      {
        ok := Call();
        if !ok { return Some(Io); }
        KnownChild(owner, e, i);
        stop := ValidateEntry(e.children[i], m);
        VisitSplits(e, i);
        if stop.Some? { return; }
        VisitAllSnoc(e.children, i);
        i := i + 1;
      }
      assert e.children[..i] == e.children;
      assert Visit(e) == [e.inode] + VisitAll(e.children);
      return None;
    }

    /** The part of `fix_sysroot_with_identity` that concerns ownership: a matching
        marker ends it, another one is an error, and without one the tree is shifted and
        only then the marker written. */
    method Fix(root: Entry, m: Mapping) returns (ok: bool, ghost done: nat)
      requires Known(owner, Visit(root))
      modifies this
      ensures owner.Keys == old(owner).Keys
      ensures old(marker) == Some(m) ==> ok && owner == old(owner) && marker == old(marker)
      ensures old(marker).Some? && old(marker) != Some(m) ==> !ok && owner == old(owner) && marker == old(marker)
      ensures old(marker).None? ==>
                && done <= |Visit(root)|
                && Shift(old(owner), Visit(root)[..done], m) == Outcome(owner, true)
                && marker == (if ok then Some(m) else None)
                && (ok ==> done == |Visit(root)|)
                && (!ok && budget > 0 ==> !Shift(old(owner), Visit(root), m).ok)
    {
      done := 0;
      if marker == Some(m) { return true, 0; }
      if marker.Some? { return false, 0; }
      var stop, part := ShiftEntry(root, m);
      done := part;
      if stop.Some? {
        assert stop.value.Io? || stop.value.Ids?;
        return false, done;
      }
      var wrote := Call();
      if !wrote { return false, done; }
      marker := Some(m);
      return true, done;
    }

    /** `identity_issues`: none exactly when marker and tree match the mapping and every
        file operation worked. */
    method NoIdentityIssues(root: Entry, m: Mapping) returns (clean: bool)
      requires Known(owner, Visit(root))
      modifies this`budget
      ensures clean ==> marker == Some(m) && AllMapped(owner, Visit(root), m)
      ensures !clean ==> marker != Some(m) || !AllMapped(owner, Visit(root), m) || budget == 0
    {
      if marker != Some(m) { return false; }
      var stop := ValidateEntry(root, m);
      assert stop.Some? ==> stop.value.Io? || stop.value.Ids?;
      return stop.None?;
    }
  }

  predicate AllMappedIn(owner: Owners, order: seq<nat>, m: Mapping) {
    forall i :: i in order ==> i in owner && MappedOwner(owner[i], m)
  }

  /** Preparing a rootfs without a marker: after an interrupted attempt and a second one
      that succeeds, listing directories in any order, the tree is the one a single
      uninterrupted run gives, and it has identity issues exactly when some owner was the
      missed one. */
  method PrepareTwice(fs: Rootfs, root: Entry, again: Entry, m: Mapping, more: nat) returns (ok: bool)
    requires Known(fs.owner, Visit(root)) && fs.marker.None?
    requires multiset(Visit(again)) == multiset(Visit(root))
    modifies fs
    ensures ok ==>
              && fs.marker == Some(m)
              && Shift(old(fs.owner), Visit(root), m) == Outcome(fs.owner, true)
              && Known(fs.owner, Visit(root))
              && (AllMapped(fs.owner, Visit(root), m) <==> NoneMissed(old(fs.owner), Visit(root), m))
    ensures Sound(m.uid) && Sound(m.gid) && !ok && fs.budget > 0 ==> !Shift(old(fs.owner), Visit(root), m).ok
  {
    ghost var start, order := fs.owner, Visit(root);
    ghost var done: nat;
    ok, done := fs.Fix(root, m);
    if ok {
      assert order[..done] == order;
      ValidAfterShift(start, order, m);
      return;
    }
    SecondAttempt(start, order, done, Visit(again), m);
    fs.budget := more;
    ok, done := fs.Fix(again, m);
    assert ok ==> Visit(again)[..done] == Visit(again);
  }

  /** What a second attempt can come to. */
  lemma SecondAttempt(start: Owners, order: seq<nat>, n: nat, other: seq<nat>, m: Mapping)
    requires Known(start, order) && n <= |order| && Shift(start, order[..n], m).ok
    requires multiset(other) == multiset(order)
    ensures var mid := Shift(start, order[..n], m).owner;
            && Known(mid, other)
            && (Shift(mid, other, m).ok ==>
                  && Shift(start, order, m) == Shift(mid, other, m)
                  && (AllMapped(Shift(start, order, m).owner, order, m) <==> NoneMissed(start, order, m)))
            && (Sound(m.uid) && Sound(m.gid) && !Shift(mid, other, m).ok ==> !Shift(start, order, m).ok)
  {
    var mid := Shift(start, order[..n], m).owner;
    SameInodesKnown(mid, order, other);
    RerunInAnyOrder(start, order, n, other, m);
    if Sound(m.uid) && Sound(m.gid) { SoundTree(start, order[..n], m); }
    if Shift(mid, other, m).ok { ValidAfterShift(start, order, m); }
  }

  /** The first inode, changed or not. */
  lemma FirstShift(start: Owners, after: Owners, inode: nat, m: Mapping)
    requires inode in start && ShiftedOwner(start[inode], m).Ok?
    requires after == start[inode := ShiftedOwner(start[inode], m).value] ||
             (after == start && ShiftedOwner(start[inode], m).value == start[inode])
    ensures Shift(start, [inode], m) == Outcome(after, true) && after.Keys == start.Keys
  {
    var next := start[inode := ShiftedOwner(start[inode], m).value];
    assert next == after;
    assert [inode][1..] == [] && Shift(next, [], m) == Outcome(next, true);
  }

  lemma KnownChild(owner: Owners, e: Entry, i: nat)
    requires e.Dir? && i < |e.children| && forall n :: n in Visit(e) ==> n in owner
    ensures Known(owner, Visit(e.children[i]))
  {
    VisitSplits(e, i);
  }

  /** Having shifted `seen`, shifting part of a child is shifting that much more. */
  lemma ResumeShift(
      start: Owners, seen: seq<nat>, mid: Owners, child: seq<nat>, part: nat, all: seq<nat>, m: Mapping)
    requires Known(start, all) && Known(start, seen) && mid.Keys == start.Keys
    requires seen + child <= all && part <= |child|
    requires Shift(start, seen, m) == Outcome(mid, true)
    ensures Known(mid, child) && |seen| + part <= |all|
    ensures Shift(start, all[..|seen| + part], m) == Shift(mid, child[..part], m)
    ensures !Shift(mid, child, m).ok ==> Shift(start, all, m) == Shift(mid, child, m)
    ensures part == |child| ==> Shift(start, seen + child, m) == Shift(mid, child, m)
  {
    var both := seen + child;
    assert forall i :: 0 <= i < |both| ==> both[i] == all[i];
    assert forall i :: 0 <= i < |seen| ==> both[i] == seen[i];
    assert forall i :: 0 <= i < |child| ==> both[|seen| + i] == child[i];
    CutInside(seen, child, part, all);
    ShiftConcat(start, seen, child[..part], m);
    ShiftConcat(start, seen, child, m);
    if !Shift(mid, child, m).ok { FailureStays(start, both, all, m); }
  }

  lemma CutInside(seen: seq<nat>, child: seq<nat>, part: nat, all: seq<nat>)
    requires seen + child <= all && part <= |child|
    ensures all[..|seen| + part] == seen + child[..part]
  {
  }

  lemma FailureStays(start: Owners, order: seq<nat>, all: seq<nat>, m: Mapping)
    requires order <= all && Known(start, all) && Known(start, order) && !Shift(start, order, m).ok
    ensures Shift(start, all, m) == Shift(start, order, m)
  {
    var rest := all[|order|..];
    assert all == order + rest;
    ShiftConcat(start, order, rest, m);
  }
}
