/** Moving file ownership into a user namespace: the arithmetic on one id, the fold
    over a tree in visiting order, and when the two do what they are for. */
module IdShift {

  const MAX := 0xFFFF_FFFF

  type Id = n: int | 0 <= n <= MAX

  const ID_MAP_SIZE: Id := 65_536

  datatype Result<+T, +E> = Ok(value: T) | Err(error: E)

  datatype Fault = OutsideMapping(id: Id) | Overflow

  datatype IdMapping = IdMapping(containerId: Id, host: Id, size: Id)

  datatype Mapping = Mapping(uid: IdMapping, gid: IdMapping)

  datatype Owner = Owner(uid: Id, gid: Id)

  function SaturatingAdd(a: Id, b: Id): Id {
    if a + b > MAX then MAX else a + b
  }

  predicate Mapped(value: Id, m: IdMapping) {
    value >= m.host && value < SaturatingAdd(m.host, m.size)
  }

  function ShiftedId(value: Id, m: IdMapping): Result<Id, Fault> {
    if value >= m.host && value < SaturatingAdd(m.host, m.size) then Ok(value)
    else if value >= m.size then Err(OutsideMapping(value))
    else if m.host + value > MAX then Err(Overflow)
    else Ok(m.host + value)
  }

  // ----- one id -----

  /** The id whose shifted value the saturated upper bound leaves out. */
  predicate Missed(value: Id, m: IdMapping) {
    !Mapped(value, m) && value < m.size && m.host + value == MAX
  }

  /** A mapping under which every shifted id counts as mapped. */
  predicate Sound(m: IdMapping) {
    m.host + m.size <= MAX || 2 * m.host <= MAX
  }

  /** A shifted id is mapped, hence a fixed point, exactly when it is not the missed
      one; shifting the missed one again is an error. */
  lemma ShiftedIsMapped(value: Id, m: IdMapping)
    requires ShiftedId(value, m).Ok?
    ensures var shifted := ShiftedId(value, m).value;
            && (Mapped(shifted, m) <==> !Missed(value, m))
            && (!Missed(value, m) ==> ShiftedId(shifted, m) == Ok(shifted))
            && (Missed(value, m) ==> ShiftedId(shifted, m) == Err(OutsideMapping(MAX)))
  {
  }

  /** What shifting does, in bounds: ids from the host id on, up to the end of the range but
      never the last id, stay; others move up by the host id, if below the size and if
      that is an id. */
  lemma ShiftInBounds(value: Id, m: IdMapping)
    ensures var stays := m.host <= value < m.host + m.size && value < 0xFFFF_FFFF;
            && (ShiftedId(value, m).Ok? <==> stays || (value < m.size && m.host + value <= 0xFFFF_FFFF))
            && (ShiftedId(value, m).Ok? ==> ShiftedId(value, m).value == if stays then value else m.host + value)
  {
  }

  /** An id that can be shifted. */
  predicate CanShift(value: Id, m: IdMapping) {
    || (m.host <= value < m.host + m.size && value < 0xFFFF_FFFF)
    || (value < m.size && m.host + value <= 0xFFFF_FFFF)
  }

  /** Exactly the mappings that reach past the last id from its upper half miss one. */
  lemma SoundMissesNothing(m: IdMapping)
    ensures Sound(m) <==> forall value: Id :: !Missed(value, m)
  {
    if !Sound(m) {
      assert Missed(MAX - m.host, m);
    }
  }

  /** Subtracting the host id undoes every shift exactly when the container range
      does not overlap the host range, or starts with it at zero. */
  lemma UnshiftExact(m: IdMapping)
    ensures m.host == 0 || m.size <= m.host <==>
            forall value: Id :: value < m.size && ShiftedId(value, m).Ok? ==>
              ShiftedId(value, m).value - m.host == value
  {
    if m.host != 0 && m.host < m.size {
      assert Mapped(m.host, m) && ShiftedId(m.host, m) == Ok(m.host);
    }
  }

  // ----- a line of /etc/subuid -----

  /** The three fields of a line: owner, and the numbers if they are there and parse. */
  datatype SubidLine = SubidLine(owner: string, start: Result<Id, ()>, size: Result<Id, ()>)

  predicate Usable(line: SubidLine, owners: seq<string>) {
    && line.owner in owners && line.start.Ok? && line.size.Ok?
    && line.size.value >= ID_MAP_SIZE && line.start.value + (ID_MAP_SIZE - 1) <= MAX
  }

  function FirstRange(lines: seq<SubidLine>, owners: seq<string>): Result<Id, ()> {
    if lines == [] then Err(())
    else if Usable(lines[0], owners) then Ok(lines[0].start.value)
    else FirstRange(lines[1..], owners)
  }

  /** The line gives one of the owners at least 65536 ids, all of them below 2^32. */
  predicate Gives(line: SubidLine, owners: seq<string>, start: int) {
    && (exists i :: 0 <= i < |owners| && owners[i] == line.owner)
    && line.start == Ok(start) && line.size.Ok? && 65_536 <= line.size.value && start <= 0x1_0000_0000 - 65_536
  }

  lemma UsableGives(line: SubidLine, owners: seq<string>)
    ensures Usable(line, owners) <==> line.start.Ok? && Gives(line, owners, line.start.value)
  {
  }

  /** The range found is that of the first line that gives one; the mapping made of it
      misses an id only when it ends with the very last id. */
  lemma {:induction false} FirstRangeBounds(lines: seq<SubidLine>, owners: seq<string>)
    ensures FirstRange(lines, owners).Err? <==>
            forall i, start :: 0 <= i < |lines| ==> !Gives(lines[i], owners, start)
    ensures FirstRange(lines, owners).Ok? ==>
              var start := FirstRange(lines, owners).value;
              && (exists i :: 0 <= i < |lines| && Gives(lines[i], owners, start)
                    && forall j, other :: 0 <= j < i ==> !Gives(lines[j], owners, other))
              && (Sound(IdMapping(0, start, ID_MAP_SIZE)) <==> start != 0x1_0000_0000 - 65_536)
    decreases |lines|
  {
    if lines != [] {
      var rest := lines[1..];
      UsableGives(lines[0], owners);
      assert forall i :: 0 < i < |lines| ==> lines[i] == rest[i - 1];
      assert forall i :: 0 <= i < |rest| ==> rest[i] == lines[i + 1];
      if Usable(lines[0], owners) {
        assert Gives(lines[0], owners, lines[0].start.value);
      } else {
        FirstRangeBounds(rest, owners);
        if FirstRange(rest, owners).Ok? {
          var start := FirstRange(rest, owners).value;
          var i :| 0 <= i < |rest| && Gives(rest[i], owners, start)
                && forall j, other :: 0 <= j < i ==> !Gives(rest[j], owners, other);
          assert Gives(lines[i + 1], owners, start);
        }
      }
    }
  }

  // ----- one owner -----

  predicate MappedOwner(o: Owner, m: Mapping) {
    Mapped(o.uid, m.uid) && Mapped(o.gid, m.gid)
  }

  function ShiftedOwner(o: Owner, m: Mapping): Result<Owner, Fault> {
    var uid := ShiftedId(o.uid, m.uid);
    if uid.Err? then Err(uid.error)
    else
      var gid := ShiftedId(o.gid, m.gid);
      if gid.Err? then Err(gid.error) else Ok(Owner(uid.value, gid.value))
  }

  predicate MissedOwner(o: Owner, m: Mapping) {
    Missed(o.uid, m.uid) || Missed(o.gid, m.gid)
  }

  lemma ShiftedOwnerIsMapped(o: Owner, m: Mapping)
    requires ShiftedOwner(o, m).Ok?
    ensures var shifted := ShiftedOwner(o, m).value;
            && (MappedOwner(shifted, m) <==> !MissedOwner(o, m))
            && (!MissedOwner(o, m) ==> ShiftedOwner(shifted, m) == Ok(shifted))
            && (MissedOwner(o, m) ==> ShiftedOwner(shifted, m).Err?)
  {
    ShiftedIsMapped(o.uid, m.uid);
    ShiftedIsMapped(o.gid, m.gid);
  }

  lemma OwnerInBounds(o: Owner, m: Mapping)
    ensures ShiftedOwner(o, m).Ok? <==> CanShift(o.uid, m.uid) && CanShift(o.gid, m.gid)
  {
    ShiftInBounds(o.uid, m.uid);
    ShiftInBounds(o.gid, m.gid);
  }

  // ----- a tree in visiting order -----

  /** An entry names its inode; hard links name the same one. */
  datatype Entry = File(inode: nat) | Dir(inode: nat, children: seq<Entry>)

  function Visit(e: Entry): seq<nat> {
    if e.File? then [e.inode] else [e.inode] + VisitAll(e.children)
  }

  function VisitAll(entries: seq<Entry>): seq<nat> {
    if entries == [] then [] else Visit(entries[0]) + VisitAll(entries[1..])
  }

  type Owners = map<nat, Owner>

  datatype Outcome = Outcome(owner: Owners, ok: bool)

  predicate Known(owner: Owners, order: seq<nat>) {
    forall i :: 0 <= i < |order| ==> order[i] in owner
  }

  /** Inode after inode, stopping at the first that cannot be shifted. */
  function Shift(owner: Owners, order: seq<nat>, m: Mapping): (r: Outcome)
    requires Known(owner, order)
    ensures r.owner.Keys == owner.Keys
    decreases |order|
  {
    if order == [] then Outcome(owner, true)
    else
      var shifted := ShiftedOwner(owner[order[0]], m);
      if shifted.Err? then Outcome(owner, false)
      else Shift(owner[order[0] := shifted.value], order[1..], m)
  }

  lemma {:induction false} ShiftConcat(owner: Owners, a: seq<nat>, b: seq<nat>, m: Mapping)
    requires Known(owner, a) && Known(owner, b)
    ensures Known(owner, a + b)
    ensures var first := Shift(owner, a, m);
            Shift(owner, a + b, m) == if first.ok then Shift(first.owner, b, m) else first
    decreases |a|
  {
    if a == [] {
      assert a + b == b;
    } else {
      assert (a + b)[1..] == a[1..] + b;
      var shifted := ShiftedOwner(owner[a[0]], m);
      if shifted.Ok? { ShiftConcat(owner[a[0] := shifted.value], a[1..], b, m); }
    }
  }

  /** A successful shift gives each inode its own shifted owner, once, hard links or
      not, and touches nothing else. */
  lemma {:induction false} ShiftPointwise(owner: Owners, order: seq<nat>, m: Mapping)
    requires Known(owner, order) && Shift(owner, order, m).ok
    ensures forall i :: i in order ==> ShiftedOwner(owner[i], m) == Ok(Shift(owner, order, m).owner[i])
    ensures forall i :: i in owner && i !in order ==> Shift(owner, order, m).owner[i] == owner[i]
    decreases |order|
  {
    if order != [] {
      var first, rest := order[0], order[1..];
      var shifted := ShiftedOwner(owner[first], m).value;
      var next := owner[first := shifted];
      ShiftPointwise(next, rest, m);
      assert forall i :: i in order <==> i == first || i in rest;
      if first in rest { ShiftedOwnerIsMapped(owner[first], m); }
    }
  }

  /** A failed or interrupted shift leaves every owner either old or shifted. */
  lemma {:induction false} ShiftPartial(owner: Owners, order: seq<nat>, m: Mapping)
    requires Known(owner, order)
    ensures var after := Shift(owner, order, m).owner;
            forall i :: i in owner ==> after[i] == owner[i] || ShiftedOwner(owner[i], m) == Ok(after[i])
    decreases |order|
  {
    if order != [] {
      var first, rest := order[0], order[1..];
      var shifted := ShiftedOwner(owner[first], m);
      if shifted.Ok? {
        var next := owner[first := shifted.value];
        ShiftPartial(next, rest, m);
        ShiftedOwnerIsMapped(owner[first], m);
      }
    }
  }

  /** Shifting succeeds exactly when every owner can be shifted and no missed one is
      visited twice. */
  lemma {:induction false} ShiftSucceeds(owner: Owners, order: seq<nat>, m: Mapping)
    requires Known(owner, order)
    ensures Shift(owner, order, m).ok <==>
            && (forall i :: i in order ==> CanShift(owner[i].uid, m.uid) && CanShift(owner[i].gid, m.gid))
            && (forall j, k :: 0 <= j < k < |order| && order[j] == order[k] ==> !MissedOwner(owner[order[j]], m))
    decreases |order|
  {
    if order != [] {
      var first, rest := order[0], order[1..];
      assert forall i :: i in order <==> i == first || i in rest;
      var shifted := ShiftedOwner(owner[first], m);
      OwnerInBounds(owner[first], m);
      if shifted.Ok? {
        var next := owner[first := shifted.value];
        OwnerInBounds(shifted.value, m);
        ShiftSucceeds(next, rest, m);
        ShiftedOwnerIsMapped(owner[first], m);
        RepeatsInTail(owner, next, order, m);
      }
    }
  }

  /** The repeats of a list are those of its tail and those of its head. */
  lemma RepeatsInTail(owner: Owners, next: Owners, order: seq<nat>, m: Mapping)
    requires order != [] && Known(owner, order) && ShiftedOwner(owner[order[0]], m).Ok?
    requires next == owner[order[0] := ShiftedOwner(owner[order[0]], m).value]
    ensures var rest := order[1..];
            (forall j, k :: 0 <= j < k < |order| && order[j] == order[k] ==> !MissedOwner(owner[order[j]], m)) <==>
            && (order[0] in rest ==> !MissedOwner(owner[order[0]], m))
            && (forall j, k :: 0 <= j < k < |rest| && rest[j] == rest[k] ==> !MissedOwner(next[rest[j]], m))
  {
    var rest := order[1..];
    assert forall j :: 0 < j < |order| ==> order[j] == rest[j - 1];
    assert forall j :: 0 <= j < |rest| ==> rest[j] == order[j + 1];
  }
}
