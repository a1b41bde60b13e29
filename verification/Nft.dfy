/** Installing the shared nftables rules: several reads of the kernel's state, a
    rule-by-rule decision that tolerates rules of older versions, and one atomic
    batch checked against a generation number. */
module Nft {

  datatype Option<+T> = None | Some(value: T)

  datatype Tag = Ingress | Reply | Masquerade

  /** A rule as the installer can tell rules apart: by its user data. */
  datatype Rule = Tagged(tag: Tag) | Untagged

  /** The dedicated table: which of its two chains exist, with their rules. */
  datatype Table = Table(forward: Option<seq<Rule>>, postrouting: Option<seq<Rule>>)

  datatype Kernel = Kernel(table: Option<Table>, generation: nat)

  // ----- reading -----

  /** What a rule dump is condensed to. */
  datatype RuleState = RuleState(count: nat, ingress: bool, reply: bool, masquerade: bool) {
    predicate Managed(tag: Tag) {
      match tag
      case Ingress => ingress
      case Reply => reply
      case Masquerade => masquerade
    }
  }

  const NO_RULES := RuleState(0, false, false, false)

  /** The meaning of the condensed form. */
  ghost predicate Describes(s: RuleState, rules: seq<Rule>) {
    s.count == |rules| && forall tag: Tag :: s.Managed(tag) <==> Tagged(tag) in rules
  }

  /** The reply loop of one rule dump. */
  method ReadRuleState(replies: seq<Rule>) returns (state: RuleState)
    ensures Describes(state, replies)
    ensures state == StateOf(replies)
  {
    state := NO_RULES;
    for i := 0 to |replies|
      invariant Describes(state, replies[..i])
    {
      assert replies[..i + 1] == replies[..i] + [replies[i]];
      state := state.(count := state.count + 1);
      match replies[i] {
        case Tagged(Ingress) => state := state.(ingress := true);
        case Tagged(Reply) => state := state.(reply := true);
        case Tagged(Masquerade) => state := state.(masquerade := true);
        case Untagged =>
      }
    }
    assert replies[..|replies|] == replies;
    assert state.Managed(Ingress) == StateOf(replies).ingress;
    assert state.Managed(Reply) == StateOf(replies).reply;
    assert state.Managed(Masquerade) == StateOf(replies).masquerade;
  }

  function StateOf(rules: seq<Rule>): RuleState {
    RuleState(|rules|, Tagged(Ingress) in rules, Tagged(Reply) in rules, Tagged(Masquerade) in rules)
  }

  /** One installer's picture of the table, gathered over several requests. */
  datatype View = View(table: bool, forward: bool, postrouting: bool, forwardRules: RuleState, postroutingRules: RuleState)

  function ChainState(chain: Option<seq<Rule>>): RuleState {
    if chain.Some? then StateOf(chain.value) else NO_RULES
  }

  function ViewOf(table: Option<Table>): View {
    match table
    case None => View(false, false, false, NO_RULES, NO_RULES)
    case Some(t) => View(true, t.forward.Some?, t.postrouting.Some?, ChainState(t.forward), ChainState(t.postrouting))
  }

  // ----- deciding -----

  predicate ShouldAdd(s: RuleState, tag: Tag) {
    if s.Managed(tag) then false
    else if !s.ingress && !s.reply && !s.masquerade then
      match tag
      case Ingress => s.count == 0
      case Reply => s.count < 2
      case Masquerade => s.count == 0
    else s.count < if tag.Masquerade? then 1 else 2
  }

  predicate Satisfied(v: View) {
    && v.table && v.forward && v.postrouting
    && !ShouldAdd(v.forwardRules, Ingress) && !ShouldAdd(v.forwardRules, Reply)
    && !ShouldAdd(v.postroutingRules, Masquerade)
  }

  datatype Op = NewTable | NewForward | NewPostrouting | Append(tag: Tag)

  /** The batch for a picture that is not satisfied. */
  function Batch(v: View): seq<Op> {
    (if v.table then [] else [NewTable]) +
    (if v.forward then [] else [NewForward]) +
    (if v.postrouting then [] else [NewPostrouting]) +
    (if ShouldAdd(v.forwardRules, Ingress) then [Append(Ingress)] else []) +
    (if ShouldAdd(v.forwardRules, Reply) then [Append(Reply)] else []) +
    (if ShouldAdd(v.postroutingRules, Masquerade) then [Append(Masquerade)] else [])
  }

  // ----- committing -----

  datatype Errno = EEXIST | ENOENT | ERESTART

  datatype Result<+T> = Ok(value: T) | Err(errno: Errno)

  /** Creation is exclusive; appending needs the chain. */
  function Apply(op: Op, table: Option<Table>): Result<Option<Table>> {
    match op
    case NewTable => if table.Some? then Err(EEXIST) else Ok(Some(Table(None, None)))
    case NewForward =>
      if table.None? then Err(ENOENT)
      else if table.value.forward.Some? then Err(EEXIST)
      else Ok(Some(table.value.(forward := Some([]))))
    case NewPostrouting =>
      if table.None? then Err(ENOENT)
      else if table.value.postrouting.Some? then Err(EEXIST)
      else Ok(Some(table.value.(postrouting := Some([]))))
    case Append(Masquerade) =>
      if table.None? || table.value.postrouting.None? then Err(ENOENT)
      else Ok(Some(table.value.(postrouting := Some(table.value.postrouting.value + [Tagged(Masquerade)]))))
    case Append(tag) =>
      if table.None? || table.value.forward.None? then Err(ENOENT)
      else Ok(Some(table.value.(forward := Some(table.value.forward.value + [Tagged(tag)]))))
  }

  function ApplyAll(ops: seq<Op>, table: Option<Table>): Result<Option<Table>> {
    if ops == [] then Ok(table)
    else match Apply(ops[0], table)
      case Err(e) => Err(e)
      case Ok(next) => ApplyAll(ops[1..], next)
  }

  /** All or nothing, and nothing if the generation moved since it was read. */
  function Commit(k: Kernel, generation: nat, ops: seq<Op>): Result<Kernel> {
    if generation != k.generation then Err(ERESTART)
    else match ApplyAll(ops, k.table)
      case Err(e) => Err(e)
      case Ok(table) => Ok(Kernel(table, k.generation + 1))
  }

  predicate Retryable(e: Errno) { e.EEXIST? || e.ERESTART? }

  // ----- one installer with the kernel to itself -----

  /** The kernel as an uncontended installer sees and changes it. */
  class Netfilter {
    var kernel: Kernel

    constructor (k: Kernel)
      ensures kernel == k
    {
      kernel := k;
    }

    method DumpRules(chain: Option<seq<Rule>>) returns (state: RuleState)
      ensures state == ChainState(chain)
    {
      if chain.Some? {
        state := ReadRuleState(chain.value);
      } else {
        state := NO_RULES;
      }
    }

    method InstallOnce() returns (r: Result<()>)
      modifies this
      ensures r.Ok? && kernel == Installed(old(kernel))
    {
      var table := kernel.table;
      var v := ViewOf(None);
      if table.Some? {
        var forward := DumpRules(table.value.forward);
        var postrouting := DumpRules(table.value.postrouting);
        v := View(true, table.value.forward.Some?, table.value.postrouting.Some?, forward, postrouting);
      }
      if Satisfied(v) {
        return Ok(());
      }
      var generation := kernel.generation;
      InstalledIsCommit(kernel);
      match Commit(kernel, generation, Batch(v)) {
        case Ok(next) =>
          kernel := next;
          r := Ok(());
        case Err(e) => r := Err(e);
      }
    }
  }

  function Extend(rules: seq<Rule>, add: bool, tag: Tag): seq<Rule> {
    if add then rules + [Tagged(tag)] else rules
  }

  /** The forward chain after a run: both decisions are made on the rules read. */
  function NewForwardRules(rules: seq<Rule>): seq<Rule> {
    var s := StateOf(rules);
    Extend(Extend(rules, ShouldAdd(s, Ingress), Ingress), ShouldAdd(s, Reply), Reply)
  }

  function NewPostroutingRules(rules: seq<Rule>): seq<Rule> {
    Extend(rules, ShouldAdd(StateOf(rules), Masquerade), Masquerade)
  }

  function Rules(chain: Option<seq<Rule>>): seq<Rule> {
    if chain.Some? then chain.value else []
  }

  function ForwardOf(table: Option<Table>): seq<Rule> {
    if table.Some? then Rules(table.value.forward) else []
  }

  function PostroutingOf(table: Option<Table>): seq<Rule> {
    if table.Some? then Rules(table.value.postrouting) else []
  }

  /** The outcome of an uncontended run, chain by chain. */
  function Installed(k: Kernel): Kernel {
    if Satisfied(ViewOf(k.table)) then k
    else
      Kernel(Some(Table(Some(NewForwardRules(ForwardOf(k.table))), Some(NewPostroutingRules(PostroutingOf(k.table))))),
             k.generation + 1)
  }

  lemma ApplyConcat(a: seq<Op>, b: seq<Op>, table: Option<Table>)
    requires ApplyAll(a, table).Ok?
    ensures ApplyAll(a + b, table) == ApplyAll(b, ApplyAll(a, table).value)
  {
    if a == [] {
      assert a + b == b;
    } else {
      assert (a + b)[1..] == a[1..] + b;
      ApplyConcat(a[1..], b, Apply(a[0], table).value);
    }
  }

  function Structure(v: View): seq<Op> {
    (if v.table then [] else [NewTable]) + (if v.forward then [] else [NewForward]) +
    (if v.postrouting then [] else [NewPostrouting])
  }

  lemma StructureApplies(table: Option<Table>)
    ensures ApplyAll(Structure(ViewOf(table)), table) ==
            Ok(Some(Table(Some(ForwardOf(table)), Some(PostroutingOf(table)))))
  {
    var v := ViewOf(table);
    var both := [NewForward, NewPostrouting];
    assert both[1..] == [NewPostrouting];
    match table
    case None => assert Structure(v) == [NewTable] + both; assert ([NewTable] + both)[1..] == both;
    case Some(t) =>
      if t.forward.None? && t.postrouting.None? { assert Structure(v) == both; }
      else if t.forward.None? { assert Structure(v) == [NewForward]; }
      else if t.postrouting.None? { assert Structure(v) == [NewPostrouting]; }
      else { assert Structure(v) == []; }
  }

  lemma AppendApplies(tag: Tag, add: bool, f: seq<Rule>, p: seq<Rule>)
    ensures ApplyAll(if add then [Append(tag)] else [], Some(Table(Some(f), Some(p)))) ==
            Ok(Some(if tag.Masquerade? then Table(Some(f), Some(Extend(p, add, tag)))
                    else Table(Some(Extend(f, add, tag)), Some(p))))
  {
    assert [Append(tag)][1..] == [];
  }

  /** Uncontended, the batch always goes through and yields the outcome. */
  lemma InstalledIsCommit(k: Kernel)
    requires !Satisfied(ViewOf(k.table))
    ensures Commit(k, k.generation, Batch(ViewOf(k.table))) == Ok(Installed(k))
  {
    var v := ViewOf(k.table);
    var f, p := ForwardOf(k.table), PostroutingOf(k.table);
    assert v.forwardRules == StateOf(f) && v.postroutingRules == StateOf(p);
    var i, r, m := ShouldAdd(StateOf(f), Ingress), ShouldAdd(StateOf(f), Reply), ShouldAdd(StateOf(p), Masquerade);
    var s := Structure(v);
    var si := s + (if i then [Append(Ingress)] else []);
    var sir := si + (if r then [Append(Reply)] else []);
    StructureApplies(k.table);
    AppendApplies(Ingress, i, f, p);
    ApplyConcat(s, if i then [Append(Ingress)] else [], k.table);
    var f1 := Extend(f, i, Ingress);
    AppendApplies(Reply, r, f1, p);
    ApplyConcat(si, if r then [Append(Reply)] else [], k.table);
    var f2 := Extend(f1, r, Reply);
    AppendApplies(Masquerade, m, f2, p);
    ApplyConcat(sir, if m then [Append(Masquerade)] else [], k.table);
  }

  /** Nothing is left to do exactly when both chains exist with enough rules. */
  lemma SatisfiedMeans(table: Option<Table>)
    ensures Satisfied(ViewOf(table)) <==>
            && table.Some? && table.value.forward.Some? && table.value.postrouting.Some?
            && |table.value.forward.value| >= 2 && |table.value.postrouting.value| >= 1
  {
    if table.Some? {
      assert |ForwardOf(table)| == 1 ==> ForwardOf(table) == [ForwardOf(table)[0]];
    }
  }

  lemma EnoughRules(rules: seq<Rule>)
    ensures rules <= NewForwardRules(rules) && |NewForwardRules(rules)| >= 2
    ensures rules <= NewPostroutingRules(rules) && |NewPostroutingRules(rules)| >= 1
  {
    assert |rules| == 1 ==> rules == [rules[0]];
  }

  /** From any prior state an uncontended run only appends, and leaves enough
      rules for every later run to find nothing to do. */
  lemma InstallConverges(k: Kernel)
    ensures var k' := Installed(k);
            && ForwardOf(k.table) <= ForwardOf(k'.table)
            && PostroutingOf(k.table) <= PostroutingOf(k'.table)
            && Satisfied(ViewOf(k'.table))
            && |ForwardOf(k'.table)| >= 2 && |PostroutingOf(k'.table)| >= 1
  {
    SatisfiedMeans(k.table);
    SatisfiedMeans(Installed(k).table);
    EnoughRules(ForwardOf(k.table));
    EnoughRules(PostroutingOf(k.table));
  }

  function Count(rules: seq<Rule>, tag: Tag): nat {
    multiset(rules)[Tagged(tag)]
  }

  lemma ExtendCount(rules: seq<Rule>, add: bool, tag: Tag, other: Tag)
    ensures Count(Extend(rules, add, tag), other) == Count(rules, other) + (if add && other == tag then 1 else 0)
  {
    assert add ==> multiset(Extend(rules, add, tag)) == multiset(rules) + multiset{Tagged(tag)};
  }

  /** A run appends a tag only where it is missing, and then once. */
  lemma TagsAtMostOnce(k: Kernel, tag: Tag)
    ensures var f, f' := ForwardOf(k.table), ForwardOf(Installed(k).table);
            var p, p' := PostroutingOf(k.table), PostroutingOf(Installed(k).table);
            && (Count(f', tag) == Count(f, tag) || (Count(f, tag) == 0 && Count(f', tag) == 1))
            && (Count(p', tag) == Count(p, tag) || (Count(p, tag) == 0 && Count(p', tag) == 1))
  {
    var f, p := ForwardOf(k.table), PostroutingOf(k.table);
    var i := ShouldAdd(StateOf(f), Ingress);
    ExtendCount(f, i, Ingress, tag);
    ExtendCount(Extend(f, i, Ingress), ShouldAdd(StateOf(f), Reply), Reply, tag);
    ExtendCount(p, ShouldAdd(StateOf(p), Masquerade), Masquerade, tag);
  }

  /** Every later run is a no-op. */
  lemma InstallIdempotent(k: Kernel)
    ensures Installed(Installed(k)) == Installed(k)
  {
    InstallConverges(k);
  }

  /** Which managed rules are there after a run: a populated chain is taken to
      hold its legacy rules, so a missing tag is not always added. */
  lemma ManagedAfterInstall(f: seq<Rule>, p: seq<Rule>)
    ensures Tagged(Reply) in NewForwardRules(f) <==> Tagged(Reply) in f || |f| < 2
    ensures Tagged(Ingress) in NewForwardRules(f) <==>
              Tagged(Ingress) in f || f == [] || (|f| == 1 && f[0] != Untagged)
    ensures Tagged(Masquerade) in NewPostroutingRules(p) <==> Tagged(Masquerade) in p || p == []
  {
    if |f| == 1 {
      assert f == [f[0]] && f[0] in f;
      match f[0]
      case Untagged =>
      case Tagged(Ingress) =>
      case Tagged(Reply) =>
      case Tagged(Masquerade) =>
    }
    assert |p| == 1 ==> p == [p[0]];
  }
}
