/** Any number of installers starting without the table, interleaved at every
    netlink request, with third parties changing other nftables state. */
module NftRace {
  import opened Nft

  const ATTEMPTS := 3

  /** The next request of one installer, with what it has read so far. */
  datatype Pc =
    | AskTable
    | AskForward
    | AskPostrouting(forward: bool)
    | AskForwardRules(forward: bool, postrouting: bool)
    | AskPostroutingRules(forward: bool, postrouting: bool, forwardRules: RuleState)
    | AskGeneration(view: View)
    | SendBatch(view: View, generation: nat)
    | Succeeded
    | GaveUp

  /** `started` is the generation when the current attempt made its first read. */
  datatype Installer = Installer(pc: Pc, failures: nat, started: nat)

  /** `bumps` counts third-party changes, `commits` our own batches. */
  datatype Race = Race(kernel: Kernel, installers: map<nat, Installer>, origin: nat, bumps: nat, commits: nat)

  ghost predicate Init(r: Race) {
    r.kernel == Kernel(None, r.origin) && r.installers == map[] && r.bumps == 0 && r.commits == 0
  }

  datatype Action = Arrive(i: nat) | Request(i: nat) | ThirdParty

  predicate Enabled(r: Race, a: Action) {
    match a
    case Arrive(i) => i !in r.installers
    case Request(i) => i in r.installers && !r.installers[i].pc.Succeeded? && !r.installers[i].pc.GaveUp?
    case ThirdParty => true
  }

  function Decide(v: View): Pc {
    if Satisfied(v) then Succeeded else AskGeneration(v)
  }

  function ForwardChain(k: Kernel): Option<seq<Rule>> {
    if k.table.Some? then k.table.value.forward else None
  }

  function PostroutingChain(k: Kernel): Option<seq<Rule>> {
    if k.table.Some? then k.table.value.postrouting else None
  }

  /** A failed attempt is retried only for a race, and only twice. */
  function AfterFailure(n: Installer, e: Errno): Installer {
    Installer(if Retryable(e) && n.failures + 1 < ATTEMPTS then AskTable else GaveUp, n.failures + 1, n.started)
  }

  /** One request: the installer moves on, and the batch may change the kernel. */
  function Serve(k: Kernel, n: Installer): (Kernel, Installer) {
    match n.pc
    case AskTable =>
      (k, Installer(if k.table.Some? then AskForward else Decide(ViewOf(None)), n.failures, k.generation))
    case AskForward => (k, n.(pc := AskPostrouting(ForwardChain(k).Some?)))
    case AskPostrouting(f) => (k, n.(pc := AskForwardRules(f, PostroutingChain(k).Some?)))
    case AskForwardRules(f, p) =>
      (k, n.(pc := AskPostroutingRules(f, p, if f then ChainState(ForwardChain(k)) else NO_RULES)))
    case AskPostroutingRules(f, p, rules) =>
      (k, n.(pc := Decide(View(true, f, p, rules, if p then ChainState(PostroutingChain(k)) else NO_RULES))))
    case AskGeneration(v) => (k, n.(pc := SendBatch(v, k.generation)))
    case SendBatch(v, g) =>
      (match Commit(k, g, Batch(v))
       case Ok(k') => (k', n.(pc := Succeeded))
       case Err(e) => (k, AfterFailure(n, e)))
    case _ => (k, n)
  }

  function Do(r: Race, a: Action): Race
    requires Enabled(r, a)
  {
    match a
    case Arrive(i) => r.(installers := r.installers[i := Installer(AskTable, 0, r.kernel.generation)])
    case Request(i) =>
      var (k, n) := Serve(r.kernel, r.installers[i]);
      r.(kernel := k, installers := r.installers[i := n],
         commits := if k.generation != r.kernel.generation then r.commits + 1 else r.commits)
    case ThirdParty => r.(kernel := r.kernel.(generation := r.kernel.generation + 1), bumps := r.bumps + 1)
  }

  ghost predicate Run(r: Race, actions: seq<Action>, r': Race)
    decreases |actions|
  {
    if actions == [] then r' == r
    else Enabled(r, actions[0]) && Run(Do(r, actions[0]), actions[1..], r')
  }

  ghost predicate Reachable(r: Race) {
    exists r0: Race, actions: seq<Action> :: Init(r0) && Run(r0, actions, r)
  }

  /** Exactly one copy of each managed rule, each in its chain. */
  const COMPLETE := Table(Some([Tagged(Ingress), Tagged(Reply)]), Some([Tagged(Masquerade)]))

  // ----- the invariant -----

  /** The picture of an absent table leads to the complete one, or to EEXIST. */
  lemma AbsentPicture(k: Kernel, g: nat)
    ensures !Satisfied(ViewOf(None)) && Satisfied(ViewOf(Some(COMPLETE)))
    ensures Commit(k, g, Batch(ViewOf(None))) ==
            if g != k.generation then Err(ERESTART)
            else if k.table.Some? then Err(EEXIST)
            else Ok(Kernel(Some(COMPLETE), k.generation + 1))
  {
    SatisfiedMeans(None);
    SatisfiedMeans(Some(COMPLETE));
    var empty := Kernel(None, k.generation);
    InstalledIsCommit(empty);
    assert Batch(ViewOf(None))[0] == NewTable;
    if g == k.generation && k.table.None? {
      assert k == empty;
      assert NewForwardRules([]) == [Tagged(Ingress), Tagged(Reply)];
      assert NewPostroutingRules([]) == [Tagged(Masquerade)];
      assert Installed(empty) == Kernel(Some(COMPLETE), k.generation + 1);
    }
  }

  ghost predicate KernelOk(r: Race) {
    && r.kernel.generation == r.origin + r.bumps + r.commits
    && ((r.kernel.table == None && r.commits == 0) || (r.kernel.table == Some(COMPLETE) && r.commits == 1))
  }

  /** Every failure so far was paid for by a distinct change of the generation,
      and a stale picture of an absent table has one more to show. */
  ghost predicate InstallerOk(k: Kernel, origin: nat, n: Installer) {
    && n.failures + origin <= k.generation
    && (n.pc.GaveUp? <==> n.failures == ATTEMPTS) && n.failures <= ATTEMPTS
    && (n.pc.AskTable? || (n.started <= k.generation && (!n.pc.GaveUp? ==> n.failures + origin <= n.started)))
    && (match n.pc
        case AskForward => k.table == Some(COMPLETE)
        case AskPostrouting(f) => k.table == Some(COMPLETE) && f
        case AskForwardRules(f, p) => k.table == Some(COMPLETE) && f && p
        case AskPostroutingRules(f, p, rules) =>
          k.table == Some(COMPLETE) && f && p && rules == ChainState(COMPLETE.forward)
        case AskGeneration(v) => v == ViewOf(None) && (k.table.Some? ==> n.started < k.generation)
        case SendBatch(v, g) =>
          v == ViewOf(None) && n.started <= g <= k.generation && (k.table.Some? ==> n.started < k.generation)
        case Succeeded => k.table == Some(COMPLETE)
        case _ => true)
  }

  ghost predicate Inv(r: Race) {
    KernelOk(r) && forall i :: i in r.installers ==> InstallerOk(r.kernel, r.origin, r.installers[i])
  }

  lemma ServeOk(k: Kernel, origin: nat, n: Installer)
    requires InstallerOk(k, origin, n)
    requires k.table == None || k.table == Some(COMPLETE)
    ensures var (k', n') := Serve(k, n);
            && InstallerOk(k', origin, n')
            && (k' == k || (k.table == None && k' == Kernel(Some(COMPLETE), k.generation + 1)))
  {
    AbsentPicture(k, if n.pc.SendBatch? then n.pc.generation else 0);
    assert n.pc.AskPostroutingRules? ==>
      View(true, true, true, ChainState(COMPLETE.forward), ChainState(COMPLETE.postrouting)) == ViewOf(Some(COMPLETE));
  }

  /** A change made by somebody else disturbs no one's accounts. */
  lemma KernelMoves(k: Kernel, k': Kernel, origin: nat, n: Installer)
    requires InstallerOk(k, origin, n)
    requires k' == k || (k'.generation == k.generation + 1 && (k'.table == k.table || k.table == None))
    ensures InstallerOk(k', origin, n)
  {
  }

  lemma Preserved(r: Race, a: Action)
    requires Inv(r) && Enabled(r, a)
    ensures Inv(Do(r, a))
  {
    var r' := Do(r, a);
    if a.Request? { ServeOk(r.kernel, r.origin, r.installers[a.i]); }
    forall i | i in r'.installers
      ensures InstallerOk(r'.kernel, r'.origin, r'.installers[i])
    {
      if i in r.installers && (a.ThirdParty? || i != a.i) {
        KernelMoves(r.kernel, r'.kernel, r.origin, r.installers[i]);
      }
    }
  }

  lemma {:induction false} RunPreserves(r: Race, actions: seq<Action>, r': Race)
    requires Inv(r) && Run(r, actions, r')
    ensures Inv(r')
    decreases |actions|
  {
    if actions != [] {
      Preserved(r, actions[0]);
      RunPreserves(Do(r, actions[0]), actions[1..], r');
    }
  }

  lemma ReachableInv(r: Race)
    requires Reachable(r)
    ensures Inv(r)
  {
    var r0: Race, actions: seq<Action> :| Init(r0) && Run(r0, actions, r);
    RunPreserves(r0, actions, r);
  }

  // ----- what it means -----

  /** The table is absent, or holds exactly one copy of each rule; and whoever
      has succeeded has seen it complete. */
  lemma AbsentOrComplete(r: Race)
    requires Reachable(r)
    ensures r.kernel.table == None || r.kernel.table == Some(COMPLETE)
    ensures (exists i :: i in r.installers && r.installers[i].pc.Succeeded?) ==> r.kernel.table == Some(COMPLETE)
  {
    ReachableInv(r);
  }

  /** An installer fails at most once more than third parties interfere: without
      interference it is through within two attempts, and giving up takes at
      least two foreign changes. */
  lemma FewFailures(r: Race, i: nat)
    requires Reachable(r) && i in r.installers
    ensures r.installers[i].failures <= r.bumps + 1
    ensures r.bumps == 0 ==> r.installers[i].failures <= 1 && !r.installers[i].pc.GaveUp?
    ensures r.installers[i].pc.GaveUp? ==> r.bumps >= 2
  {
    ReachableInv(r);
  }

  /** How many more requests an installer can make. */
  function Budget(n: Installer): int {
    8 * (ATTEMPTS - n.failures) + match n.pc
      case AskTable => 7
      case AskForward => 6
      case AskPostrouting(_) => 5
      case AskForwardRules(_, _) => 4
      case AskPostroutingRules(_, _, _) => 3
      case AskGeneration(_) => 2
      case SendBatch(_, _) => 1
      case _ => 0
  }

  /** Every installer is done after a bounded number of its own requests. */
  lemma RequestsAreBounded(r: Race, i: nat)
    requires Reachable(r) && Enabled(r, Request(i))
    ensures 0 <= Budget(Do(r, Request(i)).installers[i]) < Budget(r.installers[i])
  {
    ReachableInv(r);
    Preserved(r, Request(i));
    assert InstallerOk(r.kernel, r.origin, r.installers[i]);
    var r' := Do(r, Request(i));
    assert InstallerOk(r'.kernel, r'.origin, r'.installers[i]);
  }

  // ----- one installer, request by request -----

  /** An installer served `fuel` times with nobody in between. */
  function ServeAlone(k: Kernel, n: Installer, fuel: nat): (Kernel, Installer)
    decreases fuel
  {
    if fuel == 0 then (k, n) else var (k', n') := Serve(k, n); ServeAlone(k', n', fuel - 1)
  }

  lemma ServeDone(k: Kernel, n: Installer, fuel: nat)
    requires n.pc.Succeeded?
    ensures ServeAlone(k, n, fuel) == (k, n)
    decreases fuel
  {
    if fuel > 0 { ServeDone(k, n, fuel - 1); }
  }

  /** The picture an attempt ends up with. */
  lemma PictureTaken(k: Kernel, n: Installer)
    requires n.pc == AskTable
    ensures ServeAlone(k, n, 5) ==
            if k.table.Some? then (k, Installer(Decide(ViewOf(k.table)), n.failures, k.generation))
            else ServeAlone(k, Installer(Decide(ViewOf(None)), n.failures, k.generation), 4)
  {
    var n1 := Serve(k, n).1;
    if k.table.Some? {
      var n2 := Serve(k, n1).1;
      var n3 := Serve(k, n2).1;
      var n4 := Serve(k, n3).1;
      var n5 := Serve(k, n4).1;
      assert ServeAlone(k, n4, 1) == ServeAlone(k, n5, 0);
      assert ServeAlone(k, n3, 2) == ServeAlone(k, n4, 1);
      assert ServeAlone(k, n2, 3) == ServeAlone(k, n3, 2);
      assert ServeAlone(k, n1, 4) == ServeAlone(k, n2, 3);
    }
  }

  /** The two requests that follow an unsatisfied picture. */
  lemma BatchSent(k: Kernel, n: Installer)
    requires n.pc == AskGeneration(ViewOf(k.table)) && !Satisfied(ViewOf(k.table))
    ensures ServeAlone(k, n, 2) == (Installed(k), Installer(Succeeded, n.failures, n.started))
  {
    InstalledIsCommit(k);
    var n1 := Serve(k, n).1;
    var (k2, n2) := Serve(k, n1);
    assert ServeAlone(k, n1, 1) == ServeAlone(k2, n2, 0);
  }

  lemma ServeMore(k: Kernel, n: Installer, a: nat, b: nat)
    ensures var (k', n') := ServeAlone(k, n, a); ServeAlone(k, n, a + b) == ServeAlone(k', n', b)
    decreases a
  {
    if a > 0 {
      var (k', n') := Serve(k, n);
      ServeMore(k', n', a - 1, b);
    }
  }

  /** Request by request and undisturbed, an attempt from any table is the run of
      `InstallOnce`: it succeeds within seven requests and leaves the same kernel. */
  lemma AloneIsInstallOnce(k: Kernel, n: Installer)
    requires n.pc == AskTable
    ensures ServeAlone(k, n, 7).0 == Installed(k) && ServeAlone(k, n, 7).1.pc.Succeeded?
  {
    var v := ViewOf(k.table);
    var picture := Installer(Decide(v), n.failures, k.generation);
    PictureTaken(k, n);
    ServeMore(k, n, 5, 2);
    SatisfiedMeans(None);
    if k.table.Some? {
      if Satisfied(v) { ServeDone(k, picture, 2); } else { BatchSent(k, picture); }
    } else {
      BatchSent(k, picture);
      ServeMore(k, picture, 2, 2);
      ServeMore(k, picture, 4, 2);
      ServeDone(Installed(k), Installer(Succeeded, n.failures, k.generation), 2);
    }
  }
}
