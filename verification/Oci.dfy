/** Unpacking OCI image layers: entries and whiteouts edit one directory tree in
    place and in archive order; the specification describes the result as an
    overlay of changesets. */
module Oci {

  datatype Option<+T> = None | Some(value: T)

  type Path = seq<string>

  datatype Node = Dir | File(content: string)

  /** A directory tree by path; the empty path is the root. */
  type Tree = map<Path, Node>

  ghost predicate WellFormed(t: Tree) {
    && [] in t && t[[]] == Dir
    && forall p :: p in t && p != [] ==> p[..|p| - 1] in t && t[p[..|p| - 1]] == Dir
  }

  function Lookup(t: Tree, p: Path): Option<Node> {
    if p in t then Some(t[p]) else None
  }

  // ----- archive entries -----

  const OPAQUE_MARKER := ".wh..wh..opq"
  const WHITEOUT_PREFIX := ".wh."

  datatype Entry = Entry(path: Path, node: Node)

  datatype Op = Add(path: Path, node: Node) | Remove(target: Path) | Clear(dir: Path) | Malformed

  function Classify(e: Entry): Op {
    var name := if e.path == [] then "" else e.path[|e.path| - 1];
    var parent := if e.path == [] then [] else e.path[..|e.path| - 1];
    if name == OPAQUE_MARKER then Clear(parent)
    else if WHITEOUT_PREFIX <= name then
      if name == WHITEOUT_PREFIX then Malformed else Remove(parent + [name[4..]])
    else Add(e.path, e.node)
  }

  /** A whiteout of "." or ".." is left to the operating system's path rules and
      kept out of the model. */
  predicate Ordinary(e: Entry) {
    e.path != [] ==> e.path[|e.path| - 1] != ".wh.." && e.path[|e.path| - 1] != ".wh..."
  }

  // ----- in-place edits, as functions -----

  /** A file where a directory is needed on the way to `p`. */
  predicate Blocked(t: Tree, p: Path) {
    exists k :: 0 <= k < |p| && p[..k] in t && t[p[..k]].File?
  }

  function Without(t: Tree, p: Path): Tree {
    map q | q in t && !(p <= q) :: t[q]
  }

  function WithoutChildren(t: Tree, d: Path): Tree {
    map q | q in t && !(d < q) :: t[q]
  }

  function Parents(p: Path): Tree {
    map k: int | 0 <= k < |p| :: p[..k] := Dir
  }

  datatype Outcome = Ok(tree: Tree) | Err

  function RemovePath(t: Tree, p: Path): Outcome {
    if Blocked(t, p) then Err else Ok(Without(t, p))
  }

  function RemoveChildren(t: Tree, d: Path): Outcome {
    if Blocked(t, d) || (d in t && t[d].File?) then Err
    else Ok(WithoutChildren(t, d))
  }

  /** Missing parents appear as directories; a directory and a file never replace
      one another; an entry for the root itself is skipped. */
  function Unpack(t: Tree, p: Path, node: Node): Outcome {
    if p == [] then Ok(t)
    else if Blocked(t, p) || (p in t && t[p].Dir? != node.Dir?) then Err
    else Ok((t + Parents(p))[p := node])
  }

  function Step(t: Tree, op: Op): Outcome {
    match op
    case Add(path, node) => Unpack(t, path, node)
    case Remove(target) => RemovePath(t, target)
    case Clear(dir) => RemoveChildren(t, dir)
    case Malformed => Err
  }

  /** Entry by entry in archive order, stopping at the first failure. */
  function Sequential(t: Tree, layer: seq<Entry>): Outcome {
    if layer == [] then Ok(t)
    else match Sequential(t, layer[..|layer| - 1])
      case Err => Err
      case Ok(t') => Step(t', Classify(layer[|layer| - 1]))
  }

  // ----- the declarative overlay -----

  /** An entry that is no whiteout provides its path, and its parents as directories. */
  predicate Touches(e: Entry, p: Path) {
    e.path != [] && !(".wh." <= e.path[|e.path| - 1]) && p <= e.path
  }

  function Provided(e: Entry, p: Path): Node
    requires Touches(e, p)
  {
    if p == e.path then e.node else Dir
  }

  /** An opaque whiteout hides what is strictly under its directory, a whiteout of a name
      hides that sibling and what is under it. */
  predicate Hides(e: Entry, p: Path) {
    e.path != [] &&
    var dir, name := e.path[..|e.path| - 1], e.path[|e.path| - 1];
    if name == ".wh..wh..opq" then dir < p
    else |name| > 4 && name[..4] == ".wh." && dir + [name[4..]] <= p
  }

  /** What the layer itself has at `p`: its last entry providing it. */
  function LastTouch(layer: seq<Entry>, p: Path): Option<Node> {
    if layer == [] then None
    else if Touches(layer[|layer| - 1], p) then Some(Provided(layer[|layer| - 1], p))
    else LastTouch(layer[..|layer| - 1], p)
  }

  ghost predicate Hidden(layer: seq<Entry>, p: Path) {
    exists i :: 0 <= i < |layer| && Hides(layer[i], p)
  }

  /** One changeset over what lies below: whiteouts hide only lower layers. */
  ghost function OverlayOn(below: Option<Node>, layer: seq<Entry>, p: Path): Option<Node> {
    if LastTouch(layer, p).Some? then LastTouch(layer, p)
    else if Hidden(layer, p) then None
    else below
  }

  ghost predicate IsOverlay(t: Tree, layer: seq<Entry>, t': Tree) {
    forall p: Path :: Lookup(t', p) == OverlayOn(Lookup(t, p), layer, p)
  }

  /** A whiteout comes after an entry it hides, and nothing brings the path back. */
  ghost predicate LateWhiteout(layer: seq<Entry>, p: Path) {
    exists i, j :: 0 <= i < j < |layer| && Touches(layer[i], p) && Hides(layer[j], p)
      && forall k :: j < k < |layer| ==> !Touches(layer[k], p)
  }

  ghost predicate NoLateWhiteout(layer: seq<Entry>) {
    forall p: Path :: !LateWhiteout(layer, p)
  }

  // ----- in place, the last word on a path counts -----

  datatype Effect = Kept | Gone | Put(node: Node)

  function EffectOn(layer: seq<Entry>, p: Path): Effect {
    if layer == [] then Kept
    else
      var last := layer[|layer| - 1];
      if Touches(last, p) then Put(Provided(last, p))
      else if Hides(last, p) then Gone
      else EffectOn(layer[..|layer| - 1], p)
  }

  function Resolve(e: Effect, below: Option<Node>): Option<Node> {
    match e
    case Kept => below
    case Gone => None
    case Put(node) => Some(node)
  }

  lemma StepAt(t: Tree, e: Entry, p: Path)
    requires Step(t, Classify(e)).Ok?
    ensures Lookup(Step(t, Classify(e)).tree, p) ==
            if Touches(e, p) then Some(Provided(e, p)) else if Hides(e, p) then None else Lookup(t, p)
  {
    if Touches(e, p) && p != e.path {
      assert p == e.path[..|p|];
    }
  }

  lemma {:induction false} SequentialAt(t: Tree, layer: seq<Entry>, p: Path)
    requires Sequential(t, layer).Ok?
    ensures Lookup(Sequential(t, layer).tree, p) == Resolve(EffectOn(layer, p), Lookup(t, p))
  {
    if layer != [] {
      var n := |layer| - 1;
      SequentialAt(t, layer[..n], p);
      StepAt(Sequential(t, layer[..n]).tree, layer[n], p);
    }
  }

  lemma StepWellFormed(t: Tree, e: Entry)
    requires WellFormed(t) && Step(t, Classify(e)).Ok?
    ensures WellFormed(Step(t, Classify(e)).tree)
  {
    var t' := Step(t, Classify(e)).tree;
    forall p | p in t' && p != []
      ensures p[..|p| - 1] in t' && t'[p[..|p| - 1]] == Dir
    {
      var q := p[..|p| - 1];
      StepAt(t, e, p);
      StepAt(t, e, q);
      if Touches(e, p) {
        assert q <= e.path && q != e.path;
      } else {
        assert p in t && q in t && t[q] == Dir;
      }
    }
    StepAt(t, e, []);
  }

  /** Whatever the layer, what comes out is a tree. */
  lemma {:induction false} SequentialWellFormed(t: Tree, layer: seq<Entry>)
    requires WellFormed(t) && Sequential(t, layer).Ok?
    ensures WellFormed(Sequential(t, layer).tree)
  {
    if layer != [] {
      var n := |layer| - 1;
      SequentialWellFormed(t, layer[..n]);
      StepWellFormed(Sequential(t, layer[..n]).tree, layer[n]);
    }
  }

  // ----- in place equals overlay, exactly when no whiteout is late -----

  lemma {:induction false} EffectAgainstOverlay(layer: seq<Entry>, p: Path, below: Option<Node>)
    ensures LateWhiteout(layer, p) <==> LastTouch(layer, p).Some? && EffectOn(layer, p) == Gone
    ensures LastTouch(layer, p).Some? <==> exists i :: 0 <= i < |layer| && Touches(layer[i], p)
    ensures !LateWhiteout(layer, p) ==> Resolve(EffectOn(layer, p), below) == OverlayOn(below, layer, p)
  {
    if layer == [] {
    } else {
      var n := |layer| - 1;
      var init, last := layer[..n], layer[n];
      EffectAgainstOverlay(init, p, below);
      LateStep(init, last, p);
      assert layer == init + [last];
      HiddenStep(init, last, p);
      TouchedStep(init, last, p);
    }
  }

  ghost predicate Touched(layer: seq<Entry>, p: Path) {
    exists i :: 0 <= i < |layer| && Touches(layer[i], p)
  }

  lemma TouchedStep(init: seq<Entry>, last: Entry, p: Path)
    ensures Touched(init + [last], p) <==> Touched(init, p) || Touches(last, p)
  {
    var layer := init + [last];
    if Touched(init, p) {
      var i :| 0 <= i < |init| && Touches(init[i], p);
      assert Touches(layer[i], p);
    }
    assert layer[|init|] == last;
  }

  lemma HiddenStep(init: seq<Entry>, last: Entry, p: Path)
    ensures Hidden(init + [last], p) <==> Hidden(init, p) || Hides(last, p)
  {
    var layer := init + [last];
    if Hidden(init, p) {
      var i :| 0 <= i < |init| && Hides(init[i], p);
      assert Hides(layer[i], p);
    }
    assert layer[|init|] == last;
  }

  lemma LateStep(init: seq<Entry>, last: Entry, p: Path)
    ensures LateWhiteout(init + [last], p) <==>
            !Touches(last, p) && (LateWhiteout(init, p) || (Touched(init, p) && Hides(last, p)))
  {
    var layer := init + [last];
    assert layer[|init|] == last;
    if LateWhiteout(init, p) && !Touches(last, p) {
      var i, j :| 0 <= i < j < |init| && Touches(init[i], p) && Hides(init[j], p)
        && forall k :: j < k < |init| ==> !Touches(init[k], p);
      assert Touches(layer[i], p) && Hides(layer[j], p);
    }
    if Touched(init, p) && Hides(last, p) {
      var i :| 0 <= i < |init| && Touches(init[i], p);
      assert Touches(layer[i], p) && Hides(layer[|init|], p);
    }
    if LateWhiteout(layer, p) {
      var i, j :| 0 <= i < j < |layer| && Touches(layer[i], p) && Hides(layer[j], p)
        && forall k :: j < k < |layer| ==> !Touches(layer[k], p);
      assert Touches(init[i], p);
      if j < |init| {
        assert Hides(init[j], p);
        assert forall k :: j < k < |init| ==> init[k] == layer[k];
      }
    }
  }

  /** For every layer that applies, in-place application is the overlay of the
      specification exactly when no whiteout is late. */
  lemma InPlaceIsOverlay(t: Tree, layer: seq<Entry>)
    requires Sequential(t, layer).Ok?
    ensures IsOverlay(t, layer, Sequential(t, layer).tree) <==> NoLateWhiteout(layer)
  {
    var t' := Sequential(t, layer).tree;
    forall p: Path
      ensures LateWhiteout(layer, p) <==> Lookup(t', p) != OverlayOn(Lookup(t, p), layer, p)
    {
      SequentialAt(t, layer, p);
      EffectAgainstOverlay(layer, p, Lookup(t, p));
    }
  }

  /** The order the specification recommends: whiteouts before the entries at or
      under what they hide. */
  ghost predicate WhiteoutsFirst(layer: seq<Entry>) {
    forall i, j :: 0 <= i < j < |layer| && Touches(layer[i], layer[i].path) ==> !Hides(layer[j], layer[i].path)
  }

  lemma HidesBelow(e: Entry, p: Path, q: Path)
    requires Hides(e, p) && p <= q
    ensures Hides(e, q)
  {
  }

  lemma RecommendedOrder(layer: seq<Entry>)
    requires WhiteoutsFirst(layer)
    ensures NoLateWhiteout(layer)
  {
    forall p: Path, i, j | 0 <= i < j < |layer| && Touches(layer[i], p)
      ensures !Hides(layer[j], p)
    {
      if Hides(layer[j], p) {
        HidesBelow(layer[j], p, layer[i].path);
      }
    }
  }

  lemma TwoEntries(t: Tree, a: Entry, b: Entry)
    requires Step(t, Classify(a)).Ok?
    ensures Sequential(t, [a, b]) == Step(Step(t, Classify(a)).tree, Classify(b))
  {
    assert [a, b][..1] == [a];
    OneEntry(t, a);
  }

  lemma OneEntry(t: Tree, a: Entry)
    ensures Sequential(t, [a]) == Step(t, Classify(a))
  {
    assert [a][..0] == [] && Sequential(t, []) == Ok(t);
  }

  // ----- entries by name -----

  /** Where entries lead, whatever the directory and the name: a whiteout hides exactly
      the named sibling and what is under it, an opaque one exactly what is under its
      directory, and neither provides anything. */
  lemma WhiteoutMeans(dir: Path, n: string, node: Node, p: Path)
    requires n != ""
    ensures var e := Entry(dir + [".wh." + n], node);
            !Touches(e, p) && (Hides(e, p) <==> if n == ".wh..opq" then dir < p else dir + [n] <= p)
  {
    var path, name := dir + [".wh." + n], ".wh." + n;
    assert path[..|path| - 1] == dir && path[|path| - 1] == name && name[..4] == ".wh." && name[4..] == n;
    assert ".wh..wh..opq"[4..] == ".wh..opq" && ".wh..wh..opq" == ".wh." + ".wh..opq";
  }

  lemma PlainMeans(dir: Path, n: string, node: Node, p: Path)
    requires !(".wh." <= n)
    ensures var e := Entry(dir + [n], node);
            && !Hides(e, p)
            && (Touches(e, p) <==> p <= dir || p == dir + [n])
            && (p == dir + [n] ==> Provided(e, p) == node)
            && (p <= dir ==> Provided(e, p) == Dir)
  {
    var path := dir + [n];
    assert path[..|path| - 1] == dir && path[|path| - 1] == n;
    assert |n| > 4 ==> n[..4] != ".wh.";
    if p <= path && |p| < |path| { assert p == path[..|p|] == dir[..|p|]; }
    if p <= path && |p| == |path| { assert p == path; }
  }

  /** When an entry cannot be applied: a whiteout of nothing, a file where its directory
      should be, or a file and a directory in one place. */
  lemma WhiteoutFails(t: Tree, dir: Path, n: string, node: Node)
    ensures Step(t, Classify(Entry(dir + [".wh." + n], node))).Err? <==>
            n == "" || exists k :: 0 <= k <= |dir| && dir[..k] in t && t[dir[..k]].File?
  {
    var path, name := dir + [".wh." + n], ".wh." + n;
    assert path[..|path| - 1] == dir && path[|path| - 1] == name && name[..4] == ".wh." && name[4..] == n;
    assert ".wh..wh..opq"[4..] == ".wh..opq" && ".wh..wh..opq" == ".wh." + ".wh..opq";
    BlockedBelow(t, dir, n);
  }

  lemma PlainFails(t: Tree, dir: Path, n: string, node: Node)
    requires !(".wh." <= n)
    ensures Step(t, Classify(Entry(dir + [n], node))).Err? <==>
            || (exists k :: 0 <= k <= |dir| && dir[..k] in t && t[dir[..k]].File?)
            || (dir + [n] in t && (t[dir + [n]].Dir? <==> node.File?))
  {
    var path := dir + [n];
    assert path[..|path| - 1] == dir && path[|path| - 1] == n;
    BlockedBelow(t, dir, n);
  }

  lemma BlockedBelow(t: Tree, dir: Path, n: string)
    ensures Blocked(t, dir + [n]) <==> exists k :: 0 <= k <= |dir| && dir[..k] in t && t[dir[..k]].File?
    ensures Blocked(t, dir + [n]) <==> Blocked(t, dir) || (dir in t && t[dir].File?)
  {
    var path := dir + [n];
    assert forall k :: 0 <= k <= |dir| ==> path[..k] == dir[..k];
    assert dir[..|dir|] == dir;
    assert |path| == |dir| + 1;
  }

  // ----- witnesses -----

  const ROOT: Tree := map[[] := Dir]
  const MOTD := ["etc", "motd"]

  /** A layer the specification allows and in-place application gets wrong: a
      file, then an opaque marker for its own directory. */
  lemma LateWhiteoutLosesEntry()
    ensures var late := [Entry(MOTD, File("hello")), Entry(["etc", ".wh..wh..opq"], File(""))];
            && Sequential(ROOT, late).Ok?
            && MOTD !in Sequential(ROOT, late).tree
            && OverlayOn(None, late, MOTD) == Some(File("hello"))
  {
    var add, clear := Entry(MOTD, File("hello")), Entry(["etc", ".wh..wh..opq"], File(""));
    AddsMotd(add);
    var t1 := Step(ROOT, Classify(add)).tree;
    ClearsEtc(t1, clear);
    TwoEntries(ROOT, add, clear);
    assert [add, clear][..1] == [add] && LastTouch([add], MOTD) == Some(File("hello"));
    assert !Touches(clear, MOTD);
  }

  lemma AddsMotd(add: Entry)
    requires add == Entry(MOTD, File("hello"))
    ensures Step(ROOT, Classify(add)).Ok?
    ensures Step(ROOT, Classify(add)).tree == map[[] := Dir, ["etc"] := Dir, MOTD := File("hello")]
    ensures Touches(add, MOTD) && Provided(add, MOTD) == File("hello")
  {
    assert MOTD[1][0] != '.' && MOTD == ["etc"] + ["motd"];
    assert Classify(add) == Add(MOTD, File("hello"));
    assert MOTD[..0] == [] && MOTD[..1] == ["etc"];
    assert Step(ROOT, Classify(add)).Ok?;
    assert Parents(MOTD) == map[[] := Dir, ["etc"] := Dir];
  }

  lemma ClearsEtc(t: Tree, clear: Entry)
    requires t == map[[] := Dir, ["etc"] := Dir, MOTD := File("hello")]
    requires clear == Entry(["etc", ".wh..wh..opq"], File(""))
    ensures Step(t, Classify(clear)).Ok? && MOTD !in Step(t, Classify(clear)).tree
    ensures !Touches(clear, MOTD)
  {
    assert clear.path[..1] == ["etc"] && ["etc"][..0] == [];
    assert Classify(clear) == Clear(["etc"]);
    assert ["etc"] < MOTD;
  }

  /** A whiteout deletes the file it names, and nothing else. */
  lemma WhiteoutDeletes()
    ensures var below: Tree := map[[] := Dir, ["etc"] := Dir, MOTD := File("hello")];
            Sequential(below, [Entry(["etc", ".wh.motd"], File(""))]) == Ok(map[[] := Dir, ["etc"] := Dir])
  {
    var below: Tree := map[[] := Dir, ["etc"] := Dir, MOTD := File("hello")];
    var e := Entry(["etc", ".wh.motd"], File(""));
    assert e.path[..1] == ["etc"] && ".wh.motd"[4..] == "motd" && ".wh.motd"[..4] == ".wh.";
    assert ["etc"] + ["motd"] == MOTD && MOTD[..0] == [] && MOTD[..1] == ["etc"];
    assert Classify(e) == Remove(MOTD);
    OneEntry(below, e);
  }

  // ----- all layers -----

  function ApplyLayers(t: Tree, layers: seq<seq<Entry>>): Outcome {
    if layers == [] then Ok(t)
    else match ApplyLayers(t, layers[..|layers| - 1])
      case Err => Err
      case Ok(t') => Sequential(t', layers[|layers| - 1])
  }

  ghost function OverlayLayers(below: Option<Node>, layers: seq<seq<Entry>>, p: Path): Option<Node> {
    if layers == [] then below
    else OverlayOn(OverlayLayers(below, layers[..|layers| - 1], p), layers[|layers| - 1], p)
  }

  /** The layer says something about `p`. */
  ghost predicate Concerns(layer: seq<Entry>, p: Path) {
    Touched(layer, p) || Hidden(layer, p)
  }

  /** Layer `i` is the last one that concerns `p`. */
  ghost predicate LastWord(layers: seq<seq<Entry>>, i: nat, p: Path)
    requires i < |layers|
  {
    Concerns(layers[i], p) && forall j :: i < j < |layers| ==> !Concerns(layers[j], p)
  }

  /** The last layer that concerns `p` has no late whiteout there. */
  ghost predicate Settled(layers: seq<seq<Entry>>, p: Path) {
    forall i :: 0 <= i < |layers| && LastWord(layers, i, p) ==> !LateWhiteout(layers[i], p)
  }

  ghost predicate IsImageOverlay(t: Tree, layers: seq<seq<Entry>>, t': Tree) {
    forall p: Path :: Lookup(t', p) == OverlayLayers(Lookup(t, p), layers, p)
  }

  lemma LastWordStep(init: seq<seq<Entry>>, last: seq<Entry>, i: nat, p: Path)
    requires i < |init|
    ensures LastWord(init + [last], i, p) <==> LastWord(init, i, p) && !Concerns(last, p)
  {
    var layers := init + [last];
    assert layers[|init|] == last;
    assert forall j :: i <= j < |init| ==> init[j] == layers[j];
  }

  lemma SettledStep(init: seq<seq<Entry>>, last: seq<Entry>, p: Path)
    ensures Settled(init + [last], p) <==>
            if Concerns(last, p) then !LateWhiteout(last, p) else Settled(init, p)
  {
    var layers := init + [last];
    assert layers[|init|] == last;
    assert forall i :: 0 <= i < |init| ==> init[i] == layers[i];
    forall i | 0 <= i < |init|
      ensures LastWord(layers, i, p) <==> LastWord(init, i, p) && !Concerns(last, p)
    {
      LastWordStep(init, last, i, p);
    }
  }

  lemma {:induction false} UnconcernedIsKept(layer: seq<Entry>, p: Path)
    ensures EffectOn(layer, p) == Kept <==> !Touched(layer, p) && !Hidden(layer, p)
  {
    if layer != [] {
      var init, last := layer[..|layer| - 1], layer[|layer| - 1];
      assert layer == init + [last];
      UnconcernedIsKept(init, p);
      TouchedStep(init, last, p);
      HiddenStep(init, last, p);
    }
  }

  /** One layer over two versions of what lies below. */
  lemma LayerAgainstOverlay(layer: seq<Entry>, p: Path, actual: Option<Node>, ideal: Option<Node>)
    ensures Resolve(EffectOn(layer, p), actual) == OverlayOn(ideal, layer, p) <==>
            if Touched(layer, p) || Hidden(layer, p) then !LateWhiteout(layer, p) else actual == ideal
  {
    UnconcernedIsKept(layer, p);
    EffectAgainstOverlay(layer, p, actual);
    EffectAgainstOverlay(layer, p, ideal);
  }

  lemma LayerAt(t: Tree, layer: seq<Entry>, p: Path, ideal: Option<Node>)
    requires Sequential(t, layer).Ok?
    ensures Lookup(Sequential(t, layer).tree, p) == OverlayOn(ideal, layer, p) <==>
            if Concerns(layer, p) then !LateWhiteout(layer, p) else Lookup(t, p) == ideal
  {
    SequentialAt(t, layer, p);
    LayerAgainstOverlay(layer, p, Lookup(t, p), ideal);
  }

  lemma {:induction false} ImageAt(t: Tree, layers: seq<seq<Entry>>, p: Path)
    requires ApplyLayers(t, layers).Ok?
    ensures Lookup(ApplyLayers(t, layers).tree, p) == OverlayLayers(Lookup(t, p), layers, p) <==> Settled(layers, p)
  {
    if layers != [] {
      var init, last := layers[..|layers| - 1], layers[|layers| - 1];
      assert Settled(layers, p) == Settled(init + [last], p) by { assert layers == init + [last]; }
      SettledStep(init, last, p);
      ImageAt(t, init, p);
      LayerAt(ApplyLayers(t, init).tree, last, p, OverlayLayers(Lookup(t, p), init, p));
    }
  }

  /** Whatever the layers, an image that applies is a tree. */
  lemma {:induction false} ImageWellFormed(t: Tree, layers: seq<seq<Entry>>)
    requires WellFormed(t) && ApplyLayers(t, layers).Ok?
    ensures WellFormed(ApplyLayers(t, layers).tree)
  {
    if layers != [] {
      var n := |layers| - 1;
      ImageWellFormed(t, layers[..n]);
      SequentialWellFormed(ApplyLayers(t, layers[..n]).tree, layers[n]);
    }
  }

  /** For every image that applies, layer after layer in place is the overlay of all
      changesets exactly when, at every path, the last layer concerned has no late
      whiteout there. */
  lemma ImageIsOverlay(t: Tree, layers: seq<seq<Entry>>)
    requires ApplyLayers(t, layers).Ok?
    ensures IsImageOverlay(t, layers, ApplyLayers(t, layers).tree) <==> forall p: Path :: Settled(layers, p)
  {
    forall p: Path
      ensures Lookup(ApplyLayers(t, layers).tree, p) == OverlayLayers(Lookup(t, p), layers, p) <==> Settled(layers, p)
    {
      ImageAt(t, layers, p);
    }
  }

  // ----- the directory tree as it is edited -----

  /** The tree while the children of `dir` still to be deleted are these. */
  function Remaining(t: Tree, dir: Path, children: set<Path>): Tree {
    map q | q in t && (dir < q ==> q[..|dir| + 1] in children) :: t[q]
  }

  /** What listing a directory gives. */
  function Listing(t: Tree, dir: Path): set<Path> {
    set q | q in t && |q| == |dir| + 1 && dir <= q
  }

  lemma AllChildren(t: Tree, dir: Path)
    requires WellFormed(t)
    ensures Remaining(t, dir, Listing(t, dir)) == t
    ensures Remaining(t, dir, {}) == WithoutChildren(t, dir)
  {
    forall q | q in t && dir < q
      ensures q[..|dir| + 1] in Listing(t, dir)
    {
      AncestorPresent(t, q, |dir| + 1);
    }
  }

  lemma ChildNotBlocked(t: Tree, dir: Path, children: set<Path>, child: Path)
    requires WellFormed(t) && child in t
    ensures !Blocked(Remaining(t, dir, children), child)
  {
    forall k | 0 <= k < |child|
      ensures child[..k] in t && t[child[..k]] == Dir
    {
      AncestorPresent(t, child, k + 1);
      assert child[..k + 1][..k] == child[..k];
    }
  }

  lemma RemainingStep(t: Tree, dir: Path, children: set<Path>, child: Path)
    requires child in children && |child| == |dir| + 1 && dir <= child
    ensures Without(Remaining(t, dir, children), child) == Remaining(t, dir, children - {child})
  {
    forall q | q in t
      ensures child <= q <==> dir < q && q[..|dir| + 1] == child
    {
      if child <= q {
        assert q[..|dir| + 1] == child && q[..|dir|] == child[..|dir|];
      }
    }
  }

  class Rootfs {
    var tree: Tree

    constructor ()
      ensures tree == map[[] := Dir] && WellFormed(tree)
    {
      tree := map[[] := Dir];
    }

    method Delete(path: Path) returns (ok: bool)
      modifies this
      ensures ok == RemovePath(old(tree), path).Ok?
      ensures tree == if ok then RemovePath(old(tree), path).tree else old(tree)
    {
      ok := !Blocked(tree, path);
      if ok {
        tree := Without(tree, path);
      }
    }

    /** Child by child, as the directory lists them. */
    method DeleteChildren(dir: Path) returns (ok: bool)
      requires WellFormed(tree)
      modifies this
      ensures ok == RemoveChildren(old(tree), dir).Ok?
      ensures tree == if ok then RemoveChildren(old(tree), dir).tree else old(tree)
    {
      if Blocked(tree, dir) || (dir in tree && tree[dir].File?) {
        return false;
      }
      var children := Listing(tree, dir);
      ghost var tree0 := tree;
      AllChildren(tree, dir);
      while children != {}
        invariant children <= Listing(tree0, dir) && tree == Remaining(tree0, dir, children)
        decreases children
      {
        var child :| child in children;
        ChildNotBlocked(tree0, dir, children, child);
        RemainingStep(tree0, dir, children, child);
        var deleted := Delete(child);
        children := children - {child};
      }
      ok := true;
    }

    method Extract(path: Path, node: Node) returns (ok: bool)
      modifies this
      ensures ok == Unpack(old(tree), path, node).Ok?
      ensures tree == if ok then Unpack(old(tree), path, node).tree else old(tree)
    {
      if path == [] {
        return true;
      }
      if Blocked(tree, path) || (path in tree && tree[path].Dir? != node.Dir?) {
        return false;
      }
      tree := tree + Parents(path);
      tree := tree[path := node];
      ok := true;
    }

    method ApplyEntry(e: Entry) returns (ok: bool)
      requires WellFormed(tree)
      modifies this
      ensures ok == Step(old(tree), Classify(e)).Ok?
      ensures ok ==> tree == Step(old(tree), Classify(e)).tree
      ensures WellFormed(tree)
    {
      ghost var before := tree;
      var fileName := if e.path == [] then "" else e.path[|e.path| - 1];
      var parent := if e.path == [] then [] else e.path[..|e.path| - 1];
      if fileName == ".wh..wh..opq" {
        ok := DeleteChildren(parent);
      } else if ".wh." <= fileName {
        var name := fileName[4..];
        ok := false;
        if name != "" {
          ok := Delete(parent + [name]);
        }
      } else {
        ok := Extract(e.path, e.node);
      }
      if ok {
        StepWellFormed(before, e);
      }
    }

    /** The entry loop of one layer. */
    method ApplyLayer(layer: seq<Entry>) returns (ok: bool)
      requires WellFormed(tree) && forall e :: e in layer ==> Ordinary(e)
      modifies this
      ensures WellFormed(tree)
      ensures ok == Sequential(old(tree), layer).Ok?
      ensures ok ==> tree == Sequential(old(tree), layer).tree
      ensures ok ==> (IsOverlay(old(tree), layer, tree) <==> NoLateWhiteout(layer))
    {
      ghost var tree0 := tree;
      for i := 0 to |layer|
        invariant WellFormed(tree)
        invariant Sequential(tree0, layer[..i]) == Ok(tree)
      {
        assert layer[..i + 1][..i] == layer[..i];
        ok := ApplyEntry(layer[i]);
        if !ok {
          FailsForGood(tree0, layer, i + 1);
          return;
        }
      }
      assert layer[..|layer|] == layer;
      InPlaceIsOverlay(tree0, layer);
      ok := true;
    }

    /** The layer loop of one image. */
    method ApplyImage(layers: seq<seq<Entry>>) returns (ok: bool)
      requires WellFormed(tree) && forall i, j :: 0 <= i < |layers| && 0 <= j < |layers[i]| ==> Ordinary(layers[i][j])
      modifies this
      ensures WellFormed(tree)
      ensures ok == ApplyLayers(old(tree), layers).Ok?
      ensures ok ==> ApplyLayers(old(tree), layers) == Ok(tree)
      ensures ok ==> (IsImageOverlay(old(tree), layers, tree) <==> forall p: Path :: Settled(layers, p))
    {
      for i := 0 to |layers|
        invariant WellFormed(tree)
        invariant ApplyLayers(old(tree), layers[..i]) == Ok(tree)
      {
        assert layers[..i + 1][..i] == layers[..i];
        ok := ApplyLayer(layers[i]);
        if !ok {
          ImageFailsForGood(old(tree), layers, i + 1);
          return;
        }
      }
      assert layers[..|layers|] == layers;
      ImageIsOverlay(old(tree), layers);
      ok := true;
    }
  }

  lemma {:induction false} AncestorPresent(t: Tree, p: Path, k: nat)
    requires WellFormed(t) && p in t && k <= |p|
    ensures p[..k] in t
    decreases |p|
  {
    if k < |p| {
      var q := p[..|p| - 1];
      AncestorPresent(t, q, k);
      assert q[..k] == p[..k];
    } else {
      assert p[..k] == p;
    }
  }

  lemma {:induction false} ImageFailsForGood(t: Tree, layers: seq<seq<Entry>>, i: nat)
    requires i <= |layers| && ApplyLayers(t, layers[..i]).Err?
    ensures ApplyLayers(t, layers).Err?
    decreases |layers| - i
  {
    if i < |layers| {
      assert layers[..i + 1][..i] == layers[..i];
      ImageFailsForGood(t, layers, i + 1);
    } else {
      assert layers[..i] == layers;
    }
  }

  /** A failed entry fails the layer. */
  lemma {:induction false} FailsForGood(t: Tree, layer: seq<Entry>, i: nat)
    requires i <= |layer| && Sequential(t, layer[..i]).Err?
    ensures Sequential(t, layer).Err?
    decreases |layer| - i
  {
    if i < |layer| {
      assert layer[..i + 1][..i] == layer[..i];
      FailsForGood(t, layer, i + 1);
    } else {
      assert layer[..i] == layer;
    }
  }
}
