/**
 * The scene walk of the colour-to-tangent conversion
 * (ConvertColorToTangentPerNode): every child of a node, in child order, has
 * its mesh converted and then its own children walked, so the meshes are
 * visited in pre-order. The node the walk starts from is never converted
 * itself, and the walk stops at the first mesh whose conversion fails.
 */
module SceneWalk {
  import opened Geometry
  import opened ColorToTangent

  /** A scene node (FbxNode): the walk only reads the tree, so it is a value holding mesh references. */
  datatype Node = Node(name: string, mesh: Option<Mesh>, children: seq<Node>)

  /** An FbxScene: its root node is always present. */
  datatype Scene = Scene(root: Node)

  function OwnMesh(n: Node): seq<Mesh>
  {
    if n.mesh.Some? then [n.mesh.value] else []
  }

  /** The meshes of a child and of its descendants, in the order the walk visits them. */
  function Subtree(n: Node): seq<Mesh>
    decreases n, 1
  {
    OwnMesh(n) + MeshesUnder(n.children)
  }

  /** The meshes under a sequence of sibling nodes, sibling by sibling. */
  function MeshesUnder(cs: seq<Node>): seq<Mesh>
    decreases cs, 0
  {
    if cs == [] then [] else MeshesUnder(cs[..|cs| - 1]) + Subtree(cs[|cs| - 1])
  }

  /** The meshes a walk from a possibly missing node visits: those strictly below it. */
  function Visits(node: Option<Node>): seq<Mesh>
  {
    if node.None? then [] else MeshesUnder(node.value.children)
  }

  /** For each position of run, whether ms holds the same element lo places further on. */
  ghost function Placed<T>(ms: seq<T>, lo: int, run: seq<T>): (r: seq<bool>)
    requires 0 <= lo && lo + |run| <= |ms|
    ensures |r| == |run|
  {
    seq(|run|, k requires 0 <= k < |run| => ms[lo + k] == run[k])
  }

  /** run occurs in ms from position lo on: ms[lo + k] == run[k] for every k < |run|. */
  ghost predicate RunAt<T>(ms: seq<T>, lo: int, run: seq<T>)
  {
    0 <= lo && lo + |run| <= |ms| && forall k :: 0 <= k < |run| ==> Placed(ms, lo, run)[k]
  }

  lemma ElementAt<T>(ms: seq<T>, lo: int, run: seq<T>, k: int)
    requires RunAt(ms, lo, run) && 0 <= k < |run|
    ensures ms[lo + k] == run[k]
  {
    assert Placed(ms, lo, run)[k];
  }

  predicate Succeeds(m: Mesh)
  {
    ConversionSucceeds(m.polygons, m.colors, m.HasTangent())
  }

  /** Whether each visited mesh's conversion succeeds, in visiting order. */
  function Outcomes(ms: seq<Mesh>): (r: seq<bool>)
    ensures |r| == |ms|
  {
    seq(|ms|, k requires 0 <= k < |ms| => Succeeds(ms[k]))
  }

  lemma OutcomeAt(ms: seq<Mesh>, k: nat, m: Mesh)
    requires k < |ms| && ms[k] == m
    ensures Outcomes(ms)[k] == ConversionSucceeds(m.polygons, m.colors, m.HasTangent())
  {
  }

  /** The outcomes of a run of the visited meshes are that run of the outcomes. */
  lemma OutcomesRun(ms: seq<Mesh>, lo: int, run: seq<Mesh>)
    requires RunAt(ms, lo, run)
    ensures RunAt(Outcomes(ms), lo, Outcomes(run))
  {
    forall k | 0 <= k < |run|
      ensures Placed(Outcomes(ms), lo, Outcomes(run))[k]
    {
      ElementAt(ms, lo, run, k);
      OutcomeAt(ms, lo + k, run[k]);
      OutcomeAt(run, k, run[k]);
    }
  }

  /** Position of the first failure among the outcomes, or their number when none fails. */
  function FirstFailure(bs: seq<bool>): (r: nat)
    ensures r <= |bs|
    ensures forall k :: 0 <= k < r ==> bs[k]
    ensures r < |bs| ==> !bs[r]
  {
    if bs == [] then 0
    else if !bs[0] then 0
    else FirstFailure(bs[1..]) + 1
  }

  /** The walk reports success exactly when every visited mesh's conversion succeeds. */
  lemma AllSucceed(ms: seq<Mesh>)
    ensures FirstFailure(Outcomes(ms)) == |ms| <==> forall k :: 0 <= k < |ms| ==> Succeeds(ms[k])
  {
    var r := FirstFailure(Outcomes(ms));
    if r < |ms| {
      assert !Outcomes(ms)[r];
    } else {
      forall k | 0 <= k < |ms| ensures Succeeds(ms[k]) {
        assert Outcomes(ms)[k];
      }
    }
  }

  /** How many meshes a walk converts: up to and including the first failing one. */
  function Reached(bs: seq<bool>): nat
  {
    if FirstFailure(bs) < |bs| then FirstFailure(bs) + 1 else |bs|
  }

  /** The objects each visited mesh's conversion may write, in visiting order. */
  function Frames(ms: seq<Mesh>): (r: seq<set<object>>)
    ensures |r| == |ms|
  {
    seq(|ms|, k requires 0 <= k < |ms| => ms[k].Frame())
  }

  /** No two visited meshes share their first tangent element. */
  predicate SeparateTangents(ms: seq<Mesh>)
  {
    forall a, b :: 0 <= a < b < |ms| ==> Frames(ms)[a] !! Frames(ms)[b]
  }

  /**
   * For each visited mesh, whether every colour read its conversion performs
   * is in range: entry k is ConversionReadsInRange of ms[k].
   */
  function ReadsChecked(ms: seq<Mesh>): (r: seq<bool>)
    ensures |r| == |ms|
  {
    seq(|ms|, k requires 0 <= k < |ms| => ConversionReadsInRange(ms[k].polygons, ms[k].colors, ms[k].HasTangent()))
  }

  /**
   * The caller's obligations for a walk over ms: no two meshes share their
   * first tangent element, and every mesh the walk reaches (up to and
   * including the first failing one) reads its colours in range, that is
   * ConversionReadsInRange(ms[k].polygons, ms[k].colors, ms[k].HasTangent())
   * for each k < Reached(Outcomes(ms)). Meshes after the first failure are
   * never read and carry no obligation.
   */
  predicate WalkReady(ms: seq<Mesh>)
  {
    && SeparateTangents(ms)
    && forall k :: 0 <= k < Reached(Outcomes(ms)) && k < |ms| ==> ReadsChecked(ms)[k]
  }

  /** Every mesh before position n succeeded: the walk got as far as n. */
  ghost predicate PassedBefore(ms: seq<Mesh>, n: int)
  {
    0 <= n <= |ms| && forall k :: 0 <= k < n ==> Outcomes(ms)[k]
  }

  /** A mesh the walk gets to is one it reaches, so its colour reads are in range. */
  lemma ReadyAt(ms: seq<Mesh>, k: nat, m: Mesh)
    requires WalkReady(ms) && PassedBefore(ms, k) && k < |ms| && ms[k] == m
    ensures ConversionReadsInRange(m.polygons, m.colors, m.HasTangent())
  {
    assert k <= FirstFailure(Outcomes(ms));
    assert ReadsChecked(ms)[k];
  }

  /** Every object a walk over ms may write. */
  function Footprint(ms: seq<Mesh>): set<object>
  {
    set k, o | 0 <= k < |ms| && o in ms[k].Frame() :: o
  }

  /** The state of every visited mesh's first tangent element, in visiting order. */
  function Snapshot(ms: seq<Mesh>): (r: seq<Option<TangentData>>)
    reads Footprint(ms)
    ensures |r| == |ms|
  {
    seq(|ms|, k requires 0 <= k < |ms| reads if 0 <= k < |ms| then ms[k].Frame() else {} => ms[k].Tangent())
  }

  /**
   * Going from the states `before` to the states `after`, the first `reached`
   * meshes were converted and every later one kept its state: for k < reached,
   * Converted(ms[k].polygons, ms[k].colors, before[k], after[k]), and for
   * k >= reached, after[k] == before[k].
   */
  ghost predicate WalkedUpTo(ms: seq<Mesh>, before: seq<Option<TangentData>>, after: seq<Option<TangentData>>, reached: int)
  {
    && |before| == |ms| && |after| == |ms|
    && (forall k :: 0 <= k < reached && k < |ms| ==> Conversions(ms, before, after)[k])
    && (forall k :: 0 <= k < |ms| && reached <= k ==> Kept(before, after)[k])
  }

  /** For each visited mesh k, whether its state is the same in `before` and `after`: after[k] == before[k]. */
  ghost function Kept(before: seq<Option<TangentData>>, after: seq<Option<TangentData>>): (r: seq<bool>)
    requires |before| == |after|
    ensures |r| == |before|
  {
    seq(|before|, k requires 0 <= k < |before| => after[k] == before[k])
  }

  /**
   * For each visited mesh k, whether going from `before` to `after` is its
   * conversion: Converted(ms[k].polygons, ms[k].colors, before[k], after[k]).
   */
  ghost function Conversions(ms: seq<Mesh>, before: seq<Option<TangentData>>, after: seq<Option<TangentData>>): (r: seq<bool>)
    requires |before| == |ms| && |after| == |ms|
    ensures |r| == |ms|
  {
    seq(|ms|, k requires 0 <= k < |ms| => Converted(ms[k].polygons, ms[k].colors, before[k], after[k]))
  }

  /** A walk has reached the start of its first run without changing anything. */
  lemma WalkStarts(ms: seq<Mesh>, entry: seq<Option<TangentData>>)
    requires |entry| == |ms|
    ensures WalkedUpTo(ms, entry, entry, 0)
  {
    forall k | 0 <= k < |ms| ensures Kept(entry, entry)[k] {
    }
  }

  /** The walk over ms, about to convert the mesh ms[lo]; `entry` holds the states the walk started from. */
  datatype MeshStep = MeshStep(ms: seq<Mesh>, entry: seq<Option<TangentData>>, lo: int)

  /**
   * Converting the mesh ms[lo], and writing nothing but that mesh's first
   * tangent element, extends a walk over ms that had reached lo by one mesh.
   */
  twostate lemma StepMesh(s: MeshStep)
    requires 0 <= s.lo < |s.ms| && SeparateTangents(s.ms)
    requires forall o: object :: old(allocated(o)) && o !in s.ms[s.lo].Frame() ==> unchanged(o)
    requires Converted(s.ms[s.lo].polygons, s.ms[s.lo].colors, old(s.ms[s.lo].Tangent()), s.ms[s.lo].Tangent())
    requires WalkedUpTo(s.ms, s.entry, old(Snapshot(s.ms)), s.lo)
    ensures WalkedUpTo(s.ms, s.entry, Snapshot(s.ms), s.lo + 1)
  {
    var ms, entry, lo := s.ms, s.entry, s.lo;
    var before, after := old(Snapshot(ms)), Snapshot(ms);
    forall k | 0 <= k < |ms| && k != lo
      ensures after[k] == before[k]
    {
      if k < lo {
        assert Frames(ms)[k] !! Frames(ms)[lo];
      } else {
        assert Frames(ms)[lo] !! Frames(ms)[k];
      }
    }
    forall k | 0 <= k < lo + 1
      ensures Conversions(ms, entry, after)[k]
    {
      if k < lo {
        assert Conversions(ms, entry, before)[k];
      } else {
        assert Kept(entry, before)[lo];
      }
    }
    forall k | lo + 1 <= k < |ms|
      ensures Kept(entry, after)[k]
    {
      assert Kept(entry, before)[k];
    }
  }

  lemma MeshesUnderStep(cs: seq<Node>, i: nat)
    requires i < |cs|
    ensures MeshesUnder(cs[..i + 1]) == MeshesUnder(cs[..i]) + Subtree(cs[i])
  {
    assert cs[..i + 1][..i] == cs[..i];
  }

  /** The meshes under the first i siblings are visited first. */
  lemma {:induction false} MeshesUnderPrefix(cs: seq<Node>, i: nat)
    requires i <= |cs|
    ensures MeshesUnder(cs[..i]) <= MeshesUnder(cs)
    decreases |cs|
  {
    if i == |cs| {
      assert cs[..i] == cs;
    } else {
      var front := cs[..|cs| - 1];
      assert front[..i] == cs[..i];
      MeshesUnderPrefix(front, i);
    }
  }

  /** Child i's subtree is the run of the visited meshes that follows its earlier siblings' runs. */
  lemma ChildLayout(cs: seq<Node>, i: nat, ms: seq<Mesh>, p: nat, run: seq<Mesh>)
    requires i < |cs| && ms == MeshesUnder(cs) && p == |MeshesUnder(cs[..i])| && run == Subtree(cs[i])
    ensures p + |run| == |MeshesUnder(cs[..i + 1])| && RunAt(ms, p, run)
  {
    MeshesUnderStep(cs, i);
    MeshesUnderPrefix(cs, i + 1);
    RunOfPrefix(MeshesUnder(cs[..i]), run, ms);
  }

  /** A run that ends a prefix of ms sits in ms at the same place. */
  lemma RunOfPrefix<T>(front: seq<T>, run: seq<T>, ms: seq<T>)
    requires front + run <= ms
    ensures RunAt(ms, |front|, run)
  {
    forall k | 0 <= k < |run|
      ensures Placed(ms, |front|, run)[k]
    {
      assert ms[|front| + k] == (front + run)[|front| + k];
    }
  }

  /**
   * A run inside a run of the walk is a run of the walk, with its part of the
   * outcomes and a part of the footprint.
   */
  lemma Nested(ms: seq<Mesh>, lo: int, run: seq<Mesh>, a: int, sub: seq<Mesh>)
    requires RunAt(ms, lo, run) && RunAt(run, a, sub)
    ensures RunAt(ms, lo + a, sub)
    ensures RunAt(Outcomes(run), a, Outcomes(sub))
    ensures Footprint(sub) <= Footprint(run)
  {
    var start := lo + a;
    forall k | 0 <= k < |sub| ensures Placed(ms, start, sub)[k] {
      ElementAt(run, a, sub, k);
      ElementAt(ms, lo, run, a + k);
    }
    OutcomesRun(run, a, sub);
    forall o | o in Footprint(sub) ensures o in Footprint(run) {
      var k :| 0 <= k < |sub| && o in sub[k].Frame();
      ElementAt(run, a, sub, k);
    }
  }

  /** A child's own mesh and the meshes under it are the two runs that make up its subtree. */
  lemma SubtreeParts(n: Node, run: seq<Mesh>, own: seq<Mesh>, below: seq<Mesh>)
    requires run == Subtree(n) && own == OwnMesh(n) && below == MeshesUnder(n.children)
    ensures |run| == |own| + |below| && RunAt(run, 0, own) && RunAt(run, |own|, below)
  {
    RunOfPrefix([], own, run);
    RunOfPrefix(own, below, run);
  }

  /** A walk over the whole of ms is a run of itself. */
  lemma WholeRun(ms: seq<Mesh>)
    ensures RunAt(ms, 0, ms)
  {
    forall k | 0 <= k < |ms| ensures Placed(ms, 0, ms)[k] {
    }
  }

  /** Successes at the start of a run extend the walk's successful prefix. */
  lemma RunPrefix(bs: seq<bool>, lo: int, run: seq<bool>, f: int)
    requires RunAt(bs, lo, run)
    requires forall k :: 0 <= k < lo ==> bs[k]
    requires 0 <= f <= |run| && forall k :: 0 <= k < f ==> run[k]
    ensures forall k :: 0 <= k < lo + f ==> bs[k]
  {
    forall k | lo <= k < lo + f ensures bs[k] {
      ElementAt(bs, lo, run, k - lo);
    }
  }

  /** A run of the walk in which every conversion succeeds extends the walk's successful prefix. */
  lemma RunPassed(bs: seq<bool>, lo: int, run: seq<bool>)
    requires RunAt(bs, lo, run)
    requires forall k :: 0 <= k < lo ==> bs[k]
    requires FirstFailure(run) == |run|
    ensures Reached(run) == |run|
    ensures forall k :: 0 <= k < lo + |run| ==> bs[k]
  {
    RunPrefix(bs, lo, run, |run|);
  }

  /** The first failure within a run of the walk is the walk's first failure. */
  lemma RunFailed(bs: seq<bool>, lo: int, run: seq<bool>)
    requires RunAt(bs, lo, run)
    requires forall k :: 0 <= k < lo ==> bs[k]
    requires FirstFailure(run) < |run|
    ensures FirstFailure(bs) < |bs| && Reached(bs) == lo + Reached(run)
  {
    var f := FirstFailure(run);
    RunPrefix(bs, lo, run, f);
    ElementAt(bs, lo, run, f);
    FirstFailureIs(bs, lo + f);
  }

  /** The three facts that pin down the first failure determine it. */
  lemma FirstFailureIs(bs: seq<bool>, f: nat)
    requires f <= |bs|
    requires forall k :: 0 <= k < f ==> bs[k]
    requires f < |bs| ==> !bs[f]
    ensures FirstFailure(bs) == f
  {
  }

  /*
   * The walk methods below each walk one run of the visited meshes ms, the run
   * starting at position lo; `entry` holds the states of all of ms when the
   * whole walk started. Each states its effect on the whole walk, so that a
   * caller never has to reason about what a callee left unchanged.
   */

  /** The mesh step of the walk's loop: converts the child's own mesh, if it has one. */
  method ConvertOwnMesh(child: Node, ghost ms: seq<Mesh>, ghost lo: nat, ghost entry: seq<Option<TangentData>>)
    returns (ok: bool)
    requires WalkReady(ms) && RunAt(ms, lo, OwnMesh(child)) && PassedBefore(ms, lo)
    requires WalkedUpTo(ms, entry, Snapshot(ms), lo)
    modifies Footprint(OwnMesh(child))
    ensures ok == (FirstFailure(Outcomes(OwnMesh(child))) == |OwnMesh(child)|)
    ensures WalkedUpTo(ms, entry, Snapshot(ms), lo + Reached(Outcomes(OwnMesh(child))))
    ensures ok ==> PassedBefore(ms, lo + |OwnMesh(child)|)
  {
    if child.mesh.None? {
      return true;
    }
    var mesh := child.mesh.value;
    ghost var M := OwnMesh(child);
    ElementAt(ms, lo, M, 0);
    OutcomeAt(M, 0, mesh);
    ReadyAt(ms, lo, mesh);
    label BeforeMesh:
    ok := ConvertPerMesh(mesh);
    StepMesh@BeforeMesh(MeshStep(ms, entry, lo));
    FirstFailureIs(Outcomes(M), if ok then 1 else 0);
  }

  /**
   * One pass of the walk's loop: converts the child's own mesh, if it has one,
   * then walks the child's children; false as soon as either fails.
   */
  method ConvertChild(child: Node, ghost ms: seq<Mesh>, ghost lo: nat, ghost entry: seq<Option<TangentData>>)
    returns (ok: bool)
    requires WalkReady(ms) && RunAt(ms, lo, Subtree(child)) && PassedBefore(ms, lo)
    requires WalkedUpTo(ms, entry, Snapshot(ms), lo)
    modifies Footprint(Subtree(child))
    ensures ok == (FirstFailure(Outcomes(Subtree(child))) == |Subtree(child)|)
    ensures WalkedUpTo(ms, entry, Snapshot(ms), lo + Reached(Outcomes(Subtree(child))))
    ensures ok ==> PassedBefore(ms, lo + |Subtree(child)|)
    decreases child, 1
  {
    ghost var S := Subtree(child);
    ghost var O := Outcomes(S);
    ghost var M := OwnMesh(child);
    ghost var C := MeshesUnder(child.children);
    SubtreeParts(child, S, M, C);
    Nested(ms, lo, S, 0, M);
    Nested(ms, lo, S, |M|, C);

    ok := ConvertOwnMesh(child, ms, lo, entry);
    if !ok {
      RunFailed(O, 0, Outcomes(M));
      return;
    }
    RunPassed(O, 0, Outcomes(M));

    ok := ConvertBelow(child, ms, lo + |M|, entry);
    if ok {
      RunPassed(O, |M|, Outcomes(C));
      FirstFailureIs(O, |S|);
    } else {
      RunFailed(O, |M|, Outcomes(C));
    }
  }

  /**
   * Walks the children of n in child order, each as ConvertChild does,
   * returning false at the first failure.
   */
  method ConvertBelow(n: Node, ghost ms: seq<Mesh>, ghost lo: nat, ghost entry: seq<Option<TangentData>>)
    returns (ok: bool)
    requires WalkReady(ms) && RunAt(ms, lo, MeshesUnder(n.children)) && PassedBefore(ms, lo)
    requires WalkedUpTo(ms, entry, Snapshot(ms), lo)
    modifies Footprint(MeshesUnder(n.children))
    ensures ok == (FirstFailure(Outcomes(MeshesUnder(n.children))) == |MeshesUnder(n.children)|)
    ensures WalkedUpTo(ms, entry, Snapshot(ms), lo + Reached(Outcomes(MeshesUnder(n.children))))
    ensures ok ==> PassedBefore(ms, lo + |MeshesUnder(n.children)|)
    decreases n, 0
  {
    ghost var L := MeshesUnder(n.children);
    ghost var O := Outcomes(L);
    ghost var p := 0;
    assert n.children[..0] == [];
    var i := 0;
    while i < |n.children|
      invariant 0 <= i <= |n.children|
      invariant p == |MeshesUnder(n.children[..i])| <= |L|
      invariant forall k :: 0 <= k < p ==> O[k]
      invariant WalkedUpTo(ms, entry, Snapshot(ms), lo + p)
      invariant PassedBefore(ms, lo + p)
    {
      var child := n.children[i];
      ghost var S := Subtree(child);
      ChildLayout(n.children, i, L, p, S);
      Nested(ms, lo, L, p, S);
      var walked := ConvertChild(child, ms, lo + p, entry);
      if !walked {
        RunFailed(O, p, Outcomes(S));
        return false;
      }
      RunPassed(O, p, Outcomes(S));
      i := i + 1;
      p := p + |S|;
    }
    assert n.children[..i] == n.children;
    FirstFailureIs(O, |L|);
    return true;
  }

  /** ConvertColorToTangentPerNode: a missing node converts nothing and succeeds. */
  method ConvertPerNode(node: Option<Node>) returns (ok: bool)
    requires WalkReady(Visits(node))
    modifies Footprint(Visits(node))
    ensures ok == (FirstFailure(Outcomes(Visits(node))) == |Visits(node)|)
    ensures ok <==> forall k :: 0 <= k < |Visits(node)| ==> Succeeds(Visits(node)[k])
    ensures node.None? ==> ok
    ensures WalkedUpTo(Visits(node), old(Snapshot(Visits(node))), Snapshot(Visits(node)), Reached(Outcomes(Visits(node))))
  {
    if node.None? {
      return true;
    }
    ghost var ms := Visits(node);
    WalkStarts(ms, Snapshot(ms));
    WholeRun(ms);
    ok := ConvertBelow(node.value, ms, 0, Snapshot(ms));
    AllSucceed(ms);
  }

  /** ConvertColorToTangent: walks the scene from its root node. */
  method ConvertScene(scene: Scene) returns (ok: bool)
    requires WalkReady(Visits(Some(scene.root)))
    modifies Footprint(Visits(Some(scene.root)))
    ensures ok == (FirstFailure(Outcomes(Visits(Some(scene.root)))) == |Visits(Some(scene.root))|)
    ensures ok <==> forall k :: 0 <= k < |Visits(Some(scene.root))| ==> Succeeds(Visits(Some(scene.root))[k])
    ensures WalkedUpTo(Visits(Some(scene.root)), old(Snapshot(Visits(Some(scene.root)))),
                       Snapshot(Visits(Some(scene.root))), Reached(Outcomes(Visits(Some(scene.root)))))
  {
    ok := ConvertPerNode(Some(scene.root));
  }
}
