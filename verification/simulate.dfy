/**
 * The world of simulate.js: three lists of bodies sorted by kind, the broad
 * phase that pairs them up, and the order of the phases of one step.
 *
 * The broad phase is specified on index pairs over a sequence of flags, one
 * per body, telling whether the body is dynamic; the method that builds the
 * body pairs with the source's nested loops is proved to return exactly the
 * bodies at those index pairs.
 */
module Simulate {
  import opened Vectors
  import opened Collision
  import opened Dynamics

  /** Index pair (i, j) is strictly before (k, l) in lexicographic order. */
  predicate Before(p: (nat, nat), q: (nat, nat)) {
    p.0 < q.0 || (p.0 == q.0 && p.1 < q.1)
  }

  /** The pairs come out in strictly increasing lexicographic order. */
  predicate Increasing(ps: seq<(nat, nat)>) {
    forall k, l :: 0 <= k < l < |ps| ==> Before(ps[k], ps[l])
  }

  /**
   * The pairs the inner loop of the broad phase adds for row `i` while its
   * counter runs from i + 1 up to (not including) `j`: (i, m) for every such
   * m where body i or body m is dynamic.
   */
  function Row(dynamic: seq<bool>, i: nat, j: nat): (r: seq<(nat, nat)>)
    requires i < |dynamic| && j <= |dynamic|
    ensures forall p {:trigger p in r} :: p in r <==> p.0 == i && i < p.1 < j && (dynamic[i] || dynamic[p.1])
  {
    if j <= i + 1 then []
    else Row(dynamic, i, j - 1) + (if dynamic[i] || dynamic[j - 1] then [(i, j - 1)] else [])
  }

  /**
   * The pairs the outer loop of the broad phase has produced once its counter
   * reaches `i`: every (k, m) with k < i, k < m and one of the two dynamic.
   */
  function Pairs(dynamic: seq<bool>, i: nat): (r: seq<(nat, nat)>)
    requires i <= |dynamic|
    ensures forall p {:trigger p in r} :: p in r <==> p.0 < i && p.0 < p.1 < |dynamic| && (dynamic[p.0] || dynamic[p.1])
  {
    if i == 0 then []
    else Pairs(dynamic, i - 1) + Row(dynamic, i - 1, |dynamic|)
  }

  /** Every pair of a row is after every pair of the rows above it. */
  lemma {:induction false} AppendIncreasing(a: seq<(nat, nat)>, b: seq<(nat, nat)>)
    requires Increasing(a) && Increasing(b)
    requires forall p, q :: p in a && q in b ==> Before(p, q)
    ensures Increasing(a + b)
  {
    forall k, l | 0 <= k < l < |a + b|
      ensures Before((a + b)[k], (a + b)[l])
    {
      if l < |a| {
        assert Before(a[k], a[l]);
      } else if k < |a| {
        assert (a + b)[k] in a && (a + b)[l] in b;
      } else {
        assert Before(b[k - |a|], b[l - |a|]);
      }
    }
  }

  /** A row lists its pairs in increasing order of the second index. */
  lemma {:induction false} RowIncreasing(dynamic: seq<bool>, i: nat, j: nat)
    requires i < |dynamic| && j <= |dynamic|
    ensures Increasing(Row(dynamic, i, j))
    decreases j
  {
    if j > i + 1 {
      RowIncreasing(dynamic, i, j - 1);
      AppendIncreasing(Row(dynamic, i, j - 1), if dynamic[i] || dynamic[j - 1] then [(i, j - 1)] else []);
    }
  }

  /**
   * The broad phase emits its index pairs in strictly increasing
   * lexicographic order; in particular no pair appears twice.
   */
  lemma {:induction false} PairsIncreasing(dynamic: seq<bool>, i: nat)
    requires i <= |dynamic|
    ensures Increasing(Pairs(dynamic, i))
  {
    if i > 0 {
      PairsIncreasing(dynamic, i - 1);
      RowIncreasing(dynamic, i - 1, |dynamic|);
      AppendIncreasing(Pairs(dynamic, i - 1), Row(dynamic, i - 1, |dynamic|));
    }
  }

  /** A turn of the inner loop of the broad phase with a dynamic body appends the pair (i, j). */
  lemma RowGrows(dynamic: seq<bool>, i: nat, j: nat)
    requires i < j < |dynamic| && (dynamic[i] || dynamic[j])
    ensures Pairs(dynamic, i) + Row(dynamic, i, j + 1) == Pairs(dynamic, i) + Row(dynamic, i, j) + [(i, j)]
  {
    assert Row(dynamic, i, j + 1) == Row(dynamic, i, j) + [(i, j)];
  }

  /** One flag per body: is it a DynamicBody? */
  function DynamicFlags(all: seq<Body>): (dynamic: seq<bool>)
    ensures |dynamic| == |all|
    ensures forall k :: 0 <= k < |all| ==> dynamic[k] == all[k].variant.Dynamic?
  {
    if all == [] then [] else DynamicFlags(all[..|all| - 1]) + [all[|all| - 1].variant.Dynamic?]
  }

  /** The index pairs `broadPhaseCollision` visits and keeps for the body list `all`. */
  function BroadPhase(all: seq<Body>): seq<(nat, nat)> {
    Pairs(DynamicFlags(all), |all|)
  }

  /** `pairs` holds, in order, the bodies of `all` at the index pairs `idx`. */
  predicate BodiesAt(all: seq<Body>, idx: seq<(nat, nat)>, pairs: seq<(Body, Body)>) {
    && |pairs| == |idx|
    && forall k :: 0 <= k < |idx| ==>
         idx[k].0 < |all| && idx[k].1 < |all| && pairs[k] == (all[idx[k].0], all[idx[k].1])
  }

  /** Appending the bodies at one more index pair keeps `BodiesAt`. */
  lemma BodiesAtGrows(all: seq<Body>, idx: seq<(nat, nat)>, pairs: seq<(Body, Body)>, i: nat, j: nat)
    requires BodiesAt(all, idx, pairs) && i < |all| && j < |all|
    ensures BodiesAt(all, idx + [(i, j)], pairs + [(all[i], all[j])])
  {
    var idx', pairs' := idx + [(i, j)], pairs + [(all[i], all[j])];
    forall k | 0 <= k < |idx'|
      ensures idx'[k].0 < |all| && idx'[k].1 < |all| && pairs'[k] == (all[idx'[k].0], all[idx'[k].1])
    {
      if k < |idx| {
        assert idx'[k] == idx[k] && pairs'[k] == pairs[k];
      }
    }
  }

  /**
   * No false negatives: the broad phase keeps the bodies at positions
   * i < j of the body list whenever one of them is dynamic.
   */
  lemma {:induction false} BroadPhaseComplete(all: seq<Body>, pairs: seq<(Body, Body)>, i: nat, j: nat)
    requires BodiesAt(all, BroadPhase(all), pairs)
    requires i < j < |all|
    requires all[i].variant.Dynamic? || all[j].variant.Dynamic?
    ensures (all[i], all[j]) in pairs
  {
    var idx := BroadPhase(all);
    assert (i, j) in idx;
    var k :| 0 <= k < |idx| && idx[k] == (i, j);
    assert pairs[k] == (all[i], all[j]);
  }

  /**
   * No other pairs: every pair the broad phase keeps is the bodies at some
   * positions i < j of the body list, one of them dynamic.
   */
  lemma {:induction false} BroadPhaseSound(all: seq<Body>, pairs: seq<(Body, Body)>, k: nat)
    requires BodiesAt(all, BroadPhase(all), pairs)
    requires k < |pairs|
    ensures exists i: nat, j: nat ::
              && i < j < |all|
              && pairs[k] == (all[i], all[j])
              && (all[i].variant.Dynamic? || all[j].variant.Dynamic?)
  {
    var idx := BroadPhase(all);
    assert idx[k] in idx;
    var i, j := idx[k].0, idx[k].1;
    assert pairs[k] == (all[i], all[j]);
  }

  /**
   * With all bodies distinct, no body is paired with itself and no pair
   * comes out twice.
   */
  lemma {:induction false} BroadPhaseNoRepeats(all: seq<Body>, pairs: seq<(Body, Body)>)
    requires BodiesAt(all, BroadPhase(all), pairs)
    requires forall i, j :: 0 <= i < j < |all| ==> all[i] != all[j]
    ensures forall k :: 0 <= k < |pairs| ==> pairs[k].0 != pairs[k].1
    ensures forall k, l :: 0 <= k < l < |pairs| ==> pairs[k] != pairs[l]
  {
    var idx := BroadPhase(all);
    PairsIncreasing(DynamicFlags(all), |all|);
    forall k | 0 <= k < |idx|
      ensures pairs[k].0 != pairs[k].1
    {
      assert idx[k] in idx;
    }
    forall k, l | 0 <= k < l < |idx|
      ensures pairs[k] != pairs[l]
    {
      assert idx[k] in idx && idx[l] in idx;
      assert Before(idx[k], idx[l]);
    }
  }

  /**
   * The broad phase finds nothing exactly when there are fewer than two
   * bodies or none of them is dynamic.
   */
  lemma {:induction false} BroadPhaseEmpty(all: seq<Body>)
    ensures BroadPhase(all) == [] <==> |all| < 2 || forall k :: 0 <= k < |all| ==> !all[k].variant.Dynamic?
  {
    var dynamic := DynamicFlags(all);
    if |all| >= 2 && exists k :: 0 <= k < |all| && all[k].variant.Dynamic? {
      var k :| 0 <= k < |all| && all[k].variant.Dynamic?;
      var p: (nat, nat) := if k == 0 then (0, 1) else (0, k);
      assert p in BroadPhase(all);
    } else if BroadPhase(all) != [] {
      var p := BroadPhase(all)[0];
      assert p in BroadPhase(all);
    }
  }

  /** The candidate pairs index bodies of the list. */
  lemma BroadPhaseInRange(all: seq<Body>)
    ensures forall k :: 0 <= k < |BroadPhase(all)| ==> BroadPhase(all)[k].0 < |all| && BroadPhase(all)[k].1 < |all|
  {
    forall k | 0 <= k < |BroadPhase(all)|
      ensures BroadPhase(all)[k].0 < |all| && BroadPhase(all)[k].1 < |all|
    {
      assert BroadPhase(all)[k] in BroadPhase(all);
    }
  }

  /** The shapes of `bodies`. */
  function ShapesOf(bodies: seq<Body>): set<Shape> {
    set b | b in bodies :: b.shape
  }

  /** No body is listed twice and no two listed bodies share a shape. */
  predicate Separate(bodies: seq<Body>) {
    forall i, j :: 0 <= i < j < |bodies| ==> bodies[i] != bodies[j] && bodies[i].shape != bodies[j].shape
  }

  /** Every shape stands where its body is. */
  predicate AllSynced(bodies: seq<Body>)
    reads bodies, ShapesOf(bodies)
  {
    forall k :: 0 <= k < |bodies| ==> bodies[k].Synced()
  }

  /** Every shape of a joined list stands where its body is exactly when this holds for both parts. */
  lemma SyncedParts(a: seq<Body>, b: seq<Body>)
    ensures AllSynced(a + b) <==> AllSynced(a) && AllSynced(b)
  {
    if AllSynced(a) && AllSynced(b) {
      forall k | 0 <= k < |a + b|
        ensures (a + b)[k].Synced()
      {
        if k >= |a| {
          assert (a + b)[k] == b[k - |a|];
        }
      }
    }
    if AllSynced(a + b) {
      forall k | 0 <= k < |a|
        ensures a[k].Synced()
      {
        assert (a + b)[k] == a[k];
      }
      forall k | 0 <= k < |b|
        ensures b[k].Synced()
      {
        assert (a + b)[|a| + k] == b[k];
      }
    }
  }

  /** Three lists that are separate together are separate each, and from each other. */
  lemma SeparateThree(a: seq<Body>, b: seq<Body>, c: seq<Body>)
    requires Separate(a + b + c)
    ensures Separate(b) && Separate(c)
    ensures forall x, y {:trigger x in a, y in b} :: x in a && y in b ==> x != y && x.shape != y.shape
    ensures forall x, y {:trigger x in a, y in c} :: x in a && y in c ==> x != y && x.shape != y.shape
    ensures forall x, y {:trigger x in b, y in c} :: x in b && y in c ==> x != y && x.shape != y.shape
  {
    var all := a + b + c;
    forall i, j | 0 <= i < j < |b|
      ensures b[i] != b[j] && b[i].shape != b[j].shape
    {
      assert all[|a| + i] == b[i] && all[|a| + j] == b[j];
    }
    forall i, j | 0 <= i < j < |c|
      ensures c[i] != c[j] && c[i].shape != c[j].shape
    {
      assert all[|a| + |b| + i] == c[i] && all[|a| + |b| + j] == c[j];
    }
    forall x, y | x in a && y in b
      ensures x != y && x.shape != y.shape
    {
      var i :| 0 <= i < |a| && a[i] == x;
      var j :| 0 <= j < |b| && b[j] == y;
      assert all[i] == x && all[|a| + j] == y;
    }
    forall x, y | x in a && y in c
      ensures x != y && x.shape != y.shape
    {
      var i :| 0 <= i < |a| && a[i] == x;
      var j :| 0 <= j < |c| && c[j] == y;
      assert all[i] == x && all[|a| + |b| + j] == y;
    }
    forall x, y | x in b && y in c
      ensures x != y && x.shape != y.shape
    {
      var i :| 0 <= i < |b| && b[i] == x;
      var j :| 0 <= j < |c| && c[j] == y;
      assert all[|a| + i] == x && all[|a| + |b| + j] == y;
    }
  }

  /** `x` and its shape are new to `bodies`, and its shape stands where it is. */
  predicate Joinable(bodies: seq<Body>, x: Body)
    reads x, x.shape
  {
    x.Synced() && forall k :: 0 <= k < |bodies| ==> bodies[k] != x && bodies[k].shape != x.shape
  }

  /** Inserting a joinable body anywhere keeps a list separate and synced. */
  lemma InsertJoinable(a: seq<Body>, b: seq<Body>, x: Body)
    requires Separate(a + b) && AllSynced(a + b) && Joinable(a + b, x)
    ensures Separate(a + [x] + b) && AllSynced(a + [x] + b)
  {
    var all, grown := a + b, a + [x] + b;
    forall k | 0 <= k < |grown|
      ensures grown[k].Synced()
    {
      if k < |a| {
        assert grown[k] == all[k];
      } else if k > |a| {
        assert grown[k] == all[k - 1];
      }
    }
    forall i, j | 0 <= i < j < |grown|
      ensures grown[i] != grown[j] && grown[i].shape != grown[j].shape
    {
      if i == |a| {
        assert grown[j] == all[j - 1];
      } else if j == |a| {
        assert grown[i] == all[i];
      } else {
        var i', j' := if i < |a| then i else i - 1, if j < |a| then j else j - 1;
        assert grown[i] == all[i'] && grown[j] == all[j'];
      }
    }
  }

  /** Everything of a body that a step may change, as one value. */
  datatype Condition = Condition(motion: Motion, lifetimeCollisions: nat, density: real, friction: real, restitution: real)

  /** The condition `b` is in. */
  function ConditionOf(b: Body): Condition
    reads b
  {
    Condition(b.State(), b.lifetimeCollisions, b.density, b.friction, b.restitution)
  }

  /** A condition moved by its velocity, all else as it was. */
  function Advanced(c: Condition): Condition {
    c.(motion := c.motion.(position := c.motion.position.Add(c.motion.velocity)))
  }

  /** A condition whose motion is integrated over one tick with inverse mass `invMass`, all else as it was. */
  function Ticked(c: Condition, invMass: real, norm: Norm): Condition {
    c.(motion := Integrate(c.motion, invMass, norm))
  }

  /** A motion state with the accumulators `r` written into it. */
  function WithAccumulators(s: Motion, r: Response): (t: Motion)
    ensures t.position == s.position && t.velocity == s.velocity
    ensures t.force == s.force && t.persistentForce == s.persistentForce
    ensures t.impulse == r.impulse && t.impulseCorrection == r.impulseCorrection
  {
    s.(impulse := r.impulse, impulseCorrection := r.impulseCorrection)
  }

  /** A condition with the accumulators `r` written into it, collision count included. */
  function Collided(c: Condition, r: Response): Condition {
    c.(motion := WithAccumulators(c.motion, r), lifetimeCollisions := r.lifetimeCollisions)
  }

  /**
   * A kinematic body after its update: moved by its velocity, which it
   * keeps; its material, forces and accumulators are as they were.
   */
  twostate predicate Moved(b: Body)
    reads b
  {
    ConditionOf(b) == Advanced(old(ConditionOf(b)))
  }

  /**
   * A dynamic body after its update: its motion state integrated over one
   * tick; its material and collision count are as they were.
   */
  twostate predicate Integrated(b: Body, norm: Norm)
    reads b, b.shape
  {
    ConditionOf(b) == Ticked(old(ConditionOf(b)), old(b.InvMass()), norm)
  }

  /** The condition of every body of a list. */
  function ConditionsOf(bodies: seq<Body>): (r: seq<Condition>)
    reads bodies
    ensures |r| == |bodies| && forall k :: 0 <= k < |bodies| ==> r[k] == ConditionOf(bodies[k])
  {
    if bodies == [] then [] else ConditionsOf(bodies[..|bodies| - 1]) + [ConditionOf(bodies[|bodies| - 1])]
  }

  /** The inverse mass of every body of a list. */
  function InvMassesOf(bodies: seq<Body>): (r: seq<real>)
    reads bodies, ShapesOf(bodies)
    ensures |r| == |bodies| && forall k :: 0 <= k < |bodies| ==> r[k] == bodies[k].InvMass()
  {
    if bodies == [] then []
    else
      var last := bodies[|bodies| - 1];
      assert last.shape in ShapesOf(bodies);
      InvMassesOf(bodies[..|bodies| - 1]) + [last.InvMass()]
  }

  /** The kinematic pass of a step: every body of the list is updated, in order. */
  method UpdateKinematic(bodies: seq<Body>)
    requires forall k :: 0 <= k < |bodies| ==> bodies[k].variant.Kinematic?
    requires Separate(bodies)
    modifies bodies, ShapesOf(bodies)
    ensures forall k :: 0 <= k < |bodies| ==> Moved(bodies[k])
    ensures AllSynced(bodies)
  {
    var i := 0;
    while i < |bodies|
      invariant 0 <= i <= |bodies|
      invariant forall k :: 0 <= k < i ==> Moved(bodies[k]) && bodies[k].Synced()
      invariant forall k :: i <= k < |bodies| ==> unchanged(bodies[k], bodies[k].shape)
    {
      bodies[i].KinematicUpdate();
      i := i + 1;
    }
  }

  /** The dynamic pass of a step: every body of the list is integrated, in order. */
  method UpdateDynamic(bodies: seq<Body>, norm: Norm)
    requires forall k :: 0 <= k < |bodies| ==> bodies[k].variant.Dynamic?
    requires Separate(bodies)
    modifies bodies, ShapesOf(bodies)
    ensures forall k :: 0 <= k < |bodies| ==> Integrated(bodies[k], norm)
    ensures AllSynced(bodies)
  {
    var i := 0;
    while i < |bodies|
      invariant 0 <= i <= |bodies|
      invariant forall k :: 0 <= k < i ==> Integrated(bodies[k], norm) && bodies[k].Synced()
      invariant forall k :: i <= k < |bodies| ==> unchanged(bodies[k], bodies[k].shape)
    {
      bodies[i].DynamicUpdate(norm);
      i := i + 1;
    }
  }

  // The collision phase. dynamics.js has no `Collision` class; each
  // candidate pair is resolved with the resolution dynamics.js does have:
  // every dynamic body of the pair runs `impulseResolution` against the
  // other, the first body of the pair before the second.

  /** Body `i` of the list the flags `dynamic` describe is dynamic. */
  predicate IsDynamic(dynamic: seq<bool>, i: nat) {
    i < |dynamic| && dynamic[i]
  }

  /** The resolutions one candidate pair (i, j) asks for, as (self, other) index pairs. */
  function PairResolutions(dynamic: seq<bool>, p: (nat, nat)): (calls: seq<(nat, nat)>)
    ensures (p.0, p.1) in calls <==> IsDynamic(dynamic, p.0)
    ensures (p.1, p.0) in calls <==> IsDynamic(dynamic, p.1)
    ensures forall c {:trigger c in calls} :: c in calls ==>
              (c == (p.0, p.1) && IsDynamic(dynamic, p.0)) || (c == (p.1, p.0) && IsDynamic(dynamic, p.1))
  {
    (if IsDynamic(dynamic, p.0) then [(p.0, p.1)] else []) + (if IsDynamic(dynamic, p.1) then [(p.1, p.0)] else [])
  }

  /**
   * Every resolution of the collision phase over the candidate pairs `idx`,
   * in the order they run.
   */
  function Resolutions(dynamic: seq<bool>, idx: seq<(nat, nat)>): (calls: seq<(nat, nat)>)
    ensures |calls| <= 2 * |idx|
  {
    if idx == [] then [] else PairResolutions(dynamic, idx[0]) + Resolutions(dynamic, idx[1..])
  }

  /**
   * The collision phase resolves exactly the dynamic sides of the candidate
   * pairs: each resolution has a dynamic body resolving against a body of
   * the list, and every dynamic body of every pair resolves against the
   * other body of the pair.
   */
  lemma {:induction false} ResolutionsCover(dynamic: seq<bool>, idx: seq<(nat, nat)>)
    requires forall k :: 0 <= k < |idx| ==> idx[k].0 < |dynamic| && idx[k].1 < |dynamic|
    ensures forall c {:trigger c in Resolutions(dynamic, idx)} :: c in Resolutions(dynamic, idx) ==>
              c.0 < |dynamic| && c.1 < |dynamic| && dynamic[c.0]
    ensures forall k :: 0 <= k < |idx| && dynamic[idx[k].0] ==> (idx[k].0, idx[k].1) in Resolutions(dynamic, idx)
    ensures forall k :: 0 <= k < |idx| && dynamic[idx[k].1] ==> (idx[k].1, idx[k].0) in Resolutions(dynamic, idx)
  {
    if idx != [] {
      assert forall k :: 1 <= k < |idx| ==> idx[k] == idx[1..][k - 1];
      ResolutionsCover(dynamic, idx[1..]);
    }
  }

  /** What the collision phase reads of a body: what `impulseResolution` reads, and where its shape is. */
  datatype Snap = Snap(party: Party, placed: Placed)

  /** The snapshot of every body of a list. */
  function Snapshot(bodies: seq<Body>): (snap: seq<Snap>)
    reads bodies, ShapesOf(bodies)
    ensures |snap| == |bodies|
    ensures forall k :: 0 <= k < |bodies| ==> snap[k] == Snap(bodies[k].AsParty(), bodies[k].shape.Placement())
  {
    if bodies == [] then []
    else
      var last := bodies[|bodies| - 1];
      Snapshot(bodies[..|bodies| - 1]) + [Snap(last.AsParty(), last.shape.Placement())]
  }

  /** The manifold resolution `c` builds: the self body's shape against the other's. */
  function CallManifold(snap: seq<Snap>, c: (nat, nat), norm: Norm, random: Vec): Result<Manifold>
    requires c.0 < |snap| && c.1 < |snap|
  {
    Collide(snap[c.0].placed, snap[c.1].placed, norm, random)
  }

  /**
   * Resolution `c` goes through: its manifold exists (it is not the failing
   * Point–Circle case) and it does not divide by a zero sum of inverse masses.
   */
  predicate Performs(snap: seq<Snap>, c: (nat, nat), norm: Norm, random: Vec) {
    && c.0 < |snap| && c.1 < |snap|
    && CallManifold(snap, c, norm, random).Ok?
    && Solvable(snap[c.0].party, snap[c.1].party, CallManifold(snap, c, norm, random).value)
  }

  /**
   * The accumulators of body `i`, starting from `r`, after the first `n`
   * resolutions of `calls`. The q-th resolution builds its manifold with
   * the random direction `random(q)`. Only the resolutions whose self is
   * `i` write to it, and what they read of the bodies stays as in `snap`.
   */
  function Received(i: nat, r: Response, calls: seq<(nat, nat)>, snap: seq<Snap>, norm: Norm, random: nat -> Vec, n: nat): Response
    requires n <= |calls|
    requires forall q :: 0 <= q < n ==> Performs(snap, calls[q], norm, random(q))
  {
    if n == 0 then r
    else
      var before := Received(i, r, calls, snap, norm, random, n - 1);
      var c := calls[n - 1];
      assert Performs(snap, calls[n - 1], norm, random(n - 1));
      if c.0 == i then Resolve(before, snap[c.0].party, snap[c.1].party, CallManifold(snap, c, norm, random(n - 1)).value)
      else before
  }

  /** A body that none of the first `n` resolutions writes to keeps its accumulators. */
  lemma {:induction false} ReceivedUntouched(i: nat, r: Response, calls: seq<(nat, nat)>, snap: seq<Snap>, norm: Norm, random: nat -> Vec, n: nat)
    requires n <= |calls|
    requires forall q :: 0 <= q < n ==> Performs(snap, calls[q], norm, random(q))
    requires forall q :: 0 <= q < n ==> calls[q].0 != i
    ensures Received(i, r, calls, snap, norm, random, n) == r
  {
    if n > 0 {
      ReceivedUntouched(i, r, calls, snap, norm, random, n - 1);
    }
  }

  /**
   * The collision count of body `i` grows by at most one per resolution
   * that writes to it, and never shrinks.
   */
  lemma {:induction false} ReceivedCounts(i: nat, r: Response, calls: seq<(nat, nat)>, snap: seq<Snap>, norm: Norm, random: nat -> Vec, n: nat)
    requires n <= |calls|
    requires forall q :: 0 <= q < n ==> Performs(snap, calls[q], norm, random(q))
    ensures r.lifetimeCollisions <= Received(i, r, calls, snap, norm, random, n).lifetimeCollisions <= r.lifetimeCollisions + n
  {
    if n > 0 {
      ReceivedCounts(i, r, calls, snap, norm, random, n - 1);
    }
  }

  /** How the collision phase of a step ended. */
  datatype Resolution =
    | Resolved
      /** Resolution `at` built a manifold that fails: a point against a circle. */
    | ManifoldFailed(at: nat, error: CollisionError)
      /**
       * Resolution `at` would divide by a zero sum of inverse masses, which
       * gives Infinity or NaN in the source.
       */
    | ZeroMassSum(at: nat)

  /** How many of the resolutions ran before the collision phase ended. */
  function Done(outcome: Resolution, total: nat): nat {
    match outcome
    case Resolved => total
    case ManifoldFailed(at, _) => at
    case ZeroMassSum(at) => at
  }

  /**
   * The collision phase ended where it had to: every resolution before the
   * stopping point goes through, and the one it stopped at fails in the
   * way the outcome says.
   */
  predicate Stops(outcome: Resolution, calls: seq<(nat, nat)>, snap: seq<Snap>, norm: Norm, random: nat -> Vec) {
    && Done(outcome, |calls|) <= |calls|
    && (forall q :: 0 <= q < Done(outcome, |calls|) ==> Performs(snap, calls[q], norm, random(q)))
    && match outcome
       case Resolved => true
       case ManifoldFailed(at, e) =>
         at < |calls| && calls[at].0 < |snap| && calls[at].1 < |snap| && CallManifold(snap, calls[at], norm, random(at)) == Err(e)
       case ZeroMassSum(at) =>
         at < |calls| && calls[at].0 < |snap| && calls[at].1 < |snap| && CallManifold(snap, calls[at], norm, random(at)).Ok?
         && !Solvable(snap[calls[at].0].party, snap[calls[at].1].party, CallManifold(snap, calls[at], norm, random(at)).value)
  }

  /**
   * A body whose frozen part the collision phase kept, its shape untouched,
   * has the motion state it had with its new accumulators written in, and
   * its inverse mass.
   */
  twostate lemma KeptState(b: Body)
    requires FrozenOf(b) == old(FrozenOf(b)) && unchanged(b.shape)
    ensures ConditionOf(b) == Collided(old(ConditionOf(b)), b.Accumulators())
    ensures b.InvMass() == old(b.InvMass())
  {
  }

  /** What the collision phase must leave alone in a body. */
  datatype Frozen = Frozen(
    position: Vec, velocity: Vec, force: Vec, persistentForce: Vec,
    density: real, friction: real, restitution: real)

  function FrozenOf(b: Body): Frozen
    reads b
  {
    Frozen(b.position, b.velocity, b.force, b.persistentForce, b.density, b.friction, b.restitution)
  }

  /** The frozen part of every body of a list. */
  function FreezeAll(bodies: seq<Body>): (r: seq<Frozen>)
    reads bodies
    ensures |r| == |bodies| && forall k :: 0 <= k < |bodies| ==> r[k] == FrozenOf(bodies[k])
  {
    if bodies == [] then [] else FreezeAll(bodies[..|bodies| - 1]) + [FrozenOf(bodies[|bodies| - 1])]
  }

  /** The accumulators of every body of a list. */
  function AccumulatorsOf(bodies: seq<Body>): (r: seq<Response>)
    reads bodies
    ensures |r| == |bodies| && forall k :: 0 <= k < |bodies| ==> r[k] == bodies[k].Accumulators()
  {
    if bodies == [] then [] else AccumulatorsOf(bodies[..|bodies| - 1]) + [bodies[|bodies| - 1].Accumulators()]
  }

  /**
   * The collision phase has run its first `n` resolutions: each went
   * through, every body keeps its frozen part and what the resolutions read,
   * and its accumulators are what those resolutions made of `start`.
   */
  predicate Progress(all: seq<Body>, frozen: seq<Frozen>, start: seq<Response>, calls: seq<(nat, nat)>,
                     snap: seq<Snap>, norm: Norm, random: nat -> Vec, n: nat)
    reads all, ShapesOf(all)
  {
    && |frozen| == |all| && |start| == |all| && |snap| == |all| && n <= |calls|
    && (forall q :: 0 <= q < n ==> Performs(snap, calls[q], norm, random(q)))
    && (forall i :: 0 <= i < |all| ==> BodyProgress(all[i], frozen[i], start[i], i, calls, snap, norm, random, n))
  }

  /** Body `i` of the collision phase after its first `n` resolutions. */
  predicate BodyProgress(b: Body, frozen: Frozen, start: Response, i: nat, calls: seq<(nat, nat)>,
                         snap: seq<Snap>, norm: Norm, random: nat -> Vec, n: nat)
    requires n <= |calls| && forall q :: 0 <= q < n ==> Performs(snap, calls[q], norm, random(q))
    reads b, b.shape
  {
    && i < |snap|
    && FrozenOf(b) == frozen
    && snap[i] == Snap(b.AsParty(), b.shape.Placement())
    && b.Accumulators() == Received(i, start, calls, snap, norm, random, n)
  }

  /**
   * Resolution number `n` of the collision phase: body `a` runs
   * `impulseResolution` against body `b`, unless building the manifold
   * fails or the resolution would divide by zero.
   */
  method ResolveCall(a: Body, b: Body, ghost all: seq<Body>, ghost frozen: seq<Frozen>, ghost start: seq<Response>,
                     ghost calls: seq<(nat, nat)>, ghost snap: seq<Snap>, n: nat, norm: Norm, random: nat -> Vec)
    returns (outcome: Resolution)
    requires Separate(all) && Progress(all, frozen, start, calls, snap, norm, random, n)
    requires n < |calls| && calls[n].0 < |all| && calls[n].1 < |all|
    requires a == all[calls[n].0] && b == all[calls[n].1] && a.variant.Dynamic?
    modifies a
    ensures outcome.Resolved? <==> Performs(snap, calls[n], norm, random(n))
    ensures outcome.Resolved? ==> Progress(all, frozen, start, calls, snap, norm, random, n + 1)
    ensures !outcome.Resolved? ==> Progress(all, frozen, start, calls, snap, norm, random, n)
    ensures outcome.ManifoldFailed? ==> outcome.at == n && CallManifold(snap, calls[n], norm, random(n)) == Err(outcome.error)
    ensures outcome.ZeroMassSum? ==> outcome.at == n && CallManifold(snap, calls[n], norm, random(n)).Ok?
    ensures !outcome.Resolved? ==> Stops(outcome, calls, snap, norm, random)
  {
    ghost var s, o := calls[n].0, calls[n].1;
    var m := NewManifold(a.shape, b.shape, norm, random(n));
    assert m == CallManifold(snap, calls[n], norm, random(n));
    if m.Err? {
      outcome := ManifoldFailed(n, m.error);
      FailureStops(outcome, calls, snap, norm, random);
      return;
    }
    if !Solvable(a.AsParty(), b.AsParty(), m.value) {
      outcome := ZeroMassSum(n);
      FailureStops(outcome, calls, snap, norm, random);
      return;
    }
    assert BodyProgress(a, frozen[s], start[s], s, calls, snap, norm, random, n);
    a.ImpulseResolution(b, m.value);
    outcome := Resolved;
    forall i | 0 <= i < |all| && i != s
      ensures BodyProgress(all[i], frozen[i], start[i], i, calls, snap, norm, random, n)
    {
      assert all[i] != a;
      assert old(BodyProgress(all[i], frozen[i], start[i], i, calls, snap, norm, random, n));
    }
    ResolvedProgress(s, all, frozen, start, calls, snap, norm, random, n);
  }

  /**
   * Resolution `n` went through and wrote only to its self body `s`: the
   * collision phase has now run `n + 1` resolutions.
   */
  lemma ResolvedProgress(s: nat, all: seq<Body>, frozen: seq<Frozen>, start: seq<Response>,
                         calls: seq<(nat, nat)>, snap: seq<Snap>, norm: Norm, random: nat -> Vec, n: nat)
    requires n < |calls| && s == calls[n].0 && s < |all| && calls[n].1 < |all|
    requires |frozen| == |all| && |start| == |all| && |snap| == |all|
    requires forall q :: 0 <= q < n ==> Performs(snap, calls[q], norm, random(q))
    requires Performs(snap, calls[n], norm, random(n))
    requires forall i :: 0 <= i < |all| && i != s ==> BodyProgress(all[i], frozen[i], start[i], i, calls, snap, norm, random, n)
    requires FrozenOf(all[s]) == frozen[s] && snap[s] == Snap(all[s].AsParty(), all[s].shape.Placement())
    requires all[s].Accumulators() == Resolve(Received(s, start[s], calls, snap, norm, random, n),
                                              snap[s].party, snap[calls[n].1].party, CallManifold(snap, calls[n], norm, random(n)).value)
    ensures Progress(all, frozen, start, calls, snap, norm, random, n + 1)
  {
  }

  /**
   * A collision phase whose resolutions before `outcome.at` all went
   * through, and whose resolution at `outcome.at` fails the way the outcome
   * says, stops there.
   */
  lemma FailureStops(outcome: Resolution, calls: seq<(nat, nat)>, snap: seq<Snap>, norm: Norm, random: nat -> Vec)
    requires !outcome.Resolved? && outcome.at < |calls| && calls[outcome.at].0 < |snap| && calls[outcome.at].1 < |snap|
    requires forall q :: 0 <= q < outcome.at ==> Performs(snap, calls[q], norm, random(q))
    requires !Performs(snap, calls[outcome.at], norm, random(outcome.at))
    requires outcome.ManifoldFailed? ==> CallManifold(snap, calls[outcome.at], norm, random(outcome.at)) == Err(outcome.error)
    requires outcome.ZeroMassSum? ==> CallManifold(snap, calls[outcome.at], norm, random(outcome.at)).Ok?
    ensures Stops(outcome, calls, snap, norm, random)
  {
  }

  /**
   * Where the resolutions of candidate pair `k` sit in `calls`, when the
   * resolutions of pairs `k` onwards start at position `n`.
   */
  lemma PairCalls(dynamic: seq<bool>, idx: seq<(nat, nat)>, k: nat, calls: seq<(nat, nat)>, n: nat)
    requires k < |idx| && n <= |calls| && calls[n..] == Resolutions(dynamic, idx[k..])
    ensures IsDynamic(dynamic, idx[k].0) ==> n < |calls| && calls[n] == (idx[k].0, idx[k].1)
    ensures IsDynamic(dynamic, idx[k].1) ==>
              Next(dynamic, idx[k], n) < |calls| && calls[Next(dynamic, idx[k], n)] == (idx[k].1, idx[k].0)
    ensures After(dynamic, idx[k], n) <= |calls| && calls[After(dynamic, idx[k], n)..] == Resolutions(dynamic, idx[k + 1..])
  {
    ResolutionsFrom(dynamic, idx, k);
    var mid := PairResolutions(dynamic, idx[k]);
    SuffixSplit(calls, n, mid, Resolutions(dynamic, idx[k + 1..]));
    assert After(dynamic, idx[k], n) == n + |mid|;
    if IsDynamic(dynamic, idx[k].0) {
      assert calls[n + 0] == mid[0];
    }
    if IsDynamic(dynamic, idx[k].1) {
      assert calls[n + (|mid| - 1)] == mid[|mid| - 1];
    }
  }

  /** The resolutions from candidate pair `k` on: those of pair `k`, then those of the pairs after it. */
  lemma ResolutionsFrom(dynamic: seq<bool>, idx: seq<(nat, nat)>, k: nat)
    requires k < |idx|
    ensures Resolutions(dynamic, idx[k..]) == PairResolutions(dynamic, idx[k]) + Resolutions(dynamic, idx[k + 1..])
  {
    assert idx[k..][0] == idx[k] && idx[k..][1..] == idx[k + 1..];
  }

  /** A suffix of `s` that splits into `a` then `b`: `a` sits at `n`, and `b` follows it. */
  lemma SuffixSplit<T>(s: seq<T>, n: nat, a: seq<T>, b: seq<T>)
    requires n <= |s| && s[n..] == a + b
    ensures n + |a| <= |s| && s[n + |a|..] == b
    ensures forall t :: 0 <= t < |a| ==> s[n + t] == a[t]
  {
    forall t | 0 <= t < |a|
      ensures s[n + t] == a[t]
    {
      assert s[n..][t] == s[n + t];
    }
    assert s[n + |a|..] == s[n..][|a|..];
  }

  /** The position of the second resolution of pair `p`, the first starting at `n`. */
  function Next(dynamic: seq<bool>, p: (nat, nat), n: nat): nat {
    if IsDynamic(dynamic, p.0) then n + 1 else n
  }

  /** The position after the resolutions of pair `p`, the first starting at `n`. */
  function After(dynamic: seq<bool>, p: (nat, nat), n: nat): nat {
    if IsDynamic(dynamic, p.1) then Next(dynamic, p, n) + 1 else Next(dynamic, p, n)
  }

  /**
   * The resolutions of candidate pair `k`, `(i, j)`: body `i` against body
   * `j` when `i` is dynamic, then body `j` against body `i` when `j` is
   * dynamic.
   */
  method ResolvePair(a: Body, b: Body, ghost all: seq<Body>, ghost frozen: seq<Frozen>, ghost start: seq<Response>,
                     ghost calls: seq<(nat, nat)>, ghost snap: seq<Snap>, ghost idx: seq<(nat, nat)>, ghost k: nat,
                     n: nat, norm: Norm, random: nat -> Vec)
    returns (outcome: Resolution, n': nat)
    requires Separate(all) && Progress(all, frozen, start, calls, snap, norm, random, n)
    requires forall q :: 0 <= q < |idx| ==> idx[q].0 < |all| && idx[q].1 < |all|
    requires k < |idx| && a == all[idx[k].0] && b == all[idx[k].1]
    requires n <= |calls| && calls[n..] == Resolutions(DynamicFlags(all), idx[k..])
    modifies (if a.variant.Dynamic? then {a} else {}), (if b.variant.Dynamic? then {b} else {})
    ensures Progress(all, frozen, start, calls, snap, norm, random, n')
    ensures outcome.Resolved? ==> n' <= |calls| && calls[n'..] == Resolutions(DynamicFlags(all), idx[k + 1..])
    ensures !outcome.Resolved? ==> Stops(outcome, calls, snap, norm, random) && n' == outcome.at
  {
    ghost var i, j := idx[k].0, idx[k].1;
    PairCalls(DynamicFlags(all), idx, k, calls, n);
    outcome, n' := Resolved, n;
    if a.variant.Dynamic? {
      outcome := ResolveCall(a, b, all, frozen, start, calls, snap, n, norm, random);
      if !outcome.Resolved? {
        return;
      }
      n' := n + 1;
    }
    if b.variant.Dynamic? {
      outcome := ResolveCall(b, a, all, frozen, start, calls, snap, n', norm, random);
      if !outcome.Resolved? {
        n' := outcome.at;
        return;
      }
      n' := n' + 1;
    }
  }

  /** The dynamic bodies of a list: the only ones the collision phase writes to. */
  function DynamicOf(all: seq<Body>): set<Body> {
    set i | 0 <= i < |all| && all[i].variant.Dynamic? :: all[i]
  }

  /**
   * The loop of the collision phase over the candidate pairs `pairs`, found
   * at the indices `idx` of the body list `all`: the pairs are resolved in
   * order until one of their resolutions fails.
   */
  method ResolvePairs(pairs: seq<(Body, Body)>, ghost all: seq<Body>, ghost frozen: seq<Frozen>, ghost start: seq<Response>,
                      ghost calls: seq<(nat, nat)>, ghost snap: seq<Snap>, ghost idx: seq<(nat, nat)>,
                      norm: Norm, random: nat -> Vec)
    returns (outcome: Resolution, n: nat)
    requires Separate(all) && Progress(all, frozen, start, calls, snap, norm, random, 0)
    requires BodiesAt(all, idx, pairs) && calls == Resolutions(DynamicFlags(all), idx)
    modifies DynamicOf(all)
    ensures Stops(outcome, calls, snap, norm, random) && n == Done(outcome, |calls|)
    ensures Progress(all, frozen, start, calls, snap, norm, random, n)
  {
    outcome, n := Resolved, 0;
    var k := 0;
    assert idx[0..] == idx && calls[0..] == calls;
    while k < |pairs| && outcome.Resolved?
      invariant 0 <= k <= |pairs| == |idx|
      invariant outcome.Resolved? ==> n <= |calls| && calls[n..] == Resolutions(DynamicFlags(all), idx[k..])
      invariant !outcome.Resolved? ==> Stops(outcome, calls, snap, norm, random) && n == outcome.at
      invariant Progress(all, frozen, start, calls, snap, norm, random, n)
    {
      assert pairs[k] == (all[idx[k].0], all[idx[k].1]);
      assert pairs[k].0.variant.Dynamic? ==> pairs[k].0 in DynamicOf(all);
      assert pairs[k].1.variant.Dynamic? ==> pairs[k].1 in DynamicOf(all);
      outcome, n := ResolvePair(pairs[k].0, pairs[k].1, all, frozen, start, calls, snap, idx, k, n, norm, random);
      k := k + 1;
    }
    if outcome.Resolved? {
      assert |calls[n..]| == 0;
    }
  }

  /** Why a step stopped before moving anything. */
  datatype StepOutcome =
    | Stepped
      /**
       * The collision phase constructs `Dynamics.Collision`, which dynamics.js
       * does not export, so it fails on the first candidate pair.
       */
    | CollisionUndefined(candidates: seq<(Body, Body)>)

  class World {
    var staticBodies: seq<Body>
    var kinematicBodies: seq<Body>
    var dynamicBodies: seq<Body>

    /** `new World(ctx)`: no bodies yet. */
    constructor ()
      ensures staticBodies == [] && kinematicBodies == [] && dynamicBodies == []
      ensures Valid()
    {
      staticBodies, kinematicBodies, dynamicBodies := [], [], [];
    }

    /** The `allBodies` getter: static, then kinematic, then dynamic bodies. */
    function AllBodies(): (all: seq<Body>)
      reads this
      ensures |all| == |staticBodies| + |kinematicBodies| + |dynamicBodies|
    {
      staticBodies + kinematicBodies + dynamicBodies
    }

    /**
     * `allBodies` lists every body of the three lists once, the static ones
     * first, then the kinematic ones, then the dynamic ones.
     */
    lemma AllBodiesLayout()
      ensures multiset(AllBodies()) == multiset(staticBodies) + multiset(kinematicBodies) + multiset(dynamicBodies)
      ensures AllBodies()[..|staticBodies|] == staticBodies
      ensures AllBodies()[|staticBodies|..|staticBodies| + |kinematicBodies|] == kinematicBodies
      ensures AllBodies()[|staticBodies| + |kinematicBodies|..] == dynamicBodies
      ensures forall k :: 0 <= k < |kinematicBodies| ==> AllBodies()[|staticBodies| + k] == kinematicBodies[k]
      ensures forall k :: 0 <= k < |dynamicBodies| ==> AllBodies()[|staticBodies| + |kinematicBodies| + k] == dynamicBodies[k]
    {
      var s, k := staticBodies, kinematicBodies;
      assert AllBodies()[..|s|] == s;
      assert AllBodies()[|s|..|s| + |k|] == k;
    }

    /** The resolutions the collision phase runs over this world's candidate pairs. */
    function Calls(): seq<(nat, nat)>
      reads this
    {
      Resolutions(DynamicFlags(AllBodies()), BroadPhase(AllBodies()))
    }

    /** Each list holds bodies of its own kind only. */
    predicate Sorted()
      reads this
    {
      && (forall b :: b in staticBodies ==> b.variant.Static?)
      && (forall b :: b in kinematicBodies ==> b.variant.Kinematic?)
      && (forall b :: b in dynamicBodies ==> b.variant.Dynamic?)
    }

    /**
     * The world's invariant: bodies are sorted by kind, no body is listed
     * twice, no two bodies share a shape, and every shape stands where its
     * body is.
     */
    predicate Valid()
      reads this, AllBodies(), ShapesOf(AllBodies())
    {
      Sorted() && Separate(AllBodies()) && AllSynced(AllBodies())
    }

    /**
     * `addBody`: a dynamic body joins the dynamic list, a static body the
     * static list, and any other body the kinematic list.
     */
    method AddBody(body: Body)
      modifies this
      ensures body.variant.Dynamic? ==>
                && dynamicBodies == old(dynamicBodies) + [body]
                && staticBodies == old(staticBodies) && kinematicBodies == old(kinematicBodies)
      ensures body.variant.Static? ==>
                && staticBodies == old(staticBodies) + [body]
                && kinematicBodies == old(kinematicBodies) && dynamicBodies == old(dynamicBodies)
      ensures body.variant.Kinematic? ==>
                && kinematicBodies == old(kinematicBodies) + [body]
                && staticBodies == old(staticBodies) && dynamicBodies == old(dynamicBodies)
      ensures old(Sorted()) ==> Sorted()
      ensures old(Valid()) && Joinable(old(AllBodies()), body) ==> Valid()
    {
      var s, k, d := staticBodies, kinematicBodies, dynamicBodies;
      ghost var joinable := Valid() && Joinable(AllBodies(), body);
      if body.variant.Dynamic? {
        dynamicBodies := dynamicBodies + [body];
        if joinable {
          assert s + k + d + [] == s + k + d;
          InsertJoinable(s + k + d, [], body);
          assert AllBodies() == s + k + d + [body] + [];
        }
      } else if body.variant.Static? {
        staticBodies := staticBodies + [body];
        if joinable {
          assert s + k + d == s + (k + d);
          InsertJoinable(s, k + d, body);
          assert AllBodies() == s + [body] + (k + d);
        }
      } else {
        kinematicBodies := kinematicBodies + [body];
        if joinable {
          InsertJoinable(s + k, d, body);
          assert AllBodies() == s + k + [body] + d;
        }
      }
    }

    /**
     * `broadPhaseCollision`: for every i and every j > i, the bodies at i
     * and j of `allBodies` when one of them is dynamic.
     */
    method BroadPhaseCollision() returns (pairs: seq<(Body, Body)>)
      ensures BodiesAt(AllBodies(), BroadPhase(AllBodies()), pairs)
    {
      var all := AllBodies();
      ghost var dynamic := DynamicFlags(all);
      ghost var idx: seq<(nat, nat)> := [];
      pairs := [];
      var i := 0;
      while i < |all|
        invariant 0 <= i <= |all|
        invariant idx == Pairs(dynamic, i) && BodiesAt(all, idx, pairs)
      {
        var j := i + 1;
        assert Row(dynamic, i, j) == [];
        while j < |all|
          invariant i + 1 <= j <= |all|
          invariant idx == Pairs(dynamic, i) + Row(dynamic, i, j) && BodiesAt(all, idx, pairs)
        {
          var a, b := all[i], all[j];
          if a.variant.Dynamic? || b.variant.Dynamic? {
            RowGrows(dynamic, i, j);
            BodiesAtGrows(all, idx, pairs, i, j);
            idx := idx + [(i, j)];
            pairs := pairs + [(a, b)];
          } else {
            assert Row(dynamic, i, j + 1) == Row(dynamic, i, j);
          }
          j := j + 1;
        }
        i := i + 1;
      }
    }

    /** A dynamic body of the world is one of its dynamic list. */
    lemma DynamicListed()
      requires Sorted()
      ensures forall i :: 0 <= i < |AllBodies()| && AllBodies()[i].variant.Dynamic? ==> AllBodies()[i] in dynamicBodies
    {
      var all := AllBodies();
      forall i | 0 <= i < |all| && all[i].variant.Dynamic?
        ensures all[i] in dynamicBodies
      {
        var s, k := |staticBodies|, |kinematicBodies|;
        if i < s + k {
          assert false;
        }
        assert all[i] == dynamicBodies[i - s - k];
      }
    }

    /**
     * The collision phase of `step`: the resolutions of the candidate pairs
     * run in order, and the phase stops at the first one that fails. Only
     * accumulators of dynamic bodies are written, and what the resolutions
     * read stays as it was, so each body ends with what `Received` says.
     */
    method NarrowPhase(pairs: seq<(Body, Body)>, norm: Norm, random: nat -> Vec) returns (outcome: Resolution)
      requires Valid()
      requires BodiesAt(AllBodies(), BroadPhase(AllBodies()), pairs)
      modifies dynamicBodies
      ensures Valid()
      ensures Stops(outcome, Calls(), old(Snapshot(AllBodies())), norm, random)
      ensures forall i :: 0 <= i < |AllBodies()| ==>
        && FrozenOf(AllBodies()[i]) == old(FreezeAll(AllBodies()))[i]
        && AllBodies()[i].Accumulators() ==
             Received(i, old(AccumulatorsOf(AllBodies()))[i], Calls(), old(Snapshot(AllBodies())), norm, random, Done(outcome, |Calls()|))
    {
      var all := AllBodies();
      ghost var idx := BroadPhase(all);
      ghost var calls := Calls();
      ghost var snap := Snapshot(all);
      ghost var frozen := FreezeAll(all);
      ghost var start := AccumulatorsOf(all);
      BroadPhaseInRange(all);
      DynamicListed();
      assert DynamicOf(all) <= set b | b in dynamicBodies;
      var n;
      outcome, n := ResolvePairs(pairs, all, frozen, start, calls, snap, idx, norm, random);
      assert n == Done(outcome, |calls|);
      assert all == AllBodies() && calls == Calls() && snap == old(Snapshot(AllBodies()));
      forall i | 0 <= i < |all|
        ensures all[i].Synced() && FrozenOf(all[i]) == frozen[i]
        ensures all[i].Accumulators() == Received(i, start[i], calls, snap, norm, random, n)
      {
        assert BodyProgress(all[i], frozen[i], start[i], i, calls, snap, norm, random, n);
      }
    }

    /** `resolveCollisions`: the narrow phase over the pairs the broad phase finds. */
    method ResolveCollisions(norm: Norm, random: nat -> Vec) returns (outcome: Resolution)
      requires Valid()
      modifies dynamicBodies
      ensures Valid()
      ensures Stops(outcome, Calls(), old(Snapshot(AllBodies())), norm, random)
      ensures forall i :: 0 <= i < |AllBodies()| ==>
        && FrozenOf(AllBodies()[i]) == old(FreezeAll(AllBodies()))[i]
        && AllBodies()[i].Accumulators() ==
             Received(i, old(AccumulatorsOf(AllBodies()))[i], Calls(), old(Snapshot(AllBodies())), norm, random, Done(outcome, |Calls()|))
    {
      ghost var all := AllBodies();
      ghost var snap := Snapshot(all);
      ghost var start := AccumulatorsOf(all);
      ghost var frozen := FreezeAll(all);
      var pairs := BroadPhaseCollision();
      assert Snapshot(all) == snap && AccumulatorsOf(all) == start && FreezeAll(all) == frozen;
      outcome := NarrowPhase(pairs, norm, random);
    }

    /**
     * `step` as written: the collision phase runs first, then every
     * kinematic body is updated, then every dynamic body. The collision
     * phase constructs `Dynamics.Collision`, which dynamics.js does not
     * export, so the step fails, leaving everything as it was, as soon as
     * the broad phase finds a candidate pair.
     */
    method StepAsWritten(norm: Norm) returns (outcome: StepOutcome)
      requires Valid()
      modifies kinematicBodies, dynamicBodies, ShapesOf(kinematicBodies), ShapesOf(dynamicBodies)
      ensures outcome.CollisionUndefined? <==> old(BroadPhase(AllBodies())) != []
      ensures outcome.CollisionUndefined? ==> BodiesAt(old(AllBodies()), old(BroadPhase(AllBodies())), outcome.candidates)
      ensures outcome.CollisionUndefined? ==>
                unchanged(kinematicBodies, dynamicBodies, ShapesOf(kinematicBodies), ShapesOf(dynamicBodies))
      ensures outcome.Stepped? ==> forall i :: |staticBodies| <= i < |staticBodies| + |kinematicBodies| ==> Moved(old(AllBodies())[i])
      ensures outcome.Stepped? ==> forall i :: |staticBodies| + |kinematicBodies| <= i < |AllBodies()| ==> Integrated(old(AllBodies())[i], norm)
      ensures unchanged(this)
      ensures Valid()
    {
      var candidates := BroadPhaseCollision();
      if candidates != [] {
        return CollisionUndefined(candidates);
      }
      outcome := Stepped;
      UpdatePhases(norm);
    }

    /**
     * `step`, with the collision phase resolving every candidate pair: the
     * collision phase runs first and, when all its resolutions go through,
     * every kinematic body moves by its velocity and every dynamic body
     * integrates the state the collisions left it in. Static bodies are
     * never touched. When a resolution fails, the step stops there, with
     * the bodies as the resolutions before it left them.
     */
    method Step(norm: Norm, random: nat -> Vec) returns (outcome: Resolution)
      requires Valid()
      modifies kinematicBodies, dynamicBodies, ShapesOf(kinematicBodies), ShapesOf(dynamicBodies)
      ensures unchanged(this) && Valid()
      ensures Stops(outcome, Calls(), old(Snapshot(AllBodies())), norm, random)
      ensures !outcome.Resolved? ==> forall i :: 0 <= i < |AllBodies()| ==>
        && FrozenOf(AllBodies()[i]) == old(FreezeAll(AllBodies()))[i]
        && AllBodies()[i].Accumulators() ==
             Received(i, old(AccumulatorsOf(AllBodies()))[i], Calls(), old(Snapshot(AllBodies())), norm, random, Done(outcome, |Calls()|))
      ensures outcome.Resolved? ==> forall i :: |staticBodies| <= i < |staticBodies| + |kinematicBodies| ==>
        ConditionOf(AllBodies()[i]) == Advanced(old(ConditionsOf(AllBodies()))[i])
      ensures outcome.Resolved? ==> forall i :: |staticBodies| + |kinematicBodies| <= i < |AllBodies()| ==>
        ConditionOf(AllBodies()[i]) == Ticked(
          Collided(
            old(ConditionsOf(AllBodies()))[i],
            Received(i, old(AccumulatorsOf(AllBodies()))[i], Calls(), old(Snapshot(AllBodies())), norm, random, |Calls()|)),
          old(InvMassesOf(AllBodies()))[i],
          norm)
    {
      ghost var all := AllBodies();
      ghost var before := ConditionsOf(all);
      ghost var invMasses := InvMassesOf(all);
      ghost var frozen := FreezeAll(all);
      outcome := ResolveCollisions(norm, random);
      if !outcome.Resolved? {
        return;
      }
      ghost var received := AccumulatorsOf(all);
      ghost var first := |staticBodies| + |kinematicBodies|;
      forall i | |staticBodies| <= i < first
        ensures ConditionOf(all[i]) == before[i]
      {
        assert all[i] !in dynamicBodies;
      }
      forall i | first <= i < |all|
        ensures ConditionOf(all[i]) == Collided(before[i], received[i]) && all[i].InvMass() == invMasses[i]
      {
        assert FrozenOf(all[i]) == frozen[i];
        KeptState(all[i]);
      }
      UpdateAfterCollisions(norm, before, invMasses, received);
    }

    /**
     * The kinematic and dynamic phases of `step` after a collision phase
     * that went through, for a world whose bodies were in the conditions
     * `before`, with inverse masses `invMasses`, when the step began, and
     * which the collision phase left the accumulators `received`.
     */
    method UpdateAfterCollisions(norm: Norm, ghost before: seq<Condition>, ghost invMasses: seq<real>, ghost received: seq<Response>)
      requires Valid()
      requires |before| == |invMasses| == |received| == |AllBodies()|
      requires forall i :: |staticBodies| <= i < |staticBodies| + |kinematicBodies| ==> ConditionOf(AllBodies()[i]) == before[i]
      requires forall i :: |staticBodies| + |kinematicBodies| <= i < |AllBodies()| ==>
        ConditionOf(AllBodies()[i]) == Collided(before[i], received[i]) && AllBodies()[i].InvMass() == invMasses[i]
      modifies kinematicBodies, dynamicBodies, ShapesOf(kinematicBodies), ShapesOf(dynamicBodies)
      ensures Valid()
      ensures forall i :: |staticBodies| <= i < |staticBodies| + |kinematicBodies| ==> ConditionOf(AllBodies()[i]) == Advanced(before[i])
      ensures forall i :: |staticBodies| + |kinematicBodies| <= i < |AllBodies()| ==>
        ConditionOf(AllBodies()[i]) == Ticked(Collided(before[i], received[i]), invMasses[i], norm)
    {
      ghost var all := AllBodies();
      label Start:
      UpdatePhases(norm);
      forall i | |staticBodies| <= i < |staticBodies| + |kinematicBodies|
        ensures ConditionOf(all[i]) == Advanced(before[i])
      {
        assert Moved@Start(all[i]);
      }
      forall i | |staticBodies| + |kinematicBodies| <= i < |all|
        ensures ConditionOf(all[i]) == Ticked(Collided(before[i], received[i]), invMasses[i], norm)
      {
        assert Integrated@Start(all[i], norm);
      }
    }

    /** Every kinematic body is updated, then every dynamic body. */
    method UpdatePhases(norm: Norm)
      requires Valid()
      modifies kinematicBodies, dynamicBodies, ShapesOf(kinematicBodies), ShapesOf(dynamicBodies)
      ensures forall i :: |staticBodies| <= i < |staticBodies| + |kinematicBodies| ==> Moved(old(AllBodies())[i])
      ensures forall i :: |staticBodies| + |kinematicBodies| <= i < |AllBodies()| ==> Integrated(old(AllBodies())[i], norm)
      ensures Valid()
    {
      ghost var moving := kinematicBodies;
      label Start:
      KinematicPhase();
      DynamicPhase(norm);
      AllBodiesLayout();
      forall i | |staticBodies| <= i < |staticBodies| + |kinematicBodies|
        ensures Moved(old(AllBodies())[i])
      {
        assert Moved@Start(moving[i - |staticBodies|]);
      }
    }

    /** The kinematic phase of `step`: every kinematic body moves by its velocity. */
    method KinematicPhase()
      requires Valid()
      modifies kinematicBodies, ShapesOf(kinematicBodies)
      ensures forall k :: 0 <= k < |kinematicBodies| ==> Moved(kinematicBodies[k])
      ensures forall k :: 0 <= k < |dynamicBodies| ==> unchanged(dynamicBodies[k], dynamicBodies[k].shape)
      ensures Valid()
    {
      SeparateThree(staticBodies, kinematicBodies, dynamicBodies);
      SyncedParts(staticBodies + kinematicBodies, dynamicBodies);
      SyncedParts(staticBodies, kinematicBodies);
      UpdateKinematic(kinematicBodies);
      forall k | 0 <= k < |staticBodies|
        ensures staticBodies[k].Synced()
      {
        var b := staticBodies[k];
        assert b in staticBodies && b.shape !in ShapesOf(kinematicBodies);
      }
      forall k | 0 <= k < |dynamicBodies|
        ensures unchanged(dynamicBodies[k], dynamicBodies[k].shape)
      {
        var b := dynamicBodies[k];
        assert b in dynamicBodies && b.shape !in ShapesOf(kinematicBodies);
      }
      SyncedParts(staticBodies, kinematicBodies);
      SyncedParts(staticBodies + kinematicBodies, dynamicBodies);
    }

    /** The dynamic phase of `step`: every dynamic body integrates its motion over one tick. */
    method DynamicPhase(norm: Norm)
      requires Valid()
      modifies dynamicBodies, ShapesOf(dynamicBodies)
      ensures forall k :: 0 <= k < |dynamicBodies| ==> Integrated(dynamicBodies[k], norm)
      ensures forall k :: 0 <= k < |kinematicBodies| ==> unchanged(kinematicBodies[k], kinematicBodies[k].shape)
      ensures Valid()
    {
      SeparateThree(staticBodies, kinematicBodies, dynamicBodies);
      SyncedParts(staticBodies + kinematicBodies, dynamicBodies);
      SyncedParts(staticBodies, kinematicBodies);
      UpdateDynamic(dynamicBodies, norm);
      forall k | 0 <= k < |staticBodies|
        ensures staticBodies[k].Synced()
      {
        var b := staticBodies[k];
        assert b in staticBodies && b.shape !in ShapesOf(dynamicBodies);
      }
      forall k | 0 <= k < |kinematicBodies|
        ensures unchanged(kinematicBodies[k], kinematicBodies[k].shape)
      {
        var b := kinematicBodies[k];
        assert b in kinematicBodies && b.shape !in ShapesOf(dynamicBodies);
      }
      SyncedParts(staticBodies, kinematicBodies);
      SyncedParts(staticBodies + kinematicBodies, dynamicBodies);
    }
  }
}
