/** The shells (layers) of the perceptron as values: the shape every network keeps,
    what each pass of forward and backward propagation leaves behind, and the
    properties of those passes. */
module Shells {
  import opened Nodes

  /** How many connections each node of shell `l` owns: one per functional node of the
      next shell, none in the last shell. */
  function Fanout(topology: seq<nat>, l: nat): (r: nat)
    requires l < |topology|
  {
    if l == |topology| - 1 then 0 else topology[l + 1]
  }

  /** `width` functional nodes followed by the bias node, whose output is 1.0; node `n`
      has index `n` and owns `fanout` connections. */
  predicate ShellShaped(shell: seq<Node>, width: nat, fanout: nat)
  {
    |shell| == width + 1 &&
    shell[width].output == 1.0 &&
    forall n :: 0 <= n < |shell| ==> shell[n].index == n && |shell[n].outputWeights| == fanout
  }

  /** The shape a network built from `topology` keeps for its whole life. */
  predicate Shaped(topology: seq<nat>, shells: seq<seq<Node>>)
  {
    |shells| == |topology| &&
    forall l :: 0 <= l < |shells| ==> ShellShaped(shells[l], topology[l], Fanout(topology, l))
  }

  /** Node `n` of shell `l` (bias node excluded) can read position `n` of every node of
      shell `l - 1`. */
  lemma Wired(topology: seq<nat>, shells: seq<seq<Node>>, l: nat, n: nat)
    requires Shaped(topology, shells) && 1 <= l < |shells| && n < topology[l]
    ensures Reaches(shells[l - 1], n) && shells[l][n].index == n
  {
    assert ShellShaped(shells[l - 1], topology[l - 1], Fanout(topology, l - 1));
    assert ShellShaped(shells[l], topology[l], Fanout(topology, l));
  }

  /** Replacing one node keeps the shape when the replacement keeps the index, the number
      of connections and, for a bias node, the output. */
  lemma ShapedAfterUpdate(topology: seq<nat>, shells: seq<seq<Node>>, l: nat, n: nat, node: Node)
    requires Shaped(topology, shells) && l < |shells| && n < |shells[l]|
    requires node.index == shells[l][n].index
    requires |node.outputWeights| == |shells[l][n].outputWeights|
    requires n == topology[l] ==> node.output == 1.0
    ensures Shaped(topology, shells[l := shells[l][n := node]])
  {
    var shells' := shells[l := shells[l][n := node]];
    forall k | 0 <= k < |shells'|
      ensures ShellShaped(shells'[k], topology[k], Fanout(topology, k))
    {
      assert ShellShaped(shells[k], topology[k], Fanout(topology, k));
    }
  }

  /** Replacing a whole shell keeps the shape when every replacement node keeps the index,
      the output and the number of connections of the node it replaces. */
  lemma ShapedAfterWeights(topology: seq<nat>, shells: seq<seq<Node>>, l: nat, shell: seq<Node>)
    requires Shaped(topology, shells) && l < |shells| && |shell| == |shells[l]|
    requires forall u :: 0 <= u < |shell| ==>
      shell[u].index == shells[l][u].index && shell[u].output == shells[l][u].output &&
      |shell[u].outputWeights| == |shells[l][u].outputWeights|
    ensures Shaped(topology, shells[l := shell])
  {
    var shells' := shells[l := shell];
    forall k | 0 <= k < |shells'|
      ensures ShellShaped(shells'[k], topology[k], Fanout(topology, k))
    {
      assert ShellShaped(shells[k], topology[k], Fanout(topology, k));
    }
  }

  /** All fields but the output agree. */
  predicate SameButOutput(a: Node, b: Node)
  {
    a.index == b.index && a.gradient == b.gradient && a.outputWeights == b.outputWeights
  }

  /** The first `k` nodes of `shell` hold the activation of the weighted sum of `prev`
      read at their own position. */
  predicate Fed(prev: seq<Node>, shell: seq<Node>, k: nat, act: real -> real)
  {
    k <= |shell| &&
    forall n :: 0 <= n < k ==> Reaches(prev, n) && shell[n].output == act(WeightedSum(prev, n))
  }

  /** Forward propagation of `input` done up to shell `i`: the input nodes hold the input,
      every functional node of shells 1 to `i - 1` holds the activation of the weighted sum
      of the previous shell as it now stands, and nothing else has changed. */
  ghost predicate ForwardUpTo(topology: seq<nat>, before: seq<seq<Node>>, input: seq<real>,
                              act: real -> real, after: seq<seq<Node>>, i: nat)
    requires Shaped(topology, before) && 1 <= |topology| && |input| == topology[0]
  {
    Shaped(topology, after) &&
    (forall l, n :: 0 <= l < |after| && 0 <= n < |after[l]| ==> SameButOutput(before[l][n], after[l][n])) &&
    (forall n :: 0 <= n < |input| ==> after[0][n].output == input[n]) &&
    (forall l :: 1 <= l < i && l < |after| ==> Fed(after[l - 1], after[l], topology[l], act))
  }

  /** What forward propagation of `input` leaves behind: the input nodes hold the input,
      every functional node of a later shell holds the activation of the weighted sum of the
      previous shell as it now stands, and nothing else has changed (bias outputs stay 1.0). */
  ghost predicate ForwardResult(topology: seq<nat>, before: seq<seq<Node>>, input: seq<real>,
                                act: real -> real, after: seq<seq<Node>>)
    requires Shaped(topology, before) && 1 <= |topology| && |input| == topology[0]
  {
    ForwardUpTo(topology, before, input, act, after, |topology|)
  }

  /** Recomputing shell `i` from shell `i - 1` extends forward propagation by one shell. */
  lemma ForwardUpToNext(topology: seq<nat>, before: seq<seq<Node>>, input: seq<real>,
                        act: real -> real, s: seq<seq<Node>>, t: seq<seq<Node>>, i: nat)
    requires Shaped(topology, before) && 1 <= |topology| && |input| == topology[0]
    requires ForwardUpTo(topology, before, input, act, s, i) && 1 <= i < |s|
    requires Shaped(topology, t)
    requires forall l :: 0 <= l < |s| && l != i ==> t[l] == s[l]
    requires forall n :: 0 <= n < |s[i]| ==> SameButOutput(s[i][n], t[i][n])
    requires Fed(t[i - 1], t[i], topology[i], act)
    ensures ForwardUpTo(topology, before, input, act, t, i + 1)
  {
    forall l, n | 0 <= l < |t| && 0 <= n < |t[l]|
      ensures SameButOutput(before[l][n], t[l][n])
    {
      assert SameButOutput(before[l][n], s[l][n]);
    }
  }

  /** Two results of the same forward pass agree on the input shell. */
  lemma ForwardInputShellAgrees(topology: seq<nat>, before: seq<seq<Node>>, input: seq<real>,
                                act: real -> real, a: seq<seq<Node>>, b: seq<seq<Node>>)
    requires Shaped(topology, before) && 1 <= |topology| && |input| == topology[0]
    requires ForwardResult(topology, before, input, act, a)
    requires ForwardResult(topology, before, input, act, b)
    ensures a[0] == b[0]
  {
    assert ShellShaped(a[0], topology[0], Fanout(topology, 0));
    assert ShellShaped(b[0], topology[0], Fanout(topology, 0));
    forall n | 0 <= n < |a[0]| ensures a[0][n] == b[0][n] {
      assert SameButOutput(before[0][n], a[0][n]) && SameButOutput(before[0][n], b[0][n]);
    }
  }

  /** Two results of the same forward pass that agree on shell `k - 1` agree on shell `k`. */
  lemma ForwardShellAgrees(topology: seq<nat>, before: seq<seq<Node>>, input: seq<real>,
                           act: real -> real, a: seq<seq<Node>>, b: seq<seq<Node>>, k: nat)
    requires Shaped(topology, before) && 1 <= |topology| && |input| == topology[0]
    requires ForwardResult(topology, before, input, act, a)
    requires ForwardResult(topology, before, input, act, b)
    requires 1 <= k < |a| && a[k - 1] == b[k - 1]
    ensures a[k] == b[k]
  {
    assert ShellShaped(a[k], topology[k], Fanout(topology, k));
    assert ShellShaped(b[k], topology[k], Fanout(topology, k));
    assert Fed(a[k - 1], a[k], topology[k], act) && Fed(b[k - 1], b[k], topology[k], act);
    forall n | 0 <= n < |a[k]| ensures a[k][n] == b[k][n] {
      assert SameButOutput(before[k][n], a[k][n]) && SameButOutput(before[k][n], b[k][n]);
      if n < topology[k] {
        assert a[k][n].output == act(WeightedSum(a[k - 1], n));
        assert b[k][n].output == act(WeightedSum(b[k - 1], n));
      } else {
        assert n == topology[k] && a[k][n].output == 1.0 && b[k][n].output == 1.0;
      }
    }
    assert |a[k]| == |b[k]|;
  }

  /** Two sequences that agree on their first element, and on each element whenever they
      agree on the one before it, agree on every prefix. */
  lemma {:induction false} AgreeByInduction<T>(a: seq<T>, b: seq<T>, k: nat)
    requires |a| == |b| && 1 <= k <= |a| && a[0] == b[0]
    requires forall l :: 1 <= l < |a| && a[l - 1] == b[l - 1] ==> a[l] == b[l]
    ensures a[..k] == b[..k]
  {
    if k > 1 {
      AgreeByInduction(a, b, k - 1);
      assert a[k - 2] == a[..k - 1][k - 2];
      assert a[..k] == a[..k - 1] + [a[k - 1]];
      assert b[..k] == b[..k - 1] + [b[k - 1]];
    }
  }

  /** Forward propagation is a function of the weights and the input: two results of the
      same forward pass coincide. */
  lemma {:induction false} ForwardDeterministic(topology: seq<nat>, before: seq<seq<Node>>, input: seq<real>,
                                                act: real -> real, a: seq<seq<Node>>, b: seq<seq<Node>>)
    requires Shaped(topology, before) && 1 <= |topology| && |input| == topology[0]
    requires ForwardResult(topology, before, input, act, a)
    requires ForwardResult(topology, before, input, act, b)
    ensures a == b
  {
    ForwardInputShellAgrees(topology, before, input, act, a, b);
    forall l | 1 <= l < |a| && a[l - 1] == b[l - 1] ensures a[l] == b[l] {
      ForwardShellAgrees(topology, before, input, act, a, b, l);
    }
    AgreeByInduction(a, b, |a|);
    assert a == a[..|a|] && b == b[..|b|];
  }

  /** Running forward propagation again on its own result, with the same input, changes
      nothing. */
  lemma ForwardIdempotent(topology: seq<nat>, s0: seq<seq<Node>>, input: seq<real>,
                          act: real -> real, s1: seq<seq<Node>>, s2: seq<seq<Node>>)
    requires Shaped(topology, s0) && 1 <= |topology| && |input| == topology[0]
    requires ForwardResult(topology, s0, input, act, s1)
    requires ForwardResult(topology, s1, input, act, s2)
    ensures s2 == s1
  {
    assert ForwardResult(topology, s0, input, act, s2);
    ForwardDeterministic(topology, s0, input, act, s1, s2);
  }

  /** The sum of squared differences between the first `k` targets and outputs. */
  function SquaredError(output: seq<Node>, target: seq<real>, k: nat): (r: real)
    requires k <= |output| && k <= |target|
  {
    if k == 0 then 0.0
    else
      var delta := target[k - 1] - output[k - 1].output;
      SquaredError(output, target, k - 1) + delta * delta
  }

  lemma {:induction false} SquaredErrorNonNegative(output: seq<Node>, target: seq<real>, k: nat)
    requires k <= |output| && k <= |target|
    ensures 0.0 <= SquaredError(output, target, k)
  {
    if k > 0 {
      SquaredErrorNonNegative(output, target, k - 1);
    }
  }

  /** When every output hits its target the squared error vanishes. */
  lemma {:induction false} SquaredErrorZeroOnTarget(output: seq<Node>, target: seq<real>, k: nat)
    requires k <= |output| && k <= |target|
    requires forall n :: 0 <= n < k ==> output[n].output == target[n]
    ensures SquaredError(output, target, k) == 0.0
  {
    if k > 0 {
      SquaredErrorZeroOnTarget(output, target, k - 1);
    }
  }

  /** The mean of the squared errors of the first `k` outputs. */
  function MeanSquaredError(output: seq<Node>, target: seq<real>, k: nat): (r: real)
    requires 0 < k <= |output| && k <= |target|
  {
    SquaredError(output, target, k) / k as real
  }

  /** The running average after one more error, weighted `smoothing` to one. */
  function Smoothed(average: real, smoothing: real, error: real): (r: real)
    requires smoothing + 1.0 != 0.0
  {
    (average * smoothing + error) / (smoothing + 1.0)
  }

  /** With a square root that maps non-negative reals to non-negative reals, the
      root-mean-square error is never negative. */
  lemma RmsErrorNonNegative(sqrt: real -> real, output: seq<Node>, target: seq<real>, k: nat)
    requires 0 < k <= |output| && k <= |target|
    requires forall x :: 0.0 <= x ==> 0.0 <= sqrt(x)
    ensures 0.0 <= sqrt(MeanSquaredError(output, target, k))
  {
    SquaredErrorNonNegative(output, target, k);
  }

  /** With a non-negative smoothing factor the new recent average lies between the old
      average and the new error. */
  lemma RecentAverageBetween(average: real, smoothing: real, error: real)
    requires 0.0 <= smoothing
    ensures var r := Smoothed(average, smoothing, error);
      (average <= error ==> average <= r <= error) && (error <= average ==> error <= r <= average)
  {
    var r := Smoothed(average, smoothing, error);
    assert r * (smoothing + 1.0) == average * smoothing + error;
    assert r - average == (error - average) / (smoothing + 1.0);
    assert error - r == (error - average) * smoothing / (smoothing + 1.0);
  }

  /** The first step of backward propagation: every functional output node gets the
      output-layer gradient for its target; nothing else changes. */
  ghost predicate OutputGradientsSet(topology: seq<nat>, before: seq<seq<Node>>, target: seq<real>,
                                     after: seq<seq<Node>>)
    requires Shaped(topology, before) && 1 <= |topology| && topology[|topology| - 1] <= |target|
  {
    var last := |topology| - 1;
    Shaped(topology, after) &&
    (forall l :: 0 <= l < last ==> after[l] == before[l]) &&
    after[last][topology[last]] == before[last][topology[last]] &&
    forall n :: 0 <= n < topology[last] ==>
      after[last][n] == before[last][n].(gradient :=
        Gradient(target[n] - before[last][n].output, before[last][n].output))
  }

  /** The first `k` nodes of `after` are those of `before` with the hidden-layer gradient
      computed from the first `width` nodes of `next`; the other nodes are untouched. */
  predicate HiddenShellSet(before: seq<Node>, after: seq<Node>, next: seq<Node>, width: nat, k: nat)
  {
    |after| == |before| && k <= |before| && width <= |next| &&
    (forall i :: 0 <= i < k ==>
      width <= |before[i].outputWeights| &&
      after[i] == before[i].(gradient :=
        Gradient(WeightedGradients(before[i].outputWeights, next, width), before[i].output))) &&
    (forall i :: k <= i < |before| ==> after[i] == before[i])
  }

  /** The second step: from the second-to-last shell down to shell 1, every node, the bias
      node included, gets the hidden-layer gradient computed from the next shell's gradients
      as they stand after that shell was done; shell 0 and the last shell are unchanged. */
  ghost predicate HiddenGradientsSet(topology: seq<nat>, before: seq<seq<Node>>, after: seq<seq<Node>>)
    requires Shaped(topology, before) && 2 <= |topology|
  {
    var last := |topology| - 1;
    Shaped(topology, after) &&
    after[0] == before[0] && after[last] == before[last] &&
    forall l :: 1 <= l < last ==> HiddenShellSet(before[l], after[l], after[l + 1], topology[l + 1], |before[l]|)
  }

  /** All fields but the connections agree, and so does the number of connections. */
  predicate SameButWeights(a: Node, b: Node)
  {
    a.index == b.index && a.output == b.output && a.gradient == b.gradient &&
    |a.outputWeights| == |b.outputWeights|
  }

  /** `after` is `before` with its first `k` connections stepped with the gradients of the
      nodes of `next` they lead to, and the others untouched. */
  predicate PartlyStepped(before: Node, after: Node, next: seq<Node>, k: nat, eta: real, alpha: real)
    requires k <= |before.outputWeights| && k <= |next|
  {
    SameButWeights(before, after) &&
    (forall m :: 0 <= m < k ==>
      after.outputWeights[m] == Step(before.outputWeights[m], before.output, next[m].gradient, eta, alpha)) &&
    (forall m :: k <= m < |before.outputWeights| ==> after.outputWeights[m] == before.outputWeights[m])
  }

  lemma PartlySteppedNext(before: Node, after: Node, next: seq<Node>, k: nat, eta: real, alpha: real)
    requires k < |before.outputWeights| && k < |next|
    requires PartlyStepped(before, after, next, k, eta, alpha)
    ensures PartlyStepped(before, StepConnection(after, k, next[k].gradient, eta, alpha), next, k + 1, eta, alpha)
  {
  }

  /** Every node of `after` is the node of `before` at its position, partly stepped with
      the first `k` nodes of `next`. */
  predicate ShellStepped(before: seq<Node>, after: seq<Node>, next: seq<Node>, k: nat, eta: real, alpha: real)
  {
    |after| == |before| && k <= |next| &&
    forall u :: 0 <= u < |before| ==>
      k <= |before[u].outputWeights| && PartlyStepped(before[u], after[u], next, k, eta, alpha)
  }

  /** One more node of `next` stepping its connection in every node of a shell extends a
      partial update by one. */
  lemma ShellSteppedNext(before: seq<Node>, after: seq<Node>, next: seq<Node>, k: nat, eta: real, alpha: real,
                         r: seq<Node>)
    requires ShellStepped(before, after, next, k, eta, alpha) && k < |next|
    requires forall u :: 0 <= u < |before| ==> k < |before[u].outputWeights|
    requires |r| == |after|
    requires forall u :: 0 <= u < |after| ==>
      k < |after[u].outputWeights| && r[u] == StepConnection(after[u], k, next[k].gradient, eta, alpha)
    ensures ShellStepped(before, r, next, k + 1, eta, alpha)
  {
    forall u | 0 <= u < |before|
      ensures PartlyStepped(before[u], r[u], next, k + 1, eta, alpha)
    {
      PartlySteppedNext(before[u], after[u], next, k, eta, alpha);
    }
  }

  /** A partial update reads only the gradients of the first `k` nodes of `next`. */
  lemma ShellSteppedCongruent(before: seq<Node>, after: seq<Node>, next1: seq<Node>, next2: seq<Node>,
                              k: nat, eta: real, alpha: real)
    requires ShellStepped(before, after, next1, k, eta, alpha) && k <= |next2|
    requires GradientsAgreeBelow(next1, next2, k)
    ensures ShellStepped(before, after, next2, k, eta, alpha)
  {
    forall u | 0 <= u < |before|
      ensures PartlyStepped(before[u], after[u], next2, k, eta, alpha)
    {
      assert PartlyStepped(before[u], after[u], next1, k, eta, alpha);
    }
  }

  /** A partial update changes no gradient. */
  lemma ShellSteppedKeepsGradients(before: seq<Node>, after: seq<Node>, next: seq<Node>, k: nat, eta: real, alpha: real)
    requires ShellStepped(before, after, next, k, eta, alpha)
    ensures GradientsAgreeBelow(after, before, |before|)
  {
    forall u | 0 <= u < |before|
      ensures after[u].gradient == before[u].gradient
    {
      assert PartlyStepped(before[u], after[u], next, k, eta, alpha);
    }
  }

  /** The last step: from the last shell down to shell 1, every functional node of shell `l`
      steps, in every node of shell `l - 1`, the connection leading to it; outputs, gradients
      and the last shell are unchanged. */
  ghost predicate WeightsUpdated(topology: seq<nat>, before: seq<seq<Node>>, eta: real, alpha: real,
                                 after: seq<seq<Node>>)
    requires Shaped(topology, before) && 1 <= |topology|
  {
    var last := |topology| - 1;
    Shaped(topology, after) &&
    after[last] == before[last] &&
    forall l :: 0 <= l < last ==> ShellStepped(before[l], after[l], before[l + 1], topology[l + 1], eta, alpha)
  }

  /** What backward propagation for `target` leaves behind, stated against the network it
      started from: outputs are unchanged; output-shell gradients come from the targets;
      hidden gradients come from the old weights and the next shell's new gradients; every
      connection takes one momentum step with the new gradient of the node it leads to.
      Shell 0's gradients and the output bias node's gradient are untouched. */
  ghost predicate BackwardResult(topology: seq<nat>, before: seq<seq<Node>>, target: seq<real>,
                                 eta: real, alpha: real, after: seq<seq<Node>>)
    requires Shaped(topology, before) && 2 <= |topology| && topology[|topology| - 1] <= |target|
  {
    var last := |topology| - 1;
    Shaped(topology, after) &&
    (forall l, n :: 0 <= l < |after| && 0 <= n < |after[l]| ==> after[l][n].output == before[l][n].output) &&
    (forall n :: 0 <= n < |after[0]| ==> after[0][n].gradient == before[0][n].gradient) &&
    after[last][topology[last]].gradient == before[last][topology[last]].gradient &&
    (forall n :: 0 <= n < topology[last] ==>
      after[last][n].gradient ==
        Gradient(target[n] - before[last][n].output, before[last][n].output)) &&
    (forall l, n | 1 <= l < last && 0 <= n < |after[l]| ::
      assert ShellShaped(before[l], topology[l], Fanout(topology, l));
      after[l][n].gradient ==
        Gradient(WeightedGradients(before[l][n].outputWeights, after[l + 1], topology[l + 1]), before[l][n].output)) &&
    (forall l, u, m | 0 <= l < last && 0 <= u < |after[l]| && 0 <= m < topology[l + 1] ::
      assert ShellShaped(before[l], topology[l], Fanout(topology, l));
      after[l][u].outputWeights[m] ==
        Step(before[l][u].outputWeights[m], before[l][u].output, after[l + 1][m].gradient, eta, alpha))
  }

  /** The three steps, run in order, give backward propagation's result: in particular the
      hidden gradients read the next shell's gradients after they were written, and the
      weight updates read gradients that no later step changes. */
  lemma BackwardComposes(topology: seq<nat>, s0: seq<seq<Node>>, target: seq<real>, eta: real, alpha: real,
                         s1: seq<seq<Node>>, s2: seq<seq<Node>>, s3: seq<seq<Node>>)
    requires Shaped(topology, s0) && 2 <= |topology| && topology[|topology| - 1] <= |target|
    requires OutputGradientsSet(topology, s0, target, s1)
    requires HiddenGradientsSet(topology, s1, s2)
    requires WeightsUpdated(topology, s2, eta, alpha, s3)
    ensures BackwardResult(topology, s0, target, eta, alpha, s3)
  {
    var last := |topology| - 1;
    OutputGradientsKeep(topology, s0, target, s1);
    HiddenGradientsKeep(topology, s1, s2);
    WeightsKeep(topology, s2, eta, alpha, s3);
    forall l, n | 0 <= l < |s3| && 0 <= n < |s3[l]|
      ensures s3[l][n].output == s0[l][n].output && s3[l][n].gradient == s2[l][n].gradient
      ensures s2[l][n].outputWeights == s0[l][n].outputWeights
    {
      assert ShellShaped(s1[l], topology[l], Fanout(topology, l));
      assert ShellShaped(s2[l], topology[l], Fanout(topology, l));
    }
    forall l, n | 1 <= l < last && 0 <= n < |s3[l]|
      ensures s3[l][n].gradient ==
        Gradient(WeightedGradients(s0[l][n].outputWeights, s3[l + 1], topology[l + 1]), s0[l][n].output)
    {
      assert ShellShaped(s0[l], topology[l], Fanout(topology, l));
      assert ShellShaped(s3[l + 1], topology[l + 1], Fanout(topology, l + 1));
      assert s1[l] == s0[l];
      assert HiddenShellSet(s1[l], s2[l], s2[l + 1], topology[l + 1], |s1[l]|);
      var g := WeightedGradients(s0[l][n].outputWeights, s2[l + 1], topology[l + 1]);
      assert s2[l][n] == s0[l][n].(gradient := Gradient(g, s0[l][n].output));
      WeightedGradientsCongruent(s0[l][n].outputWeights, s3[l + 1], s2[l + 1], topology[l + 1]);
    }
    forall l, u, m | 0 <= l < last && 0 <= u < |s3[l]| && 0 <= m < topology[l + 1]
      ensures s3[l][u].outputWeights[m] ==
        Step(s0[l][u].outputWeights[m], s0[l][u].output, s3[l + 1][m].gradient, eta, alpha)
    {
      assert ShellShaped(s2[l], topology[l], Fanout(topology, l));
      assert ShellShaped(s2[l + 1], topology[l + 1], Fanout(topology, l + 1));
      assert ShellStepped(s2[l], s3[l], s2[l + 1], topology[l + 1], eta, alpha);
      assert PartlyStepped(s2[l][u], s3[l][u], s2[l + 1], topology[l + 1], eta, alpha);
    }
  }

  /** Setting the output gradients changes no output and no connection. */
  lemma OutputGradientsKeep(topology: seq<nat>, before: seq<seq<Node>>, target: seq<real>, after: seq<seq<Node>>)
    requires Shaped(topology, before) && 1 <= |topology| && topology[|topology| - 1] <= |target|
    requires OutputGradientsSet(topology, before, target, after)
    ensures SameButGradients(topology, before, after)
  {
    forall l, n | 0 <= l < |before| && 0 <= n < |before[l]|
      ensures before[l][n].output == after[l][n].output && before[l][n].outputWeights == after[l][n].outputWeights
    {
      assert ShellShaped(before[l], topology[l], Fanout(topology, l));
    }
  }

  /** Setting the hidden gradients changes no output and no connection. */
  lemma HiddenGradientsKeep(topology: seq<nat>, before: seq<seq<Node>>, after: seq<seq<Node>>)
    requires Shaped(topology, before) && 2 <= |topology|
    requires HiddenGradientsSet(topology, before, after)
    ensures SameButGradients(topology, before, after)
  {
    var last := |topology| - 1;
    forall l | 1 <= l < last
      ensures forall n :: 0 <= n < |before[l]| ==>
        before[l][n].output == after[l][n].output && before[l][n].outputWeights == after[l][n].outputWeights
    {
      HiddenShellSetKeeps(before[l], after[l], after[l + 1], topology[l + 1], |before[l]|);
    }
    forall l, n | 0 <= l < |before| && 0 <= n < |before[l]|
      ensures before[l][n].output == after[l][n].output && before[l][n].outputWeights == after[l][n].outputWeights
    {
      if l == 0 || l == last {
        assert after[l] == before[l];
      }
    }
  }

  /** Setting hidden gradients in one shell changes no output and no connection there. */
  lemma HiddenShellSetKeeps(before: seq<Node>, after: seq<Node>, next: seq<Node>, width: nat, k: nat)
    requires HiddenShellSet(before, after, next, width, k)
    ensures forall i :: 0 <= i < |before| ==>
      before[i].output == after[i].output && before[i].outputWeights == after[i].outputWeights
  {
  }

  /** Updating the weights changes no output and no gradient. */
  lemma WeightsKeep(topology: seq<nat>, before: seq<seq<Node>>, eta: real, alpha: real, after: seq<seq<Node>>)
    requires Shaped(topology, before) && 1 <= |topology|
    requires WeightsUpdated(topology, before, eta, alpha, after)
    ensures forall l, n :: 0 <= l < |before| && 0 <= n < |before[l]| ==>
      after[l][n].output == before[l][n].output && after[l][n].gradient == before[l][n].gradient
  {
    forall l, n | 0 <= l < |before| && 0 <= n < |before[l]|
      ensures after[l][n].output == before[l][n].output && after[l][n].gradient == before[l][n].gradient
    {
      if l < |topology| - 1 {
        assert ShellShaped(before[l], topology[l], Fanout(topology, l));
        assert ShellShaped(before[l + 1], topology[l + 1], Fanout(topology, l + 1));
        assert ShellStepped(before[l], after[l], before[l + 1], topology[l + 1], eta, alpha);
        assert SameButWeights(before[l][n], after[l][n]);
      }
    }
  }

  /** Two networks agree on their outputs and connections, node for node. */
  ghost predicate SameButGradients(topology: seq<nat>, a: seq<seq<Node>>, b: seq<seq<Node>>)
    requires Shaped(topology, a) && Shaped(topology, b)
  {
    forall l, n | 0 <= l < |a| && 0 <= n < |a[l]| ::
      assert ShellShaped(b[l], topology[l], Fanout(topology, l));
      a[l][n].output == b[l][n].output && a[l][n].outputWeights == b[l][n].outputWeights
  }

  /** Two networks agree on the gradients of the functional nodes of shells `l ..`, and on
      the bias nodes of those among them that are hidden. */
  ghost predicate GradientsAgreeFrom(topology: seq<nat>, a: seq<seq<Node>>, b: seq<seq<Node>>, l: nat)
    requires Shaped(topology, a) && Shaped(topology, b)
  {
    forall k, n | l <= k < |a| && 0 <= n < |a[k]| && (n < topology[k] || k < |a| - 1) ::
      assert ShellShaped(b[k], topology[k], Fanout(topology, k));
      a[k][n].gradient == b[k][n].gradient
  }

  /** The first `k` nodes of `p` and `q` have the same gradients. */
  predicate GradientsAgreeBelow(p: seq<Node>, q: seq<Node>, k: nat)
  {
    forall m :: 0 <= m < k && m < |p| && m < |q| ==> p[m].gradient == q[m].gradient
  }

  lemma GradientsAgreeFromLast(topology: seq<nat>, a: seq<seq<Node>>, b: seq<seq<Node>>)
    requires Shaped(topology, a) && Shaped(topology, b) && 1 <= |topology|
    requires GradientsAgreeBelow(a[|topology| - 1], b[|topology| - 1], topology[|topology| - 1])
    ensures GradientsAgreeFrom(topology, a, b, |topology| - 1)
  {
  }

  lemma GradientsAgreeNextShell(topology: seq<nat>, a: seq<seq<Node>>, b: seq<seq<Node>>, l: nat)
    requires Shaped(topology, a) && Shaped(topology, b) && l < |topology|
    requires GradientsAgreeFrom(topology, a, b, l)
    ensures GradientsAgreeBelow(a[l], b[l], topology[l])
  {
    assert ShellShaped(a[l], topology[l], Fanout(topology, l));
  }

  lemma GradientsAgreeFromStep(topology: seq<nat>, a: seq<seq<Node>>, b: seq<seq<Node>>, l: nat)
    requires Shaped(topology, a) && Shaped(topology, b) && l + 1 < |topology|
    requires GradientsAgreeFrom(topology, a, b, l + 1)
    requires GradientsAgreeBelow(a[l], b[l], |a[l]|)
    ensures GradientsAgreeFrom(topology, a, b, l)
  {
  }

  /** Backward propagation from two networks with the same outputs gives the functional
      output nodes the same gradients. */
  lemma OutputShellGradientsAgree(topology: seq<nat>, b1: seq<seq<Node>>, b2: seq<seq<Node>>,
                                  target: seq<real>, eta: real, alpha: real,
                                  a1: seq<seq<Node>>, a2: seq<seq<Node>>)
    requires Shaped(topology, b1) && Shaped(topology, b2) && 2 <= |topology| && topology[|topology| - 1] <= |target|
    requires SameButGradients(topology, b1, b2)
    requires BackwardResult(topology, b1, target, eta, alpha, a1)
    requires BackwardResult(topology, b2, target, eta, alpha, a2)
    ensures GradientsAgreeBelow(a1[|topology| - 1], a2[|topology| - 1], topology[|topology| - 1])
  {
    var last := |topology| - 1;
    forall n | 0 <= n < topology[last]
      ensures a1[last][n].gradient == a2[last][n].gradient
    {
      assert ShellShaped(b1[last], topology[last], Fanout(topology, last));
      assert b1[last][n].output == b2[last][n].output;
    }
  }

  /** ... and a hidden shell whose next shell got the same gradients gets the same ones. */
  lemma HiddenShellGradientsAgree(topology: seq<nat>, b1: seq<seq<Node>>, b2: seq<seq<Node>>,
                                  target: seq<real>, eta: real, alpha: real,
                                  a1: seq<seq<Node>>, a2: seq<seq<Node>>, l: nat)
    requires Shaped(topology, b1) && Shaped(topology, b2) && 2 <= |topology| && topology[|topology| - 1] <= |target|
    requires SameButGradients(topology, b1, b2)
    requires BackwardResult(topology, b1, target, eta, alpha, a1)
    requires BackwardResult(topology, b2, target, eta, alpha, a2)
    requires 1 <= l < |topology| - 1
    requires GradientsAgreeBelow(a1[l + 1], a2[l + 1], topology[l + 1])
    ensures GradientsAgreeBelow(a1[l], a2[l], |a1[l]|)
  {
    assert ShellShaped(a1[l + 1], topology[l + 1], Fanout(topology, l + 1));
    assert ShellShaped(a2[l + 1], topology[l + 1], Fanout(topology, l + 1));
    forall n | 0 <= n < |a1[l]|
      ensures a1[l][n].gradient == a2[l][n].gradient
    {
      assert ShellShaped(b1[l], topology[l], Fanout(topology, l));
      assert b1[l][n].output == b2[l][n].output && b1[l][n].outputWeights == b2[l][n].outputWeights;
      WeightedGradientsCongruent(b1[l][n].outputWeights, a1[l + 1], a2[l + 1], topology[l + 1]);
    }
  }

  lemma {:induction false} BackwardGradientsAgree(topology: seq<nat>, b1: seq<seq<Node>>, b2: seq<seq<Node>>,
                                                  target: seq<real>, eta: real, alpha: real,
                                                  a1: seq<seq<Node>>, a2: seq<seq<Node>>, l: nat)
    requires Shaped(topology, b1) && Shaped(topology, b2) && 2 <= |topology| && topology[|topology| - 1] <= |target|
    requires SameButGradients(topology, b1, b2)
    requires BackwardResult(topology, b1, target, eta, alpha, a1)
    requires BackwardResult(topology, b2, target, eta, alpha, a2)
    requires 1 <= l < |topology|
    ensures GradientsAgreeFrom(topology, a1, a2, l)
    decreases |topology| - l
  {
    var last := |topology| - 1;
    OutputShellGradientsAgree(topology, b1, b2, target, eta, alpha, a1, a2);
    if l == last {
      GradientsAgreeFromLast(topology, a1, a2);
    } else {
      BackwardGradientsAgree(topology, b1, b2, target, eta, alpha, a1, a2, l + 1);
      GradientsAgreeNextShell(topology, a1, a2, l + 1);
      HiddenShellGradientsAgree(topology, b1, b2, target, eta, alpha, a1, a2, l);
      GradientsAgreeFromStep(topology, a1, a2, l);
    }
  }

  /** Gradients are written before they are read: backward propagation from two networks
      that differ only in their gradients (stale ones from an earlier pass, or never set)
      ends with the same connections and the same gradients wherever it writes them. */
  lemma BackwardIgnoresStaleGradients(topology: seq<nat>, b1: seq<seq<Node>>, b2: seq<seq<Node>>,
                                      target: seq<real>, eta: real, alpha: real,
                                      a1: seq<seq<Node>>, a2: seq<seq<Node>>)
    requires Shaped(topology, b1) && Shaped(topology, b2) && 2 <= |topology| && topology[|topology| - 1] <= |target|
    requires SameButGradients(topology, b1, b2)
    requires BackwardResult(topology, b1, target, eta, alpha, a1)
    requires BackwardResult(topology, b2, target, eta, alpha, a2)
    ensures SameButGradients(topology, a1, a2)
    ensures GradientsAgreeFrom(topology, a1, a2, 1)
  {
    var last := |topology| - 1;
    BackwardGradientsAgree(topology, b1, b2, target, eta, alpha, a1, a2, 1);
    forall l, u | 0 <= l < |a1| && 0 <= u < |a1[l]|
      ensures a1[l][u].output == a2[l][u].output && a1[l][u].outputWeights == a2[l][u].outputWeights
    {
      assert ShellShaped(b1[l], topology[l], Fanout(topology, l));
      assert ShellShaped(a1[l], topology[l], Fanout(topology, l));
      assert ShellShaped(a2[l], topology[l], Fanout(topology, l));
      assert b1[l][u].output == b2[l][u].output && b1[l][u].outputWeights == b2[l][u].outputWeights;
      if l < last {
        assert ShellShaped(a1[l + 1], topology[l + 1], Fanout(topology, l + 1));
        forall m | 0 <= m < topology[l + 1]
          ensures a1[l][u].outputWeights[m] == a2[l][u].outputWeights[m]
        {
          assert a1[l + 1][m].gradient == a2[l + 1][m].gradient;
        }
      }
    }
  }

  /** Backward propagation is a function of the network and the target: two results of the
      same backward pass coincide. */
  lemma BackwardDeterministic(topology: seq<nat>, before: seq<seq<Node>>, target: seq<real>, eta: real, alpha: real,
                              a: seq<seq<Node>>, b: seq<seq<Node>>)
    requires Shaped(topology, before) && 2 <= |topology| && topology[|topology| - 1] <= |target|
    requires BackwardResult(topology, before, target, eta, alpha, a)
    requires BackwardResult(topology, before, target, eta, alpha, b)
    ensures a == b
  {
    var last := |topology| - 1;
    BackwardIgnoresStaleGradients(topology, before, before, target, eta, alpha, a, b);
    forall l | 0 <= l < |a| ensures a[l] == b[l] {
      assert ShellShaped(a[l], topology[l], Fanout(topology, l));
      assert ShellShaped(b[l], topology[l], Fanout(topology, l));
      forall n | 0 <= n < |a[l]| ensures a[l][n] == b[l][n] {
        assert a[l][n].output == b[l][n].output && a[l][n].outputWeights == b[l][n].outputWeights;
        if l == 0 {
          assert ShellShaped(before[0], topology[0], Fanout(topology, 0));
        }
      }
    }
  }
}
