/** One neuron of the perceptron and the arithmetic it does on its own.
    A node is a value held inside its shell (a layer); every operation here
    takes the node, or the shell it works on, and returns the updated value. */
module Nodes {

  /** The edge from a node to one node of the next shell. */
  datatype Connection = Connection(weight: real, deltaWeight: real)

  /** `index` is the node's position in its shell; it is also the position
      reserved for this node in the `outputWeights` of every node of the
      previous shell. */
  datatype Node = Node(index: nat, output: real, gradient: real, outputWeights: seq<Connection>)

  /** The derivative of tanh written in terms of its already-activated output. */
  function ActivationDerivative(x: real): (r: real)
  {
    1.0 - x * x
  }

  /** A node's gradient: its error signal scaled by the derivative at its output. The signal
      of an output node is its target minus its output; that of a hidden node is the weighted
      sum of the next shell's gradients. */
  function Gradient(signal: real, output: real): (r: real)
  {
    signal * ActivationDerivative(output)
  }

  /** Every node of `shell` owns a connection at position `m`. */
  predicate Reaches(shell: seq<Node>, m: nat)
  {
    forall u :: 0 <= u < |shell| ==> m < |shell[u].outputWeights|
  }

  /** The sum, left to right over the nodes `u` of `prev`, of
      `u.output * u.outputWeights[m].weight`: the input of node `m` of the next shell. */
  function WeightedSum(prev: seq<Node>, m: nat): (r: real)
    requires Reaches(prev, m)
  {
    if prev == [] then 0.0
    else
      var u := prev[|prev| - 1];
      WeightedSum(prev[..|prev| - 1], m) + u.output * u.outputWeights[m].weight
  }

  /** The sum, over the first `k` nodes `v` of `next`, of the weight leading
      to `v` times the gradient of `v`. */
  function WeightedGradients(weights: seq<Connection>, next: seq<Node>, k: nat): (r: real)
    requires k <= |weights| && k <= |next|
  {
    if k == 0 then 0.0
    else WeightedGradients(weights, next, k - 1) + weights[k - 1].weight * next[k - 1].gradient
  }

  /** The momentum step: the new delta is `eta * upstream * gradient + alpha * old delta`,
      and it is both stored and added to the weight. */
  function Step(c: Connection, upstream: real, gradient: real, eta: real, alpha: real): (r: Connection)
  {
    var delta := eta * upstream * gradient + alpha * c.deltaWeight;
    Connection(c.weight + delta, delta)
  }

  /** Node `u` after the node at position `m` of the next shell, whose gradient is
      `gradient`, has updated the connection leading to it. */
  function StepConnection(u: Node, m: nat, gradient: real, eta: real, alpha: real): (r: Node)
    requires m < |u.outputWeights|
  {
    u.(outputWeights := u.outputWeights[m := Step(u.outputWeights[m], u.output, gradient, eta, alpha)])
  }

  /** A fresh node: `outputs` connections, each with the weight `weight` draws for it
      and a zero delta. */
  method NewNode(index: nat, outputs: nat, weight: nat -> real) returns (r: Node)
    ensures r.index == index && r.output == 0.0 && r.gradient == 0.0
    ensures |r.outputWeights| == outputs
    ensures forall m :: 0 <= m < outputs ==> r.outputWeights[m] == Connection(weight(m), 0.0)
  {
    var connections: seq<Connection> := [];
    for i := 0 to outputs
      invariant |connections| == i
      invariant forall m :: 0 <= m < i ==> connections[m] == Connection(weight(m), 0.0)
    {
      connections := connections + [Connection(weight(i), 0.0)];
    }
    r := Node(index, 0.0, 0.0, connections);
  }

  /** Feed forward: the node's output becomes the activation of the weighted sum of the
      previous shell, read through each upstream node's connection at this node's index. */
  method Forward(node: Node, prevShell: seq<Node>, act: real -> real) returns (r: Node)
    requires Reaches(prevShell, node.index)
    ensures r == node.(output := act(WeightedSum(prevShell, node.index)))
  {
    var sum := 0.0;
    for n := 0 to |prevShell|
      invariant sum == WeightedSum(prevShell[..n], node.index)
    {
      assert prevShell[..n + 1][..n] == prevShell[..n];
      sum := sum + prevShell[n].output * prevShell[n].outputWeights[node.index].weight;
    }
    assert prevShell[..|prevShell|] == prevShell;
    r := node.(output := act(sum));
  }

  /** The gradient of an output node: its error against `target`, scaled by the derivative. */
  method OutputGradients(node: Node, target: real) returns (r: Node)
    ensures r == node.(gradient := Gradient(target - node.output, node.output))
  {
    var delta := target - node.output;
    r := node.(gradient := delta * ActivationDerivative(node.output));
  }

  /** Sum of the derivatives of the weights: over every node of `next` except its last
      (the bias node), the weight of the connection to it times its gradient. */
  method SumDOW(node: Node, next: seq<Node>) returns (sum: real)
    requires 1 <= |next| && |next| - 1 <= |node.outputWeights|
    ensures sum == WeightedGradients(node.outputWeights, next, |next| - 1)
  {
    sum := 0.0;
    for n := 0 to |next| - 1
      invariant sum == WeightedGradients(node.outputWeights, next, n)
    {
      sum := sum + node.outputWeights[n].weight * next[n].gradient;
    }
  }

  /** The gradient of a hidden node: what it contributed to the next shell's gradients,
      scaled by the derivative. */
  method HiddenGradients(node: Node, next: seq<Node>) returns (r: Node)
    requires 1 <= |next| && |next| - 1 <= |node.outputWeights|
    ensures r == node.(gradient := Gradient(WeightedGradients(node.outputWeights, next, |next| - 1), node.output))
  {
    var dow := SumDOW(node, next);
    r := node.(gradient := dow * ActivationDerivative(node.output));
  }

  /** Every node of `prev` takes a momentum step on the connection that leads to `node`;
      nothing else in `prev` changes. */
  method UpdateInputWeights(node: Node, prev: seq<Node>, eta: real, alpha: real) returns (r: seq<Node>)
    requires Reaches(prev, node.index)
    ensures |r| == |prev|
    ensures forall u :: 0 <= u < |prev| ==> r[u] == StepConnection(prev[u], node.index, node.gradient, eta, alpha)
  {
    r := prev;
    for n := 0 to |prev|
      invariant |r| == |prev|
      invariant forall u :: 0 <= u < n ==> r[u] == StepConnection(prev[u], node.index, node.gradient, eta, alpha)
      invariant forall u :: n <= u < |prev| ==> r[u] == prev[u]
    {
      var upstream := r[n];
      var oldDeltaWeight := upstream.outputWeights[node.index].deltaWeight;
      var newDeltaWeight := eta * upstream.output * node.gradient + alpha * oldDeltaWeight;
      var connection := Connection(upstream.outputWeights[node.index].weight + newDeltaWeight, newDeltaWeight);
      assert connection == Step(prev[n].outputWeights[node.index], prev[n].output, node.gradient, eta, alpha);
      r := r[n := upstream.(outputWeights := upstream.outputWeights[node.index := connection])];
    }
  }

  /** On the range of tanh the derivative lies in [0, 1] and vanishes exactly at the
      saturated outputs +1 and -1. */
  lemma ActivationDerivativeRange(x: real)
    requires -1.0 <= x <= 1.0
    ensures 0.0 <= ActivationDerivative(x) <= 1.0
    ensures ActivationDerivative(x) == 0.0 <==> (x == 1.0 || x == -1.0)
  {
    ProductNonNegative(1.0 - x, 1.0 + x);
    assert (1.0 - x) * (1.0 + x) == ActivationDerivative(x);
    if x != 1.0 && x != -1.0 {
      DerivativeNonZero(x);
    }
  }

  lemma DerivativeNonZero(x: real)
    requires x != 1.0 && x != -1.0
    ensures ActivationDerivative(x) != 0.0
  {
    ProductNonZero(1.0 - x, 1.0 + x);
    assert (1.0 - x) * (1.0 + x) == ActivationDerivative(x);
  }

  lemma ProductNonNegative(a: real, b: real)
    requires 0.0 <= a && 0.0 <= b
    ensures 0.0 <= a * b
  {
  }

  lemma ProductNonZero(a: real, b: real)
    requires a != 0.0 && b != 0.0
    ensures a * b != 0.0
  {
    if 0.0 < a {
      if b < 0.0 {
        assert a * b == -(a * -b);
      }
    } else {
      if 0.0 < b {
        assert a * b == -(-a * b);
      } else {
        assert a * b == -a * -b;
      }
    }
  }

  /** An output node's gradient vanishes exactly when it already hits its target or its
      output sits at the saturation points +1 or -1 of the derivative approximation. */
  lemma OutputGradientZeroIff(o: real, target: real)
    ensures Gradient(target - o, o) == 0.0 <==> (o == target || o == 1.0 || o == -1.0)
  {
    if Gradient(target - o, o) == 0.0 {
      assert target - o == 0.0 || 1.0 - o * o == 0.0;
      if 1.0 - o * o == 0.0 {
        assert (1.0 - o) * (1.0 + o) == 0.0;
      }
    }
  }

  /** The weighted sum reads only the connections at position `m`, and only the outputs
      of the upstream nodes. */
  lemma {:induction false} WeightedSumCongruent(p: seq<Node>, q: seq<Node>, m: nat)
    requires Reaches(p, m) && Reaches(q, m) && |p| == |q|
    requires forall u :: 0 <= u < |p| ==>
      p[u].output == q[u].output && p[u].outputWeights[m].weight == q[u].outputWeights[m].weight
    ensures WeightedSum(p, m) == WeightedSum(q, m)
  {
    if p != [] {
      WeightedSumCongruent(p[..|p| - 1], q[..|q| - 1], m);
    }
  }

  /** `WeightedGradients` reads only the gradients of the first `k` nodes of `next`. */
  lemma {:induction false} WeightedGradientsCongruent(weights: seq<Connection>, next1: seq<Node>, next2: seq<Node>, k: nat)
    requires k <= |weights| && k <= |next1| && k <= |next2|
    requires forall m :: 0 <= m < k ==> next1[m].gradient == next2[m].gradient
    ensures WeightedGradients(weights, next1, k) == WeightedGradients(weights, next2, k)
  {
    if k > 0 {
      WeightedGradientsCongruent(weights, next1, next2, k - 1);
    }
  }
}
