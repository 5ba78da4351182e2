/** The network object: its shells, its error measures and the passes that update them in
    place. */
module Engine {
  import opened Nodes
  import opened Shells

  class Network {
    /** Number of functional nodes per shell, input shell first. */
    const topology: seq<nat>
    var shells: seq<seq<Node>>
    /** Root-mean-square error of the last backward pass. */
    var error: real
    /** Exponentially smoothed error. */
    var recentAvgError: real
    const recentAvgSmoothingFactor: real
    /** Learning rate and momentum, shared by every node. */
    const eta: real
    const alpha: real
    /** The activation function (tanh) and the square root. */
    const act: real -> real
    const sqrt: real -> real

    ghost predicate Valid()
      reads this
    {
      Shaped(topology, shells)
    }

    /** Builds one shell per entry of `topology`, each with a trailing bias node whose
        output is 1.0; every node gets one connection per functional node of the next
        shell, weighted by `weight(shell, node, connection)`, with a zero delta. */
    constructor (topology: seq<nat>, weight: (nat, nat, nat) -> real, act: real -> real, sqrt: real -> real,
                 eta: real, alpha: real, recentAvgError: real, recentAvgSmoothingFactor: real)
      ensures Valid()
      ensures this.topology == topology && this.act == act && this.sqrt == sqrt
      ensures this.eta == eta && this.alpha == alpha
      ensures this.recentAvgError == recentAvgError && this.recentAvgSmoothingFactor == recentAvgSmoothingFactor
      ensures error == 0.0
      ensures forall l :: 0 <= l < |shells| ==> FreshShell(shells[l], l, weight)
    {
      var built: seq<seq<Node>> := [];
      for l := 0 to |topology|
        invariant |built| == l
        invariant forall k :: 0 <= k < l ==>
          ShellShaped(built[k], topology[k], Fanout(topology, k)) && FreshShell(built[k], k, weight)
      {
        var numOutputs := if l == |topology| - 1 then 0 else topology[l + 1];
        var shell: seq<Node> := [];
        for n := 0 to topology[l] + 1
          invariant |shell| == n
          invariant forall i :: 0 <= i < n ==>
            shell[i].index == i && shell[i].output == 0.0 && shell[i].gradient == 0.0 &&
            |shell[i].outputWeights| == numOutputs
          invariant forall i, m :: 0 <= i < n && 0 <= m < numOutputs ==>
            shell[i].outputWeights[m] == Connection(weight(l, i, m), 0.0)
        {
          var node := NewNode(n, numOutputs, (m: nat) => weight(l, n, m));
          shell := shell + [node];
        }
        // the bias node
        shell := shell[topology[l] := shell[topology[l]].(output := 1.0)];
        assert ShellShaped(shell, topology[l], Fanout(topology, l)) && FreshShell(shell, l, weight);
        built := built + [shell];
      }
      this.topology := topology;
      this.shells := built;
      this.error := 0.0;
      this.recentAvgError := recentAvgError;
      this.recentAvgSmoothingFactor := recentAvgSmoothingFactor;
      this.eta := eta;
      this.alpha := alpha;
      this.act := act;
      this.sqrt := sqrt;
    }

    /** Loads `input` into the functional input nodes, then recomputes, shell by shell from
        the second on, the output of every functional node from the shell before it. */
    method Forward(input: seq<real>)
      requires Valid() && 1 <= |topology|
      requires |input| == |shells[0]| - 1
      modifies this`shells
      ensures Valid()
      ensures ForwardResult(topology, old(shells), input, act, shells)
    {
      ghost var before := shells;
      LoadInput(input);
      for i := 1 to |shells|
        invariant ForwardUpTo(topology, before, input, act, shells, i)
      {
        ghost var entry := shells;
        FeedShell(i);
        ForwardUpToNext(topology, before, input, act, entry, shells, i);
      }
    }

    /** The first step of `Forward`: the functional input nodes take the values of `input`. */
    method LoadInput(input: seq<real>)
      requires Valid() && 1 <= |topology|
      requires |input| == |shells[0]| - 1
      modifies this`shells
      ensures Valid()
      ensures forall l, n :: 0 <= l < |shells| && 0 <= n < |shells[l]| ==> SameButOutput(old(shells)[l][n], shells[l][n])
      ensures forall l :: 1 <= l < |shells| ==> shells[l] == old(shells)[l]
      ensures forall n :: 0 <= n < |input| ==> shells[0][n].output == input[n]
    {
      ghost var before := shells;
      assert ShellShaped(shells[0], topology[0], Fanout(topology, 0));
      for i := 0 to |input|
        invariant Shaped(topology, shells)
        invariant forall l, n :: 0 <= l < |shells| && 0 <= n < |shells[l]| ==> SameButOutput(before[l][n], shells[l][n])
        invariant forall l :: 1 <= l < |shells| ==> shells[l] == before[l]
        invariant forall n :: 0 <= n < i ==> shells[0][n].output == input[n]
      {
        ShapedAfterUpdate(topology, shells, 0, i, shells[0][i].(output := input[i]));
        shells := shells[0 := shells[0][i := shells[0][i].(output := input[i])]];
      }
    }

    /** One step of `Forward`: every functional node of shell `i` recomputes its output from
        shell `i - 1`; no other shell changes. */
    method FeedShell(i: nat)
      requires Valid() && 1 <= i < |shells|
      modifies this`shells
      ensures Valid()
      ensures forall l :: 0 <= l < |shells| && l != i ==> shells[l] == old(shells)[l]
      ensures forall n :: 0 <= n < |shells[i]| ==> SameButOutput(old(shells)[i][n], shells[i][n])
      ensures Fed(shells[i - 1], shells[i], topology[i], act)
    {
      ghost var entry := shells;
      assert ShellShaped(shells[i], topology[i], Fanout(topology, i));
      for n := 0 to |shells[i]| - 1
        invariant Shaped(topology, shells)
        invariant forall l :: 0 <= l < |shells| && l != i ==> shells[l] == entry[l]
        invariant forall k :: 0 <= k < |shells[i]| ==> SameButOutput(entry[i][k], shells[i][k])
        invariant Fed(shells[i - 1], shells[i], n, act)
      {
        Wired(topology, shells, i, n);
        var updated := Nodes.Forward(shells[i][n], shells[i - 1], act);
        ShapedAfterUpdate(topology, shells, i, n, updated);
        shells := shells[i := shells[i][n := updated]];
      }
    }

    /** Backward propagation for `target`: the root-mean-square error and its smoothed
        average, then output gradients, hidden gradients and the weight updates, in that
        order. */
    method Backward(target: seq<real>)
      requires Valid() && 2 <= |topology|
      requires 0 < topology[|topology| - 1] <= |target|
      requires recentAvgSmoothingFactor + 1.0 != 0.0
      modifies this`shells, this`error, this`recentAvgError
      ensures Valid()
      ensures error == sqrt(MeanSquaredError(old(shells)[|shells| - 1], target, topology[|topology| - 1]))
      ensures recentAvgError == Smoothed(old(recentAvgError), recentAvgSmoothingFactor, error)
      ensures BackwardResult(topology, old(shells), target, eta, alpha, shells)
    {
      var output := shells[|shells| - 1];
      assert ShellShaped(output, topology[|topology| - 1], 0);
      error := 0.0;
      for n := 0 to |output| - 1
        invariant error == SquaredError(output, target, n)
        modifies this`error
      {
        var delta := target[n] - output[n].output;
        error := error + delta * delta;
      }
      error := error / (|output| - 1) as real;
      assert error == MeanSquaredError(output, target, |output| - 1);
      error := sqrt(error);

      recentAvgError := Smoothed(recentAvgError, recentAvgSmoothingFactor, error);

      ghost var s0 := shells;
      assert s0 == old(shells);
      OutputGradientsPass(target);
      ghost var s1 := shells;
      HiddenGradientsPass();
      ghost var s2 := shells;
      UpdateWeightsPass();
      BackwardComposes(topology, s0, target, eta, alpha, s1, s2, shells);
    }

    /** The output-gradient step of `Backward`: every functional node of the output shell. */
    method OutputGradientsPass(target: seq<real>)
      requires Valid() && 1 <= |topology| && topology[|topology| - 1] <= |target|
      modifies this`shells
      ensures Valid()
      ensures OutputGradientsSet(topology, old(shells), target, shells)
    {
      ghost var before := shells;
      var last := |shells| - 1;
      assert ShellShaped(shells[last], topology[last], Fanout(topology, last));
      for n := 0 to |shells[last]| - 1
        invariant Shaped(topology, shells)
        invariant forall l :: 0 <= l < last ==> shells[l] == before[l]
        invariant forall k :: n <= k < |shells[last]| ==> shells[last][k] == before[last][k]
        invariant forall k :: 0 <= k < n ==>
          shells[last][k] == before[last][k].(gradient := Gradient(target[k] - before[last][k].output, before[last][k].output))
      {
        var updated := OutputGradients(shells[last][n], target[n]);
        ShapedAfterUpdate(topology, shells, last, n, updated);
        shells := shells[last := shells[last][n := updated]];
      }
    }

    /** The hidden-gradient step of `Backward`: from the second-to-last shell down to shell 1,
        every node, the bias node included. */
    method HiddenGradientsPass()
      requires Valid() && 2 <= |topology|
      modifies this`shells
      ensures Valid()
      ensures HiddenGradientsSet(topology, old(shells), shells)
    {
      ghost var before := shells;
      var last := |shells| - 1;
      for l := |shells| - 1 downto 1
        invariant Shaped(topology, shells)
        invariant forall k :: 0 <= k < l ==> shells[k] == before[k]
        invariant shells[last] == before[last]
        invariant forall k :: l <= k < last ==>
          HiddenShellSet(before[k], shells[k], shells[k + 1], topology[k + 1], |before[k]|)
      {
        HiddenShellGradients(l);
      }
    }

    /** One step of the hidden-gradient pass: every node of shell `l`, the bias node
        included, gets its gradient from shell `l + 1`; no other shell changes. */
    method HiddenShellGradients(l: nat)
      requires Valid() && 1 <= l < |shells| - 1
      modifies this`shells
      ensures Valid()
      ensures forall k :: 0 <= k < |shells| && k != l ==> shells[k] == old(shells)[k]
      ensures HiddenShellSet(old(shells)[l], shells[l], shells[l + 1], topology[l + 1], |shells[l]|)
    {
      ghost var entry := shells;
      assert ShellShaped(shells[l], topology[l], Fanout(topology, l));
      assert ShellShaped(shells[l + 1], topology[l + 1], Fanout(topology, l + 1));
      for n := 0 to |shells[l]|
        invariant Shaped(topology, shells)
        invariant forall k :: 0 <= k < |shells| && k != l ==> shells[k] == entry[k]
        invariant HiddenShellSet(entry[l], shells[l], shells[l + 1], topology[l + 1], n)
      {
        var updated := HiddenGradients(shells[l][n], shells[l + 1]);
        ShapedAfterUpdate(topology, shells, l, n, updated);
        shells := shells[l := shells[l][n := updated]];
      }
    }

    /** The weight-update step of `Backward`: from the last shell down to shell 1, every
        functional node updates the connections leading to it from the shell before. */
    method UpdateWeightsPass()
      requires Valid() && 1 <= |topology|
      modifies this`shells
      ensures Valid()
      ensures WeightsUpdated(topology, old(shells), eta, alpha, shells)
    {
      ghost var before := shells;
      var last := |shells| - 1;
      for l := |shells| downto 1
        invariant Shaped(topology, shells)
        invariant forall k :: 0 <= k < l - 1 ==> shells[k] == before[k]
        invariant shells[last] == before[last]
        invariant forall k :: l - 1 <= k < last ==>
          ShellStepped(before[k], shells[k], before[k + 1], topology[k + 1], eta, alpha)
      {
        ghost var entry := shells;
        assert ShellShaped(shells[l], topology[l], Fanout(topology, l));
        if l < last {
          ShellSteppedKeepsGradients(before[l], shells[l], before[l + 1], topology[l + 1], eta, alpha);
        }
        UpdateShellWeights(l);
        ShellSteppedCongruent(before[l - 1], shells[l - 1], entry[l], before[l], topology[l], eta, alpha);
      }
    }

    /** One step of the weight update: every functional node of shell `l` steps, in every
        node of shell `l - 1`, the connection leading to it; only shell `l - 1` changes. */
    method UpdateShellWeights(l: nat)
      requires Valid() && 1 <= l < |shells|
      modifies this`shells
      ensures Valid()
      ensures forall k :: 0 <= k < |shells| && k != l - 1 ==> shells[k] == old(shells)[k]
      ensures ShellStepped(old(shells)[l - 1], shells[l - 1], old(shells)[l], topology[l], eta, alpha)
    {
      ghost var entry := shells;
      assert ShellShaped(shells[l], topology[l], Fanout(topology, l));
      assert ShellShaped(shells[l - 1], topology[l - 1], Fanout(topology, l - 1));
      for n := 0 to |shells[l]| - 1
        invariant Shaped(topology, shells)
        invariant forall k :: 0 <= k < |shells| && k != l - 1 ==> shells[k] == entry[k]
        invariant ShellStepped(entry[l - 1], shells[l - 1], entry[l], n, eta, alpha)
      {
        Wired(topology, shells, l, n);
        var prev := UpdateInputWeights(shells[l][n], shells[l - 1], eta, alpha);
        ShellSteppedNext(entry[l - 1], shells[l - 1], entry[l], n, eta, alpha, prev);
        ShapedAfterWeights(topology, shells, l - 1, prev);
        shells := shells[l - 1 := prev];
      }
    }

    /** As written: as many values as there are shells minus one, read from the first nodes
        of the output shell. */
    method Results() returns (results: seq<real>)
      requires Valid() && 1 <= |shells|
      requires |shells| - 1 <= |shells[|shells| - 1]|
      ensures |results| == |shells| - 1
      ensures forall n :: 0 <= n < |results| ==> results[n] == shells[|shells| - 1][n].output
    {
      results := [];
      for n := 0 to |shells| - 1
        invariant |results| == n
        invariant forall k :: 0 <= k < n ==> results[k] == shells[|shells| - 1][k].output
      {
        results := results + [shells[|shells| - 1][n].output];
      }
    }

    /** The outputs of the functional nodes of the output shell, in order. */
    method OutputValues() returns (results: seq<real>)
      requires Valid() && 1 <= |shells|
      ensures |results| == topology[|topology| - 1]
      ensures forall n :: 0 <= n < |results| ==> results[n] == shells[|shells| - 1][n].output
    {
      var output := shells[|shells| - 1];
      assert ShellShaped(output, topology[|topology| - 1], 0);
      results := [];
      for n := 0 to |output| - 1
        invariant |results| == n
        invariant forall k :: 0 <= k < n ==> results[k] == output[k].output
      {
        results := results + [output[n].output];
      }
    }
  }

  /** A shell as the constructor leaves it, at position `l`: every gradient is zero, every
      output but the bias node's is zero, and connection `m` of node `n` holds
      `weight(l, n, m)` with a zero delta. */
  predicate FreshShell(shell: seq<Node>, l: nat, weight: (nat, nat, nat) -> real)
  {
    forall n :: 0 <= n < |shell| ==>
      shell[n].gradient == 0.0 && (n < |shell| - 1 ==> shell[n].output == 0.0) &&
      forall m :: 0 <= m < |shell[n].outputWeights| ==> shell[n].outputWeights[m] == Connection(weight(l, n, m), 0.0)
  }

  /** `Results` sizes its answer by the number of shells, not by the width of the output
      shell. With topology [2, 4, 1] it returns two values although the network has one
      output, and the second is the bias output 1.0; with topology [2, 3, 3, 1] it would read
      past the end of the two-node output shell. */
  lemma ResultsMiscount(a: seq<seq<Node>>, b: seq<seq<Node>>)
    requires Shaped([2, 4, 1], a)
    requires Shaped([2, 3, 3, 1], b)
    ensures |a| - 1 == 2 && |a[2]| - 1 == 1 && a[2][1].output == 1.0
    ensures |b| - 1 > |b[3]|
  {
    assert ShellShaped(a[2], 1, 0);
    assert ShellShaped(b[3], 1, 0);
  }

  /** `Results` on a network freshly built with topology [2, 4, 1]: two values come back for
      its single output, and the second is the output shell's bias output. */
  method ResultsOnOneOutput() returns (q: seq<real>)
    ensures |q| == 2 && q[1] == 1.0
  {
    var net := new Network([2, 4, 1], (l: nat, n: nat, m: nat) => 0.5, x => x, x => x, 0.15, 0.5, 0.0, 100.0);
    assert ShellShaped(net.shells[2], 1, 0);
    q := net.Results();
  }
}
