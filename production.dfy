/** The production cycle of a production node: a two-state machine (idle, producing)
    that deducts its input flows from the connected storage when a cycle starts and
    credits its output flows when the cycle's wait is over. */
module Production {
  import opened Resources
  import opened Storage

  /** The check the source performs: every input flow is available on its own. */
  predicate RequirementsMetAsWritten(s: Stockpile, inputs: seq<ResourceFlow>): (r: bool)
    ensures r <==> forall i :: 0 <= i < |inputs| ==> Sufficient(s, [inputs[i]])
  {
    SingleFlowsSufficient(s, inputs);
    forall i :: 0 <= i < |inputs| ==> inputs[i].amount <= Level(s, inputs[i].kind)
  }

  /** The corrected check: for every input flow, the total demand of its type across
      all inputs is in stock, so that the takes of one cycle can all be honoured. */
  predicate Sufficient(s: Stockpile, inputs: seq<ResourceFlow>)
  {
    forall i :: 0 <= i < |inputs| ==> Total(inputs, inputs[i].kind) <= Level(s, inputs[i].kind)
  }

  /** A one-flow list is covered exactly when its flow is in stock. */
  lemma {:induction false} SingleFlowsSufficient(s: Stockpile, inputs: seq<ResourceFlow>)
    ensures (forall i :: 0 <= i < |inputs| ==> inputs[i].amount <= Level(s, inputs[i].kind))
        <==> (forall i :: 0 <= i < |inputs| ==> Sufficient(s, [inputs[i]]))
  {
    forall i | 0 <= i < |inputs|
      ensures Total([inputs[i]], inputs[i].kind) == inputs[i].amount
    {
      assert [inputs[i]][1..] == [];
    }
  }

  /** The corrected check means that the stock covers the total demand of every type. */
  lemma DemandCovered(s: Stockpile, inputs: seq<ResourceFlow>)
    ensures Sufficient(s, inputs) <==> forall t :: Total(inputs, t) <= Level(s, t)
    ensures Sufficient(s, inputs) ==> RequirementsMetAsWritten(s, inputs)
  {
    if Sufficient(s, inputs) {
      forall t
        ensures Total(inputs, t) <= Level(s, t)
      {
        SufficientEverywhere(s, inputs, t);
      }
      SufficientMeetsAsWritten(s, inputs);
    }
  }

  /** Stock after the flows are taken one after another, front to back. */
  function Deducted(s: Stockpile, flows: seq<ResourceFlow>): Stockpile
    requires Sufficient(s, flows)
    decreases |flows|
  {
    if flows == [] then s
    else
      SufficientTail(s, flows);
      Deducted(Withdrawn(s, flows[0].kind, flows[0].amount), flows[1..])
  }

  /** Stock after the flows are put one after another, front to back. */
  function Credited(s: Stockpile, flows: seq<ResourceFlow>): Stockpile
    decreases |flows|
  {
    if flows == [] then s
    else Credited(Deposited(s, flows[0].kind, flows[0].amount), flows[1..])
  }

  /** When the inputs are covered, the first take is within stock and the rest stay covered. */
  lemma SufficientTail(s: Stockpile, flows: seq<ResourceFlow>)
    requires Sufficient(s, flows)
    requires flows != []
    ensures flows[0].amount <= Level(s, flows[0].kind)
    ensures Sufficient(Withdrawn(s, flows[0].kind, flows[0].amount), flows[1..])
  {
    TotalCoversFlow(flows, 0);
    var s' := Withdrawn(s, flows[0].kind, flows[0].amount);
    forall j | 0 <= j < |flows[1..]|
      ensures Total(flows[1..], flows[1..][j].kind) <= Level(s', flows[1..][j].kind)
    {
      assert flows[1..][j] == flows[j + 1];
    }
  }

  /** The corrected check is the same as saying that every type's total demand is in stock. */
  lemma SufficientEverywhere(s: Stockpile, flows: seq<ResourceFlow>, t: ResourceType)
    requires Sufficient(s, flows)
    ensures Total(flows, t) <= Level(s, t)
  {
    if forall i :: 0 <= i < |flows| ==> flows[i].kind != t {
      TotalOfAbsent(flows, t);
    }
  }

  /** Any prefix of covered inputs is covered. */
  lemma SufficientPrefix(s: Stockpile, flows: seq<ResourceFlow>, k: nat)
    requires Sufficient(s, flows)
    requires k <= |flows|
    ensures Sufficient(s, flows[..k])
  {
    forall i | 0 <= i < k
      ensures Total(flows[..k], flows[..k][i].kind) <= Level(s, flows[..k][i].kind)
    {
      var t := flows[i].kind;
      TotalSplit(flows, k, t);
      SufficientEverywhere(s, flows, t);
    }
  }

  /** Deduction lowers each type by its total demand. */
  lemma {:induction false} DeductedLevel(s: Stockpile, flows: seq<ResourceFlow>, t: ResourceType)
    requires Sufficient(s, flows)
    ensures Level(Deducted(s, flows), t) + Total(flows, t) == Level(s, t)
    decreases |flows|
  {
    if flows != [] {
      SufficientTail(s, flows);
      DeductedLevel(Withdrawn(s, flows[0].kind, flows[0].amount), flows[1..], t);
    }
  }

  /** Crediting raises each type by its total supply. */
  lemma {:induction false} CreditedLevel(s: Stockpile, flows: seq<ResourceFlow>, t: ResourceType)
    ensures Level(Credited(s, flows), t) == Level(s, t) + Total(flows, t)
    decreases |flows|
  {
    if flows != [] {
      CreditedLevel(Deposited(s, flows[0].kind, flows[0].amount), flows[1..], t);
    }
  }

  /** One full cycle changes each type by its total output minus its total input. */
  lemma CycleEffect(s: Stockpile, inputs: seq<ResourceFlow>, outputs: seq<ResourceFlow>, t: ResourceType)
    requires Sufficient(s, inputs)
    ensures Level(Credited(Deducted(s, inputs), outputs), t) == Level(s, t) - Total(inputs, t) + Total(outputs, t)
  {
    DeductedLevel(s, inputs, t);
    CreditedLevel(Deducted(s, inputs), outputs, t);
  }

  /** With distinct input types, a cycle lowers each input's type by that input's amount
      (plus whatever the outputs put back of that type). */
  lemma DistinctInputCycleEffect(s: Stockpile, inputs: seq<ResourceFlow>, outputs: seq<ResourceFlow>, i: nat)
    requires DistinctKinds(inputs)
    requires Sufficient(s, inputs)
    requires i < |inputs|
    ensures Level(Credited(Deducted(s, inputs), outputs), inputs[i].kind)
         == Level(s, inputs[i].kind) - inputs[i].amount + Total(outputs, inputs[i].kind)
  {
    CycleEffect(s, inputs, outputs, inputs[i].kind);
    TotalOfDistinct(inputs, i);
  }

  /** With distinct output types, a cycle raises each output's type (named by no input)
      by that output's amount. */
  lemma DistinctOutputCycleEffect(s: Stockpile, inputs: seq<ResourceFlow>, outputs: seq<ResourceFlow>, j: nat)
    requires DistinctKinds(outputs)
    requires Sufficient(s, inputs)
    requires j < |outputs|
    requires forall i :: 0 <= i < |inputs| ==> inputs[i].kind != outputs[j].kind
    ensures Level(Credited(Deducted(s, inputs), outputs), outputs[j].kind)
         == Level(s, outputs[j].kind) + outputs[j].amount
  {
    CycleEffect(s, inputs, outputs, outputs[j].kind);
    TotalOfDistinct(outputs, j);
    TotalOfAbsent(inputs, outputs[j].kind);
  }

  /** A type named by no input and no output is left as it was by a cycle. */
  lemma CycleLeavesOtherTypes(s: Stockpile, inputs: seq<ResourceFlow>, outputs: seq<ResourceFlow>, t: ResourceType)
    requires Sufficient(s, inputs)
    requires forall i :: 0 <= i < |inputs| ==> inputs[i].kind != t
    requires forall j :: 0 <= j < |outputs| ==> outputs[j].kind != t
    ensures Level(Credited(Deducted(s, inputs), outputs), t) == Level(s, t)
  {
    CycleEffect(s, inputs, outputs, t);
    TotalOfAbsent(inputs, t);
    TotalOfAbsent(outputs, t);
  }

  /** The corrected check is never weaker than the source's check. */
  lemma SufficientMeetsAsWritten(s: Stockpile, inputs: seq<ResourceFlow>)
    requires Sufficient(s, inputs)
    ensures RequirementsMetAsWritten(s, inputs)
  {
    forall i | 0 <= i < |inputs|
      ensures inputs[i].amount <= Level(s, inputs[i].kind)
    {
      TotalCoversFlow(inputs, i);
    }
  }

  /** For inputs with distinct types both checks agree; both hold for no inputs at all. */
  lemma RequirementsAgreeWhenDistinct(s: Stockpile, inputs: seq<ResourceFlow>)
    requires DistinctKinds(inputs)
    ensures Sufficient(s, inputs) <==> RequirementsMetAsWritten(s, inputs)
    ensures inputs == [] ==> Sufficient(s, inputs) && RequirementsMetAsWritten(s, inputs)
  {
    if Sufficient(s, inputs) {
      SufficientMeetsAsWritten(s, inputs);
    }
    if RequirementsMetAsWritten(s, inputs) {
      forall i | 0 <= i < |inputs|
        ensures Total(inputs, inputs[i].kind) <= Level(s, inputs[i].kind)
      {
        TotalOfDistinct(inputs, i);
      }
    }
  }

  /** Under the corrected check, the k-th take of a cycle finds its whole amount in stock
      after the first k takes: no take of DeductResources can fail. */
  lemma SufficientTakesWithinStock(s: Stockpile, inputs: seq<ResourceFlow>, k: nat)
    requires Sufficient(s, inputs)
    requires k < |inputs|
    ensures Sufficient(s, inputs[..k])
    ensures inputs[k].amount <= Level(Deducted(s, inputs[..k]), inputs[k].kind)
  {
    SufficientPrefix(s, inputs, k);
    var t := inputs[k].kind;
    DeductedLevel(s, inputs[..k], t);
    TotalSplit(inputs, k, t);
    SufficientEverywhere(s, inputs, t);
    TotalCoversFlow(inputs[k..], 0);
  }

  /** When inputs are individually available and their types distinct, the source's check
      suffices: every take of the cycle is within stock. */
  lemma EveryTakeWithinStock(s: Stockpile, inputs: seq<ResourceFlow>, k: nat)
    requires DistinctKinds(inputs)
    requires RequirementsMetAsWritten(s, inputs)
    requires k < |inputs|
    ensures Sufficient(s, inputs[..k])
    ensures inputs[k].amount <= Level(Deducted(s, inputs[..k]), inputs[k].kind)
  {
    RequirementsAgreeWhenDistinct(s, inputs);
    SufficientTakesWithinStock(s, inputs, k);
  }

  /** The source's check lets through two inputs of one type whose combined amount exceeds
      stock: both pass on their own, yet after the first take the second cannot be met. */
  lemma AsWrittenCheckOverdraws(s: Stockpile, t: ResourceType, n: nat)
    requires 0 < n <= Level(s, t) < 2 * n
    ensures RequirementsMetAsWritten(s, [ResourceFlow(t, n), ResourceFlow(t, n)])
    ensures !Sufficient(s, [ResourceFlow(t, n), ResourceFlow(t, n)])
    ensures Level(Withdrawn(s, t, n), t) < n
  {
    var flows := [ResourceFlow(t, n), ResourceFlow(t, n)];
    assert flows[1..] == [ResourceFlow(t, n)];
    assert flows[1..][1..] == [];
    assert Total(flows[1..], t) == n;
    assert Total(flows, t) == 2 * n;
  }

  class ProductionNode {
    var inputs: seq<ResourceFlow>
    var outputs: seq<ResourceFlow>
    var producing: bool
    var connectedStorageNode: StorageNode

    constructor (inputs: seq<ResourceFlow>, outputs: seq<ResourceFlow>, storage: StorageNode)
      ensures this.inputs == inputs && this.outputs == outputs
      ensures connectedStorageNode == storage && !producing
    {
      this.inputs := inputs;
      this.outputs := outputs;
      producing := false;
      connectedStorageNode := storage;
    }

    /** Whether the connected storage can supply a whole cycle's inputs
        (the corrected form of the source's per-flow check). */
    predicate RequirementsMet(): (r: bool)
      reads this, connectedStorageNode
      ensures r <==> forall t :: Total(inputs, t) <= Level(connectedStorageNode.stock, t)
      ensures r ==> RequirementsMetAsWritten(connectedStorageNode.stock, inputs)
    {
      DemandCovered(connectedStorageNode.stock, inputs);
      Sufficient(connectedStorageNode.stock, inputs)
    }

    /** One scheduling tick: starts a cycle iff the inputs are available and no cycle is
        in flight; otherwise neither the storage nor the flag changes. */
    method Update()
      modifies this`producing, connectedStorageNode`stock
      ensures old(RequirementsMet() && !producing) ==>
        producing && connectedStorageNode.stock == Deducted(old(connectedStorageNode.stock), inputs)
      ensures !old(RequirementsMet() && !producing) ==>
        producing == old(producing) && connectedStorageNode.stock == old(connectedStorageNode.stock)
    {
      if RequirementsMet() && !producing {
        Produce();
      }
    }

    /** Takes every input flow from the connected storage, front to back. */
    method DeductResources()
      requires RequirementsMet()
      modifies connectedStorageNode`stock
      ensures connectedStorageNode.stock == Deducted(old(connectedStorageNode.stock), inputs)
    {
      assert inputs[0..] == inputs;
      var i := 0;
      while i < |inputs|
        invariant 0 <= i <= |inputs|
        invariant Sufficient(connectedStorageNode.stock, inputs[i..])
        invariant Deducted(connectedStorageNode.stock, inputs[i..]) == Deducted(old(connectedStorageNode.stock), inputs)
      {
        SufficientTail(connectedStorageNode.stock, inputs[i..]);
        var taken := connectedStorageNode.Take(inputs[i].kind, inputs[i].amount);
        assert taken;
        assert inputs[i..][1..] == inputs[i + 1..];
        i := i + 1;
      }
    }

    /** The part of a cycle before its wait: raise the flag, then deduct the inputs.
        No output is credited yet. */
    method Produce()
      requires RequirementsMet()
      modifies this`producing, connectedStorageNode`stock
      ensures producing
      ensures connectedStorageNode.stock == Deducted(old(connectedStorageNode.stock), inputs)
    {
      producing := true;
      DeductResources();
    }

    /** The part of a cycle after its wait: put every output flow, then lower the flag. */
    method FinishProduce()
      requires producing
      modifies this`producing, connectedStorageNode`stock
      ensures !producing
      ensures connectedStorageNode.stock == Credited(old(connectedStorageNode.stock), outputs)
    {
      assert outputs[0..] == outputs;
      var i := 0;
      while i < |outputs|
        invariant 0 <= i <= |outputs|
        invariant Credited(connectedStorageNode.stock, outputs[i..]) == Credited(old(connectedStorageNode.stock), outputs)
      {
        connectedStorageNode.Put(outputs[i].kind, outputs[i].amount);
        assert outputs[i..][1..] == outputs[i + 1..];
        i := i + 1;
      }
      producing := false;
    }
  }

  /** A node taking two ore for one part, on a storage holding two ore: mid-cycle the ore
      is gone and no part exists yet; a second tick starts nothing; after the cycle the
      storage holds no ore and one part, and the node is idle again. */
  method CycleScenario()
  {
    var ore, parts := ResourceType(0), ResourceType(1);
    var storage := new StorageNode(map[ore := 2]);
    var node := new ProductionNode([ResourceFlow(ore, 2)], [ResourceFlow(parts, 1)], storage);
    assert [ResourceFlow(ore, 2)][1..] == [];
    assert node.RequirementsMet();
    node.Update();
    DeductedLevel(map[ore := 2], [ResourceFlow(ore, 2)], ore);
    DeductedLevel(map[ore := 2], [ResourceFlow(ore, 2)], parts);
    assert node.producing && Level(storage.stock, ore) == 0 && Level(storage.stock, parts) == 0;
    node.Update();
    assert Level(storage.stock, ore) == 0 && Level(storage.stock, parts) == 0;
    ghost var mid := storage.stock;
    node.FinishProduce();
    CreditedLevel(mid, [ResourceFlow(parts, 1)], ore);
    CreditedLevel(mid, [ResourceFlow(parts, 1)], parts);
    assert !node.producing && Level(storage.stock, ore) == 0 && Level(storage.stock, parts) == 1;
  }

  /** A node needing two ore on a storage holding one never starts: repeated ticks
      leave both the storage and the flag as they were. */
  method StarvedScenario()
  {
    var ore, parts := ResourceType(0), ResourceType(1);
    var storage := new StorageNode(map[ore := 1]);
    var node := new ProductionNode([ResourceFlow(ore, 2)], [ResourceFlow(parts, 1)], storage);
    assert [ResourceFlow(ore, 2)][1..] == [];
    assert Total([ResourceFlow(ore, 2)], ore) == 2;
    assert !node.RequirementsMet();
    node.Update();
    node.Update();
    assert !node.producing && storage.stock == map[ore := 1];
  }
}
