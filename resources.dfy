/** Value types shared by the production, storage and system-query models. */
module Resources {

  /** An enumerated resource identifier (ore, fuel, parts, ...). The enumeration's
      members are not part of this model, so a type is an opaque code. */
  datatype ResourceType = ResourceType(code: nat)

  /** A quantity of one resource type, compared by value (type and amount). */
  datatype Resource = Resource(kind: ResourceType, amount: nat)

  /** A declared per-cycle input or output rate of a production node. */
  datatype ResourceFlow = ResourceFlow(kind: ResourceType, amount: nat)

  /** Total amount of `t` named by all flows of the list. */
  function Total(flows: seq<ResourceFlow>, t: ResourceType): nat
  {
    if flows == [] then 0
    else (if flows[0].kind == t then flows[0].amount else 0) + Total(flows[1..], t)
  }

  /** No two flows of the list name the same resource type. */
  predicate DistinctKinds(flows: seq<ResourceFlow>)
  {
    forall i, j :: 0 <= i < j < |flows| ==> flows[i].kind != flows[j].kind
  }

  /** A flow's amount is part of the total of its type. */
  lemma {:induction false} TotalCoversFlow(flows: seq<ResourceFlow>, i: nat)
    requires i < |flows|
    ensures flows[i].amount <= Total(flows, flows[i].kind)
  {
    if i > 0 {
      TotalCoversFlow(flows[1..], i - 1);
    }
  }

  /** The total splits at any index. */
  lemma {:induction false} TotalSplit(flows: seq<ResourceFlow>, i: nat, t: ResourceType)
    requires i <= |flows|
    ensures Total(flows, t) == Total(flows[..i], t) + Total(flows[i..], t)
  {
    if i > 0 {
      TotalSplit(flows[1..], i - 1, t);
      assert flows[..i][1..] == flows[1..][..i - 1];
      assert flows[i..] == flows[1..][i - 1..];
    }
  }

  /** With distinct types, the total of a flow's type is that flow's own amount. */
  lemma {:induction false} TotalOfDistinct(flows: seq<ResourceFlow>, i: nat)
    requires DistinctKinds(flows)
    requires i < |flows|
    ensures Total(flows, flows[i].kind) == flows[i].amount
  {
    if i == 0 {
      TotalOfAbsent(flows[1..], flows[0].kind);
    } else {
      TotalOfDistinct(flows[1..], i - 1);
    }
  }

  /** A type no flow names has total zero. */
  lemma {:induction false} TotalOfAbsent(flows: seq<ResourceFlow>, t: ResourceType)
    requires forall i :: 0 <= i < |flows| ==> flows[i].kind != t
    ensures Total(flows, t) == 0
  {
    if flows != [] {
      TotalOfAbsent(flows[1..], t);
    }
  }
}
