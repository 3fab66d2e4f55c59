/**
  Staging the tags to inject: for every label→tag pair of the
  configured mapping whose label the requester pod carries with a
  non-empty value, stage tag→value.

  Go visits the mapping in an unspecified order. When two labels map to
  the same tag, the later one in that order whose value on the pod is
  non-empty wins; a label that is missing or empty is skipped and leaves
  the earlier value in place. The model makes that order an explicit
  parameter.
 */
module Staging {

  /** A pod's label value, the empty string when the label is missing. */
  function LabelValue(labels: map<string, string>, name: string): string
  {
    if name in labels then labels[name] else ""
  }

  /** `order` lists every label of `mapping` exactly once. */
  predicate IsIterationOrder(order: seq<string>, mapping: map<string, string>)
  {
    && (forall l :: l in order ==> l in mapping)
    && (forall l :: l in mapping ==> l in order)
    && (forall i, j :: 0 <= i < j < |order| ==> order[i] != order[j])
  }

  /** Some label visited in `order` maps to `tag` and carries the value `v`. */
  predicate Contributes(mapping: map<string, string>, labels: map<string, string>,
                        order: seq<string>, tag: string, v: string)
    requires forall l :: l in order ==> l in mapping
  {
    exists l :: l in order && mapping[l] == tag && LabelValue(labels, l) == v
  }

  /** The staged tags after visiting the labels of `order` one by one. */
  function Stage(mapping: map<string, string>, labels: map<string, string>, order: seq<string>)
    : (staged: map<string, string>)
    requires forall l :: l in order ==> l in mapping
    ensures forall t :: t in staged ==> staged[t] != ""
    ensures forall t :: t in staged ==> Contributes(mapping, labels, order, t, staged[t])
    ensures forall l :: l in order && LabelValue(labels, l) != "" ==> mapping[l] in staged
  {
    if |order| == 0 then map[]
    else
      var prefix := order[..|order| - 1];
      var l := order[|order| - 1];
      var prev := Stage(mapping, labels, prefix);
      assert forall x :: x in order <==> x in prefix || x == l;
      var v := LabelValue(labels, l);
      if v == "" then prev else prev[mapping[l] := v]
  }

  /** Every tag with a non-empty contributing label is staged, and only those. */
  lemma StagedTagsExactly(mapping: map<string, string>, labels: map<string, string>,
                          order: seq<string>, tag: string)
    requires forall l :: l in order ==> l in mapping
    ensures tag in Stage(mapping, labels, order) <==>
      exists l :: l in order && mapping[l] == tag && LabelValue(labels, l) != ""
  {
  }

  /**
    Which tags are staged does not depend on the visiting order; only the
    value of a tag that several labels share can.
   */
  lemma StagedTagsOrderFree(mapping: map<string, string>, labels: map<string, string>,
                            order1: seq<string>, order2: seq<string>)
    requires IsIterationOrder(order1, mapping) && IsIterationOrder(order2, mapping)
    ensures Stage(mapping, labels, order1).Keys == Stage(mapping, labels, order2).Keys
  {
  }

  /** No two labels of `mapping` share a tag. */
  predicate Injective(mapping: map<string, string>)
  {
    forall l1, l2 :: l1 in mapping && l2 in mapping && l1 != l2 ==> mapping[l1] != mapping[l2]
  }

  /**
    Without tag collisions the staged value of a label's tag is that
    label's value, whatever the visiting order.
   */
  lemma StagedValueOfLabel(mapping: map<string, string>, labels: map<string, string>,
                           order: seq<string>, key: string)
    requires forall l :: l in order ==> l in mapping
    requires Injective(mapping)
    requires key in order && LabelValue(labels, key) != ""
    ensures Stage(mapping, labels, order)[mapping[key]] == LabelValue(labels, key)
  {
  }

  /** Without tag collisions the staged map does not depend on the visiting order. */
  lemma StageOrderIrrelevant(mapping: map<string, string>, labels: map<string, string>,
                             order1: seq<string>, order2: seq<string>)
    requires IsIterationOrder(order1, mapping) && IsIterationOrder(order2, mapping)
    requires Injective(mapping)
    ensures Stage(mapping, labels, order1) == Stage(mapping, labels, order2)
  {
  }
}
