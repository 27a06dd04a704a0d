/** Node affinity from a container's scheduling labels. Each of the four
    labels holds a comma-separated list of "key=value" entries; hard affinity
    and anti-affinity become one required node-selector term, soft affinity
    and anti-affinity one preferred term. */
module Affinities {
  import opened Wrappers
  import opened Strings
  import opened Rancher
  import opened RancherLabels
  import opened Kube

  /** The weight of the preferred term; the source carries no priority. */
  const PreferredWeight: int := 100

  /** One "key=value" entry, cut at its first '=', as a single-value
      requirement; an entry without '=' gives none. */
  function ParseRequirement(entry: string, op: NodeSelectorOperator): (r: Option<NodeSelectorRequirement>)
    ensures r.None? <==> '=' !in entry
    ensures r.Some? ==>
      r.value.operator == op && |r.value.values| == 1 && r.value.key + "=" + r.value.values[0] == entry
      && '=' !in r.value.key
  {
    match Cut(entry, '=')
    case None => None
    case Some((key, value)) => Some(NodeSelectorRequirement(key, op, [value]))
  }

  /** The requirements of a list of entries, in order, malformed ones skipped. */
  function EntryRequirements(entries: seq<string>, op: NodeSelectorOperator): (r: seq<NodeSelectorRequirement>)
    ensures |r| <= |entries|
  {
    if entries == [] then []
    else match ParseRequirement(entries[0], op)
      case None => EntryRequirements(entries[1..], op)
      case Some(q) => [q] + EntryRequirements(entries[1..], op)
  }

  /** A requirement is produced exactly when some entry parses to it. */
  lemma {:induction false} EntryRequirementsSpec(entries: seq<string>, op: NodeSelectorOperator)
    ensures forall q :: q in EntryRequirements(entries, op) <==>
      exists e :: e in entries && ParseRequirement(e, op) == Some(q)
  {
    if entries != [] {
      EntryRequirementsSpec(entries[1..], op);
      assert forall e :: e in entries <==> e == entries[0] || e in entries[1..];
    }
  }

  lemma {:induction false} EntryRequirementsAppend(xs: seq<string>, ys: seq<string>, op: NodeSelectorOperator)
    ensures EntryRequirements(xs + ys, op) == EntryRequirements(xs, op) + EntryRequirements(ys, op)
  {
    if xs != [] {
      assert (xs + ys)[0] == xs[0] && (xs + ys)[1..] == xs[1..] + ys;
      EntryRequirementsAppend(xs[1..], ys, op);
    } else {
      assert xs + ys == ys;
    }
  }

  /** The order of the entries does not matter: permuted entries give the
      same requirements, each as often. */
  lemma {:induction false} EntryRequirementsOrderIrrelevant(xs: seq<string>, ys: seq<string>, op: NodeSelectorOperator)
    requires multiset(xs) == multiset(ys)
    ensures multiset(EntryRequirements(xs, op)) == multiset(EntryRequirements(ys, op))
    decreases |xs|
  {
    if xs == [] {
      assert |ys| == |multiset(ys)| == 0;
    } else {
      var e := xs[0];
      assert e in multiset(ys);
      var j :| 0 <= j < |ys| && ys[j] == e;
      var rest := ys[..j] + ys[j + 1..];
      assert ys == ys[..j] + [e] + ys[j + 1..];
      assert multiset(ys) == multiset(ys[..j]) + multiset{e} + multiset(ys[j + 1..]);
      assert xs == [e] + xs[1..];
      assert multiset(xs) == multiset{e} + multiset(xs[1..]);
      assert multiset(rest) == multiset(ys[..j]) + multiset(ys[j + 1..]);
      assert multiset(rest) == multiset(ys) - multiset{e};
      assert multiset(xs[1..]) == multiset(xs) - multiset{e};
      EntryRequirementsOrderIrrelevant(xs[1..], rest, op);
      EntryRequirementsAppend(ys[..j] + [e], ys[j + 1..], op);
      EntryRequirementsAppend(ys[..j], [e], op);
      EntryRequirementsAppend(ys[..j], ys[j + 1..], op);
      EntryRequirementsAppend([e], xs[1..], op);
    }
  }

  /** The entries of one scheduling label; an absent label has none. */
  function SelectorEntries(labels: map<string, LabelValue>, key: string): seq<string>
  {
    if key in labels then Split(Render(labels[key]), ',') else []
  }

  /** The term for an affinity label and its anti-affinity label: `In`
      requirements from the first, `NotIn` requirements from the second. */
  function Term(labels: map<string, LabelValue>, affinityKey: string, antiAffinityKey: string): NodeSelectorTerm
  {
    NodeSelectorTerm(
      EntryRequirements(SelectorEntries(labels, affinityKey), NodeSelectorOpIn)
      + EntryRequirements(SelectorEntries(labels, antiAffinityKey), NodeSelectorOpNotIn))
  }

  /** The term holds an `In` requirement exactly for each well-formed
      affinity entry and a `NotIn` requirement exactly for each well-formed
      anti-affinity entry; both are kept side by side, never merged. */
  lemma TermSpec(labels: map<string, LabelValue>, affinityKey: string, antiAffinityKey: string, q: NodeSelectorRequirement)
    ensures q in Term(labels, affinityKey, antiAffinityKey).matchExpressions <==>
      || (exists e :: e in SelectorEntries(labels, affinityKey) && ParseRequirement(e, NodeSelectorOpIn) == Some(q))
      || (exists e :: e in SelectorEntries(labels, antiAffinityKey) && ParseRequirement(e, NodeSelectorOpNotIn) == Some(q))
    ensures |Term(labels, affinityKey, antiAffinityKey).matchExpressions|
      <= |SelectorEntries(labels, affinityKey)| + |SelectorEntries(labels, antiAffinityKey)|
  {
    EntryRequirementsSpec(SelectorEntries(labels, affinityKey), NodeSelectorOpIn);
    EntryRequirementsSpec(SelectorEntries(labels, antiAffinityKey), NodeSelectorOpNotIn);
  }

  predicate HasHardRules(labels: map<string, LabelValue>)
  {
    HostAffinityLabel in labels || HostAntiAffinityLabel in labels
  }

  predicate HasSoftRules(labels: map<string, LabelValue>)
  {
    HostSoftAffinityLabel in labels || HostSoftAntiAffinityLabel in labels
  }

  /** The container's node affinity: none without any scheduling label, a
      required term when a hard label is present, a preferred term when a
      soft label is present. */
  function GetAffinity(c: Container): (r: Option<Affinity>)
    ensures r.None? <==> !HasHardRules(c.labels) && !HasSoftRules(c.labels)
    ensures r.Some? ==> r.value.nodeAffinity.Some?
    ensures r.Some? ==>
      var na := r.value.nodeAffinity.value;
      && (na.requiredDuringSchedulingIgnoredDuringExecution.Some? <==> HasHardRules(c.labels))
      && (na.requiredDuringSchedulingIgnoredDuringExecution.Some? ==>
            na.requiredDuringSchedulingIgnoredDuringExecution.value.nodeSelectorTerms
              == [Term(c.labels, HostAffinityLabel, HostAntiAffinityLabel)])
      && |na.preferredDuringSchedulingIgnoredDuringExecution| == (if HasSoftRules(c.labels) then 1 else 0)
      && (HasSoftRules(c.labels) ==>
            na.preferredDuringSchedulingIgnoredDuringExecution[0].preference
              == Term(c.labels, HostSoftAffinityLabel, HostSoftAntiAffinityLabel))
  {
    var labels := c.labels;
    if !HasHardRules(labels) && !HasSoftRules(labels) then None
    else
      var required :=
        if HasHardRules(labels) then Some(NodeSelector([Term(labels, HostAffinityLabel, HostAntiAffinityLabel)]))
        else None;
      var preferred :=
        if HasSoftRules(labels) then
          [PreferredSchedulingTerm(PreferredWeight, Term(labels, HostSoftAffinityLabel, HostSoftAntiAffinityLabel))]
        else [];
      Some(Affinity(Some(NodeAffinity(required, preferred))))
  }

  /** The scheduling-label string for a list of key/value pairs. */
  function Selector(pairs: seq<(string, string)>): string
  {
    Join(SelectorPieces(pairs), ',')
  }

  function SelectorPieces(pairs: seq<(string, string)>): seq<string>
  {
    seq(|pairs|, i requires 0 <= i < |pairs| => pairs[i].0 + "=" + pairs[i].1)
  }

  /** Well-formed pairs: keys free of '=' and ',', values free of ','. */
  predicate WellFormedPairs(pairs: seq<(string, string)>)
  {
    forall i :: 0 <= i < |pairs| ==> '=' !in pairs[i].0 && ',' !in pairs[i].0 && ',' !in pairs[i].1
  }

  /** Parsing a selector written from well-formed pairs gives back one
      single-value requirement per pair, in order. */
  lemma {:induction false} SelectorRoundTrip(pairs: seq<(string, string)>, op: NodeSelectorOperator)
    requires WellFormedPairs(pairs)
    ensures EntryRequirements(Split(Selector(pairs), ','), op)
      == seq(|pairs|, i requires 0 <= i < |pairs| => NodeSelectorRequirement(pairs[i].0, op, [pairs[i].1]))
  {
    if pairs == [] {
      // An empty label is one empty entry, which holds no '='.
      EmptySelector(op);
    } else {
      var pieces := SelectorPieces(pairs);
      forall i | 0 <= i < |pieces| ensures ',' !in pieces[i] {
        assert pieces[i] == pairs[i].0 + [ '=' ] + pairs[i].1;
      }
      SplitOfJoin(pieces, ',');
      PiecesParse(pairs, op);
    }
  }

  /** A label written from no pairs is empty and gives no requirement. */
  lemma EmptySelector(op: NodeSelectorOperator)
    ensures EntryRequirements(Split(Selector([]), ','), op) == []
  {
    assert Selector([]) == "";
    assert Split("", ',') == [""];
  }

  lemma {:induction false} PiecesParse(pairs: seq<(string, string)>, op: NodeSelectorOperator)
    requires WellFormedPairs(pairs)
    ensures EntryRequirements(SelectorPieces(pairs), op)
      == seq(|pairs|, i requires 0 <= i < |pairs| => NodeSelectorRequirement(pairs[i].0, op, [pairs[i].1]))
  {
    if pairs != [] {
      var pieces := SelectorPieces(pairs);
      CutOfJoin(pairs[0].0, '=', pairs[0].1);
      assert pieces[0] == pairs[0].0 + ['='] + pairs[0].1;
      assert pieces[1..] == SelectorPieces(pairs[1..]);
      PiecesParse(pairs[1..], op);
    }
  }

  /** Writing the same pairs in another order gives the same requirements. */
  lemma SelectorOrderIrrelevant(pairs: seq<(string, string)>, others: seq<(string, string)>, op: NodeSelectorOperator)
    requires WellFormedPairs(pairs)
    requires multiset(pairs) == multiset(others)
    ensures multiset(EntryRequirements(Split(Selector(pairs), ','), op))
         == multiset(EntryRequirements(Split(Selector(others), ','), op))
  {
    if pairs == [] {
      assert |others| == |multiset(others)| == 0;
      return;
    }
    // The pieces of `others` are those of `pairs`, permuted.
    assert multiset(SelectorPieces(pairs)) == multiset(SelectorPieces(others)) by {
      PiecesPermuted(pairs, others);
    }
    assert |others| >= 1 && WellFormedPairs(others) by {
      assert |others| == |multiset(others)| == |multiset(pairs)| == |pairs|;
      forall i | 0 <= i < |others| ensures '=' !in others[i].0 && ',' !in others[i].0 && ',' !in others[i].1 {
        assert others[i] in multiset(pairs);
      }
    }
    forall i | 0 <= i < |pairs| ensures ',' !in SelectorPieces(pairs)[i] {}
    forall i | 0 <= i < |others| ensures ',' !in SelectorPieces(others)[i] {}
    SplitOfJoin(SelectorPieces(pairs), ',');
    SplitOfJoin(SelectorPieces(others), ',');
    EntryRequirementsOrderIrrelevant(SelectorPieces(pairs), SelectorPieces(others), op);
  }

  lemma PiecesAppend(a: seq<(string, string)>, b: seq<(string, string)>)
    ensures SelectorPieces(a + b) == SelectorPieces(a) + SelectorPieces(b)
  {
  }

  lemma {:induction false} PiecesPermuted(pairs: seq<(string, string)>, others: seq<(string, string)>)
    requires multiset(pairs) == multiset(others)
    ensures multiset(SelectorPieces(pairs)) == multiset(SelectorPieces(others))
    decreases |pairs|
  {
    if pairs == [] {
      assert |others| == |multiset(others)| == 0;
    } else {
      var p := pairs[0];
      assert p in multiset(others);
      var j :| 0 <= j < |others| && others[j] == p;
      var before, after := others[..j], others[j + 1..];
      var rest := before + after;
      assert others == before + [p] + after;
      assert multiset(others) == multiset(before) + multiset{p} + multiset(after);
      assert pairs == [p] + pairs[1..];
      assert multiset(pairs[1..]) == multiset(pairs) - multiset{p};
      assert multiset(rest) == multiset(others) - multiset{p};
      PiecesPermuted(pairs[1..], rest);
      PiecesAppend([p], pairs[1..]);
      PiecesAppend(before + [p], after);
      PiecesAppend(before, [p]);
      PiecesAppend(before, after);
      var q := SelectorPieces([p]);
      assert multiset(SelectorPieces(pairs)) == multiset(q) + multiset(SelectorPieces(rest));
      assert multiset(SelectorPieces(others))
        == multiset(SelectorPieces(before)) + multiset(q) + multiset(SelectorPieces(after));
    }
  }
}
