/**
 * The tool-state merge inside the conversation reducer
 * (src/pages/Index.tsx:57-67): a `tool_call` or `tool_result` event replaces
 * the first tool entry that has the same id, and otherwise appends the tool.
 * A message whose `tools` is absent merges as if it held none.
 */
module ToolMerge {
  import opened ChatTypes

  /** The ids of a tool list, in order. */
  function IdsOf(ts: seq<ToolInfo>): (ids: seq<string>)
    ensures |ids| == |ts|
    ensures forall i :: 0 <= i < |ts| ==> ids[i] == ts[i].id
  {
    seq(|ts|, i requires 0 <= i < |ts| => ts[i].id)
  }

  lemma IdsOfConcat(a: seq<ToolInfo>, b: seq<ToolInfo>)
    ensures IdsOf(a + b) == IdsOf(a) + IdsOf(b)
  {
  }

  predicate Distinct(xs: seq<string>) {
    forall i, j :: 0 <= i < j < |xs| ==> xs[i] != xs[j]
  }

  /** `ts.findIndex((t) => t.id === id)`: the first position holding `id`, or -1. */
  function IndexOfId(ts: seq<ToolInfo>, id: string): (r: int)
    ensures -1 <= r < |ts|
    ensures r == -1 <==> forall j :: 0 <= j < |ts| ==> ts[j].id != id
    ensures 0 <= r ==> ts[r].id == id && forall j :: 0 <= j < r ==> ts[j].id != id
  {
    if ts == [] then -1
    else if ts[0].id == id then 0
    else
      var k := IndexOfId(ts[1..], id);
      if k == -1 then -1 else k + 1
  }

  /**
   * The merge of one incoming tool into a message's (possibly absent) tool
   * list. The `findIndex` falls back to -1 when the list is absent, and the
   * append treats an absent list as empty.
   */
  function MergeTool(existing: Option<seq<ToolInfo>>, incoming: ToolInfo): (r: seq<ToolInfo>)
    ensures var ts := existing.GetOr([]);
      incoming.id !in IdsOf(ts) ==> r == ts + [incoming]
    ensures var ts := existing.GetOr([]);
      forall k :: 0 <= k < |ts| && ts[k].id == incoming.id && (forall j :: 0 <= j < k ==> ts[j].id != incoming.id) ==>
        r == ts[k := incoming]
  {
    var index := match existing
      case None => -1
      case Some(ts) => IndexOfId(ts, incoming.id);
    if index > -1 then existing.value[index := incoming]
    else existing.GetOr([]) + [incoming]
  }

  /**
   * Merging keeps the id sequence when the id is known and extends it by the
   * new id otherwise: ids are never reordered and never duplicated.
   */
  lemma MergeToolIds(existing: Option<seq<ToolInfo>>, incoming: ToolInfo)
    ensures var ts := existing.GetOr([]);
      IdsOf(MergeTool(existing, incoming)) ==
        if incoming.id in IdsOf(ts) then IdsOf(ts) else IdsOf(ts) + [incoming.id]
  {
    var ts := existing.GetOr([]);
    if incoming.id in IdsOf(ts) {
      var k := IndexOfId(ts, incoming.id);
      assert IdsOf(ts[k := incoming]) == IdsOf(ts);
    } else {
      IdsOfConcat(ts, [incoming]);
    }
  }

  /** Tool ids stay unique within a message. */
  lemma MergeToolKeepsDistinct(existing: Option<seq<ToolInfo>>, incoming: ToolInfo)
    requires Distinct(IdsOf(existing.GetOr([])))
    ensures Distinct(IdsOf(MergeTool(existing, incoming)))
  {
    MergeToolIds(existing, incoming);
  }

  /** Merging a sequence of incoming tools, one event after the other. */
  function FoldTools(existing: Option<seq<ToolInfo>>, incoming: seq<ToolInfo>): (r: Option<seq<ToolInfo>>)
    ensures incoming == [] ==> r == existing
    ensures incoming != [] ==> r.Some?
  {
    if incoming == [] then existing
    else Some(MergeTool(FoldTools(existing, incoming[..|incoming| - 1]), incoming[|incoming| - 1]))
  }

  /** Folding any tool events keeps a list's tool ids unique. */
  lemma {:induction false} FoldToolsKeepsDistinct(existing: Option<seq<ToolInfo>>, incoming: seq<ToolInfo>)
    requires Distinct(IdsOf(existing.GetOr([])))
    ensures Distinct(IdsOf(FoldTools(existing, incoming).GetOr([])))
  {
    if incoming != [] {
      var front := incoming[..|incoming| - 1];
      FoldToolsKeepsDistinct(existing, front);
      MergeToolKeepsDistinct(FoldTools(existing, front), incoming[|incoming| - 1]);
    }
  }

  /** An absent tool list and an empty one merge alike. */
  lemma {:induction false} FoldToolsFromAbsent(incoming: seq<ToolInfo>)
    requires incoming != []
    ensures FoldTools(None, incoming) == FoldTools(Some([]), incoming)
  {
    var front := incoming[..|incoming| - 1];
    if front != [] {
      FoldToolsFromAbsent(front);
    }
  }

  /** The position of the first occurrence of `x` in `xs`. */
  function FirstIndex(xs: seq<string>, x: string): (r: nat)
    requires x in xs
    ensures r < |xs| && xs[r] == x
    ensures forall j :: 0 <= j < r ==> xs[j] != x
  {
    if xs[0] == x then 0 else 1 + FirstIndex(xs[1..], x)
  }

  lemma {:induction false} FirstIndexAppend(xs: seq<string>, y: string, x: string)
    requires x in xs
    ensures FirstIndex(xs + [y], x) == FirstIndex(xs, x)
  {
    if xs[0] != x {
      assert (xs + [y])[1..] == xs[1..] + [y];
      FirstIndexAppend(xs[1..], y, x);
    }
  }

  /** The last incoming version of the tool with id `id`, if any. */
  function LatestUpdate(updates: seq<ToolInfo>, id: string): (r: Option<ToolInfo>)
    ensures r.Some? ==> r.value.id == id && r.value in updates
    ensures r.Some? ==> exists k :: 0 <= k < |updates| && updates[k] == r.value
                          && forall j :: k < j < |updates| ==> updates[j].id != id
    ensures r.None? <==> id !in IdsOf(updates)
  {
    if updates == [] then None
    else if updates[|updates| - 1].id == id then Some(updates[|updates| - 1])
    else
      var front := updates[..|updates| - 1];
      assert IdsOf(updates) == IdsOf(front) + [updates[|updates| - 1].id];
      LatestUpdate(front, id)
  }

  /** In a list with no repeated id, each entry is the latest version of itself. */
  lemma {:induction false} LatestUpdateOfDistinct(ts: seq<ToolInfo>, i: nat)
    requires Distinct(IdsOf(ts))
    requires i < |ts|
    ensures LatestUpdate(ts, ts[i].id) == Some(ts[i])
  {
    var n := |ts| - 1;
    if i != n {
      assert ts[n].id != ts[i].id;
      var front := ts[..n];
      assert IdsOf(front) == IdsOf(ts)[..n];
      LatestUpdateOfDistinct(front, i);
    }
  }

  /**
   * `r` lists each id of `seen` exactly once, in the order of its first
   * appearance in `seen`.
   */
  ghost predicate InFirstAppearanceOrder(r: seq<ToolInfo>, seen: seq<string>) {
    && Distinct(IdsOf(r))
    && (forall id :: id in IdsOf(r) <==> id in seen)
    && (forall i, j :: 0 <= i < j < |r| ==> FirstIndex(seen, r[i].id) < FirstIndex(seen, r[j].id))
  }

  /** Each entry of `r` is the last version of its id among `updates`. */
  ghost predicate HoldsLatestVersions(r: seq<ToolInfo>, updates: seq<ToolInfo>) {
    forall i :: 0 <= i < |r| ==> LatestUpdate(updates, r[i].id) == Some(r[i])
  }

  lemma {:induction false} FirstIndexOfNew(xs: seq<string>, x: string)
    requires x !in xs
    ensures FirstIndex(xs + [x], x) == |xs|
  {
    if xs != [] {
      assert (xs + [x])[1..] == xs[1..] + [x];
      FirstIndexOfNew(xs[1..], x);
    }
  }

  /** A list with unique ids is in the first-appearance order of its own ids. */
  lemma DistinctInOwnOrder(ts: seq<ToolInfo>)
    requires Distinct(IdsOf(ts))
    ensures InFirstAppearanceOrder(ts, IdsOf(ts))
  {
    forall i | 0 <= i < |ts| ensures FirstIndex(IdsOf(ts), ts[i].id) == i {
      var f := FirstIndex(IdsOf(ts), ts[i].id);
      assert !(f < i) && !(i < f);
    }
  }

  /** One merge step keeps a list in first-appearance order. */
  lemma MergeToolOrder(before: seq<ToolInfo>, seenBefore: seq<string>, t: ToolInfo)
    requires InFirstAppearanceOrder(before, seenBefore)
    ensures InFirstAppearanceOrder(MergeTool(Some(before), t), seenBefore + [t.id])
  {
    forall x | x in seenBefore ensures FirstIndex(seenBefore + [t.id], x) == FirstIndex(seenBefore, x) {
      FirstIndexAppend(seenBefore, t.id, x);
    }
    if t.id in IdsOf(before) {
      MergeKnownToolOrder(before, seenBefore, t);
    } else {
      MergeNewToolOrder(before, seenBefore, t);
    }
  }

  lemma MergeKnownToolOrder(before: seq<ToolInfo>, seenBefore: seq<string>, t: ToolInfo)
    requires InFirstAppearanceOrder(before, seenBefore)
    requires t.id in IdsOf(before)
    requires forall x :: x in seenBefore ==> FirstIndex(seenBefore + [t.id], x) == FirstIndex(seenBefore, x)
    ensures InFirstAppearanceOrder(MergeTool(Some(before), t), seenBefore + [t.id])
  {
    var r := MergeTool(Some(before), t);
    MergeToolIds(Some(before), t);
    forall i | 0 <= i < |r| ensures r[i].id == before[i].id {
      assert IdsOf(r)[i] == IdsOf(before)[i];
    }
  }

  lemma MergeNewToolOrder(before: seq<ToolInfo>, seenBefore: seq<string>, t: ToolInfo)
    requires InFirstAppearanceOrder(before, seenBefore)
    requires t.id !in IdsOf(before)
    requires forall x :: x in seenBefore ==> FirstIndex(seenBefore + [t.id], x) == FirstIndex(seenBefore, x)
    ensures InFirstAppearanceOrder(MergeTool(Some(before), t), seenBefore + [t.id])
  {
    var r := MergeTool(Some(before), t);
    MergeToolIds(Some(before), t);
    assert r == before + [t];
    FirstIndexOfNew(seenBefore, t.id);
  }

  /** One merge step keeps every entry at its latest version. */
  lemma MergeToolLatest(before: seq<ToolInfo>, updatesBefore: seq<ToolInfo>, t: ToolInfo)
    requires Distinct(IdsOf(before))
    requires HoldsLatestVersions(before, updatesBefore)
    ensures HoldsLatestVersions(MergeTool(Some(before), t), updatesBefore + [t])
  {
    var r := MergeTool(Some(before), t);
    var all := updatesBefore + [t];
    assert all[..|all| - 1] == updatesBefore;
    if t.id in IdsOf(before) {
      var k := IndexOfId(before, t.id);
      assert r == before[k := t];
      forall i | 0 <= i < |r| ensures LatestUpdate(all, r[i].id) == Some(r[i]) {
        if i != k {
          assert IdsOf(before)[i] != IdsOf(before)[k];
        }
      }
    } else {
      assert r == before + [t];
      forall i | 0 <= i < |r| ensures LatestUpdate(all, r[i].id) == Some(r[i]) {
        if i < |before| {
          assert IdsOf(before)[i] == before[i].id;
        }
      }
    }
  }

  /**
   * Folding updates into a list with unique ids keeps the ids unique, lists
   * exactly the ids seen so far, and keeps them in the order of their first
   * appearance, regardless of later updates.
   */
  lemma {:induction false} FoldToolsIds(ts: seq<ToolInfo>, incoming: seq<ToolInfo>)
    requires Distinct(IdsOf(ts))
    ensures InFirstAppearanceOrder(FoldTools(Some(ts), incoming).value, IdsOf(ts + incoming))
  {
    if incoming == [] {
      assert ts + incoming == ts;
      DistinctInOwnOrder(ts);
    } else {
      var n := |incoming| - 1;
      var front, t := incoming[..n], incoming[n];
      FoldToolsIds(ts, front);
      var before := FoldTools(Some(ts), front).value;
      assert FoldTools(Some(ts), incoming).value == MergeTool(Some(before), t);
      assert ts + incoming == (ts + front) + [t];
      IdsOfConcat(ts + front, [t]);
      assert IdsOf(ts + incoming) == IdsOf(ts + front) + [t.id];
      MergeToolOrder(before, IdsOf(ts + front), t);
    }
  }

  /**
   * After folding, every entry holds the latest version that arrived for its
   * id: a `tool_result` supersedes the `tool_call` it follows.
   */
  lemma {:induction false} FoldToolsEntries(ts: seq<ToolInfo>, incoming: seq<ToolInfo>)
    requires Distinct(IdsOf(ts))
    ensures HoldsLatestVersions(FoldTools(Some(ts), incoming).value, ts + incoming)
  {
    if incoming == [] {
      assert ts + incoming == ts;
      forall i | 0 <= i < |ts| ensures LatestUpdate(ts, ts[i].id) == Some(ts[i]) {
        LatestUpdateOfDistinct(ts, i);
      }
    } else {
      var n := |incoming| - 1;
      var front, t := incoming[..n], incoming[n];
      FoldToolsEntries(ts, front);
      FoldToolsIds(ts, front);
      assert ts + incoming == (ts + front) + [t];
      MergeToolLatest(FoldTools(Some(ts), front).value, ts + front, t);
    }
  }
}
