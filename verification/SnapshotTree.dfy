/** The messages that freezing one message reads: itself and whatever it quotes or merges. */
module SnapshotTree {
  import opened Options
  import opened Json
  import opened ForwardSnapshot

  predicate EveryEmbedded(rt: Runtime, p: map<string, Json> -> bool, raw: Json, depth: nat)
    decreases Fuel(depth), 2
  {
    AsObject(rt, Some(raw)).Some? ==> Every(rt, p, AsObject(rt, Some(raw)).value, depth)
  }

  predicate EveryQuoted(rt: Runtime, p: map<string, Json> -> bool, elem: Result<map<string, Json>>, depth: nat)
    requires depth <= 6
    decreases Fuel(depth), 0
  {
    elem.Ok? && QuoteIn(elem.value).Some? ==> EveryEmbedded(rt, p, QuoteIn(elem.value).value, depth + 1)
  }

  predicate EveryMerged(rt: Runtime, p: map<string, Json> -> bool, elem: Result<map<string, Json>>, depth: nat)
    requires depth <= 6
    decreases Fuel(depth), 0
  {
    elem.Ok? && MergedItems(rt, elem.value).Ok? ==>
      forall raw <- MergedItems(rt, elem.value).value :: EveryEmbedded(rt, p, raw, depth + 1)
  }

  /** The message and every message below it meet `p`. */
  predicate Every(rt: Runtime, p: map<string, Json> -> bool, item: map<string, Json>, depth: nat)
    decreases Fuel(depth), 1
  {
    depth <= 6 && ContentType(rt, item).Some? ==>
      var ct := ContentType(rt, item).value;
      && p(item)
      && (ct == AT_TEXT ==> EveryQuoted(rt, p, ReferenceElem(rt, item, true), depth))
      && (ct == QUOTE ==> EveryQuoted(rt, p, ReferenceElem(rt, item, false), depth))
      && (ct == MERGE ==> EveryMerged(rt, p, ElemOf(rt, item, "mergeElem", "MergeElem"), depth))
  }
}
