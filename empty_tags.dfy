/**
 `ensureEmptyTags`, the normaliser the print-form handler runs on the joined
 document before rendering it as XML: every empty array becomes an empty
 object, so that the renderer emits an empty element for it instead of
 dropping it.
 */
module EmptyTags {
  import opened Json

  /** No array anywhere in v is empty. */
  predicate NoEmptyArray(v: Json) {
    match v
    case Arr(items) => |items| > 0 && forall i :: 0 <= i < |items| ==> NoEmptyArray(items[i])
    case Obj(es) => forall i :: 0 <= i < |es| ==> NoEmptyArray(es[i].1)
    case _ => true
  }

  function EnsureEmptyTags(v: Json): (r: Json)
    ensures NoEmptyArray(r)
    ensures v == Arr([]) ==> r == Obj([])
    ensures v.Arr? && v.items != [] ==> r.Arr? && |r.items| == |v.items|
    ensures v.Obj? ==> r.Obj? && Keys(r.entries) == Keys(v.entries)
    ensures IsScalar(v) ==> r == v
  {
    match v
    case Arr(items) =>
      if |items| == 0 then Obj([])
      else Arr(seq(|items|, i requires 0 <= i < |items| => EnsureEmptyTags(items[i])))
    case Obj(es) =>
      Obj(seq(|es|, i requires 0 <= i < |es| => (es[i].0, EnsureEmptyTags(es[i].1))))
    case _ => v
  }

  /** A non-empty array is mapped element by element. */
  lemma ArrayElementwise(items: seq<Json>, i: nat)
    requires i < |items|
    ensures EnsureEmptyTags(Arr(items)).Arr?
    ensures EnsureEmptyTags(Arr(items)).items[i] == EnsureEmptyTags(items[i])
  {
  }

  /** An object keeps its entries in order, each value normalised. */
  lemma ObjectEntrywise(es: Fields, i: nat)
    requires i < |es|
    ensures EnsureEmptyTags(Obj(es)).Obj?
    ensures EnsureEmptyTags(Obj(es)).entries[i] == (es[i].0, EnsureEmptyTags(es[i].1))
  {
  }

  /** Property `k` of the normalised object is the normalised property `k`. */
  lemma {:induction false} GetAfterEnsureEmptyTags(es: Fields, k: string)
    ensures EnsureEmptyTags(Obj(es)).Obj?
    ensures Get(EnsureEmptyTags(Obj(es)).entries, k)
         == if Get(es, k).Some? then Some(EnsureEmptyTags(Get(es, k).value)) else None
  {
    if |es| > 0 {
      var r := EnsureEmptyTags(Obj(es)).entries;
      var r' := EnsureEmptyTags(Obj(es[1..])).entries;
      assert r == [r[0]] + r';
      GetAfterEnsureEmptyTags(es[1..], k);
    }
  }

  /** The values the normaliser leaves unchanged are exactly those with no empty array. */
  lemma {:induction false} FixedPointIff(v: Json)
    ensures EnsureEmptyTags(v) == v <==> NoEmptyArray(v)
  {
    match v
    case Arr(items) =>
      if |items| > 0 && NoEmptyArray(v) {
        forall i | 0 <= i < |items| ensures EnsureEmptyTags(items[i]) == items[i] {
          FixedPointIff(items[i]);
        }
        assert EnsureEmptyTags(v).items == items;
      }
    case Obj(es) =>
      if NoEmptyArray(v) {
        forall i | 0 <= i < |es| ensures EnsureEmptyTags(es[i].1) == es[i].1 {
          FixedPointIff(es[i].1);
        }
        assert EnsureEmptyTags(v).entries == es;
      }
    case _ =>
  }

  /** Normalising twice gives the same document as normalising once. */
  lemma {:induction false} Idempotent(v: Json)
    ensures EnsureEmptyTags(EnsureEmptyTags(v)) == EnsureEmptyTags(v)
  {
    FixedPointIff(EnsureEmptyTags(v));
  }
}
