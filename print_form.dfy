/**
 The `printForm` action on an inspection lot: the record sets fetched for the
 lot are joined in memory into one `InspectionLotNode` document, which is then
 normalised by `ensureEmptyTags` and rendered as XML.

 The fetches themselves are remote I/O and are not modelled: their results are
 the parameters (`Fetched`). Records are plain objects whose fields the
 handler copies wholesale with the spread operator, so they are `Fields`.
 */
module PrintForm {
  import opened Json
  import opened EmptyTags

  const OperationIdKey := "InspPlanOperationInternalID"
  const LotKey := "InspectionLot"
  const SelectedSetKey := "InspLotUsgeDcsnSelectedSet"
  const CodeSetKey := "SelectedCodeSet"
  const CodeTextKey := "SelectedCodeSetText"

  const CharacteristicsKey := "InspectionCharacteristics"
  const ResultsKey := "InspectionResults"
  const ResultValuesKey := "InspectionResultValues"
  const UsageValuesKey := "InspectionUsageValues"
  const OperationsKey := "InspectionOperations"
  const RootKey := "InspectionLotNode"

  /** What the handler has fetched for one inspection lot, in the order the services returned it. */
  datatype Fetched = Fetched(
    lots: seq<Fields>,
    operations: seq<Fields>,
    characteristics: seq<Fields>,
    results: seq<Fields>,
    resultValues: seq<Fields>,
    usageValues: seq<Fields>,
    codeTexts: seq<Fields>)

  /** `a[key] === b[key]` */
  predicate SameOn(a: Fields, b: Fields, key: string): (r: bool)
    ensures r ==> Get(a, key) == Get(b, key)
    ensures Get(a, key) == Get(b, key) && (Get(a, key).None? || IsScalar(Get(a, key).value)) ==> r
  {
    StrictEquals(Get(a, key), Get(b, key))
  }

  /** `rs.filter(x => x[key] === item[key])` */
  function MatchingOn(rs: seq<Fields>, item: Fields, key: string): (r: seq<Fields>)
    ensures |r| <= |rs|
    ensures forall x :: x in r <==> x in rs && SameOn(x, item, key)
  {
    if |rs| == 0 then []
    else if SameOn(rs[0], item, key) then [rs[0]] + MatchingOn(rs[1..], item, key)
    else MatchingOn(rs[1..], item, key)
  }

  /** r keeps some of the elements of s, in their order in s. */
  predicate IsSubsequence(r: seq<Fields>, s: seq<Fields>)
    decreases |s|
  {
    if |r| == 0 then true
    else if |s| == 0 then false
    else (r[0] == s[0] && IsSubsequence(r[1..], s[1..])) || IsSubsequence(r, s[1..])
  }

  /** Number of records in rs that agree with item on key. */
  function CountMatching(rs: seq<Fields>, x: Fields, item: Fields, key: string): nat {
    if SameOn(x, item, key) then multiset(rs)[x] else 0
  }

  /** The filter keeps its input order. */
  lemma {:induction false} MatchingOnIsSubsequence(rs: seq<Fields>, item: Fields, key: string)
    ensures IsSubsequence(MatchingOn(rs, item, key), rs)
  {
    if |rs| > 0 {
      MatchingOnIsSubsequence(rs[1..], item, key);
      var tail := MatchingOn(rs[1..], item, key);
      if SameOn(rs[0], item, key) {
        assert ([rs[0]] + tail)[1..] == tail;
      } else if |tail| > 0 {
        assert IsSubsequence(tail, rs[1..]);
      }
    }
  }

  /** The filter drops no matching record and duplicates none. */
  lemma {:induction false} MatchingOnCounts(rs: seq<Fields>, item: Fields, key: string, x: Fields)
    ensures multiset(MatchingOn(rs, item, key))[x] == CountMatching(rs, x, item, key)
  {
    if |rs| > 0 {
      MatchingOnCounts(rs[1..], item, key, x);
      assert rs == [rs[0]] + rs[1..];
      assert multiset(rs) == multiset([rs[0]]) + multiset(rs[1..]);
    }
  }

  lemma {:induction false} SubsequenceCounts(r: seq<Fields>, s: seq<Fields>, x: Fields)
    requires IsSubsequence(r, s)
    ensures multiset(r)[x] <= multiset(s)[x]
    decreases |s|
  {
    if |r| > 0 {
      assert s == [s[0]] + s[1..];
      if r[0] == s[0] && IsSubsequence(r[1..], s[1..]) {
        SubsequenceCounts(r[1..], s[1..], x);
        assert r == [r[0]] + r[1..];
      } else {
        SubsequenceCounts(r, s[1..], x);
      }
    }
  }

  /**
   The filter is the only subsequence of rs that holds every record agreeing
   with item on key as often as rs does, and no other record.
   */
  lemma {:induction false} MatchingOnUnique(rs: seq<Fields>, item: Fields, key: string, r: seq<Fields>)
    requires IsSubsequence(r, rs)
    requires forall x :: multiset(r)[x] == CountMatching(rs, x, item, key)
    ensures r == MatchingOn(rs, item, key)
    decreases |rs|
  {
    if |rs| == 0 {
      if |r| > 0 {
        assert false;
      }
    } else {
      var a, rest := rs[0], rs[1..];
      assert rs == [a] + rest;
      assert multiset(rs) == multiset{a} + multiset(rest);
      if |r| > 0 && r[0] == a && IsSubsequence(r[1..], rest) {
        assert r == [a] + r[1..];
        assert multiset(r) == multiset{a} + multiset(r[1..]);
        assert SameOn(a, item, key) by {
          assert multiset(r)[a] > 0;
        }
        forall x ensures multiset(r[1..])[x] == CountMatching(rest, x, item, key) {
          assert multiset(r)[x] == CountMatching(rs, x, item, key);
        }
        MatchingOnUnique(rest, item, key, r[1..]);
      } else {
        if |r| > 0 {
          assert IsSubsequence(r, rest);
        }
        SubsequenceCounts(r, rest, a);
        assert !SameOn(a, item, key) by {
          if SameOn(a, item, key) {
            assert false;
          }
        }
        forall x ensures multiset(r)[x] == CountMatching(rest, x, item, key) {
          assert multiset(r)[x] == CountMatching(rs, x, item, key);
          if x == a {
            assert CountMatching(rest, x, item, key) == 0;
          }
        }
        MatchingOnUnique(rest, item, key, r);
      }
    }
  }

  /** When every record agrees with item on key, the filter keeps them all. */
  lemma {:induction false} MatchingOnAll(rs: seq<Fields>, item: Fields, key: string)
    requires forall i :: 0 <= i < |rs| ==> SameOn(rs[i], item, key)
    ensures MatchingOn(rs, item, key) == rs
  {
    if |rs| > 0 {
      MatchingOnAll(rs[1..], item, key);
    }
  }

  /** `code.SelectedCodeSet === val.InspLotUsgeDcsnSelectedSet` */
  predicate CodeMatches(code: Fields, usage: Fields): (r: bool)
    ensures r ==> Get(code, CodeSetKey) == Get(usage, SelectedSetKey)
    ensures (&& Get(code, CodeSetKey) == Get(usage, SelectedSetKey)
             && (Get(code, CodeSetKey).None? || IsScalar(Get(code, CodeSetKey).value))) ==> r
  {
    StrictEquals(Get(code, CodeSetKey), Get(usage, SelectedSetKey))
  }

  /** `codes.find(...)`: the first code-text record for the usage value's selected set. */
  function FindCode(codes: seq<Fields>, usage: Fields): (r: Option<Fields>)
    ensures r.None? <==> forall c :: c in codes ==> !CodeMatches(c, usage)
    ensures r.Some? ==> exists i :: 0 <= i < |codes| && codes[i] == r.value
                                 && CodeMatches(codes[i], usage)
                                 && forall j :: 0 <= j < i ==> !CodeMatches(codes[j], usage)
  {
    if |codes| == 0 then None
    else if CodeMatches(codes[0], usage) then Some(codes[0])
    else
      var r := FindCode(codes[1..], usage);
      assert forall i :: 0 <= i < |codes| - 1 ==> codes[1..][i] == codes[i + 1];
      r
  }

  /** `codes.find(...)?.SelectedCodeSetText || ''` */
  function SelectedCodeSetText(codes: seq<Fields>, usage: Fields): (t: Json)
    ensures Truthy(t) || t == Str("")
    ensures FindCode(codes, usage).None? ==> t == Str("")
    ensures FindCode(codes, usage).Some? ==>
              var text := Get(FindCode(codes, usage).value, CodeTextKey);
              t == if text.Some? && Truthy(text.value) then text.value else Str("")
  {
    var found := FindCode(codes, usage);
    var text := if found.Some? then Get(found.value, CodeTextKey) else None;
    if text.Some? && Truthy(text.value) then text.value else Str("")
  }

  /** `{...val, SelectedCodeSetText: ...}` */
  function AnnotatedUsage(codes: seq<Fields>, usage: Fields): (r: Fields)
    ensures Get(r, CodeTextKey) == Some(SelectedCodeSetText(codes, usage))
    ensures forall k :: k != CodeTextKey ==> Get(r, k) == Get(usage, k)
  {
    Set(usage, CodeTextKey, SelectedCodeSetText(codes, usage))
  }

  /** The usage values of an operation node: those of the operation's lot, annotated. */
  function UsageNodes(d: Fetched, op: Fields): (r: seq<Fields>)
    ensures |r| == |MatchingOn(d.usageValues, op, LotKey)|
    ensures forall j :: 0 <= j < |r| ==>
              var u := MatchingOn(d.usageValues, op, LotKey)[j];
              && Get(r[j], CodeTextKey) == Some(SelectedCodeSetText(d.codeTexts, u))
              && forall k :: k != CodeTextKey ==> Get(r[j], k) == Get(u, k)
  {
    var m := MatchingOn(d.usageValues, op, LotKey);
    seq(|m|, i requires 0 <= i < |m| => AnnotatedUsage(d.codeTexts, m[i]))
  }

  /** The keys an operation node adds to the operation's own fields. */
  predicate IsChildKey(k: string) {
    k == CharacteristicsKey || k == ResultsKey || k == ResultValuesKey || k == UsageValuesKey
  }

  /** One element of `opData.map(item => ({...item, InspectionCharacteristics: ..., ...}))`. */
  function OperationNode(d: Fetched, op: Fields): (r: Fields)
    ensures forall k :: !IsChildKey(k) ==> Get(r, k) == Get(op, k)
    ensures Get(r, CharacteristicsKey) == Some(Arr(Objects(MatchingOn(d.characteristics, op, OperationIdKey))))
    ensures Get(r, ResultsKey) == Some(Arr(Objects(MatchingOn(d.results, op, OperationIdKey))))
    ensures Get(r, ResultValuesKey) == Some(Arr(Objects(MatchingOn(d.resultValues, op, OperationIdKey))))
    ensures Get(r, UsageValuesKey) == Some(Arr(Objects(UsageNodes(d, op))))
  {
    var withChars := Set(op, CharacteristicsKey, Arr(Objects(MatchingOn(d.characteristics, op, OperationIdKey))));
    var withResults := Set(withChars, ResultsKey, Arr(Objects(MatchingOn(d.results, op, OperationIdKey))));
    var withValues := Set(withResults, ResultValuesKey, Arr(Objects(MatchingOn(d.resultValues, op, OperationIdKey))));
    Set(withValues, UsageValuesKey, Arr(Objects(UsageNodes(d, op))))
  }

  /** An operation node lists the operation's own keys first, in their order. */
  lemma OperationNodeKeyOrder(d: Fetched, op: Fields)
    ensures Keys(op) <= Keys(OperationNode(d, op))
  {
    var withChars := Set(op, CharacteristicsKey, Arr(Objects(MatchingOn(d.characteristics, op, OperationIdKey))));
    var withResults := Set(withChars, ResultsKey, Arr(Objects(MatchingOn(d.results, op, OperationIdKey))));
    var withValues := Set(withResults, ResultValuesKey, Arr(Objects(MatchingOn(d.resultValues, op, OperationIdKey))));
    SetKeepsKeyOrder(op, CharacteristicsKey, Arr(Objects(MatchingOn(d.characteristics, op, OperationIdKey))));
    SetKeepsKeyOrder(withChars, ResultsKey, Arr(Objects(MatchingOn(d.results, op, OperationIdKey))));
    SetKeepsKeyOrder(withResults, ResultValuesKey, Arr(Objects(MatchingOn(d.resultValues, op, OperationIdKey))));
    SetKeepsKeyOrder(withValues, UsageValuesKey, Arr(Objects(UsageNodes(d, op))));
    PrefixTransitive(Keys(op), Keys(withChars), Keys(withResults));
    PrefixTransitive(Keys(op), Keys(withResults), Keys(withValues));
    PrefixTransitive(Keys(op), Keys(withValues), Keys(OperationNode(d, op)));
  }

  /**
   The exact key order of an operation node, for an operation that has none of
   the four child keys itself: the operation's own keys, then the four child
   arrays in the order the literal writes them.
   */
  lemma OperationNodeKeys(d: Fetched, op: Fields)
    requires forall k :: k in Keys(op) ==> !IsChildKey(k)
    ensures Keys(OperationNode(d, op)) == Keys(op) + [CharacteristicsKey, ResultsKey, ResultValuesKey, UsageValuesKey]
  {
    assert forall k :: IsChildKey(k) ==> k !in Keys(op);
    SetFourNewKeys(op, CharacteristicsKey, Arr(Objects(MatchingOn(d.characteristics, op, OperationIdKey))),
                   ResultsKey, Arr(Objects(MatchingOn(d.results, op, OperationIdKey))),
                   ResultValuesKey, Arr(Objects(MatchingOn(d.resultValues, op, OperationIdKey))),
                   UsageValuesKey, Arr(Objects(UsageNodes(d, op))));
  }

  /** `opData.map(...)`: one node per operation, in order, each keeping the operation's own fields. */
  function OperationNodes(d: Fetched): (r: seq<Fields>)
    ensures |r| == |d.operations|
    ensures forall i :: 0 <= i < |r| ==>
              forall k :: !IsChildKey(k) ==> Get(r[i], k) == Get(d.operations[i], k)
  {
    seq(|d.operations|, i requires 0 <= i < |d.operations| => OperationNode(d, d.operations[i]))
  }

  /** `...lotData[0]`: spreading `undefined` when no lot came back copies nothing. */
  function LotFields(d: Fetched): (r: Fields)
    ensures forall k :: Get(r, k) == if |d.lots| == 0 then None else Get(d.lots[0], k)
  {
    if |d.lots| == 0 then [] else d.lots[0]
  }

  /** The lot node: the lot's own fields, then its operation nodes. */
  function LotNode(d: Fetched): (r: Fields)
    ensures forall k :: k != OperationsKey ==> Get(r, k) == Get(LotFields(d), k)
    ensures Keys(LotFields(d)) <= Keys(r)
    ensures Get(r, OperationsKey) == Some(Arr(Objects(OperationNodes(d))))
  {
    Set(LotFields(d), OperationsKey, Arr(Objects(OperationNodes(d))))
  }

  /** `structuredData`, the joined document before normalisation. */
  function StructuredData(d: Fetched): (r: Json)
    ensures r.Obj? && Keys(r.entries) == [RootKey]
    ensures At(r, [RootKey, OperationsKey]) == Some(Arr(Objects(OperationNodes(d))))
  {
    var r := Obj([(RootKey, Obj(LotNode(d)))]);
    AtTwoKeys(r, RootKey, OperationsKey);
    r
  }

  /**
   The joined document has one operation node per fetched operation, in the
   order fetched, each holding the operation's own fields and, under the four
   child keys, the records that belong to it.
   */
  lemma OneNodePerOperation(d: Fetched, i: nat)
    requires i < |d.operations|
    ensures At(StructuredData(d), [RootKey, OperationsKey]).Some?
    ensures var ops := At(StructuredData(d), [RootKey, OperationsKey]).value;
            && ops.Arr? && |ops.items| == |d.operations|
            && ops.items[i] == Obj(OperationNode(d, d.operations[i]))
  {
    var nodes := OperationNodes(d);
    AtTwoKeys(StructuredData(d), RootKey, OperationsKey);
    assert Objects(nodes)[i] == Obj(nodes[i]);
  }

  /** The lot node keeps the lot's own fields (none when no lot was fetched). */
  lemma LotNodeKeepsLotFields(d: Fetched, k: string)
    requires k != OperationsKey
    ensures At(StructuredData(d), [RootKey, k]) == if |d.lots| == 0 then None else Get(d.lots[0], k)
  {
    AtTwoKeys(StructuredData(d), RootKey, k);
  }

  /**
   The usage values under an operation node are the lot's usage values whose
   `InspectionLot` matches the operation's, each carrying every one of its own
   fields and the looked-up `SelectedCodeSetText`.
   */
  lemma UsageNodesOfOperation(d: Fetched, op: Fields, j: nat)
    requires j < |UsageNodes(d, op)|
    ensures |UsageNodes(d, op)| == |MatchingOn(d.usageValues, op, LotKey)|
    ensures var u := MatchingOn(d.usageValues, op, LotKey)[j];
            && u in d.usageValues && SameOn(u, op, LotKey)
            && Get(UsageNodes(d, op)[j], CodeTextKey) == Some(SelectedCodeSetText(d.codeTexts, u))
            && forall k :: k != CodeTextKey ==> Get(UsageNodes(d, op)[j], k) == Get(u, k)
  {
    var m := MatchingOn(d.usageValues, op, LotKey);
    assert m[j] in m;
  }

  /**
   Usage values are joined on the lot, not on the operation: when the
   operations and usage values all carry the same lot, every operation node
   receives every usage value, in fetch order.
   */
  lemma {:induction false} EveryOperationGetsEveryUsage(d: Fetched, lot: string, op: Fields)
    requires Get(op, LotKey) == Some(Str(lot))
    requires forall u :: u in d.usageValues ==> Get(u, LotKey) == Some(Str(lot))
    ensures |UsageNodes(d, op)| == |d.usageValues|
    ensures forall j :: 0 <= j < |d.usageValues| ==>
              UsageNodes(d, op)[j] == AnnotatedUsage(d.codeTexts, d.usageValues[j])
  {
    forall i | 0 <= i < |d.usageValues| ensures SameOn(d.usageValues[i], op, LotKey) {
      assert d.usageValues[i] in d.usageValues;
    }
    MatchingOnAll(d.usageValues, op, LotKey);
  }

  /** `ensureEmptyTags(structuredData)`, the document handed to the XML renderer. */
  function PrintForm(d: Fetched): (r: Json)
    ensures NoEmptyArray(r)
    ensures r.Obj? && Keys(r.entries) == [RootKey]
  {
    EnsureEmptyTags(StructuredData(d))
  }

  /** The operations of the normalised document, as the renderer receives them. */
  lemma {:induction false} PrintFormOperations(d: Fetched)
    ensures At(PrintForm(d), [RootKey, OperationsKey]).Some?
    ensures var ops := At(PrintForm(d), [RootKey, OperationsKey]).value;
            if |d.operations| == 0 then ops == Obj([])
            else
              && ops.Arr? && |ops.items| == |d.operations|
              && forall i :: 0 <= i < |d.operations| ==>
                   ops.items[i] == EnsureEmptyTags(Obj(OperationNode(d, d.operations[i])))
  {
    GetAfterEnsureEmptyTags(StructuredData(d).entries, RootKey);
    GetAfterEnsureEmptyTags(LotNode(d), OperationsKey);
    AtTwoKeys(PrintForm(d), RootKey, OperationsKey);
    var nodes := Objects(OperationNodes(d));
    if |d.operations| > 0 {
      forall i | 0 <= i < |d.operations|
        ensures EnsureEmptyTags(Arr(nodes)).items[i] == EnsureEmptyTags(Obj(OperationNode(d, d.operations[i])))
      {
        ArrayElementwise(nodes, i);
      }
    }
  }

  /** The lot's own fields reach the renderer normalised, and only normalised. */
  lemma {:induction false} PrintFormLotFields(d: Fetched, k: string)
    requires k != OperationsKey
    ensures var field := Get(LotFields(d), k);
            At(PrintForm(d), [RootKey, k])
              == if field.Some? then Some(EnsureEmptyTags(field.value)) else None
  {
    GetAfterEnsureEmptyTags(StructuredData(d).entries, RootKey);
    GetAfterEnsureEmptyTags(LotNode(d), k);
    AtTwoKeys(PrintForm(d), RootKey, k);
  }
}
