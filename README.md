# Inspection-lot print form, modelled in Dafny

The service proxies reads of SAP inspection-lot records. Its one piece of
logic is the `printForm` action on an inspection lot (`srv/sat.js`). That
action fetches the lot, its operations, characteristics, results, result values
and usage values, plus the decision-code texts for the usage values. It joins
them in memory into one `InspectionLotNode` document, and it passes that
document through `ensureEmptyTags` before rendering it as XML.

The model takes the fetched record sets as inputs (`PrintForm.Fetched`).
It builds the same document the handler builds, as a JSON-like value
(`Json.Json`), and proves what the join and the normaliser promise.

- `json.dfy` (module `Json`) holds the values the handler manipulates:
  - objects are ordered entry sequences, because `Object.entries` and
    `Object.fromEntries` keep key order;
  - property reads and the object spread `{...x, k: v}`;
  - strict equality `===` between property reads of separately fetched records;
  - JavaScript truthiness, used by `|| ''`.
- `empty_tags.dfy` (module `EmptyTags`) holds `ensureEmptyTags` and its
  properties: empty arrays become empty objects, shapes and key order are kept,
  no empty array remains anywhere, and normalising is idempotent.
- `print_form.dfy` (module `PrintForm`) holds the join:
  - the `filter` on the operation key, characterised exactly: same members,
    same multiplicities, input order, and uniqueness of such a sequence;
  - the `find` of the first code text and the `|| ''` default;
  - the operation nodes and the lot node;
  - the composition `ensureEmptyTags(structuredData)`.

Records are open attribute bags (`Fields`), as in the source. The join keys are
read by name (`InspPlanOperationInternalID`, `InspectionLot`,
`InspLotUsgeDcsnSelectedSet`, `SelectedCodeSet`). A missing key reads as
`undefined`, and `undefined === undefined` holds, exactly as in JavaScript.

Three behaviours of `srv/sat.js` are worth noting:
- A missing lot is not an error. `lotData[0]` is then `undefined`, and spreading it
  copies no fields (`PrintForm.LotFields`), so the document is still produced.
- Usage values are joined on `InspectionLot`, not on the operation, so every
  operation of the lot receives every usage value
  (`PrintForm.EveryOperationGetsEveryUsage`).
- `ensureEmptyTags` turns every empty array into `{}`, so that the renderer emits
  an empty element for it.

## Model

| member | source | states |
|---|---|---|
| `Json.Get` | srv/sat.js:63-67 | a property read is `undefined` exactly when the key is absent, and otherwise yields a value stored under that key |
| `Json.Set` | srv/sat.js:61-66 | `{...fs, k: v}` reads `v` at `k` and every other key as before; the keys keep their order, and `k` is appended only when it was new |
| `Json.Truthy` | srv/sat.js:72 | the `''` default replaces a value exactly when it is one of `null`, `false`, `0` and `''`; arrays and objects, even empty ones, are kept |
| `Json.StrictEquals` | srv/sat.js:63-71 | `===` between fetched fields holds only for equal values, and always for equal scalars or two `undefined` |
| `EmptyTags.EnsureEmptyTags` | srv/sat.js:78-87 | the result holds no empty array at any depth; an empty array becomes `{}`; a non-empty array keeps its length; an object keeps its keys in order; scalars and `null` pass unchanged |
| `EmptyTags.ArrayElementwise` | srv/sat.js:80 | element i of a normalised non-empty array is the normalised element i |
| `EmptyTags.ObjectEntrywise` | srv/sat.js:81-84 | entry i of a normalised object has the same key and the normalised value |
| `EmptyTags.GetAfterEnsureEmptyTags` | srv/sat.js:81-84 | reading a key of a normalised object gives the normalised value read from the original, or `undefined` when absent |
| `EmptyTags.FixedPointIff` | srv/sat.js:78-87 | a value is left unchanged by the normaliser if and only if it holds no empty array |
| `EmptyTags.Idempotent` | srv/sat.js:78-87 | normalising twice equals normalising once |
| `PrintForm.SameOn` | srv/sat.js:63-67 | `a[key] === item[key]` holds only when both reads agree, and always when they agree on a scalar or are both `undefined` |
| `PrintForm.MatchingOn` | srv/sat.js:63-67 | the filter keeps a record iff it is in the input and agrees with the operation on the key, and it never grows the input |
| `PrintForm.MatchingOnIsSubsequence` | srv/sat.js:63-65 | the filtered records appear in their original relative order |
| `PrintForm.MatchingOnCounts` | srv/sat.js:63-65 | each matching record occurs as often as in the input, and no other record occurs |
| `PrintForm.MatchingOnUnique` | srv/sat.js:63-65 | any order-preserving selection with exactly those multiplicities is the filter's result |
| `PrintForm.MatchingOnAll` | srv/sat.js:66-67 | when every record matches, the filter returns the whole input |
| `PrintForm.CodeMatches` | srv/sat.js:71 | `code.SelectedCodeSet === val.InspLotUsgeDcsnSelectedSet` holds only when both reads agree, and always when they agree on a scalar or are both `undefined` |
| `PrintForm.FindCode` | srv/sat.js:70-72 | `find` yields nothing iff no code-text record matches the usage value's selected set; otherwise it yields the first match |
| `PrintForm.SelectedCodeSetText` | srv/sat.js:70-72 | the annotation is truthy or `''`; it is `''` with no matching code, and otherwise the first match's text when that text is truthy and `''` when it is not |
| `PrintForm.AnnotatedUsage` | srv/sat.js:68-73 | an annotated usage value carries the looked-up text under `SelectedCodeSetText` and all its other fields unchanged |
| `PrintForm.UsageNodes` | srv/sat.js:66-73 | an operation node has one usage value per usage value matching its lot; usage value j keeps every field of the j-th match and carries that match's code text |
| `PrintForm.OperationNode` | srv/sat.js:61-74 | an operation node keeps every field of the operation other than the four child keys; its four child arrays are the characteristics, results and result values on the operation key and the annotated usage values on the lot key |
| `PrintForm.OperationNodeKeyOrder` | srv/sat.js:61-66 | an operation node lists the operation's own keys first, in their original order |
| `PrintForm.OperationNodeKeys` | srv/sat.js:61-66 | for an operation without child keys of its own, the node's keys are the operation's keys followed by `InspectionCharacteristics`, `InspectionResults`, `InspectionResultValues`, `InspectionUsageValues` |
| `PrintForm.OperationNodes` | srv/sat.js:61-74 | `opData.map` gives one node per operation, in order, node i keeping every field of operation i other than the four child keys |
| `PrintForm.LotFields` | srv/sat.js:60 | `...lotData[0]` reads each field as the first fetched lot does, and reads every field as `undefined` when no lot was fetched |
| `PrintForm.LotNode` | srv/sat.js:59-61 | the lot node keeps the lot's fields and key order and holds the operation nodes under `InspectionOperations` |
| `PrintForm.StructuredData` | srv/sat.js:58-76 | the joined document has the single root key `InspectionLotNode`, and under it `InspectionOperations` holds the operation nodes in order |
| `PrintForm.OneNodePerOperation` | srv/sat.js:58-62 | the document has exactly one operation node per fetched operation, node i built from operation i |
| `PrintForm.LotNodeKeepsLotFields` | srv/sat.js:60 | each lot field other than `InspectionOperations` is the first fetched lot's, and is absent when no lot was fetched |
| `PrintForm.UsageNodesOfOperation` | srv/sat.js:66-73 | the operation node has as many usage values as the lot-matching usage values, and each is a fetched usage value of the operation's lot, with every field kept and the code text added |
| `PrintForm.EveryOperationGetsEveryUsage` | srv/sat.js:66-67 | when the operations and usage values share one lot, every operation node receives every usage value, annotated, in fetch order |
| `PrintForm.PrintForm` | srv/sat.js:89 | the document handed to the renderer has the single root `InspectionLotNode` and no empty array anywhere |
| `PrintForm.PrintFormOperations` | srv/sat.js:58-89 | the rendered operations are an empty element `{}` for a lot without operations; otherwise they are one normalised node per operation, in order |
| `PrintForm.PrintFormLotFields` | srv/sat.js:60-89 | each lot field reaches the renderer normalised, and is absent when it was absent |

## Left out

- The seven READ handlers (srv/sat.js:9-35) forward queries to remote services unchanged. They have no logic of their own.
- Connecting to the services and looking up the entities (srv/sat.js:6-7, 37) is framework start-up.
- The six fetches and the code-text query (srv/sat.js:43-56) are remote I/O. Their results are the fields of `PrintForm.Fetched`.
- XML rendering with `xmlbuilder2` (srv/sat.js:90) is a foreign library call. The model stops at the document handed to it.
- Logging and the `try`/`catch` that answers with status 500 (srv/sat.js:91-98) are framework error plumbing. The unused `axios` import (srv/sat.js:3) is left out too.
- Numbers are integers (`Json.Num`). Floating point, `NaN` and `-0` are not modelled. This also affects `Json.Truthy` and `Json.StrictEquals`.
- `Json.StrictEquals` treats two arrays or two objects as never identical. This is right for fields of records from separate fetches, but it does not model reference identity in general.
- Objects with duplicate keys cannot arise from the services, and the model does not exclude them. `Json.Get` reads the first entry, and `Json.Set` overwrites the first entry.
