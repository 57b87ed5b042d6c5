# Production-and-logistics core of East Orion Company, in Dafny

This project models the simulation logic that sits under the engine layer of a space
economy game. It has three parts:

- **The production cycle** of a `ProductionNode` (`production.dfy`). This is a two-state machine on the
  `producing` flag. A tick (`Update`) starts a cycle only when the inputs are available in
  the connected `StorageNode` and no cycle is in flight. Starting a cycle (`Produce`)
  raises the flag and deducts every input flow (`DeductResources`). The coroutine's wait
  becomes a separate step, `FinishProduce`: it puts every output flow and then lowers the
  flag. Storage (`storage.dfy`) is a map from resource type to a natural amount, with
  `HasResource`, `Take` and `Put`.
- **The freight-contract lifecycle** (`contracts.dfy`). Classes stand for the job board's
  open contracts, a company's `acceptedContracts`, an employee's `contract` slot, and the
  completion notices a company or production node receives. `MarkAsAccepted` only takes
  the contract off its board. `MarkAsComplete` removes the contract from the owner's list,
  notifies the listeners, and then clears the employee's slot. Each notice records what
  the listener could see when it was called, so the contract states this order.
  `MarkAsUnableToComplete` does nothing.
- **The system-wide resource queries** of a `Star`. `system_queries.dfy` states them
  once, over each planet's own answers:
  - in-order concatenation of the planets' type lists and stored resources;
  - an existential search for a single entry that meets a request;
  - a dictionary merge that fails on a key two planets share.

  Each of the two variants of `Star.cs` is proved to compute exactly these:
  - `star_linq.dfy`: the string-typed variant in `Assets/Scripts`, built with SelectMany and Exists;
  - `star_loop.dfy`: the ResourceType variant in `Assets/scripts`, built with loops.

  A lemma shows the two variants give the same answers for the same planets.

`resources.dfy` holds the value types: `ResourceType`, `Resource` and `ResourceFlow`. It also
defines `Total`, the amount of one type named by a list of flows.

Notes on the source beyond the finding below:
- `Star.ResourceTypesAvailable` is documented as returning unique types, but it
  concatenates the planets' lists, so a type listed on two planets appears twice.
  The model follows the code (`SystemQueries.TypesAvailableMembers`).
- `NotifyOfCompletion` tests the creator's runtime type against `ProductionNode`, which
  can never succeed as written (second row under Findings). The model keeps both halves
  and uses the intended one: `Employee.isProductionNode` says whether the creator is a
  production node.

## Model

| member | source | states |
|---|---|---|
| Production.ProductionNode.Update | Assets/scripts/ProductionNode.cs:19-22 | a cycle starts (flag raised, inputs deducted) iff the inputs are available and no cycle is in flight; otherwise storage and flag are unchanged, so a second cycle never starts while one is in flight |
| Production.ProductionNode.DeductResources | Assets/scripts/ProductionNode.cs:35-38 | takes every input flow, front to back; every take succeeds, and the stock becomes the sequential deduction of the inputs |
| Production.ProductionNode.Produce | Assets/scripts/ProductionNode.cs:40-42 | the start of a cycle raises `producing` and deducts the inputs; no output is credited yet |
| Production.ProductionNode.FinishProduce | Assets/scripts/ProductionNode.cs:43-47 | after the wait, every output flow is put and only then `producing` is false |
| Production.ProductionNode.constructor | Assets/scripts/ProductionNode.cs:7-17 | a node starts idle with the given flows and storage |
| Production.ProductionNode.RequirementsMet | Assets/scripts/ProductionNode.cs:24-33 | the corrected availability check: true iff the connected storage covers, for every resource type, the total amount all inputs ask of it; it implies the source's per-flow check, and for inputs of distinct types the two agree (`Production.RequirementsAgreeWhenDistinct`) |
| Production.RequirementsMetAsWritten | Assets/scripts/ProductionNode.cs:24-33 | the source's check: true iff every input flow, taken as the only input, would be covered by the stock |
| Production.DemandCovered | Assets/scripts/ProductionNode.cs:24-37 | the corrected check holds iff every type's total input demand is in stock, and it then implies the source's per-flow check |
| Storage.StorageNode.HasResource | Assets/scripts/ProductionNode.cs:26 | true iff the amount is zero or the stock holds an entry for the type of at least that amount; a zero amount is always available |
| Production.RequirementsAgreeWhenDistinct | Assets/scripts/ProductionNode.cs:24-33 | for inputs of distinct types the availability check used by `Update` holds iff every input flow is available on its own; both hold for an empty input list |
| Production.SufficientMeetsAsWritten | Assets/scripts/ProductionNode.cs:24-33 | the availability check used by `Update` always implies the source's per-flow check |
| Production.SufficientTakesWithinStock | Assets/scripts/ProductionNode.cs:35-38 | once the inputs are available, the k-th take finds its amount in stock after the first k takes |
| Production.EveryTakeWithinStock | Assets/scripts/ProductionNode.cs:24-38 | with inputs available one by one and distinct in type, every take of the cycle is within stock, so stock never goes negative |
| Production.AsWrittenCheckOverdraws | Assets/scripts/ProductionNode.cs:24-37 | two inputs of one type that each pass the per-flow check can together exceed stock: the second take is then not covered |
| Production.DeductedLevel | Assets/scripts/ProductionNode.cs:35-38 | deduction lowers each type by the total input amount of that type |
| Production.CreditedLevel | Assets/scripts/ProductionNode.cs:44-45 | crediting raises each type by the total output amount of that type |
| Production.CycleEffect | Assets/scripts/ProductionNode.cs:35-45 | one full cycle changes each type by its total output minus its total input |
| Production.DistinctInputCycleEffect | Assets/scripts/ProductionNode.cs:35-45 | with distinct input types, a cycle lowers each input's type by that input's amount, plus what the outputs return of that type |
| Production.DistinctOutputCycleEffect | Assets/scripts/ProductionNode.cs:44-45 | with distinct output types, a cycle raises each output's type that no input names by that output's amount |
| Production.CycleLeavesOtherTypes | Assets/scripts/ProductionNode.cs:35-45 | a type named by no input and no output is unchanged by a cycle |
| Storage.StorageNode.Take | Assets/scripts/ProductionNode.cs:37 | succeeds iff `HasResource` holds and then subtracts the amount; otherwise changes nothing |
| Storage.StorageNode.Put | Assets/scripts/ProductionNode.cs:45 | adds the amount to the type's stock |
| Storage.TakePutRoundTrip | Assets/scripts/ProductionNode.cs:37-45 | taking and then putting back the same amount restores every level |
| Contracts.FreightContract.constructor | Assets/model/FreightContract.cs:9-15 | stores exactly the given creator, issuer, reservation and board; no owner and no completing employee yet |
| Contracts.FreightContract.MarkAsAccepted | Assets/model/FreightContract.cs:17-20 | the board's open set loses this contract; `owner` and every company's accepted contracts are untouched |
| Contracts.FreightContract.MarkAsComplete | Assets/model/FreightContract.cs:22-27 | the first listing of the contract leaves the owner's accepted list; the issuer gets one notice and the creator one more iff it is a production node; the employee's slot becomes null; each notice saw the list after removal and the slot before clearing |
| Contracts.FreightContract.MarkAsUnableToComplete | Assets/model/FreightContract.cs:29-32 | changes no state |
| Contracts.FreightContract.NotifyOfCompletion | Assets/model/FreightContract.cs:34-43 | the issuer is notified exactly once; the creator exactly once iff it is a production node, otherwise not at all |
| Contracts.FreightContract.NotifyOfCompletionAsWritten | Assets/model/FreightContract.cs:34-43 | with the type test as written, the issuer is notified exactly once and the creator never, even when it is a production node |
| Contracts.JobBoard.RemoveContract | Assets/model/FreightContract.cs:19 | the open set loses the contract; removing an absent contract changes nothing |
| Contracts.Company.NotifyOfContractCompletion | Assets/model/FreightContract.cs:36 | one call appends one notice recording the contract and what the company could see |
| Contracts.Employee.NotifyOfContractCompletion | Assets/model/FreightContract.cs:38-41 | one call to the creator's production node appends one notice |
| Contracts.RemoveFirst | Assets/model/FreightContract.cs:24 | list removal: the result is one entry shorter iff the contract was listed, else as long as the list, and holds only entries of the list |
| Contracts.RemoveFirstAt | Assets/model/FreightContract.cs:24 | list removal deletes the first occurrence and keeps all other entries in order |
| Contracts.RemoveFirstAbsent | Assets/model/FreightContract.cs:24 | removing an unlisted contract leaves the list as it is |
| Contracts.RemoveFirstContents | Assets/model/FreightContract.cs:24 | removal takes exactly one copy of the contract out of the list's contents |
| Contracts.RemoveFirstOnce | Assets/model/FreightContract.cs:24 | a contract listed once is not listed after its removal |
| StarLinq.Star.ResourceTypesAvailable | Assets/Scripts/Star.cs:220-228 | the loop's result is the in-order concatenation of the planets' type lists |
| StarLinq.Star.ResourcesAvailable | Assets/Scripts/Star.cs:242-249 | the in-order flattening of every planet's stored resources |
| StarLinq.Star.HasResourceAmount | Assets/Scripts/Star.cs:251-254 | true iff some stored entry has the requested type and at least the requested amount |
| StarLinq.Star.ResourceLocations | Assets/Scripts/Star.cs:257-266 | the merge of the planets' location maps, or failure when a key is added twice |
| StarLinq.SelectMany | Assets/Scripts/Star.cs:246 | SelectMany is the in-order concatenation of the selected lists |
| StarLinq.Exists | Assets/Scripts/Star.cs:253 | List.Exists is true iff some element satisfies the predicate |
| StarLoop.Star.ResourceTypesAvailable | Assets/scripts/Star.cs:213-221 | the loop's result is the in-order concatenation of the planets' type lists |
| StarLoop.Star.ResourcesAvailable | Assets/scripts/Star.cs:235-243 | the loop's result is the in-order concatenation of the planets' stored resources |
| StarLoop.Star.HasResourceAmount | Assets/scripts/Star.cs:245-252 | the scan answers true iff some stored entry meets the request, returning at the first such entry |
| StarLoop.Star.ResourceLocations | Assets/scripts/Star.cs:255-264 | the merge of the planets' location maps, or failure when a key is added twice |
| StarLoop.AgreesWithLinqVariant | Assets/scripts/Star.cs:213-264 | planets that answer alike get the same resource list, availability answer and locations from both variants, and corresponding type lists |
| SystemQueries.AddEach | Assets/scripts/Star.cs:260-261 | adding a planet's entries one by one, in any order, fails iff one of its keys is already present, and otherwise yields the union |
| SystemQueries.FlattenLength | Assets/Scripts/Star.cs:224-225 | the concatenation is as long as all lists together |
| SystemQueries.FlattenAt | Assets/Scripts/Star.cs:224-225 | every list appears whole, in order, after all entries of the lists before it |
| SystemQueries.FlattenMembership | Assets/Scripts/Star.cs:224-225 | an element is in the concatenation iff it is in one of the lists |
| SystemQueries.FlattenRename | Assets/scripts/Star.cs:217-218 | renaming the elements of every list renames the concatenation |
| SystemQueries.TypesAvailableLength | Assets/Scripts/Star.cs:220-228 | the number of listed types is the sum of the planets' counts |
| SystemQueries.TypesAvailableMembers | Assets/Scripts/Star.cs:220-228 | each planet's j-th type sits at a fixed position after the earlier planets' types, duplicates kept |
| SystemQueries.EmptySystem | Assets/Scripts/Star.cs:220-266 | with no planets both lists are empty, no amount is available, and the locations are empty |
| SystemQueries.HasResourceAmountPlanetwise | Assets/Scripts/Star.cs:251-254 | an amount is available iff a single stored entry of a single planet meets it |
| SystemQueries.HasResourceAmountMonotone | Assets/Scripts/Star.cs:253 | a request met for an amount is met for any smaller amount of that type |
| SystemQueries.AmountsNotSummed | Assets/Scripts/Star.cs:253 | separate entries are not added up: two entries of five do not meet a request for ten |
| SystemQueries.MergeAllSpec | Assets/Scripts/Star.cs:257-266 | the merge succeeds iff the maps' keys are pairwise disjoint; it then has their union as keys, each bound to its own map's value |
| SystemQueries.DisjointLocations | Assets/Scripts/Star.cs:257-266 | with disjoint per-planet keys the locations hold every planet's keys, each mapped to that planet's storage node |
| SystemQueries.SharedKeyFails | Assets/Scripts/Star.cs:263 | a key in two planets' maps makes the query fail |
| SystemQueries.CollisionPersists | Assets/scripts/Star.cs:259-261 | once the first planets collide, adding more planets cannot undo the failure |

## Findings

| source | as written | input that shows it | evidently intended | confidence | as-written member | corrected member |
|---|---|---|---|---|---|---|
| Assets/scripts/ProductionNode.cs:24-37 | `RequirementsMet` checks each input flow against stock on its own | inputs `[(t, 2), (t, 2)]` with 3 units of `t` in stock: both flows pass, but after the first take only 1 unit is left for the second take of 2 | a cycle starts only when stock covers the total demand of each type | medium, not executed | Production.AsWrittenCheckOverdraws | Production.SufficientTakesWithinStock |
| Assets/model/FreightContract.cs:38 | `creator.GetType() == typeof(ProductionNode)`: the creator is an `Employee`, and `ProductionNode` derives from `MonoBehaviour` and implements `IndustryNode` (Assets/scripts/ProductionNode.cs:5), but is not an `Employee`, so the test is false for every creator and lines 40-41 never run | a contract whose creator is a production node: only the issuer is notified (`Contracts.CreatorNoticeScenario`) | the creator is notified when it is a production node | medium, not executed | Contracts.FreightContract.NotifyOfCompletionAsWritten | Contracts.FreightContract.NotifyOfCompletion |

`Production.RequirementsMetAsWritten` is the source's check. `Production.Sufficient` is the
corrected one, which `ProductionNode.RequirementsMet` and hence `Update` use. For inputs of
distinct types the two checks agree (`Production.RequirementsAgreeWhenDistinct`).

## Left out

- Production.ProductionNode.Update: it uses the corrected availability check, not the per-flow check of the source. The two differ only for nodes whose inputs repeat a type (see Findings).
- Production.ProductionNode.DeductResources: it requires the corrected availability check, which the source's only caller does not guarantee: there `Update` is gated by the per-flow check (see Findings).
- Production.ProductionNode.Produce: it requires the corrected availability check, for the same reason as `DeductResources`.
- Contracts.FreightContract.NotifyOfCompletion: the type test on the creator is modelled by its evident intent, the flag `Employee.isProductionNode`. As written the test never holds; `NotifyOfCompletionAsWritten` models that (see Findings). `MarkAsComplete` uses the intended step.
- Production.ProductionNode.FinishProduce: the wait of `cycleTime` seconds (a float and engine scheduling) is not modelled. It requires `producing`, because the coroutine only resumes inside a cycle.
- Production.ProductionNode: `connectedStorageNode` is never null here. The source would throw on a missing storage node.
- Storage.StorageNode: its internals are not part of this model. `Take` on insufficient stock reports failure and changes nothing, as the storage's contract describes. There is no capacity limit.
- `ObjectInfo` (all files): display text only, with a float cycle time rendered into it.
- `Start`, `Update`, `SpawnShip`, `SpawnPlanet`, `SpawnMoon`, `GiveSprite`, `OnMouseOver`, `OnMouseExit` in both `Star.cs`: engine plumbing, not simulation logic. This covers random counts and positions, prefab instantiation, sprites, JSON loading, singleton lookups and the selection UI.
- `ResourceTypesProduced` (both `Star.cs`): not modelled. It calls itself instead of each planet's method, so it never terminates on a system with a planet. The evident intent is the union of the planets' produced types.
- `Planet`, `Company`, `Employee`, `JobBoard`, `Resource`, `ResourceReservation` and the `Contract` base class are not part of this model. Each is reduced to the state the core reads or writes:
  - a planet is the value of its three query answers;
  - a reservation is an opaque key;
  - a resource is compared by type and amount;
  - `owner` and `completingEntity` are fields set by the accepting side.
- Contracts.Company.NotifyOfContractCompletion: the company's bookkeeping is not modelled. The hook only records each call and what it could see.
- Contracts.Employee.NotifyOfContractCompletion: this stands for the production node's hook, which the `ProductionNode.cs` in this model does not define. It only records each call.
- Contracts.FreightContract.MarkAsComplete: it requires an owner and a completing employee. The source dereferences both and would throw without them.
- `JobBoard.AddContract` is not in the modelled files. The lifecycle scenario uses it as a plain set insertion.
- Dictionary iteration order in `ResourceLocations` is left arbitrary. The outcome does not depend on it. The exception of `Dictionary.Add` is modelled as the value `DuplicateKey`, without the key it names.
