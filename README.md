# Sync reconciliation engine, modelled and verified in Dafny

The `Sync` class of `app/src/endpoints/sync.py` merges a client's list of
records against the server's list. Each client record carries three flags:
`is_new`, `updated` and `deleted`. Records are joined on a configurable
unique-key field. `__compare` returns two lists:

- the client list (`sync_data_for_local`);
- the server list to push, which is the server's records followed by the
  records created in this call (`to_add_to_server_data`).

This project models that engine:

- `__loop_local_data` classifies every local record. It deletes, creates,
  resurrects, raises a conflict, drops, pushes or pulls.
- `__loop_data_attrs` copies differing fields in the chosen direction and
  recurses into nested lists through `__compare`.
- `__loop_server_data` scavenges live server records that no local record
  mentioned.
- `__sorting_value_validation_and_correction` sorts the client list,
  renumbers its sort field densely from 0 and mirrors every correction onto
  the paired server record.

Files:

- `records.dfy`: decoded JSON values and records. A record is an ordered
  list of fields. `Put` and `Remove` are `d[k] = v` and `del d[k]`.
- `settings.dfy`: the `Settings` bindings of `app/utils/config.py`, with
  the four optional fields as `Option`.
- `sync_spec.dfy`: every operation as a function on the working state of
  one `__compare` call (`Work`). `slots` is the server list. A physically
  deleted record leaves an empty slot, so positions stay stable and
  `Present(slots)` is the list as Python holds it. `client` is the client
  list, `created` the records created in this call, and `index` is
  `server_data_by_unique`. Python shares dictionaries between these lists.
  Each client entry therefore records where its dictionary lives:
  - `Own` for a local record;
  - `Created(j)` for the same object as `created[j]`;
  - `Scavenged(q)` for the same object as the server record in slot `q`.

  A write through one list is applied to every list holding the object.
- `sync_engine.dfy`: the imperative engine. `Pass` holds the four
  collections of one `__compare` call as mutable fields. `Sync`'s methods
  update them with loops, and each method is proved to reach the state the
  matching `SyncSpec` function describes.
- `sorting.dfy` and `sort_facts.dfy`: Python's stable `list.sort` as an
  insertion sort, proved sorted, a permutation and stable.
- `coherence.dfy`: the invariant that ties the four collections together.
  It covers sharing, key registration and at most one client entry per key.
- `step_facts.dfy` and `differ_facts.dfy`: what each branch of the
  classification and of the differ does.
- `loop_facts.dfy`, `merge_facts.dfy`, `renumber_facts.dfy`,
  `agree_facts.dfy` and `output_facts.dfy`: properties of both loops, of
  the normaliser and of a whole merge.

The clock is a `now` parameter. Python's exceptions become `Err` values:

- the 409 `HTTPException` becomes `DuplicateKeyConflict(u)`;
- a `KeyError` or `TypeError` from a missing field or a wrongly typed value
  becomes `SchemaMismatch`.

Termination of the nested recursion rests on a ghost bound `b` on the
nesting depth of the records. `Bound` computes it for any input.

Behaviours of the code that a reader may not expect, all modelled as the
code has them:

- A new record is included in the client list, whether it was created or
  resurrected. `to_add_in_local_response` stays true on that branch
  (sync.py:183, 190-191, 203-208).
- The scavenger runs over the server list before the created records are
  appended to it (sync.py:235 vs 238). Created records are therefore never
  scavenged.
- When a new record is created, its nested lists are merged against an
  empty server list (sync.py:81, 158-159). That nested merge keeps nested
  records flagged new and drops every nested record that is neither new nor
  deleted (sync.py:193-194). So a created record keeps only its new nested
  records, stripped of their flags. `MergeFacts.MergeLeavesOut` states the
  drop for any merge, including one against an empty server list.
- A local record that is neither new nor deleted is dropped when the first
  server record with its key is soft-deleted, even if a later one with the
  same key is live (sync.py:175-179, 193-194). The index then holds the key,
  so the scavenger skips the live duplicate as well.

The main results:

- A new record whose key is live on the server aborts the whole merge with
  the conflict (`MergeFacts.ConflictAborts`).
- A deleted local record never reaches the client list. Neither does an
  unchanged one whose first server match is absent or soft-deleted
  (`MergeFacts.MergeLeavesOut`).
- A live server record that no local record mentions reaches the client
  list unchanged (`MergeFacts.MergeScavenges`).
- Created records are stripped of their flags and appended in local order
  (`OutputFacts.MergeOutputs`).
- The differ pulls or pushes every compared field (`DifferFacts.DifferScalars`,
  `DifferFacts.EditOnServerPushes`).
- Renumbering sorts stably and numbers densely from 0
  (`RenumberFacts.SortingNormalises`). Afterwards every client record and
  its paired server record hold the same sort value, its position
  (`AgreeFacts.MergeAgrees`).

## Model

| member | source | states |
|---|---|---|
| Config.Defaults | app/utils/config.py:10-26 | the default bindings give distinct roles distinct names, with no sort field and no soft-delete field (so deletion is physical) |
| Records.Put | app/src/endpoints/sync.py:162-164 | `d[k] = v`: afterwards `k` holds `v`, every other field reads as before, an existing field keeps its place and a new one goes last |
| Records.Remove | app/src/endpoints/sync.py:204-206 | `del d[k]`: afterwards no field `k` is left and every other field reads as before |
| SyncSpec.Compare | app/src/endpoints/sync.py:223-242 | fails exactly when the merge fails, with its error; otherwise returns the client list's records in order, and the server list as the merge left it followed by the created records |
| SyncSpec.NestedServer | app/src/endpoints/sync.py:158-159 | the server side of a nested list: `[]` without a server record, the list's items when the field holds a list, `[]` for an empty string (which iterates as nothing), and a failure for anything else, a missing field included |
| SyncSpec.Merge | app/src/endpoints/sync.py:228-240 | a successful merge keeps every record within the nesting bound of its inputs |
| SyncSpec.LoopLocalData | app/src/endpoints/sync.py:166-208 | a successful local loop keeps every record within the nesting bound |
| SyncSpec.SetAudit | app/src/endpoints/sync.py:29-39 | fails exactly when a source record lacks the field; without a field name the record is unchanged; otherwise the field holds `now` or the source's value, and nothing else changes |
| SyncSpec.StripFlags | app/src/endpoints/sync.py:203-206 | on success the three flags are gone and every other field is unchanged; with distinct role names it succeeds exactly when all three flags are present |
| SyncSpec.FindSlot | app/src/endpoints/sync.py:175-180 | returns the first present server record with the unique key `u`; `None` means every present record has a different key; it fails exactly when a record it must read has no unique key |
| SyncSpec.DeleteOnServer | app/src/endpoints/sync.py:54-67 | only the matched slot changes. With a soft-delete field it gets the stamp `now` and a null sort value, and every other field is kept. Without one the record is removed |
| SyncSpec.LocalStep | app/src/endpoints/sync.py:174-208 | on success the local record has a hashable unique key `u`. Only server records with key `u` change, the client list and the created records grow by at most one each, and the index gains exactly `u` |
| SyncSpec.Register | app/src/endpoints/sync.py:181 | the index maps `u` to the matched slot, or to nothing, and keeps every other key |
| SyncSpec.Dispatch | app/src/endpoints/sync.py:185-201 | the flag tests change only server records with key `u`, append at most one record to each list, and leave the index alone |
| SyncSpec.AddOnServer | app/src/endpoints/sync.py:69-100 | a live server match always fails with `DuplicateKeyConflict(u)`; a success is framed like any step and leaves the index alone |
| SyncSpec.CreateOnServer | app/src/endpoints/sync.py:75-81 | the new record is appended once to the created records and, as the same object, to the client list; nothing else changes |
| SyncSpec.Resurrect | app/src/endpoints/sync.py:83-89 | only slot `p` changes, and the client list gains exactly one entry of its own: the local record stripped of its three flags |
| SyncSpec.SyncExisting | app/src/endpoints/sync.py:196-208 | only slot `p` changes, and the client list gains one entry of its own |
| SyncSpec.PushOrPull | app/src/endpoints/sync.py:196-200 | the differ's result always includes the server record |
| SyncSpec.EditStamps | app/src/endpoints/sync.py:107-108 | fails exactly when the creation field is configured and the server lacks it. The creation stamp is copied from the server, the update stamp is `now`, and other fields are unchanged |
| SyncSpec.EditOnServer | app/src/endpoints/sync.py:102-110 | the result includes the server record, and both records stay within the nesting bound |
| SyncSpec.LoopDataAttrs | app/src/endpoints/sync.py:148-164 | skipped fields, and fields the loop does not visit, are unchanged on both sides; a server record is present afterwards exactly when it was before |
| SyncSpec.AttrStep | app/src/endpoints/sync.py:149-164 | one iteration changes at most the visited field, on either side, and never a skipped one |
| SyncSpec.NestedStep | app/src/endpoints/sync.py:158-159 | the nested merge changes only the list field `key` on either side; what that field becomes is stated by `DifferFacts.NestedStepMerges` |
| SyncSpec.LoopServerData | app/src/endpoints/sync.py:210-220 | fails exactly when a live record has no hashable unique key; otherwise the server lists are unchanged, the client list is only extended, and every registered key keeps its pairing |
| SyncSpec.ScavengeSound | app/src/endpoints/sync.py:216-220 | every appended client entry is the very server record of a live slot whose key was unclaimed, now paired with that slot, in increasing slot order |
| SyncSpec.ScavengeComplete | app/src/endpoints/sync.py:216-220 | every live server record with an unclaimed key gets its key claimed, and the first record carrying each such key is appended to the client list |
| SyncSpec.Renumber | app/src/endpoints/sync.py:130-140 | the renumbering loop keeps the lengths of all lists and the index |
| SyncSpec.Rewrite | app/src/endpoints/sync.py:133-140 | one correction keeps the lengths of all lists and the index |
| SyncSpec.SortingValueValidationAndCorrection | app/src/endpoints/sync.py:112-140 | the normaliser keeps the lengths of all lists and the index |
| SyncSpec.SortEntriesMembers | app/src/endpoints/sync.py:120 | every entry of the sorted client list is one of the entries before sorting |
| Sorting.SortSorted | app/src/endpoints/sync.py:120 | the sort's result ascends by key |
| Sorting.SortPermutes | app/src/endpoints/sync.py:120 | the sort's result is a permutation of its input |
| Sorting.SortIsStable | app/src/endpoints/sync.py:120 | elements with equal keys keep their relative order |
| SortFacts.SortEntriesPermutes | app/src/endpoints/sync.py:120 | sorting the client list by its sort values loses, adds and duplicates no entry |
| SortFacts.SortEntriesSorted | app/src/endpoints/sync.py:120 | afterwards the sort values ascend |
| SortFacts.SortEntriesStable | app/src/endpoints/sync.py:120 | entries with equal sort values keep their original order |
| SyncEngine.Pass.constructor | app/src/endpoints/sync.py:228-230 | a pass starts with the server list and the three empty collections |
| SyncEngine.Sync.Compare | app/src/endpoints/sync.py:223-242 | returns the client list and the server list with the created records appended after it, or the merge's error, as `SyncSpec.Compare` defines them |
| SyncEngine.Sync.Merge | app/src/endpoints/sync.py:228-240 | runs the two loops and the normaliser on one pass and ends in the state `SyncSpec.Merge` gives, or with the first error |
| SyncEngine.Sync.LoopLocalData | app/src/endpoints/sync.py:166-208 | the loop leaves the pass in the state `SyncSpec.LoopLocalData` gives from the old state, or reports that function's error |
| SyncEngine.Sync.FindSlot | app/src/endpoints/sync.py:175-179 | the search loop returns what `SyncSpec.FindSlot` returns |
| SyncEngine.Sync.LocalStep | app/src/endpoints/sync.py:175-208 | one iteration updates the pass as `SyncSpec.LocalStep` does |
| SyncEngine.Sync.Dispatch | app/src/endpoints/sync.py:183-208 | the flag tests update the pass as `SyncSpec.Dispatch` does |
| SyncEngine.Sync.DeleteOnServer | app/src/endpoints/sync.py:54-67 | only the server list changes, to `SyncSpec.DeleteOnServer` of it |
| SyncEngine.Sync.AddOnServer | app/src/endpoints/sync.py:69-100 | updates the pass as `SyncSpec.AddOnServer` does, conflict included |
| SyncEngine.Sync.CreateOnServer | app/src/endpoints/sync.py:75-81 | updates the pass as `SyncSpec.CreateOnServer` does |
| SyncEngine.Sync.Resurrect | app/src/endpoints/sync.py:83-89 | updates the pass as `SyncSpec.Resurrect` does |
| SyncEngine.Sync.SyncExisting | app/src/endpoints/sync.py:196-208 | updates the pass as `SyncSpec.SyncExisting` does |
| SyncEngine.Sync.PushOrPull | app/src/endpoints/sync.py:196-200 | returns `SyncSpec.PushOrPull`'s records |
| SyncEngine.Sync.EditOnServer | app/src/endpoints/sync.py:102-110 | returns `SyncSpec.EditOnServer`'s records |
| SyncEngine.Sync.LoopDataAttrs | app/src/endpoints/sync.py:142-164 | the loop over the local record's fields returns `SyncSpec.LoopDataAttrs`'s records |
| SyncEngine.Sync.AttrStep | app/src/endpoints/sync.py:149-164 | one field's iteration returns `SyncSpec.AttrStep`'s records |
| SyncEngine.Sync.NestedStep | app/src/endpoints/sync.py:158-159 | the recursive merge of a list field returns `SyncSpec.NestedStep`'s records |
| SyncEngine.Sync.LoopServerData | app/src/endpoints/sync.py:210-220 | the scavenging loop updates the pass as `SyncSpec.LoopServerData` does |
| SyncEngine.Sync.SortingValueValidationAndCorrection | app/src/endpoints/sync.py:112-140 | updates the pass as `SyncSpec.SortingValueValidationAndCorrection` does |
| SyncEngine.Sync.Renumber | app/src/endpoints/sync.py:122-140 | the renumbering loop updates the pass as `SyncSpec.Renumber` does from position 0 |
| SyncEngine.Sync.RenumberAt | app/src/endpoints/sync.py:131-140 | one position's correction fails as the loop does, or leaves the rest of the loop to do the same work |
| SyncEngine.Sync.Rewrite | app/src/endpoints/sync.py:133-140 | the write and its mirror update the pass as `SyncSpec.Rewrite` does |
| StepFacts.StepUnfold | app/src/endpoints/sync.py:175-181 | a step is the index registration of the match followed by the flag tests |
| StepFacts.StepConflict | app/src/endpoints/sync.py:190-191 | a new record whose first key match is live fails with `DuplicateKeyConflict(u)` |
| StepFacts.StepDelete | app/src/endpoints/sync.py:185-187 | a deleted local record appends nothing to either list and applies `__delete_on_server` to its match. A physical delete removes exactly that record and keeps the others in order |
| StepFacts.PhysicalDeleteKeepsOrder | app/src/endpoints/sync.py:67 | `del server_data[i]` leaves the records before and after it in order |
| StepFacts.StepDrop | app/src/endpoints/sync.py:193-194 | an unflagged record without a live match changes neither the server records nor the client list |
| StepFacts.StepResurrect | app/src/endpoints/sync.py:83-89 | a new record matching a soft-deleted record revives it. The stamp becomes null, the sort value is the local one, the update stamp is `now`, and every unmanaged field is kept. The stripped local record reaches the client |
| StepFacts.ResurrectFacts | app/src/endpoints/sync.py:83-89 | the same facts about the resurrection itself |
| StepFacts.StepCreate | app/src/endpoints/sync.py:75-81 | a new record without a match is appended once, as one object, to the created records and the client list. It keeps its key, loses its flags and carries both stamps `now` |
| StepFacts.CreateFacts | app/src/endpoints/sync.py:75-78 | the created record keeps its key, loses its flags and carries the stamps `now` |
| StepFacts.ScalarKept | app/src/endpoints/sync.py:81 | the differ without a server record keeps every scalar field |
| StepFacts.StepPull | app/src/endpoints/sync.py:199-200 | an unchanged record with a live match takes the server's value for every compared field, and the server record keeps it. Only that slot changes |
| StepFacts.PullFacts | app/src/endpoints/sync.py:199-200 | the same about the pull itself |
| StepFacts.StepPush | app/src/endpoints/sync.py:196-197 | an updated record with a live match puts its compared fields into the server record, and both hold the update stamp `now` |
| StepFacts.PushFacts | app/src/endpoints/sync.py:196-197 | the same about the push itself |
| DifferFacts.AttrStepScalar | app/src/endpoints/sync.py:160-164 | one compared field afterwards holds the server's value on both sides when pulling, or the local one when pushing |
| DifferFacts.DifferScalars | app/src/endpoints/sync.py:148-164 | after the differ every compared field holds the server's value on both sides when pulling, or the local one when pushing |
| DifferFacts.DifferWithoutServer | app/src/endpoints/sync.py:81 | without a server record the differ changes no scalar field |
| DifferFacts.EditPushesField | app/src/endpoints/sync.py:107-110 | after `__edit_on_server` both records hold every compared field of the stamped local record |
| DifferFacts.EditOnServerPushes | app/src/endpoints/sync.py:102-110 | after `__edit_on_server` both records hold the update stamp `now`, the server's creation stamp and every other compared local field |
| DifferFacts.DifferKeepsList | app/src/endpoints/sync.py:158-159 | a local list field still holds a list after the differ |
| DifferFacts.NestedStepMerges | app/src/endpoints/sync.py:158-159 | the local list field becomes the client list of the nested merge against the server record's list (or `[]`). A server list becomes the list that merge left in place, without the nested created records the caller discards. A server record without a list is unchanged. A failure of the server-side lookup or of the nested merge is the differ's failure |
| Coherence.PairedUnique | app/src/endpoints/sync.py:181 | in a coherent state a server record is paired with at most one client entry |
| Coherence.OnlyFieldPairs | app/src/endpoints/sync.py:133-140 | writing a field other than the unique key changes no key and no pairing |
| Coherence.RewriteEffect | app/src/endpoints/sync.py:133-140 | in a coherent state one correction succeeds and writes the value into the entry, into every list sharing its object, and into the paired server record |
| Coherence.WrittenCoherent | app/src/endpoints/sync.py:133-140 | a correction keeps the state coherent |
| Coherence.MirrorEffect | app/src/endpoints/sync.py:136-140 | writing the entry and then the server record its key is paired with has exactly the correction's effect, whether or not the entry is that server record itself |
| RenumberFacts.SortKeepsCoherent | app/src/endpoints/sync.py:120 | sorting the client list keeps the state coherent |
| RenumberFacts.RenumberKeeps | app/src/endpoints/sync.py:130-140 | on a coherent state the renumbering loop succeeds, stays coherent, and changes only the sort field |
| RenumberFacts.RenumberDense | app/src/endpoints/sync.py:122-134 | after the loop, position `i` of the client list holds `i` |
| RenumberFacts.RenumberTracks | app/src/endpoints/sync.py:125-140 | after the loop, each paired server record holds its entry's new sort value if the loop rewrote it, and its own old value otherwise; nothing else changes |
| RenumberFacts.SortingNormalises | app/src/endpoints/sync.py:112-140 | nothing happens unless the first client record, before sorting, has a non-null sort value. With two or more records a non-integer value fails. Otherwise the result is the sorted list renumbered 0..n-1, with corrections mirrored and nothing else changed |
| LoopFacts.StepShaped | app/src/endpoints/sync.py:174-208 | a step touches only server records carrying its key, appends at most one entry with that key, and registers the key with a record that carries it |
| LoopFacts.ShapeCoherent | app/src/endpoints/sync.py:174-208 | such a step, with a key not yet registered, keeps the state coherent |
| LoopFacts.LocalLoopCoherent | app/src/endpoints/sync.py:166-208 | with distinct local keys the local loop keeps the state coherent |
| LoopFacts.ScavengeCoherent | app/src/endpoints/sync.py:210-220 | the scavenger keeps the state coherent |
| LoopFacts.LoopsCoherent | app/src/endpoints/sync.py:232-235 | with distinct local keys both loops leave a coherent state: one client entry per key, each shared object the same in every list, each pairing pointing at a record with that key |
| MergeFacts.LocalLoopSplit | app/src/endpoints/sync.py:174 | the local loop is its prefix followed by its suffix, and an error in the prefix is the loop's error |
| MergeFacts.ConflictAborts | app/src/endpoints/sync.py:190-191 | the whole `__compare` fails with `DuplicateKeyConflict(u)` once a new local record, reached without error, meets a live server record with its key |
| MergeFacts.LoopQuiet | app/src/endpoints/sync.py:174-208 | local records with other keys leave key `u`'s registration, its server records and its absence from the new entries alone |
| MergeFacts.MergeLeavesOut | app/src/endpoints/sync.py:175-194 | with distinct local keys, a deleted local record is absent from the merged client list. So is one neither new nor deleted whose first server match is missing or soft-deleted, and so is every server record carrying its key, a later live one included |
| MergeFacts.MergeScavenges | app/src/endpoints/sync.py:210-220 | a live server record whose key no local record mentions (the first live one with that key) is appended unchanged to the client list and claimed |
| AgreeFacts.PullSettles | app/src/endpoints/sync.py:199-200 | after a pull, whenever the client record holds a scalar sort value, the server record holds the same value; a local record without a sort field leaves the server's value alone, since the differ visits only the local record's fields (sync.py:148) |
| AgreeFacts.PushSettles | app/src/endpoints/sync.py:196-197 | after a push, whenever the client record holds a scalar sort value, the server record holds the same value; a local record without a sort field leaves the server's value alone, since the differ visits only the local record's fields (sync.py:148) |
| AgreeFacts.ResurrectSettles | app/src/endpoints/sync.py:86-87 | a revived record and the client's copy both hold the local sort value |
| AgreeFacts.LocalLoopAgrees | app/src/endpoints/sync.py:166-208 | with fresh keys, the local loop keeps every paired client and server record agreeing on the sort field |
| AgreeFacts.ScavengeAgrees | app/src/endpoints/sync.py:216-220 | the scavenger keeps that agreement |
| AgreeFacts.SortAgrees | app/src/endpoints/sync.py:120 | sorting keeps that agreement |
| AgreeFacts.NormaliserAgrees | app/src/endpoints/sync.py:112-140 | the normaliser keeps the agreement. When it renumbers, each paired client and server record both hold the client record's position |
| AgreeFacts.MergeAgrees | app/src/endpoints/sync.py:223-240 | with distinct local keys, a successful merge leaves every paired client and server record agreeing on the sort field. When renumbering applied, client record `i` and its server record both hold `i` |
| OutputFacts.StepAppends | app/src/endpoints/sync.py:183-208 | a step appends only flag-stripped records. A created record is the client's new entry and carries the local record's key |
| OutputFacts.LoopAppends | app/src/endpoints/sync.py:174-208 | the local loop appends only stripped records, and its created records carry the keys of a subsequence of the local records, in their order |
| OutputFacts.MergeOutputs | app/src/endpoints/sync.py:203-208 | after a merge the created records, which `__compare` appends to the server list, are stripped and in local order. Every client record that is not a scavenged server record is stripped |
| OutputFacts.CompareOutputs | app/src/endpoints/sync.py:223-242 | the list returned for the server is the server list as the merge left it, followed by the created records, which are stripped and in local order; every client record that is not a scavenged server record is stripped |

## Left out

- The endpoint `Sync.sync`, `__decode_json`, the network client, the
  application wiring and the timing prints. They do I/O only.
  `Settings.pull_url` and `Settings.push_url` belong to the transport.
- The differ's nested-dictionary branch (sync.py:156-157). A decoded value
  here is null, a boolean, an integer, a string or a list of records. There
  is no nested object and no float.
- Arrays whose elements are not objects, such as `"tags": ["a"]`. The model
  cannot represent them. In the source, such a field raises once the differ
  reaches it: a `TypeError` from `l_data[unique_key]` on a string or number
  (sync.py:177, 181), or an `AttributeError` from `.get` on a server-side
  string (sync.py:217). On the delete, drop and
  resurrect paths the differ never runs, so the field passes through
  unchanged.
- Python's equality across numeric types. `True == 1` holds in Python, and
  `True` and `1` hash to the same dictionary key, but `Bool(true) != Int(1)`
  here. This affects:
  - the differ's comparison (sync.py:160);
  - the sort value checks;
  - the unique-key search (sync.py:177, `SyncSpec.FindSlot`);
  - the index `server_data_by_unique` (sync.py:181 and 217-218,
    `SyncSpec.Register` and `SyncSpec.LoopServerData`).

  A local key `true` and a server key `1` are different keys here, where
  Python would match them.
- SyncSpec.SortingValueValidationAndCorrection: it fails on a boolean
  sort value among two or more records, where Python would sort and subtract
  it as a number. When the values are sortable but not numbers it fails
  without sorting, where Python raises after sorting; the outcome is the
  same error. Its own contract states only the lengths and the index it
  keeps. Its outcome is stated by `RenumberFacts.SortingNormalises` and
  `AgreeFacts.NormaliserAgrees`.
- The clock. Every stamp of one merge is the same `now`, where Python reads
  the clock at each stamp.
- Aliasing across nesting levels. A nested merge's records are values once
  it returns, so a later write to the same dictionary through an outer list
  is not modelled. Within one `__compare` call all sharing is tracked.
- Most step, loop, agreement, output and merge lemmas require
  `Config.WellFormed`. It asks for distinct names in three ways:
  - the unique key and the three flags are four different fields;
  - no optional field reuses one of the fields the differ skips (the unique
    key, the primary key and the flags);
  - no two optional fields share a name.

  `app/utils/config.py` accepts any names. With clashing names, for example
  a sort field named like the unique key, the stripping, the stamping and
  the renumbering overwrite one another, and these lemmas need not hold. The operations themselves are
  modelled for any settings.
- The merge-level lemmas (`LoopsCoherent`, `MergeLeavesOut`, `MergeAgrees`,
  `MergeOutputs`, `CompareOutputs`) require distinct unique keys among the
  local records. The agreement lemmas also require that no record repeats a
  field name; a decoded JSON object never repeats one. With a repeated local
  key the index entry is overwritten (sync.py:181), and these invariants
  need not hold.
- SyncSpec.Renumber: its own contract states only the lengths and the
  index the loop keeps. The loop's effect is stated by
  `RenumberFacts.RenumberKeeps`, `RenumberFacts.RenumberDense` and
  `RenumberFacts.RenumberTracks`.
- SyncSpec.Rewrite: its own contract states only the lengths and the index
  it keeps. Its effect is stated by `Coherence.RewriteEffect`.
- SyncSpec.Merge: its own contract states only the nesting bound. Its
  outcome is stated by `LoopFacts.LoopsCoherent`, `MergeFacts.MergeLeavesOut`,
  `MergeFacts.MergeScavenges`, `AgreeFacts.MergeAgrees` and
  `OutputFacts.MergeOutputs`.
- SyncSpec.LoopLocalData: its own contract states only the nesting bound.
  Its outcome is stated by `LoopFacts.LocalLoopCoherent`,
  `AgreeFacts.LocalLoopAgrees` and `OutputFacts.LoopAppends`.
- SyncSpec.PushOrPull: its own contract states only the shape of the
  result. Its effect on fields is stated by `StepFacts.PushFacts` and
  `StepFacts.PullFacts`.
- SyncSpec.EditOnServer: its own contract states only the shape of the
  result. Its effect on fields is stated by `DifferFacts.EditOnServerPushes`.
- SyncEngine.Sync.RenumberAt: it promises that one loop position's
  outcome agrees with the rest of the loop; `SyncEngine.Sync.Renumber`
  states the whole loop.
- Ordering of scavenged records relative to the client's records is stated
  before the normaliser runs (`SyncSpec.ScavengeSound`). Renumbering
  reorders the whole client list by sort value, as the code does.
