# Gym Bro training store, modelled in Dafny

Gym Bro is a single-user workout tracker. Its one stateful component is the
training store hook (`useLocalStorage`). The hook keeps an in-memory list of
`Training` records. Each record has an id, a name, an ordered list of sets,
and `createdAt`/`updatedAt` timestamps. The hook mirrors that list into one
browser local-storage key, `gym-bro-trainings`. Its operations are
`addTraining`, `updateTraining`, `deleteTraining` and `addSetToTraining`.
Each one computes the next list, then replaces both the snapshot and the stored
text with `saveTrainings`, except that addSetToTraining with an unknown id
returns without saving. On mount, the hook loads the list from the key. It
falls back to an empty list if the key is missing, empty or unparsable.

The model has four modules:

- `Types` (`types.dfy`): the record shapes. `TrainingSet`, `Training`, the
  caller-supplied drafts (`TrainingDraft`, `SetDraft`) and `TrainingPatch`,
  which stands for `Partial<Training>`. Optional fields are `Option`s.
- `Trainings` (`trainings.dfy`): each list transformation as a total function
  over `seq<Training>`. Appending (`AppendTraining`), the `map` of
  updateTraining (`UpdateMatching`, which uses `Overlay` for the object
  spread), the `filter` of deleteTraining (`RemoveMatching`), the `find` of
  addSetToTraining (`Find`) and the whole of addSetToTraining (`AppendSet`).
  Lemmas about these functions state what the operations promise.
- `Persistence` (`persistence.dfy`): the storage key, the slot read
  (`Slot`), and the load fallback (`Load`). The text encoding is a `Codec`,
  a pair of functions. The store relies on one law about it (`Lawful`):
  decoding an encoded list gives the list back, and an encoded list is never
  the empty text.
- `Store` (`store.dfy`): the hook as the class `TrainingStore`. The
  `trainings` snapshot and the `storage` map are fields that its methods
  reassign. The class invariant `Valid()` says the snapshot always equals what
  loading the slot would produce, given that storage access never throws and
  that no other tab writes the key.

Effects are parameters. The fresh id (`crypto.randomUUID()`) is an argument,
and so are the clock readings (`new Date().toISOString()`). `addTraining`
reads the clock twice, once for `createdAt` and once for `updatedAt`, and the
model takes two readings. `addSetToTraining` reads it once for the set's
`date` and again inside `updateTraining` for `updatedAt`. The model takes
those two readings separately. `updateTraining` reads the clock once per
matching entry; the model uses one reading for all of them (see "Left out").

What the store's code does, and the model with it:

- The store has no per-set update and no per-set delete.
- `addTraining` returns nothing.
- `updateTraining` and `deleteTraining` rewrite the storage slot even when no
  training matches.
- A patch may replace a training's `id` and `createdAt`.

## Model

| member | source | states |
|---|---|---|
| `Trainings.NewTraining` | src/hooks/use-local-storage.ts:29-34 | the new record carries the fresh id, the draft's name and sets, and the two clock readings as `createdAt` and `updatedAt` |
| `Trainings.AppendTraining` | src/hooks/use-local-storage.ts:26-35 | the list grows by one; the earlier entries are unchanged and in order; the new last record has the draft's name and sets, the fresh id and the two clock readings; a fresh id keeps ids unique |
| `Trainings.Overlay` | src/hooks/use-local-storage.ts:40-46 | a field the patch supplies replaces the record's own; a field it omits is kept; `updatedAt` is the clock reading whether or not the patch supplies one |
| `Trainings.OverlayNoChange` | src/hooks/use-local-storage.ts:40-46 | overlaying an empty patch changes only `updatedAt`, which becomes the clock reading |
| `Trainings.OverlayIdempotent` | src/hooks/use-local-storage.ts:40-46 | overlaying the same patch twice equals overlaying it once with the later reading |
| `Trainings.UpdateMatching` | src/hooks/use-local-storage.ts:39-47 | length and order are preserved; each entry with another id is returned unchanged; each matching entry gets the patch overlaid; an unknown id leaves the list equal to the input |
| `Trainings.UpdateKeepsIds` | src/hooks/use-local-storage.ts:39-47 | a patch without `id` leaves every entry's id in place, so unique ids stay unique |
| `Trainings.CountId` | src/hooks/use-local-storage.ts:52-54 | the number of entries that carry the id; zero exactly when the id is absent |
| `Trainings.RemoveMatching` | src/hooks/use-local-storage.ts:52-54 | no entry with the id remains; an entry is in the result exactly when it was in the input with another id; the result is shorter by the number of entries with the id; an unknown id leaves the list equal to the input |
| `Trainings.RemoveKeepsMultiplicity` | src/hooks/use-local-storage.ts:52-54 | every entry with another id occurs in the result exactly as often as in the input |
| `Trainings.RemoveKeepsOrder` | src/hooks/use-local-storage.ts:52-54 | the remaining entries are a subsequence of the input (relative order kept); with the multiplicity lemma this fixes the result to the filtered list |
| `Trainings.RemoveKeepsUnique` | src/hooks/use-local-storage.ts:52-54 | deleting keeps ids unique |
| `Trainings.RemoveOnly` | src/hooks/use-local-storage.ts:52-54 | when exactly one entry carries the id, deleting removes that entry and keeps all others in order |
| `Trainings.RemoveOne` | src/hooks/use-local-storage.ts:51-55 | with unique ids, deleting a present id removes exactly that one entry; the list becomes one shorter, and the entries after it shift down by one |
| `Trainings.NewSet` | src/hooks/use-local-storage.ts:65-68 | the new set carries the given reps, weight and notes, and the clock reading as its `date` |
| `Trainings.Find` | src/hooks/use-local-storage.ts:62 | the lookup misses exactly when no entry has the id; a hit is an entry of the list with that id |
| `Trainings.FindFirst` | src/hooks/use-local-storage.ts:62 | the lookup returns the first entry with the id |
| `Trainings.FindUnique` | src/hooks/use-local-storage.ts:62 | with unique ids, the lookup returns the one entry with the id |
| `Trainings.AppendSet` | src/hooks/use-local-storage.ts:58-72 | the length is kept; an unknown id leaves the list unchanged (the early return at line 63); entries with another id are untouched; each entry with the id keeps its id, name and `createdAt`, and gets the found training's sets plus the new set and the later clock reading |
| `Trainings.AppendSetKnown` | src/hooks/use-local-storage.ts:58-72 | with unique ids, the target gains exactly one set, placed after its earlier sets; the new set has the given reps/weight/notes and its date is the clock reading; the target's id, name and `createdAt` are kept, and its `updatedAt` becomes the later reading; every other training is untouched; ids stay unique |
| `Trainings.LegDayScenario` | src/hooks/use-local-storage.ts:26-72 | starting empty, adding "Leg Day" and then a set of 10 reps at weight 50 yields exactly one training holding that one set |
| `Persistence.Slot` | src/hooks/use-local-storage.ts:10 | the slot is present exactly when the storage holds the key, and then it is that key's text |
| `Persistence.Load` | src/hooks/use-local-storage.ts:9-19 | the loaded list is either empty or exactly the parse of a non-empty slot; a successful parse is always used; a missing slot, an empty slot or a parse failure give the empty list |
| `Persistence.LoadAfterSave` | src/hooks/use-local-storage.ts:9-24 | loading the slot right after saving a list gives that list back |
| `Store.TrainingStore.constructor` | src/hooks/use-local-storage.ts:6-19 | mounting leaves storage as it was and sets the snapshot to the loaded list, which establishes the invariant |
| `Store.TrainingStore.SaveTrainings` | src/hooks/use-local-storage.ts:21-24 | the snapshot becomes the new list; only the store's key is rewritten, with its encoding; the invariant is kept |
| `Store.TrainingStore.AddTraining` | src/hooks/use-local-storage.ts:26-36 | the snapshot becomes the appended list and is persisted; a fresh id keeps ids unique |
| `Store.TrainingStore.UpdateTraining` | src/hooks/use-local-storage.ts:38-49 | the snapshot becomes the mapped list, which is persisted even when nothing matched |
| `Store.TrainingStore.DeleteTraining` | src/hooks/use-local-storage.ts:51-56 | the snapshot becomes the filtered list, which is persisted even when nothing matched |
| `Store.TrainingStore.AddSetToTraining` | src/hooks/use-local-storage.ts:58-73 | an unknown id changes neither the snapshot nor storage; a known id has its new sets applied through UpdateTraining and persisted |

## Left out

- React mechanics are not modelled: `useState`, `useEffect`, and render and batching timing. Mounting is the constructor, and the snapshot is a field.
- The text encoding is not modelled. `JSON.stringify`, `JSON.parse` and the
  `console.error` log are replaced by the abstract `Codec` and its `Lawful`
  round-trip law. A document that parses to something other than a list of
  trainings (for example `null`) is not modelled: the model treats decoding as
  either a list or a failure.
- `crypto.randomUUID()` and the clock are not modelled; their values are method parameters. Fresh-id uniqueness is a hypothesis of the lemmas and not a guarantee. Nothing is proved about timestamps being non-decreasing, because timestamps are opaque texts.
- Keys present with an explicit `undefined` value are not modelled. In
  JavaScript such a key would overwrite the field during the spread. A
  `TrainingPatch` field is either absent or carries a value.
- `Weight` is modelled as an opaque integer. JavaScript numbers are floats: a fractional weight or `NaN` from `Number(...)` on form input is not modelled. `reps` is an unbounded integer for the same reason.
- The view layer is not part of this model: `App.tsx`, the dialogs and the UI registry. That covers the empty-name guard in the add dialog and the detail dialog showing a stale snapshot.
- Trainings.UpdateMatching: one clock reading stands for all matching entries, while `updateTraining` reads the clock once per matching entry inside the `map`. This is exact when ids are unique; with duplicate ids (possible in a loaded slot) the source may give the matches different `updatedAt` values.
- Trainings.AppendSet: the same single clock reading stands for every entry with the id, because addSetToTraining goes through updateTraining, which reads the clock once per matching entry. This is exact when ids are unique. Store.TrainingStore.UpdateTraining and Store.TrainingStore.AddSetToTraining pass this on through their ensures.
- Store.TrainingStore.SaveTrainings: storage reads and writes are assumed never to throw. In the code, `setTrainings` runs before `localStorage.setItem`, so a failed write (for example, quota exceeded) would leave the new snapshot in memory, the old list in the slot, and the exception with the caller; the invariant `Valid()` does not hold in that case. `getItem` during the load is likewise assumed not to throw.
- Store.TrainingStore: the storage slot is assumed to be written only by this store, that is, by one tab. Local storage is shared by every tab of the origin, and the hook reads the key only when it mounts and never listens for changes. So another tab's save would leave this tab's snapshot different from the slot, and this tab's next save would overwrite the other tab's list. Other writers are not modelled.
