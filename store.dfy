/**
  The training store hook (src/hooks/use-local-storage.ts) as an object: the
  in-memory list of trainings and the browser storage it mirrors that list
  into. Clock readings and fresh ids are parameters of the operations.
 */
module Store {
  import opened Types
  import opened Trainings
  import opened Persistence

  class TrainingStore {
    /** The text encoding used for the storage slot. */
    const codec: Codec
    /** The in-memory snapshot (`trainings` state). */
    var trainings: seq<Training>
    /** The browser's local storage, key by key. */
    var storage: map<string, string>

    /**
      The snapshot is always what loading the slot would give: after the load
      effect by construction, after every mutation because the slot holds the
      encoding of the new list.
     */
    ghost predicate Valid()
      reads this
    {
      Lawful(codec) && trainings == Load(codec, Slot(storage))
    }

    /** Mounting the hook: start from an empty list, then run the load effect. */
    constructor (codec: Codec, storage: map<string, string>)
      requires Lawful(codec)
      ensures Valid()
      ensures this.codec == codec && this.storage == storage
      ensures trainings == Load(codec, Slot(storage))
    {
      this.codec := codec;
      this.storage := storage;
      trainings := Load(codec, Slot(storage));
    }

    /** Replace the snapshot and write its encoding to the slot; no other key changes. */
    method SaveTrainings(newTrainings: seq<Training>)
      requires Valid()
      modifies this
      ensures Valid()
      ensures trainings == newTrainings
      ensures storage == old(storage)[StorageKey := codec.encode(newTrainings)]
      ensures Slot(storage) == Some(codec.encode(trainings))
    {
      LoadAfterSave(codec, storage, newTrainings);
      trainings := newTrainings;
      storage := storage[StorageKey := codec.encode(newTrainings)];
    }

    /** Append a new training with the fresh id `id`, read the clock twice for its timestamps, and save. */
    method AddTraining(training: TrainingDraft, id: Id, createdAt: Timestamp, updatedAt: Timestamp)
      requires Valid()
      modifies this
      ensures Valid()
      ensures trainings == AppendTraining(old(trainings), training, id, createdAt, updatedAt)
      ensures storage == old(storage)[StorageKey := codec.encode(trainings)]
      ensures UniqueIds(old(trainings)) && IdAbsent(old(trainings), id) ==> UniqueIds(trainings)
    {
      var newTraining := NewTraining(training, id, createdAt, updatedAt);
      SaveTrainings(trainings + [newTraining]);
    }

    /** Overlay `updates` on every training with `id`, stamp it with `now`, and save. */
    method UpdateTraining(id: Id, updates: TrainingPatch, now: Timestamp)
      requires Valid()
      modifies this
      ensures Valid()
      ensures trainings == UpdateMatching(old(trainings), id, updates, now)
      ensures storage == old(storage)[StorageKey := codec.encode(trainings)]
    {
      var updatedTrainings := UpdateMatching(trainings, id, updates, now);
      SaveTrainings(updatedTrainings);
    }

    /** Drop every training with `id` and save. */
    method DeleteTraining(id: Id)
      requires Valid()
      modifies this
      ensures Valid()
      ensures trainings == RemoveMatching(old(trainings), id)
      ensures storage == old(storage)[StorageKey := codec.encode(trainings)]
    {
      var filteredTrainings := RemoveMatching(trainings, id);
      SaveTrainings(filteredTrainings);
    }

    /**
      Append a set dated `setDate` to the training with `trainingId`, through
      UpdateTraining stamped `now`; an unknown id returns before anything is
      changed or saved.
     */
    method AddSetToTraining(trainingId: Id, newSetFields: SetDraft, setDate: Timestamp, now: Timestamp)
      requires Valid()
      modifies this
      ensures Valid()
      ensures trainings == AppendSet(old(trainings), trainingId, newSetFields, setDate, now)
      ensures IdAbsent(old(trainings), trainingId) ==> unchanged(this)
      ensures !IdAbsent(old(trainings), trainingId) ==>
        storage == old(storage)[StorageKey := codec.encode(trainings)]
    {
      var training := Find(trainings, trainingId);
      if training.None? {
        return;
      }
      var newSet := NewSet(newSetFields, setDate);
      UpdateTraining(trainingId, SetsPatch(training.value.sets + [newSet]), now);
    }
  }
}
