/** Record shapes of the workout tracker (src/types/index.ts). */
module Types {

  /**
    An optional field: `None` is a key that is absent. In a stored or
    submitted set an explicit `undefined` behaves the same; in a patch it
    would not (see `TrainingPatch`).
   */
  datatype Option<T> = None | Some(value: T) {
    /** The value if present, otherwise `default`. */
    function GetOr(default: T): T {
      if Some? then value else default
    }
  }

  /** An opaque identifier; the application draws it from `crypto.randomUUID()`. */
  type Id = string

  /** An instant, as the text `Date.prototype.toISOString` produces. */
  type Timestamp = string

  /** A weight as the form hands it over; the store only copies it. */
  type Weight = int

  /** One recorded set within a training. */
  datatype TrainingSet = TrainingSet(reps: int, weight: Option<Weight>, notes: Option<string>, date: Timestamp)

  /** A named training session with its sets in insertion order. */
  datatype Training = Training(id: Id, name: string, sets: seq<TrainingSet>, createdAt: Timestamp, updatedAt: Timestamp)

  /** What a caller of addTraining supplies: a training without id and timestamps. */
  datatype TrainingDraft = TrainingDraft(name: string, sets: seq<TrainingSet>)

  /** What a caller of addSetToTraining supplies: a set without its date. */
  datatype SetDraft = SetDraft(reps: int, weight: Option<Weight>, notes: Option<string>)

  /**
    A partial training (`Partial<Training>`): each present field replaces the
    record's own. A key present with the value `undefined` is not representable.
   */
  datatype TrainingPatch = TrainingPatch(
    id: Option<Id>,
    name: Option<string>,
    sets: Option<seq<TrainingSet>>,
    createdAt: Option<Timestamp>,
    updatedAt: Option<Timestamp>)
}
