/**
  The list transformations behind the training store's operations
  (src/hooks/use-local-storage.ts). Each is a total function from the current
  list of trainings (and the operation's arguments, with the clock readings
  and the fresh id passed in) to the next list.
 */
module Trainings {
  import opened Types

  /** No training in `ts` carries `id`. */
  predicate IdAbsent(ts: seq<Training>, id: Id) {
    forall i :: 0 <= i < |ts| ==> ts[i].id != id
  }

  /** No two trainings in `ts` share an id. */
  predicate UniqueIds(ts: seq<Training>) {
    forall i, j :: 0 <= i < j < |ts| ==> ts[i].id != ts[j].id
  }

  /** `a` is `b` with some entries dropped and the rest in their original order. */
  ghost predicate IsSubsequence<T>(a: seq<T>, b: seq<T>)
    decreases |b|
  {
    a == [] ||
    (b != [] && ((a[0] == b[0] && IsSubsequence(a[1..], b[1..])) || IsSubsequence(a, b[1..])))
  }

  // ---------------------------------------------------------------- addTraining

  /** The record addTraining builds: the draft's fields, the fresh id and two clock readings. */
  function NewTraining(draft: TrainingDraft, id: Id, createdAt: Timestamp, updatedAt: Timestamp): (r: Training)
    ensures r.id == id && r.name == draft.name && r.sets == draft.sets
    ensures r.createdAt == createdAt && r.updatedAt == updatedAt
  {
    Training(id, draft.name, draft.sets, createdAt, updatedAt)
  }

  /** `[...trainings, newTraining]`. */
  function AppendTraining(ts: seq<Training>, draft: TrainingDraft, id: Id, createdAt: Timestamp, updatedAt: Timestamp): (r: seq<Training>)
    ensures |r| == |ts| + 1 && r[..|ts|] == ts
    ensures r[|ts|].id == id && r[|ts|].name == draft.name && r[|ts|].sets == draft.sets
    ensures r[|ts|].createdAt == createdAt && r[|ts|].updatedAt == updatedAt
    ensures UniqueIds(ts) && IdAbsent(ts, id) ==> UniqueIds(r)
  {
    ts + [NewTraining(draft, id, createdAt, updatedAt)]
  }

  // ------------------------------------------------------------- updateTraining

  /** `{...t, ...updates, updatedAt: now}`. */
  function Overlay(t: Training, updates: TrainingPatch, now: Timestamp): (r: Training)
    ensures r.updatedAt == now
    ensures r.id == if updates.id.Some? then updates.id.value else t.id
    ensures r.name == if updates.name.Some? then updates.name.value else t.name
    ensures r.sets == if updates.sets.Some? then updates.sets.value else t.sets
    ensures r.createdAt == if updates.createdAt.Some? then updates.createdAt.value else t.createdAt
  {
    Training(
      updates.id.GetOr(t.id),
      updates.name.GetOr(t.name),
      updates.sets.GetOr(t.sets),
      updates.createdAt.GetOr(t.createdAt),
      now)
  }

  /** A patch that supplies no field at all. */
  const NoChange := TrainingPatch(None, None, None, None, None)

  /** A patch that supplies only `sets`. */
  function SetsPatch(sets: seq<TrainingSet>): TrainingPatch {
    TrainingPatch(None, None, Some(sets), None, None)
  }

  /** An empty patch only refreshes the timestamp. */
  lemma OverlayNoChange(t: Training, now: Timestamp)
    ensures Overlay(t, NoChange, now) == t.(updatedAt := now)
  {
  }

  /** Applying a patch twice is the same as applying it once with the later reading. */
  lemma OverlayIdempotent(t: Training, updates: TrainingPatch, now: Timestamp, later: Timestamp)
    ensures Overlay(Overlay(t, updates, now), updates, later) == Overlay(t, updates, later)
  {
  }

  /** `trainings.map(t => t.id === id ? Overlay(t, updates, now) : t)`. */
  function UpdateMatching(ts: seq<Training>, id: Id, updates: TrainingPatch, now: Timestamp): (r: seq<Training>)
    ensures |r| == |ts|
    ensures forall i :: 0 <= i < |ts| && ts[i].id != id ==> r[i] == ts[i]
    ensures forall i :: 0 <= i < |ts| && ts[i].id == id ==> r[i] == Overlay(ts[i], updates, now)
    ensures IdAbsent(ts, id) ==> r == ts
  {
    if ts == [] then []
    else
      var head := if ts[0].id == id then Overlay(ts[0], updates, now) else ts[0];
      [head] + UpdateMatching(ts[1..], id, updates, now)
  }

  /** A patch without `id` keeps every id where it was, and so keeps ids unique. */
  lemma UpdateKeepsIds(ts: seq<Training>, id: Id, updates: TrainingPatch, now: Timestamp)
    requires updates.id.None?
    ensures forall i :: 0 <= i < |ts| ==> UpdateMatching(ts, id, updates, now)[i].id == ts[i].id
    ensures UniqueIds(ts) ==> UniqueIds(UpdateMatching(ts, id, updates, now))
  {
    var r := UpdateMatching(ts, id, updates, now);
    forall i | 0 <= i < |ts| ensures r[i].id == ts[i].id {
      if ts[i].id == id {
        assert r[i] == Overlay(ts[i], updates, now);
      }
    }
  }

  // ------------------------------------------------------------- deleteTraining

  /** How many entries of `ts` carry `id`. */
  function CountId(ts: seq<Training>, id: Id): (n: nat)
    ensures n <= |ts|
    ensures n == 0 <==> IdAbsent(ts, id)
  {
    if ts == [] then 0
    else (if ts[0].id == id then 1 else 0) + CountId(ts[1..], id)
  }

  /** `trainings.filter(t => t.id !== id)`. */
  function RemoveMatching(ts: seq<Training>, id: Id): (r: seq<Training>)
    ensures IdAbsent(r, id)
    ensures forall t {:trigger t in r} :: t in r <==> t in ts && t.id != id
    ensures |r| == |ts| - CountId(ts, id)
    ensures IdAbsent(ts, id) ==> r == ts
  {
    if ts == [] then []
    else
      var rest := RemoveMatching(ts[1..], id);
      if ts[0].id == id then rest
      else [ts[0]] + rest
  }

  /** Every entry with another id survives as often as it occurs in the input. */
  lemma {:induction false} RemoveKeepsMultiplicity(ts: seq<Training>, id: Id, t: Training)
    requires t.id != id
    ensures multiset(RemoveMatching(ts, id))[t] == multiset(ts)[t]
  {
    if ts != [] {
      RemoveKeepsMultiplicity(ts[1..], id, t);
      assert ts == [ts[0]] + ts[1..];
      assert multiset(ts) == multiset([ts[0]]) + multiset(ts[1..]);
      if ts[0].id != id {
        var rest := RemoveMatching(ts[1..], id);
        assert multiset([ts[0]] + rest) == multiset([ts[0]]) + multiset(rest);
      }
    }
  }

  /** The entries that remain keep their relative order. */
  lemma {:induction false} RemoveKeepsOrder(ts: seq<Training>, id: Id)
    ensures IsSubsequence(RemoveMatching(ts, id), ts)
  {
    if ts != [] {
      RemoveKeepsOrder(ts[1..], id);
      var rest := RemoveMatching(ts[1..], id);
      if ts[0].id != id {
        assert ([ts[0]] + rest)[1..] == rest;
      }
    }
  }

  /** Deleting never makes two entries share an id. */
  lemma {:induction false} RemoveKeepsUnique(ts: seq<Training>, id: Id)
    requires UniqueIds(ts)
    ensures UniqueIds(RemoveMatching(ts, id))
  {
    if ts != [] {
      var rest := RemoveMatching(ts[1..], id);
      RemoveKeepsUnique(ts[1..], id);
      if ts[0].id != id {
        forall j | 0 <= j < |rest| ensures rest[j].id != ts[0].id {
          assert rest[j] in rest;
          assert rest[j] in ts[1..];
          var k :| 0 <= k < |ts[1..]| && ts[1..][k] == rest[j];
          assert ts[k + 1] == rest[j];
        }
        var r := [ts[0]] + rest;
        forall a, b | 0 <= a < b < |r| ensures r[a].id != r[b].id {
          if a > 0 {
            assert r[a] == rest[a - 1] && r[b] == rest[b - 1];
          }
        }
      }
    }
  }

  /** When only `ts[k]` carries the id, deleting removes exactly that entry. */
  lemma {:induction false} RemoveOnly(ts: seq<Training>, id: Id, k: nat)
    requires k < |ts| && ts[k].id == id
    requires forall j :: 0 <= j < k ==> ts[j].id != id
    requires IdAbsent(ts[k + 1..], id)
    ensures RemoveMatching(ts, id) == ts[..k] + ts[k + 1..]
  {
    if k == 0 {
      assert RemoveMatching(ts, id) == ts[1..] by {
        assert ts[1..] == ts[k + 1..];
      }
      assert ts[..0] + ts[1..] == ts[1..];
    } else {
      var tail := ts[1..];
      assert RemoveMatching(tail, id) == tail[..k - 1] + tail[k..] by {
        assert tail[k..] == ts[k + 1..];
        RemoveOnly(tail, id, k - 1);
      }
      assert RemoveMatching(ts, id) == [ts[0]] + RemoveMatching(tail, id) by {
        assert ts[0].id != id;
      }
      assert [ts[0]] + (tail[..k - 1] + tail[k..]) == ts[..k] + ts[k + 1..];
    }
  }

  /** With unique ids, deleting a present id removes exactly that one entry. */
  lemma RemoveOne(ts: seq<Training>, id: Id, k: nat)
    requires UniqueIds(ts)
    requires k < |ts| && ts[k].id == id
    ensures RemoveMatching(ts, id) == ts[..k] + ts[k + 1..]
    ensures |RemoveMatching(ts, id)| == |ts| - 1
  {
    var after := ts[k + 1..];
    assert IdAbsent(after, id) by {
      forall i | 0 <= i < |after| ensures after[i].id != id {
        assert after[i] == ts[k + 1 + i];
      }
    }
    RemoveOnly(ts, id, k);
  }

  // ------------------------------------------------------------ addSetToTraining

  /** `trainings.find(t => t.id === id)`. */
  function Find(ts: seq<Training>, id: Id): (r: Option<Training>)
    ensures r.None? <==> IdAbsent(ts, id)
    ensures r.Some? ==> r.value in ts && r.value.id == id
  {
    if ts == [] then None
    else if ts[0].id == id then Some(ts[0])
    else Find(ts[1..], id)
  }

  /** find returns the first entry that carries the id. */
  lemma {:induction false} FindFirst(ts: seq<Training>, id: Id, k: nat)
    requires k < |ts| && ts[k].id == id
    requires forall j :: 0 <= j < k ==> ts[j].id != id
    ensures Find(ts, id) == Some(ts[k])
  {
    if k > 0 {
      FindFirst(ts[1..], id, k - 1);
    }
  }

  /** With unique ids, find returns the one entry that carries the id. */
  lemma FindUnique(ts: seq<Training>, id: Id, k: nat)
    requires UniqueIds(ts)
    requires k < |ts| && ts[k].id == id
    ensures Find(ts, id) == Some(ts[k])
  {
    FindFirst(ts, id, k);
  }

  /** The set addSetToTraining appends: the draft's fields and a clock reading as `date`. */
  function NewSet(draft: SetDraft, date: Timestamp): (r: TrainingSet)
    ensures r.reps == draft.reps && r.weight == draft.weight && r.notes == draft.notes
    ensures r.date == date
  {
    TrainingSet(draft.reps, draft.weight, draft.notes, date)
  }

  /**
    The list after addSetToTraining: unchanged on an unknown id, otherwise
    updateTraining with the found training's sets plus the new set.
   */
  function AppendSet(ts: seq<Training>, id: Id, draft: SetDraft, setDate: Timestamp, now: Timestamp): (r: seq<Training>)
    ensures |r| == |ts|
    ensures IdAbsent(ts, id) ==> r == ts
    ensures forall j :: 0 <= j < |ts| && ts[j].id != id ==> r[j] == ts[j]
    ensures forall j :: 0 <= j < |ts| && ts[j].id == id ==>
      r[j] == ts[j].(sets := Find(ts, id).value.sets + [NewSet(draft, setDate)], updatedAt := now)
  {
    match Find(ts, id)
    case None => ts
    case Some(t) => UpdateMatching(ts, id, SetsPatch(t.sets + [NewSet(draft, setDate)]), now)
  }

  /**
    With unique ids, a known id gains exactly one set, carrying the draft's
    fields and `setDate`, after its earlier sets; its timestamp is refreshed and
    every other training is untouched.
   */
  lemma AppendSetKnown(ts: seq<Training>, id: Id, draft: SetDraft, setDate: Timestamp, now: Timestamp, k: nat)
    requires UniqueIds(ts)
    requires k < |ts| && ts[k].id == id
    ensures var r := AppendSet(ts, id, draft, setDate, now);
      && |r| == |ts|
      && |r[k].sets| == |ts[k].sets| + 1
      && r[k].sets[..|ts[k].sets|] == ts[k].sets
      && r[k].sets[|ts[k].sets|] == TrainingSet(draft.reps, draft.weight, draft.notes, setDate)
      && r[k].id == id && r[k].name == ts[k].name && r[k].createdAt == ts[k].createdAt
      && r[k].updatedAt == now
      && (forall j :: 0 <= j < |ts| && j != k ==> r[j] == ts[j])
      && UniqueIds(r)
  {
    FindUnique(ts, id, k);
    var patch := SetsPatch(ts[k].sets + [NewSet(draft, setDate)]);
    UpdateKeepsIds(ts, id, patch, now);
  }

  /** From an empty list: add "Leg Day", then one set of 10 reps at weight 50. */
  lemma LegDayScenario(id: Id, t0: Timestamp, t1: Timestamp, t2: Timestamp)
    ensures var one := AppendTraining([], TrainingDraft("Leg Day", []), id, t0, t0);
      && one == [Training(id, "Leg Day", [], t0, t0)]
      && AppendSet(one, id, SetDraft(10, Some(50), None), t1, t2)
         == [Training(id, "Leg Day", [TrainingSet(10, Some(50), None, t1)], t0, t2)]
  {
    var one := AppendTraining([], TrainingDraft("Leg Day", []), id, t0, t0);
    AppendSetKnown(one, id, SetDraft(10, Some(50), None), t1, t2, 0);
  }
}
