/**
  The workout list of the main page (`Index`): adding a saved workout with a new id and
  timestamp, deleting by id, the workouts of the selected date, and the two counters.
*/
module IndexPage {
  import opened Wrappers
  import opened Seqs
  import opened WorkoutTypes
  import VoiceRecorder

  /** The fields a stored workout shares with the draft it was made from. */
  function DraftOf(w: Workout): (d: WorkoutDraft)
  {
    WorkoutDraft(w.date, w.title, w.exerciseSets)
  }

  /** `{ ...workoutData, id, timestamp }`: the draft's fields plus the assigned id and time. */
  function NewWorkout(draft: WorkoutDraft, id: string, timestamp: int): (w: Workout)
    ensures DraftOf(w) == draft
    ensures w.id == id && w.timestamp == timestamp
  {
    Workout(id, draft.date, draft.title, draft.exerciseSets, timestamp)
  }

  function OnDate(date: string): (p: Workout -> bool)
  {
    (w: Workout) => w.date == date
  }

  function Since(cutoff: int): (p: Workout -> bool)
  {
    (w: Workout) => w.timestamp >= cutoff
  }

  /** The list after `deleteWorkout(id)`: every workout with that id gone, the rest in order. */
  function WithoutWorkout(ws: seq<Workout>, id: string): (r: seq<Workout>)
    ensures forall w :: w in r <==> w in ws && w.id != id
    ensures forall w :: multiset(r)[w] == if w.id != id then multiset(ws)[w] else 0
    ensures IsSubseq(r, ws)
  {
    FilterIsSubseq(ws, KeyIsNot(WorkoutId, id));
    FilterCounts(ws, KeyIsNot(WorkoutId, id));
    Filter(ws, KeyIsNot(WorkoutId, id))
  }

  /** `todaysWorkouts`: exactly the workouts dated `date`, in stored order. */
  function TodaysWorkouts(ws: seq<Workout>, date: string): (r: seq<Workout>)
    ensures forall w :: w in r <==> w in ws && w.date == date
    ensures forall w :: multiset(r)[w] == if w.date == date then multiset(ws)[w] else 0
    ensures IsSubseq(r, ws)
  {
    FilterIsSubseq(ws, OnDate(date));
    FilterCounts(ws, OnDate(date));
    Filter(ws, OnDate(date))
  }

  /** `getTotalWorkouts`: every stored workout counts, each as often as it is stored. */
  function TotalWorkouts(ws: seq<Workout>): (n: nat)
    ensures n == |multiset(ws)|
    ensures n == 0 <==> ws == []
  {
    |ws|
  }

  /** The workouts `getThisWeekWorkouts` counts: timestamp at or after the cutoff, in order. */
  function RecentWorkouts(ws: seq<Workout>, cutoff: int): (r: seq<Workout>)
    ensures forall w :: w in r <==> w in ws && w.timestamp >= cutoff
    ensures forall w :: multiset(r)[w] == if w.timestamp >= cutoff then multiset(ws)[w] else 0
  {
    FilterCounts(ws, Since(cutoff));
    Filter(ws, Since(cutoff))
  }

  /** `getThisWeekWorkouts`, with "one week ago" given as a millisecond cutoff. */
  function ThisWeekWorkouts(ws: seq<Workout>, cutoff: int): (n: nat)
    ensures n <= TotalWorkouts(ws)
  {
    |RecentWorkouts(ws, cutoff)|
  }

  /** A later cutoff never counts more workouts. */
  lemma ThisWeekMonotone(ws: seq<Workout>, earlier: int, later: int)
    requires earlier <= later
    ensures ThisWeekWorkouts(ws, later) <= ThisWeekWorkouts(ws, earlier)
  {
    FilterMonotone(ws, Since(later), Since(earlier));
  }

  /** Deleting an id no workout has changes nothing. */
  lemma WithoutWorkoutAbsent(ws: seq<Workout>, id: string)
    requires forall i :: 0 <= i < |ws| ==> ws[i].id != id
    ensures WithoutWorkout(ws, id) == ws
  {
    FilterKeepsAll(ws, KeyIsNot(WorkoutId, id));
  }

  /** With unique ids, deleting the id of the workout at `i` removes that workout alone. */
  lemma WithoutWorkoutRemovesOne(ws: seq<Workout>, i: nat)
    requires UniqueKeys(ws, WorkoutId) && i < |ws|
    ensures WithoutWorkout(ws, ws[i].id) == ws[..i] + ws[i + 1..]
    ensures TotalWorkouts(WithoutWorkout(ws, ws[i].id)) == TotalWorkouts(ws) - 1
  {
    var id := ws[i].id;
    forall j | 0 <= j < |ws| && j != i
      ensures KeyIsNot(WorkoutId, id)(ws[j])
    {
      if j < i {
        assert WorkoutId(ws[j]) != WorkoutId(ws[i]);
      } else {
        assert WorkoutId(ws[i]) != WorkoutId(ws[j]);
      }
    }
    FilterRemovesOne(ws, KeyIsNot(WorkoutId, id), i);
  }

  /** Adding a workout under a fresh id and then deleting that id gives back the old list. */
  lemma AddThenDeleteRestores(ws: seq<Workout>, draft: WorkoutDraft, id: string, timestamp: int)
    requires forall i :: 0 <= i < |ws| ==> ws[i].id != id
    ensures WithoutWorkout(ws + [NewWorkout(draft, id, timestamp)], id) == ws
  {
    var w := NewWorkout(draft, id, timestamp);
    FilterAppend(ws, [w], KeyIsNot(WorkoutId, id));
    FilterKeepsAll(ws, KeyIsNot(WorkoutId, id));
    FilterSingleton(w, KeyIsNot(WorkoutId, id));
  }

  /**
    Adding a workout raises the total by one and appends it to the list of its own date;
    the list of every other date is unchanged.
  */
  lemma AddWorkoutCounts(ws: seq<Workout>, w: Workout, date: string)
    ensures TotalWorkouts(ws + [w]) == TotalWorkouts(ws) + 1
    ensures TodaysWorkouts(ws + [w], date) ==
              if w.date == date then TodaysWorkouts(ws, date) + [w] else TodaysWorkouts(ws, date)
    ensures |TodaysWorkouts(ws + [w], w.date)| == |TodaysWorkouts(ws, w.date)| + 1
  {
    FilterAppend(ws, [w], OnDate(date));
    FilterSingleton(w, OnDate(date));
    FilterAppend(ws, [w], OnDate(w.date));
    FilterSingleton(w, OnDate(w.date));
  }

  /**
    What a successful save puts on the page: the new workout is listed last on the day it
    was saved for, and every set it carries passes the editor's validity check.
  */
  lemma SavedWorkoutIsListed(ws: seq<Workout>, date: string, title: string,
                             sets: seq<ExerciseSet>, id: string, timestamp: int)
    requires VoiceRecorder.Finalize(date, title, sets).Success?
    ensures var w := NewWorkout(VoiceRecorder.Finalize(date, title, sets).value, id, timestamp);
            TodaysWorkouts(ws + [w], date) == TodaysWorkouts(ws, date) + [w] &&
            forall s :: s in w.exerciseSets ==> IsValidSet(s)
  {
    var w := NewWorkout(VoiceRecorder.Finalize(date, title, sets).value, id, timestamp);
    AddWorkoutCounts(ws, w, date);
  }

  /** The main page's state: the stored workouts, the picked date and whether the editor is open. */
  class WorkoutLog {
    var workouts: seq<Workout>
    var selectedDate: string
    var showAddWorkout: bool

    /** Ids are unique: each comes from `crypto.randomUUID` when the workout is added. */
    ghost predicate Valid()
      reads this
    {
      UniqueKeys(workouts, WorkoutId)
    }

    /** An empty log showing `today` with the editor closed. */
    constructor (today: string)
      ensures Valid() && workouts == [] && selectedDate == today && !showAddWorkout
    {
      workouts := [];
      selectedDate := today;
      showAddWorkout := false;
    }

    /** The date picker's `onSelect`: a picked day becomes the selection, a cleared pick is ignored. */
    method SelectDate(picked: Option<string>)
      requires Valid()
      modifies this`selectedDate
      ensures Valid()
      ensures picked.Some? ==> selectedDate == picked.value
      ensures picked.None? ==> selectedDate == old(selectedDate)
    {
      if picked.Some? {
        selectedDate := picked.value;
      }
    }

    /** The "Add Workout" button and the editor's `onClose`. */
    method SetEditorOpen(open: bool)
      requires Valid()
      modifies this`showAddWorkout
      ensures Valid() && showAddWorkout == open
    {
      showAddWorkout := open;
    }

    /** `addWorkout`: appends the draft under a fresh id and the given time, and closes the editor. */
    method AddWorkout(draft: WorkoutDraft, id: string, timestamp: int)
      requires Valid()
      requires forall w :: w in workouts ==> w.id != id
      modifies this`workouts, this`showAddWorkout
      ensures Valid() && !showAddWorkout
      ensures workouts == old(workouts) + [NewWorkout(draft, id, timestamp)]
      ensures TotalWorkouts(workouts) == TotalWorkouts(old(workouts)) + 1
    {
      ghost var before := workouts;
      workouts := workouts + [NewWorkout(draft, id, timestamp)];
      showAddWorkout := false;
      forall i, j | 0 <= i < j < |workouts|
        ensures WorkoutId(workouts[i]) != WorkoutId(workouts[j])
      {
        if j == |workouts| - 1 {
          assert workouts[i] in before;
        } else {
          assert WorkoutId(before[i]) != WorkoutId(before[j]);
        }
      }
    }

    /** `deleteWorkout(id)`: removes the workout with that id, if any. */
    method DeleteWorkout(id: string)
      requires Valid()
      modifies this`workouts
      ensures Valid()
      ensures workouts == WithoutWorkout(old(workouts), id)
      ensures (forall w :: w in old(workouts) ==> w.id != id) ==> workouts == old(workouts)
    {
      ghost var before := workouts;
      workouts := WithoutWorkout(workouts, id);
      FilterUniqueKeys(before, KeyIsNot(WorkoutId, id), WorkoutId);
      if forall w :: w in before ==> w.id != id {
        WithoutWorkoutAbsent(before, id);
      }
    }
  }
}
