/**
  The records the editor and the workout list share: one performed set, the workout the
  editor hands over on save (no id, no timestamp), and the stored workout.
*/
module WorkoutTypes {
  import opened Text

  /** One set; `weight` is free text with its unit, `reps` whatever the reps field parsed to. */
  datatype ExerciseSet = ExerciseSet(
    id: string,
    exerciseName: string,
    muscleGroup: string,
    weight: string,
    reps: int)

  /** What the editor passes to `onSave`: a workout without `id` and `timestamp`. */
  datatype WorkoutDraft = WorkoutDraft(date: string, title: string, exerciseSets: seq<ExerciseSet>)

  /** A stored workout; `date` is the yyyy-MM-dd string, `timestamp` milliseconds since the epoch. */
  datatype Workout = Workout(
    id: string,
    date: string,
    title: string,
    exerciseSets: seq<ExerciseSet>,
    timestamp: int)

  /** A set can be saved when name, muscle group and weight are not blank and reps are positive. */
  predicate IsValidSet(s: ExerciseSet)
  {
    !IsBlank(s.exerciseName) && !IsBlank(s.muscleGroup) && !IsBlank(s.weight) && s.reps > 0
  }

  /**
    Validity without trimming: name, muscle group and weight each hold a character that is
    not whitespace, and reps are positive.
  */
  lemma ValidSetIff(s: ExerciseSet)
    ensures IsValidSet(s) <==>
              HasNonSpace(s.exerciseName) && HasNonSpace(s.muscleGroup) && HasNonSpace(s.weight) &&
              s.reps > 0
  {
    BlankIff(s.exerciseName);
    BlankIff(s.muscleGroup);
    BlankIff(s.weight);
  }

  function SetId(s: ExerciseSet): (id: string)
  {
    s.id
  }

  function WorkoutId(w: Workout): (id: string)
  {
    w.id
  }
}
