/**
  The workout editor dialog (`VoiceRecorder` component): the working list of exercise
  sets and its edits, the merge of a voice-extraction result, the save-time validation,
  and the recording / processing flags.
*/
module VoiceRecorder {
  import opened Wrappers
  import opened Seqs
  import opened Text
  import opened WorkoutTypes

  /** The title a successful extraction puts in the title field. */
  const VOICE_SESSION_TITLE: string := "Voice Workout Session"

  /** The message shown when a failed extraction carries no error text. */
  const DEFAULT_EXTRACTION_ERROR: string := "Enter Valid query"

  /** A change made through one input of a set's form: the field and its new value. */
  datatype Edit =
    | EditName(name: string)
    | EditMuscleGroup(group: string)
    | EditWeight(weightText: string)
    | EditReps(count: int)

  /** Why `handleSave` returned without calling `onSave`, in the order it checks. */
  datatype SaveError = MissingTitle | NoExerciseSets | NoValidSets

  /** The extraction service's answer: `success`, and optionally `sets` and `error`. */
  datatype LLMResponse = LLMResponse(success: bool, sets: Option<seq<ExerciseSet>>, error: Option<string>)

  /** The capture lifecycle the two flags `isRecording` and `isProcessing` encode. */
  datatype Phase = Idle | Recording | Processing

  /** A blank row (`createEmptySet`): empty text fields, zero reps, so never savable as is. */
  function CreateEmptySet(id: string): (s: ExerciseSet)
    ensures s.id == id
    ensures s.exerciseName == [] && s.muscleGroup == [] && s.weight == [] && s.reps == 0
    ensures !IsValidSet(s)
  {
    ExerciseSet(id, "", "", "", 0)
  }

  /** `{ ...set, [field]: value }`: the edited field takes the value, every other field stays. */
  function ApplyEdit(s: ExerciseSet, e: Edit): (r: ExerciseSet)
    ensures r.id == s.id
    ensures r.exerciseName == (if e.EditName? then e.name else s.exerciseName)
    ensures r.muscleGroup == (if e.EditMuscleGroup? then e.group else s.muscleGroup)
    ensures r.weight == (if e.EditWeight? then e.weightText else s.weight)
    ensures r.reps == (if e.EditReps? then e.count else s.reps)
  {
    match e
    case EditName(v) => s.(exerciseName := v)
    case EditMuscleGroup(v) => s.(muscleGroup := v)
    case EditWeight(v) => s.(weight := v)
    case EditReps(v) => s.(reps := v)
  }

  /** The list after `updateSet(id, field, value)`: same length and order, only rows with that id edited. */
  function UpdatedSets(sets: seq<ExerciseSet>, id: string, e: Edit): (r: seq<ExerciseSet>)
    ensures |r| == |sets|
    ensures forall i :: 0 <= i < |r| ==> r[i].id == sets[i].id
    ensures forall i :: 0 <= i < |r| && sets[i].id != id ==> r[i] == sets[i]
    ensures forall i :: 0 <= i < |r| && sets[i].id == id ==> r[i] == ApplyEdit(sets[i], e)
  {
    if sets == [] then []
    else [if sets[0].id == id then ApplyEdit(sets[0], e) else sets[0]] + UpdatedSets(sets[1..], id, e)
  }

  /** An edit addressed to an id no row has leaves the list as it was. */
  lemma UpdatedSetsAbsent(sets: seq<ExerciseSet>, id: string, e: Edit)
    requires forall i :: 0 <= i < |sets| ==> sets[i].id != id
    ensures UpdatedSets(sets, id, e) == sets
  {
  }

  /** The list after `deleteSet(id)`: every row with that id gone, the others kept in order. */
  function WithoutSet(sets: seq<ExerciseSet>, id: string): (r: seq<ExerciseSet>)
    ensures forall x :: x in r <==> x in sets && x.id != id
    ensures forall x :: multiset(r)[x] == if x.id != id then multiset(sets)[x] else 0
    ensures IsSubseq(r, sets)
  {
    FilterIsSubseq(sets, KeyIsNot(SetId, id));
    FilterCounts(sets, KeyIsNot(SetId, id));
    Filter(sets, KeyIsNot(SetId, id))
  }

  /** Deleting an id no row has changes nothing. */
  lemma WithoutSetAbsent(sets: seq<ExerciseSet>, id: string)
    requires forall i :: 0 <= i < |sets| ==> sets[i].id != id
    ensures WithoutSet(sets, id) == sets
  {
    FilterKeepsAll(sets, KeyIsNot(SetId, id));
  }

  /**
    With unique ids, deleting the row at `i` removes that row alone; so when the delete
    button is offered (more than one row) a row always remains.
  */
  lemma WithoutSetRemovesOne(sets: seq<ExerciseSet>, i: nat)
    requires UniqueKeys(sets, SetId) && i < |sets|
    ensures WithoutSet(sets, sets[i].id) == sets[..i] + sets[i + 1..]
    ensures |WithoutSet(sets, sets[i].id)| == |sets| - 1
    ensures |sets| > 1 ==> WithoutSet(sets, sets[i].id) != []
  {
    var id := sets[i].id;
    forall j | 0 <= j < |sets| && j != i
      ensures KeyIsNot(SetId, id)(sets[j])
    {
      if j < i {
        assert SetId(sets[j]) != SetId(sets[i]);
      } else {
        assert SetId(sets[i]) != SetId(sets[j]);
      }
    }
    FilterRemovesOne(sets, KeyIsNot(SetId, id), i);
  }

  /** With unique ids and more than one row, deleting any row's id leaves a row. */
  lemma DeleteLeavesRow(sets: seq<ExerciseSet>)
    ensures |sets| > 1 && UniqueKeys(sets, SetId) ==>
              forall i :: 0 <= i < |sets| ==> WithoutSet(sets, sets[i].id) != []
  {
    if |sets| > 1 && UniqueKeys(sets, SetId) {
      forall i | 0 <= i < |sets|
        ensures WithoutSet(sets, sets[i].id) != []
      {
        WithoutSetRemovesOne(sets, i);
      }
    }
  }

  /** The `validSets` filter of `handleSave`: the valid rows, each as often as before, in order. */
  function ValidSets(sets: seq<ExerciseSet>): (r: seq<ExerciseSet>)
    ensures r == [] <==> forall i :: 0 <= i < |sets| ==> !IsValidSet(sets[i])
    ensures forall x :: x in r <==> x in sets && IsValidSet(x)
    ensures forall x :: multiset(r)[x] == if IsValidSet(x) then multiset(sets)[x] else 0
    ensures IsSubseq(r, sets)
  {
    var valid := Filter(sets, IsValidSet);
    assert IsSubseq(valid, sets) by { FilterIsSubseq(sets, IsValidSet); }
    assert valid == [] <==> forall i :: 0 <= i < |sets| ==> !IsValidSet(sets[i]) by {
      FilterEmptyIff(sets, IsValidSet);
    }
    assert forall x :: multiset(valid)[x] == (if IsValidSet(x) then multiset(sets)[x] else 0) &&
                       (x in valid <==> x in sets && IsValidSet(x)) by {
      FilterCounts(sets, IsValidSet);
    }
    valid
  }

  /**
    `handleSave`: refuses a blank title, then an empty list, then a list without a valid
    set; otherwise hands over the trimmed title and exactly the valid sets, in order.
  */
  function Finalize(date: string, title: string, sets: seq<ExerciseSet>): (r: Result<WorkoutDraft, SaveError>)
    ensures r.Failure? <==> IsBlank(title) || sets == [] || forall i :: 0 <= i < |sets| ==> !IsValidSet(sets[i])
    ensures r == Failure(MissingTitle) <==> IsBlank(title)
    ensures r == Failure(NoExerciseSets) <==> !IsBlank(title) && sets == []
    ensures r.Success? ==> r.value.date == date && r.value.title == Trim(title) && !IsBlank(r.value.title)
    ensures r.Success? ==> r.value.exerciseSets != []
    ensures r.Success? ==> forall x :: x in r.value.exerciseSets <==> x in sets && IsValidSet(x)
    ensures r.Success? ==> forall x :: multiset(r.value.exerciseSets)[x] == if IsValidSet(x) then multiset(sets)[x] else 0
    ensures r.Success? ==> IsSubseq(r.value.exerciseSets, sets)
  {
    if IsBlank(title) then Failure(MissingTitle)
    else if sets == [] then Failure(NoExerciseSets)
    else
      var valid := ValidSets(sets);
      if valid == [] then Failure(NoValidSets)
      else
        TrimIdempotent(title);
        Success(WorkoutDraft(date, Trim(title), valid))
  }

  /** `mockResponse.error || "Enter Valid query"`: a missing or empty error text gives the default. */
  function FailureMessage(error: Option<string>): (m: string)
    ensures m != []
    ensures error.Some? && error.value != [] ==> m == error.value
    ensures error.None? || error.value == [] ==> m == DEFAULT_EXTRACTION_ERROR
  {
    if error.Some? && error.value != [] then error.value else DEFAULT_EXTRACTION_ERROR
  }

  /** The state of one open editor dialog. */
  class Recorder {
    var exerciseSets: seq<ExerciseSet>
    var title: string
    var isRecording: bool
    var isProcessing: bool
    var recordingTime: nat
    var errorMessage: string

    /**
      Never recording and processing at once; no error is shown while processing; row ids
      are unique (they come from `crypto.randomUUID`).
    */
    ghost predicate Valid()
      reads this
    {
      !(isRecording && isProcessing) &&
      (isProcessing ==> errorMessage == []) &&
      UniqueKeys(exerciseSets, SetId)
    }

    function CurrentPhase(): Phase
      reads this
    {
      if isRecording then Recording else if isProcessing then Processing else Idle
    }

    /** The record button is rendered only when not recording, and disabled while processing. */
    predicate StartEnabled(): (b: bool)
      reads this
      ensures b <==> CurrentPhase() == Idle
    {
      !isRecording && !isProcessing
    }

    /** The save button is disabled while processing. */
    predicate SaveEnabled(): (b: bool)
      reads this
      ensures !(isRecording && isProcessing) ==> (b <==> CurrentPhase() != Processing)
    {
      !isProcessing
    }

    /**
      Each row's delete button is rendered only when there is more than one row; with unique
      ids, whichever row's button is pressed, a row remains.
    */
    predicate DeleteOffered(): (b: bool)
      reads this
      ensures b && UniqueKeys(exerciseSets, SetId) ==>
                forall i :: 0 <= i < |exerciseSets| ==> WithoutSet(exerciseSets, exerciseSets[i].id) != []
    {
      DeleteLeavesRow(exerciseSets);
      |exerciseSets| > 1
    }

    /** A freshly opened dialog, after the mount effect has added its one blank row. */
    constructor (firstSetId: string)
      ensures Valid() && CurrentPhase() == Idle
      ensures exerciseSets == [CreateEmptySet(firstSetId)]
      ensures title == [] && recordingTime == 0 && errorMessage == []
    {
      exerciseSets := [CreateEmptySet(firstSetId)];
      title := "";
      isRecording := false;
      isProcessing := false;
      recordingTime := 0;
      errorMessage := "";
    }

    /** `addNewSet`: one blank row appended, earlier rows untouched. */
    method AddNewSet(id: string)
      requires Valid()
      requires forall s :: s in exerciseSets ==> s.id != id
      modifies this`exerciseSets
      ensures Valid()
      ensures exerciseSets == old(exerciseSets) + [CreateEmptySet(id)]
      ensures |exerciseSets| == |old(exerciseSets)| + 1
    {
      exerciseSets := exerciseSets + [CreateEmptySet(id)];
      forall i, j | 0 <= i < j < |exerciseSets|
        ensures SetId(exerciseSets[i]) != SetId(exerciseSets[j])
      {
        if j == |exerciseSets| - 1 {
          assert exerciseSets[i] in old(exerciseSets);
        } else {
          assert SetId(old(exerciseSets)[i]) != SetId(old(exerciseSets)[j]);
        }
      }
    }

    /** `updateSet(id, field, value)`: only the addressed rows change, and only in that field. */
    method UpdateSet(id: string, e: Edit)
      requires Valid()
      modifies this`exerciseSets
      ensures Valid()
      ensures exerciseSets == UpdatedSets(old(exerciseSets), id, e)
      ensures (forall i :: 0 <= i < |old(exerciseSets)| ==> old(exerciseSets)[i].id != id) ==>
                exerciseSets == old(exerciseSets)
    {
      ghost var before := exerciseSets;
      exerciseSets := UpdatedSets(exerciseSets, id, e);
      forall i, j | 0 <= i < j < |exerciseSets|
        ensures SetId(exerciseSets[i]) != SetId(exerciseSets[j])
      {
        assert SetId(before[i]) != SetId(before[j]);
      }
      if forall i :: 0 <= i < |before| ==> before[i].id != id {
        UpdatedSetsAbsent(before, id, e);
      }
    }

    /** `deleteSet(id)`: drops the rows with that id; with the button's guard a row remains. */
    method DeleteSet(id: string)
      requires Valid()
      modifies this`exerciseSets
      ensures Valid()
      ensures exerciseSets == WithoutSet(old(exerciseSets), id)
      ensures old(DeleteOffered()) ==> exerciseSets != []
    {
      ghost var before := exerciseSets;
      exerciseSets := WithoutSet(exerciseSets, id);
      FilterUniqueKeys(before, KeyIsNot(SetId, id), SetId);
      if |before| > 1 {
        if i :| 0 <= i < |before| && before[i].id == id {
          WithoutSetRemovesOne(before, i);
        } else {
          WithoutSetAbsent(before, id);
        }
      }
    }

    /** The title input's `onChange`. */
    method EditTitle(t: string)
      requires Valid()
      modifies this`title
      ensures Valid() && title == t
    {
      title := t;
    }

    /**
      `startRecording`: when the microphone is granted, recording starts with the clock at
      zero and the error cleared; when it is refused, nothing changes.
    */
    method StartRecording(deviceAvailable: bool)
      requires Valid() && StartEnabled()
      modifies this`isRecording, this`recordingTime, this`errorMessage
      ensures Valid()
      ensures deviceAvailable ==>
                isRecording && recordingTime == 0 && errorMessage == [] && CurrentPhase() == Recording
      ensures !deviceAvailable ==>
                isRecording == old(isRecording) && recordingTime == old(recordingTime) &&
                errorMessage == old(errorMessage) && CurrentPhase() == Idle
    {
      if deviceAvailable {
        isRecording := true;
        recordingTime := 0;
        errorMessage := "";
      }
    }

    /** One firing of the one-second interval, which runs only while recording. */
    method Tick()
      requires Valid() && isRecording
      modifies this`recordingTime
      ensures Valid() && recordingTime == old(recordingTime) + 1
    {
      recordingTime := recordingTime + 1;
    }

    /**
      `stopRecording`: effective only while recording; it ends recording and starts
      processing with the error cleared.
    */
    method StopRecording()
      requires Valid()
      modifies this`isRecording, this`isProcessing, this`errorMessage
      ensures Valid()
      ensures old(isRecording) ==>
                !isRecording && isProcessing && errorMessage == [] && CurrentPhase() == Processing
      ensures !old(isRecording) ==>
                isRecording == old(isRecording) && isProcessing == old(isProcessing) &&
                errorMessage == old(errorMessage)
    {
      if isRecording {
        isRecording := false;
        isProcessing := true;
        errorMessage := "";
      }
    }

    /**
      The end of `simulateLLMProcessing`: a success carrying sets replaces the whole list and
      sets the title; anything else keeps list and title and shows the error; processing ends.
    */
    method CompleteProcessing(response: LLMResponse)
      requires Valid() && isProcessing
      requires response.success && response.sets.Some? ==> UniqueKeys(response.sets.value, SetId)
      modifies this`exerciseSets, this`title, this`isProcessing, this`errorMessage
      ensures Valid() && !isProcessing && CurrentPhase() == Idle
      ensures response.success && response.sets.Some? ==>
                exerciseSets == response.sets.value && title == VOICE_SESSION_TITLE && errorMessage == []
      ensures !(response.success && response.sets.Some?) ==>
                exerciseSets == old(exerciseSets) && title == old(title) &&
                errorMessage == FailureMessage(response.error) && errorMessage != []
    {
      if response.success && response.sets.Some? {
        exerciseSets := response.sets.value;
        title := VOICE_SESSION_TITLE;
      } else {
        errorMessage := FailureMessage(response.error);
      }
      isProcessing := false;
    }

    /** `handleSave`, reachable only while the save button is enabled; it changes no state. */
    method HandleSave(date: string) returns (r: Result<WorkoutDraft, SaveError>)
      requires SaveEnabled()
      ensures r == Finalize(date, title, exerciseSets)
    {
      r := Finalize(date, title, exerciseSets);
    }
  }
}
