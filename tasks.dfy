/** Task-list construction (nimble/nimble.py:112-117, and the same loop for
    plain-text input at 199-203): one task per chunk, named after its 1-based
    position and the audio output path. */
module Tasks {
  import opened Wrappers
  import opened Decimal

  /** The tuple `(destination, model, voice, input)` handed to a worker.
      `model` and `voice` are passed through untouched, so their types are
      left open. */
  datatype Task<M, V> = Task(destination: string, model: M, voice: V, input: string)

  /** The two parts a destination name is made of. */
  datatype Part = Part(id: nat, audioPath: string)

  /** The name `f"part-{id}-{audioPath}"`. */
  function Destination(id: nat, audioPath: string): (d: string)
    ensures |d| > |audioPath| + 6
    ensures d[..5] == "part-" && d[|d| - |audioPath|..] == audioPath
  {
    "part-" + Digits(id) + "-" + audioPath
  }

  /** Length of the run of digits at the front of `s`. */
  function DigitRun(s: string): (k: nat)
    ensures k <= |s| && AllDigits(s[..k])
    ensures k < |s| ==> !IsDigit(s[k])
    decreases |s|
  {
    if s == [] || !IsDigit(s[0]) then 0
    else
      var k := 1 + DigitRun(s[1..]);
      assert s[..k] == [s[0]] + s[1..][..k - 1];
      k
  }

  /** Reads a destination name back into its number and base path: the
      prefix `part-`, a non-empty run of digits, a `-`, then the path. */
  function ParseDestination(d: string): (r: Option<Part>)
    ensures r.Some? ==> |d| > |r.value.audioPath| + 6 &&
                        d[|d| - |r.value.audioPath|..] == r.value.audioPath
  {
    if |d| < 5 || d[..5] != "part-" then None
    else
      var k := DigitRun(d[5..]);
      if k == 0 || 5 + k >= |d| || d[5 + k] != '-' then None
      else
        assert d[5..5 + k] == d[5..][..k];
        Some(Part(ValueOf(d[5..5 + k]), d[6 + k..]))
  }

  /** Round trip: the number and the base path can be read back from every
      destination name. */
  lemma ParseDestinationInverts(id: nat, audioPath: string)
    ensures ParseDestination(Destination(id, audioPath)) == Some(Part(id, audioPath))
  {
    var digits := Digits(id);
    var d := Destination(id, audioPath);
    var tail := d[5..];
    assert tail == digits + "-" + audioPath;
    assert forall i :: 0 <= i < |digits| ==> tail[i] == digits[i];
    assert tail[|digits|] == '-';
    var k := DigitRun(tail);
    assert k == |digits|;
    assert d[5..5 + k] == digits;
    assert d[6 + k..] == audioPath;
    ValueOfDigits(id);
  }

  /** Different positions or different base paths never give the same name. */
  lemma DestinationInjective(i: nat, p: string, j: nat, q: string)
    ensures Destination(i, p) == Destination(j, q) <==> i == j && p == q
  {
    ParseDestinationInverts(i, p);
    ParseDestinationInverts(j, q);
  }

  /** `tasks` is the task list for `chunks`: one task per chunk, in order,
      task i (from 1) named `part-i-audioPath` and carrying the model, the
      voice and chunk i unchanged. */
  ghost predicate IsTaskList<M, V>(tasks: seq<Task<M, V>>, chunks: seq<string>,
                                   audioPath: string, model: M, voice: V)
  {
    |tasks| == |chunks| &&
    forall i :: 0 <= i < |tasks| ==>
      tasks[i] == Task(Destination(i + 1, audioPath), model, voice, chunks[i])
  }

  /** The loop with the `audio_id` counter that fills `tasklist`. */
  method BuildTasks<M, V>(chunks: seq<string>, audioPath: string, model: M, voice: V)
    returns (tasks: seq<Task<M, V>>)
    ensures IsTaskList(tasks, chunks, audioPath, model, voice)
  {
    tasks := [];
    var audioId := 0;
    for i := 0 to |chunks|
      invariant audioId == i
      invariant IsTaskList(tasks, chunks[..i], audioPath, model, voice)
    {
      audioId := audioId + 1;
      tasks := tasks + [Task(Destination(audioId, audioPath), model, voice, chunks[i])];
    }
    assert chunks[..|chunks|] == chunks;
  }

  /** The inputs of a task list, in order. */
  function Inputs<M, V>(tasks: seq<Task<M, V>>): (inputs: seq<string>)
    ensures |inputs| == |tasks|
    ensures forall i :: 0 <= i < |tasks| ==> inputs[i] == tasks[i].input
  {
    if tasks == [] then [] else [tasks[0].input] + Inputs(tasks[1..])
  }

  /** A task list carries the chunks unchanged and in order. */
  lemma TaskInputs<M, V>(tasks: seq<Task<M, V>>, chunks: seq<string>,
                         audioPath: string, model: M, voice: V)
    requires IsTaskList(tasks, chunks, audioPath, model, voice)
    ensures Inputs(tasks) == chunks
  {
  }

  /** Each destination of a task list reads back as its own 1-based position
      and the base path. */
  lemma TaskDestinationsParse<M, V>(tasks: seq<Task<M, V>>, chunks: seq<string>,
                                    audioPath: string, model: M, voice: V)
    requires IsTaskList(tasks, chunks, audioPath, model, voice)
    ensures forall i :: 0 <= i < |tasks| ==>
              ParseDestination(tasks[i].destination) == Some(Part(i + 1, audioPath))
  {
    forall i | 0 <= i < |tasks|
      ensures ParseDestination(tasks[i].destination) == Some(Part(i + 1, audioPath))
    {
      ParseDestinationInverts(i + 1, audioPath);
    }
  }

  /** The destinations within one task list are pairwise distinct. */
  lemma TaskDestinationsDistinct<M, V>(tasks: seq<Task<M, V>>, chunks: seq<string>,
                                       audioPath: string, model: M, voice: V)
    requires IsTaskList(tasks, chunks, audioPath, model, voice)
    ensures forall i, j :: 0 <= i < j < |tasks| ==>
              tasks[i].destination != tasks[j].destination
  {
    forall i, j | 0 <= i < j < |tasks|
      ensures tasks[i].destination != tasks[j].destination
    {
      DestinationInjective(i + 1, audioPath, j + 1, audioPath);
    }
  }

  /** Determinism: the chunks, path, model and voice fix the task list.
      `IsTaskList` pins every element, so this needs no proof steps; it is
      stated for callers that compare two lists. */
  lemma TaskListUnique<M, V>(t1: seq<Task<M, V>>, t2: seq<Task<M, V>>, chunks: seq<string>,
                             audioPath: string, model: M, voice: V)
    requires IsTaskList(t1, chunks, audioPath, model, voice)
    requires IsTaskList(t2, chunks, audioPath, model, voice)
    ensures t1 == t2
  {
  }
}
