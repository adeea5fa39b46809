/** The two branches of the script, from extracted text to the task list
    handed to the worker pool (nimble/nimble.py:28-117 for a PDF,
    164-203 for a plain-text file). */
module Nimble {
  import opened Wrappers
  import Decimal
  import opened Strings
  import opened Chunker
  import opened Tasks
  import opened Pages

  /** The PDF branch: select and concatenate the pages, cut the text into
      chunks of `MaxChunkChars`, and build one task per chunk. */
  method PdfTasks<M, V>(pageTexts: seq<string>, range: Option<PageRange>,
                        audioPath: string, model: M, voice: V)
    returns (tasks: seq<Task<M, V>>)
    ensures IsTaskList(tasks, Chunks(SelectedText(pageTexts, range), MaxChunkChars),
                       audioPath, model, voice)
  {
    var pdfStr := ExtractText(pageTexts, range);
    var inputList := ChunkText(pdfStr, MaxChunkChars);
    tasks := BuildTasks(inputList, audioPath, model, voice);
  }

  /** The plain-text branch: the file's text goes through the same chunking
      and task building. */
  method TxtTasks<M, V>(txtStr: string, audioPath: string, model: M, voice: V)
    returns (tasks: seq<Task<M, V>>)
    ensures IsTaskList(tasks, Chunks(txtStr, MaxChunkChars), audioPath, model, voice)
  {
    var inputList := ChunkText(txtStr, MaxChunkChars);
    tasks := BuildTasks(inputList, audioPath, model, voice);
  }

  /** What a task list built from a text promises: the inputs, in order,
      concatenate back to the text; each input is non-empty and at most
      `MaxChunkChars` long, all but the last exactly that long; there are
      `ceil(|text| / MaxChunkChars)` tasks (none for an empty text); and the
      destinations are pairwise distinct, each ending with `audioPath`. */
  lemma TaskListOfText<M, V>(tasks: seq<Task<M, V>>, text: string,
                             audioPath: string, model: M, voice: V)
    requires IsTaskList(tasks, Chunks(text, MaxChunkChars), audioPath, model, voice)
    ensures Join(Inputs(tasks)) == text
    ensures WellSized(Inputs(tasks), MaxChunkChars)
    ensures |tasks| == (|text| + MaxChunkChars - 1) / MaxChunkChars
    ensures |tasks| == 0 <==> text == ""
    ensures forall i, j :: 0 <= i < j < |tasks| ==>
              tasks[i].destination != tasks[j].destination
    ensures forall i :: 0 <= i < |tasks| ==>
              var d := tasks[i].destination;
              |d| >= |audioPath| && d[|d| - |audioPath|..] == audioPath
  {
    var chunks := Chunks(text, MaxChunkChars);
    TaskInputs(tasks, chunks, audioPath, model, voice);
    JoinChunks(text, MaxChunkChars);
    ChunkSizes(text, MaxChunkChars);
    ChunkCount(text, MaxChunkChars);
    TaskDestinationsDistinct(tasks, chunks, audioPath, model, voice);
  }

  /** The two branches agree: a PDF whose selected pages concatenate to the
      same string as a text file gets the same task list. The agreement comes
      from the structure of `PdfTasks` and `TxtTasks`, which both run
      `ChunkText` and then `BuildTasks`; their contracts meet here, and the
      lemma itself only notes that `IsTaskList` fixes the list, which Dafny
      sees without proof steps. */
  lemma SameTextSameTasks<M, V>(pdfTasks: seq<Task<M, V>>, txtTasks: seq<Task<M, V>>,
                                pageTexts: seq<string>, range: Option<PageRange>,
                                txtStr: string, audioPath: string, model: M, voice: V)
    requires IsTaskList(pdfTasks, Chunks(SelectedText(pageTexts, range), MaxChunkChars),
                        audioPath, model, voice)
    requires IsTaskList(txtTasks, Chunks(txtStr, MaxChunkChars), audioPath, model, voice)
    requires SelectedText(pageTexts, range) == txtStr
    ensures pdfTasks == txtTasks
  {
  }

  /** The reference run: 10,000 characters written to `out` give three tasks,
      `part-1-out`, `part-2-out` and `part-3-out`, with inputs of 4072, 4072
      and 1856 characters. */
  lemma TenThousandCharTasks<M, V>(tasks: seq<Task<M, V>>, text: string, model: M, voice: V)
    requires |text| == 10000
    requires IsTaskList(tasks, Chunks(text, MaxChunkChars), "out", model, voice)
    ensures |tasks| == 3
    ensures tasks[0].destination == "part-1-out" && |tasks[0].input| == 4072
    ensures tasks[1].destination == "part-2-out" && |tasks[1].input| == 4072
    ensures tasks[2].destination == "part-3-out" && |tasks[2].input| == 1856
  {
    TenThousandChars(text);
    assert Decimal.Digits(1) == "1" && Decimal.Digits(2) == "2" && Decimal.Digits(3) == "3";
  }
}
