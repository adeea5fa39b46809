# Nimble: text-to-tasks pipeline

Nimble turns a PDF or a plain-text file into spoken audio. It sends the text
to a remote text-to-speech service, one request per piece. This project models
how the script gets from the extracted text to the list of requests, and
proves what that list guarantees.

- **Page selection** (`Pages`). Pages are numbered 1..n in reader order. When
  a range `first <= last` is given, only the pages in `[first, last]` are
  kept. If no page was kept, or no range was given, or `first > last`, every
  page is used. The kept texts are concatenated in page order.
- **Chunking** (`Chunker`). The text is cut into consecutive slices of
  `MaxChunkChars` = 4072 characters; the last slice holds the remainder. The
  size is a parameter `maxChars > 0` in the reference definition `Chunks`.
- **Task building** (`Tasks`). Chunk *i* (from 1) becomes the task
  `("part-" + i + "-" + audioPath, model, voice, chunk)`. `Decimal` renders
  `i` as Python's `f"{i}"` does.
- **Both branches** (`Nimble`). The PDF branch and the TXT branch run the
  same chunking and task building. `Nimble.SameTextSameTasks` proves they
  agree on equal text.

The Python dictionaries `pdf_dict` and `range_dict` are each filled once with
fresh keys and read in insertion order. They are modelled as lists of
`Page(number, text)` entries in that order. `model` and `voice` are passed
through untouched, so they are type parameters. The page range arrives as
already-parsed integers (`Option<PageRange>`); the page texts and the text
file's contents are inputs.

The script keeps no record of which requests succeeded: it prints each
exception as the requests complete. That part is outside the model (see
below).

## Model

| member | source | states |
|---|---|---|
| `Pages.NumberPages` | nimble/nimble.py:62-68 | one entry per page, in reader order, entry i numbered i+1 with page i's text |
| `Pages.FilterRange` | nimble/nimble.py:71-76 | the entries kept are those of the reference filter `InRange`: number in `[first, last]`, original order |
| `Pages.InRangeMembers` | nimble/nimble.py:74-76 | an entry is kept if and only if it is an input entry whose number lies in `[first, last]` |
| `Pages.InRangeOfNumbered` | nimble/nimble.py:64-76 | on pages numbered 1..n, the kept pages are exactly the contiguous run from `first` to `last`, clipped to the document, in ascending order |
| `Pages.ConcatPages` | nimble/nimble.py:79-84 | the result is the entries' texts concatenated in entry order |
| `Pages.ExtractText` | nimble/nimble.py:58-84 | `pdf_str` equals the independent definition `SelectedText`: the pages from `first` to `last` when the range is well ordered and meets the document, every page otherwise |
| `Chunker.ChunkText` | nimble/nimble.py:104-110 | the stepped slicing loop yields the reference chunks, which concatenate back to the text, are non-empty, at most `maxChars` long, and all but the last exactly `maxChars` long |
| `Chunker.JoinChunks` | nimble/nimble.py:108-110 | round trip: joining the chunks in order gives back exactly the text |
| `Chunker.ChunkSizes` | nimble/nimble.py:108-110 | every chunk has length in `1..maxChars`; every chunk but the last has length `maxChars` |
| `Chunker.ChunkCountBounds` | nimble/nimble.py:105-110 | no chunk for the empty text; otherwise `n` chunks with `(n-1)*maxChars < len <= n*maxChars` |
| `Chunker.ChunkCount` | nimble/nimble.py:105-110 | the number of chunks is `ceil(len / maxChars)` |
| `Chunker.TenThousandChars` | nimble/nimble.py:108-110 | 10,000 characters give chunks of 4072, 4072 and 1856 characters |
| `Decimal.Digits` | nimble/nimble.py:116 | the numeral of `audio_id` is non-empty, all digits, with a leading zero only for 0 |
| `Decimal.ValueOfDigits` | nimble/nimble.py:116 | reading the numeral back gives the number |
| `Decimal.DigitsInjective` | nimble/nimble.py:116 | two numbers have the same numeral if and only if they are equal |
| `Tasks.Destination` | nimble/nimble.py:116 | the name starts with `part-` and ends with the audio path |
| `Tasks.ParseDestination` | nimble/nimble.py:116 | a name that parses ends with the path it yields |
| `Tasks.ParseDestinationInverts` | nimble/nimble.py:116 | every name `part-{i}-{path}` parses back to `i` and `path` |
| `Tasks.DestinationInjective` | nimble/nimble.py:116 | two names are equal if and only if their numbers and their paths are |
| `Tasks.BuildTasks` | nimble/nimble.py:113-117 | one task per chunk in order; task i (from 1) is named `part-i-path` and carries model, voice and chunk i unchanged |
| `Tasks.TaskInputs` | nimble/nimble.py:113-117 | the inputs of the task list are the chunks, in order |
| `Tasks.TaskDestinationsParse` | nimble/nimble.py:113-117 | each destination reads back as its own position and the audio path |
| `Tasks.TaskDestinationsDistinct` | nimble/nimble.py:113-117 | destinations within one task list are pairwise distinct |
| `Tasks.TaskListUnique` | nimble/nimble.py:113-117 | the chunks, path, model and voice determine the task list |
| `Nimble.PdfTasks` | nimble/nimble.py:58-117 | the PDF branch's task list is the task list of the chunks of `SelectedText` |
| `Nimble.TxtTasks` | nimble/nimble.py:185-203 | the TXT branch's task list is the task list of the chunks of the file's text |
| `Nimble.TaskListOfText` | nimble/nimble.py:104-117 | a task list from a text joins back to the text, has well-sized inputs, `ceil(len/4072)` tasks (none for an empty text), and distinct destinations ending with the audio path |
| `Nimble.SameTextSameTasks` | nimble/nimble.py:191-203 | the TXT branch and the PDF branch give the same task list for the same text |
| `Nimble.TenThousandCharTasks` | nimble/nimble.py:108-117 | 10,000 characters to `out` give `part-1-out`, `part-2-out`, `part-3-out` with inputs of 4072, 4072 and 1856 characters |

## Left out

- Argument parsing and the API-key check (nimble/nimble.py:11-26, 236-238): library and environment plumbing. `model` and `voice` are opaque values here.
- Converting the `--range` strings with `int()` (nimble/nimble.py:73-75): the bounds are taken as integers. A non-numeric bound, which raises in the script, is not modelled.
- File existence and permission checks, `open`/`read`, `PdfReader` and `extract_text` (nimble/nimble.py:51-55, 65-67, 179-189): I/O and a foreign library. Page texts and the file's text are inputs.
- `download` and the `audio.speech.create` / `stream_to_file` calls (nimble/nimble.py:133-142, 205-214): a network client that writes files.
- The `ThreadPoolExecutor(max_workers=8)` fan-out and the `as_completed` loop (nimble/nimble.py:145-158, 217-230): concurrency. The loop catches each future's exception and prints it, so one failed request does not stop the others; it keeps no report of outcomes.
- `print`, `tqdm` and `sys.exit` (throughout): user-facing output.
- Characters are Python code points; the model's strings are sequences of `char` and do no encoding.
