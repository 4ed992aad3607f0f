# Output area model of a notebook code cell

This project models `OutputAreaModel`, the container that collects the outputs
of a code cell while the kernel runs it, together with the synchronous part of
`executeCode`, which feeds the kernel's IOPub messages into it.

The records are the four code-cell output kinds of the Jupyter Notebook Format
v4: `stream`, `execute_result`, `display_data` and `error`. The model keeps
them in an ordered list with three behaviours:

- **Merge on add.** A `stream` record on the same channel (`name`) as the last
  stored entry, when that entry is itself a `stream` record, is written over
  that entry. Only the list's last entry is ever merged with: a stream record
  that follows, say, a `display_data` entry starts a new entry even when an
  earlier stream entry has the same channel. The entry's text becomes
  the old text followed by the new text, and every other field comes from the
  new record.
- **Deferred clear.** `clear(true)` only marks a clear as pending. The list is
  emptied at the start of the next `add`.
- **Filtering by kind.** A record of any other `output_type` is dropped, and
  `add` returns -1.

Before any merge, stream text that arrives as an array of line fragments is
joined with `"\n"`.

Files:

- `nbformat.dfy` (module `Nbformat`) holds the record type, the four kinds, the
  newline join and its inverse `Split`, and the normalisation of stream text.
- `output_list.dfy` (module `OutputList`) holds the effect of one `add` on the
  list as a function (`AddTo`), a run of adds (`AddAll`), and the two list
  invariants. `WellFormed` says every entry is of a known kind and stored
  stream text is one string. `Coalesced` says no two neighbouring entries are
  streams on the same channel. It also holds the per-channel text lemmas.
- `output_area.dfy` (module `OutputArea`) holds the class `OutputAreaModel`
  with fields `items`, `clearNext` and `disposed`. Its methods are proved
  against `AddTo`. The file also holds the IOPub handler `OnIOPub` and
  `ExecuteCode`, whose loop is proved against `AddAll`.

The main results:

- Every `add` keeps both list invariants.
- A run of adds loses and reorders nothing on any channel: the stored text of
  a channel is the concatenation of that channel's incoming text, in order.
- The newline join is lossless on non-empty arrays of newline-free fragments:
  splitting the joined text gives back the fragments. The empty array is the
  exception, because `[]` and `[""]` both join to the empty text.

## Model

| member | source | states |
|---|---|---|
| `Nbformat.Normalize` | src/notebook/output-area/model.ts:101-106 | A stream record's text becomes one string with the same flattened content. Kind, name and other fields are kept. Non-stream records, and records whose text is already a string, are returned unchanged. |
| `Nbformat.SplitOfJoin` | src/notebook/output-area/model.ts:103-105 | Joining a non-empty array of newline-free fragments with `"\n"` loses nothing: splitting the joined text at newlines gives back the fragments. The array must be non-empty because `[]` and `[""]` join to the same empty text. |
| `Nbformat.JoinOfSplit` | src/notebook/output-area/model.ts:104 | Every string is the `"\n"`-join of its own lines, so the join reaches every text. |
| `OutputList.AddTo` | src/notebook/output-area/model.ts:108-132 | Returns -1 exactly when the kind is not one of the four, and then the list is unchanged. Otherwise the returned index is a valid index of the new list and the entries before it are unchanged. On a merge (last entry and new record both streams with equal `name`), the length is unchanged and the index is the last one. The entry there has text old text + new text with no separator, and kind, name and other fields from the new record. Without a merge, the normalised record is appended and the old length is returned. |
| `OutputList.AddKeepsInvariant` | src/notebook/output-area/model.ts:108-132 | From a well-formed, coalesced list, an add yields a list that is again well formed and coalesced. |
| `OutputList.AddKeepsStreamText` | src/notebook/output-area/model.ts:108-127 | One add appends the record's text to its own channel's stored text. It leaves every other channel's text as it was. |
| `OutputList.AddAllKeepsStreamText` | src/notebook/output-area/model.ts:85-132 | After any run of adds from an empty list, each channel's stored text equals the concatenation of that channel's incoming text, in call order. |
| `OutputList.AddAllInvariant` | src/notebook/output-area/model.ts:108-132 | Any run of adds from an empty list leaves it well formed and coalesced, with no more entries than records added. |
| `OutputList.StdoutThenStderr` | src/notebook/output-area/model.ts:108-127 | Adding stream `stdout` "a", then `stdout` "b", then `stderr` "c" gives one entry `"a"`, then one entry `"ab"`, then two entries. |
| `OutputList.StreamAfterDisplayStaysSeparate` | src/notebook/output-area/model.ts:108-113 | Adding stdout "a", a `display_data` record, then stdout "b" leaves three entries: the second stdout record is not merged into the earlier stdout entry, because the last entry is not a stream. |
| `OutputArea.OutputAreaModel.constructor` | src/notebook/output-area/model.ts:33-36 | A new model is empty, not disposed, and has no pending clear. |
| `OutputArea.OutputAreaModel.Length` | src/notebook/output-area/model.ts:51-53 | The length is the number of stored records, and 0 on a disposed model. |
| `OutputArea.OutputAreaModel.IsDisposed` | src/notebook/output-area/model.ts:61-63 | A disposed model reads length 0. |
| `OutputArea.OutputAreaModel.Dispose` | src/notebook/output-area/model.ts:68-75 | Afterwards the model is disposed, holds no records and reads length 0, whatever its state before, so a second call changes nothing. A pending clear flag is left as it was. |
| `OutputArea.OutputAreaModel.Get` | src/notebook/output-area/model.ts:80-82 | Returns the record stored at the index. |
| `OutputArea.OutputAreaModel.Add` | src/notebook/output-area/model.ts:91-133 | Carries out a pending clear and resets the flag. The new list and return value are then `AddTo` of the list the add starts from: empty if a clear was pending, the stored list otherwise. After a pending clear, a known kind leaves exactly the one new record at index 0; an unknown kind leaves the list empty and returns -1. Keeps `Valid` (well formed, coalesced, empty once disposed) and leaves the model live. |
| `OutputArea.OutputAreaModel.Clear` | src/notebook/output-area/model.ts:140-146 | `wait` defaults to false, as in the source. With `wait`, it returns an empty sequence, leaves the list unchanged and sets the pending flag. Without `wait`, it empties the list, returns the previous records in order, and leaves the pending flag as it was. Keeps `Valid`. |
| `OutputArea.Record` | src/notebook/output-area/model.ts:176-178 | The record built from a message is its content with `output_type` replaced by the message's `msg_type`; name, text and the other fields are the content's. |
| `OutputArea.Records` | src/notebook/output-area/model.ts:175-181 | The records of a run of messages, in arrival order. Messages without content yield none, so there are never more records than messages. |
| `OutputArea.RecordsCount` | src/notebook/output-area/model.ts:177-179 | When every message has content, each yields exactly one record, and record i is built from message i. |
| `OutputArea.OnIOPub` | src/notebook/output-area/model.ts:175-181 | A message without content changes nothing. A message with content is added as its record, and the pending clear, if any, is carried out. Keeps `Valid`, and leaves the model live. |
| `OutputArea.ExecuteCode` | src/notebook/output-area/model.ts:164-181 | Empties the outputs before any message is handled. The final list is the result of adding, in arrival order, each message's content typed by its `msg_type`. The model ends valid. The pending-clear flag survives only when no record was added. |

## Left out

- The asynchronous part of `executeCode` is not modelled: the execute request with its fixed flags, the `Promise`, `kernel.execute` and the `onReply` resolution. The kernel transport is outside the model, so the IOPub messages of one execution are a parameter, given in arrival order.
- Change signals are not modelled: `changed`, `_onListChanged`, `clearSignalData` and the private signal. Their payloads come from the observable-list and signalling libraries, which are not part of this model.
- The JSON deep copy in `add` has no counterpart. Dafny datatype values are immutable, so a stored record can never alias the caller's.
- The source sets `output_type` on the message's own `content` object in `executeCode`. The model builds a new record instead, so that side effect on the message is not captured.
- `OutputArea.OutputAreaModel.Add` requires a model that is not disposed, and so do `Clear` without `wait`, `OnIOPub` and `ExecuteCode`. In the source both dereference the released list (`null`) and throw. The model states this as a precondition rather than modelling the exception. These calls are therefore not silent no-ops on a disposed model.
- `OutputArea.OutputAreaModel.Get` requires an index inside the list and a model that is not disposed. Reading outside the list belongs to the observable list, which is not part of this model. The one such read in `add`, at index -1 of an empty list, is modelled as "no last entry".
- A stream record without a `text` field is not modelled: every record carries a text. For non-stream records the text is carried along untouched.
- Merged text reads the previous entry's text through `Flat`. Stored stream text is always one string (`WellFormed`), so the JavaScript case of concatenating an array with a string never arises.
