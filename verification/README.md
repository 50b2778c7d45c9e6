# Verified model of the homecluster scripts

A Dafny 4.11 model of the parts of this repository that keep state across
failures, with proofs of what they promise. `dafny verify dfyconfig.toml`
checks everything.

**NAS log pipeline** (`scripts/nas_file_logs_core.py`,
`scripts/nas_file_logs_collector.py`). A poll reads a framed snapshot of eleven
rotating logs, cuts the new bytes into records, drops those known to be normal,
puts the rest into an outbox that is saved with the state, sends the batches to
Loki, and only then saves and uses the successor state.

| module | content |
|---|---|
| `Basics`, `Json`, `Decimal`, `Sources` | shared types; JSON text and its length in UTF-8 bytes; decimal numerals; the table of log files |
| `JsonReader`, `Saved` | reading JSON text back; what the documents of streams and states determine |
| `Framing` | the snapshot format |
| `Records` | cutting bytes into lines and records |
| `Rotation` | finding the cursor's file again; what is read across rotations |
| `States` | the durable state and its validation |
| `Rendering` | one record as a JSON line, and the truncation loop |
| `Prepare` | the outbox, as functions and as the loops of the source |
| `Batches` | the size bound |
| `Emission` | what an outbox holds, its cursors, conservation, quiescence |
| `Contents` | which records an outbox carries and which it counts, and what its successor says |
| `Collector` | the poll loop as a class over a state file and Loki, and the function of the whole world it is equal to |
| `Delivery` | the invariant of every run |
| `Guarantees` | the main results over every run |

A run is any sequence of polls and restarts. Every poll is given the way each of
its steps ends: whether the state file can be read, what the fetch returns, the
clock, how each of the two saves ends (before the rename, after it, well), and
for each batch whether it is rejected, accepted, or accepted with an exception
here. A crash in the middle of a poll is a poll that fails at that point, then
a restart. `Delivery.Track` keeps, beside the world, the line of all outboxes
ever taken up for sending and what each was prepared from; `Delivery.Inv` relates
file, memory, Loki and line, and `Guarantees.Provenance` ties what the outboxes
were prepared from to what the polls of the run have fetched.

**Text** (`Texts`): what Python's `splitlines`, `strip` and `split` do, used by the
models below.

**SMART counters** (`scripts/nas_smart.py`): `SmartSnapshot` is the snapshot
parser, from bytes on, `SmartCounters` the poll, which reads its file again every time, and
what the exported counters mean over every run.

**Task rewriter** (`scripts/ansible/convert_openwrt_package_task.py`): `Rewriter`
is the conversion, `Reparse` what the converted text reads as.

**Helm summary** (`scripts/k3s_helm_metadata_status.py`): `Helm`.

**Backup** (`scripts/k3s_sqlite_backup.py`): `Mounts` reads mountinfo and finds
the mount of a path, `Backup` publishes the archive.

Code that works step by step is modelled by methods and classes, each proved
equal to a function or to a declarative contract; the results are lemmas about
those functions. Beside them stand lemmas that say what the functions do without
naming their parts: in terms of bytes, positions and the outcomes of steps
(`CutExactly`, `AcceptedSnapshot`, `RenderIff`, `OutboxFiltered`, `PollCommits`
and others whose names end in `Iff` or `Is`).

## What the proofs found

* A cursor at offset 0 has the empty prefix, which every generation starts with.
  After a copytruncate the live file is found by its identity, and the bytes of
  the saved copy, which come next in the log, are skipped without a gap being
  counted (`Rotation.CopyTruncateLosesAtZero`). The same happens to what was
  written before the oldest file that is left, if the cursor's own generation has
  been rotated away (`Rotation.DroppedLosesAtZero`). If the identities have
  changed but the files are there, the oldest is read again
  (`Rotation.NewInodesRepeatAtZero`). `Rotation.RotationExactIff` gives the exact
  condition for one poll, wherever the cursor stands: the file recognised by
  identity and prefix has to start where the cursor's generation does, or, if
  none is recognised, the live file where the cursor stands. A gap can therefore
  be counted when nothing was lost.
* The truncation loop shortens only the message. It ends exactly if the object
  fits, or would fit with at most one character of its message
  (`Rendering.TruncationEnds`). A time stamp with a long enough fraction keeps it
  running for ever (`Rendering.LongFractionNeverEnds`).
* A counter of increments is monotone only while the disk stays in its bay. A
  disk that is taken out for one poll and put back starts at zero under the same
  labels (`SmartCounters.PutBackRestarts`); `SmartCounters.ExportsCompare` says
  exactly when a later value is smaller. Between the rename of a save and the
  assignment of the fields, metrics show the state before the one in the file
  (`SmartCounters.ExportedIsDurable`).
* The lines of a rewritten task are read back as they were written exactly if the
  package expression given has no line break inside, and the cache value given
  none but for a carriage return at its end (`Reparse.ResplitIff`,
  `Reparse.BrokenExpression`). Lines between a task's name and its first key are
  dropped (`Reparse.CommentDropped`); no other line is lost, and none is exactly
  if the first key follows right after the name (`Reparse.LinesSurvive`).
* A mount is read back exactly if no white space is left unescaped in its type
  and source, and none in its point either or, if white space splits the root
  within its file system, the second word of the root happens to be its point
  (`Mounts.RecordRead`). Linux leaves a no-break space as it is: in the point it
  cuts it, in the root it shifts the fields (`Mounts.SpaceInPoint`,
  `Mounts.SpaceInRoot`). A line break left in any field spoils the table
  (`Mounts.TableRead`, `Mounts.TabbedTable`).
* The archive can be published although the backup reports an error: the
  staging directory is cleaned up after the rename (`Backup.PublishedUnreported`).

## Model

| member | source | states |
|---|---|---|
| Framing.ParseSnapshot | scripts/nas_file_logs_core.py:37-62 | the loop over the slots computes `Parse`; each exception is None |
| Framing.AcceptedSnapshot | scripts/nas_file_logs_core.py:37-62 | if and only if: data is read as a snapshot exactly if it is within the limit and is the magic line, then for each slot in order a header line of less than 256 bytes that names this slot and gives identity, size and time in at most 18 digits each, or for any but the live file says it is missing, followed by just that many bytes, and the trailer |
| Framing.SnapshotRoundTrip | scripts/nas_file_logs_core.py:37-62 | parsing a printed snapshot within the limits restores it, whatever bytes the payloads hold |
| Framing.NoEarlyAccept | scripts/nas_file_logs_core.py:60-61 | no proper prefix of an accepted snapshot is accepted |
| Framing.ParsedIsOk | scripts/nas_file_logs_core.py:41-59 | an accepted snapshot has every slot, every live file, and no file over the limit |
| Records.CompletedRecords | scripts/nas_file_logs_core.py:109-133 | the loops over lines and groups return exactly the records of `Cut`, each with the offset where it ends |
| Records.CutExactly | scripts/nas_file_logs_core.py:109-133 | if and only if: given the only way to split the bytes from the offset into complete lines and a rest, the records are the runs of the lines taken that begin, but for the first, with a header line of the kind's pattern, and hold no other; what is left of a live file is its incomplete line and, before it, the last complete line exactly if the file has grown and that line is a header of one of the five grouped kinds |
| Records.LinesSplit | scripts/nas_file_logs_core.py:111-117 | every data can be split into complete lines and a rest |
| Records.CutTiles | scripts/nas_file_logs_core.py:109-133 | records tile the data from the offset; a rotated file is consumed to its last byte; a live one keeps back at most one complete line, a header, and none once quiet |
| Records.LinesGrow | scripts/nas_file_logs_core.py:111-117 | appended bytes never change a line that was complete |
| Records.PollSplit | scripts/nas_file_logs_core.py:109-133 | cutting data and then its continuation from the offset reached, against one cut of both: the last record of the first step and the first of the second are put together exactly if the first line left starts no record; with no line left, all is the same but for a last header that a quiet first step released and the one cut holds back; for ungrouped kinds always the same records |
| Rotation.LocateExactly | scripts/nas_file_logs_core.py:180-184 | if and only if: a file is found exactly if it starts with the consumed prefix and is the first with the cursor's identity to do so, or no file has both and it is the first to start with the prefix |
| Rotation.LocateUnique | scripts/nas_file_logs_core.py:180-184 | the simple case: the only retained file that starts with the consumed prefix is recognised |
| Rotation.LocateAtZero | scripts/nas_file_logs_core.py:136-138 | what the searches find for the empty prefix |
| Rotation.LocateNone | scripts/nas_file_logs_core.py:185-187 | a gap is counted exactly if no retained file starts with the prefix, and reading resumes at the start of the live file |
| Rotation.RotationExact | scripts/nas_file_logs_core.py:178-190 | a poll that finds the cursor's own generation cuts exactly the bytes from the old cursor to the new one, over any number of files |
| Rotation.RotationExactIff | scripts/nas_file_logs_core.py:178-190 | for any cursor of any generation, retained or not: a gap is counted exactly if no file is recognised; a poll neither loses nor repeats a byte if and only if the file recognised starts where the cursor's own generation does, or, with no file recognised, the live file starts where the cursor stands; and by how many bytes it is off otherwise |
| Rotation.RotationRun | scripts/nas_file_logs_core.py:173-220 | over any number of polls and rotations the records are together the stream from the first cursor to the last, and no gap is counted, if each time the cursor's generation is the file recognised by identity and prefix |
| Rotation.CopyTruncateLosesAtZero | scripts/nas_file_logs_core.py:180-190 | at offset 0 a copytruncate loses exactly the bytes of the saved copy, silently: they come next in the stream, no record has them, and the new cursor lies behind them |
| Rotation.DroppedLosesAtZero | scripts/nas_file_logs_core.py:180-190 | at offset 0 of a generation that has been rotated away, no gap is counted, and what was written before the oldest retained file is in no record |
| Rotation.NewInodesRepeatAtZero | scripts/nas_file_logs_core.py:180-190 | at offset 0 with changed identities the file before the cursor's is read again: its bytes come right before the cursor in the stream, and the records begin with them |
| Rendering.RenderEntry | scripts/nas_file_logs_core.py:153-163 | the loop computes `Render`, and stops changing its object exactly when it would not end |
| Rendering.RenderIff | scripts/nas_file_logs_core.py:153-163 | if and only if: a line and a level are returned exactly if the line is the compact text of the object with the decoded record without its line end, halved as often as the limit needs and marked if so, its first date and time, its file, flag and time; and the level is its severity |
| Saved.LineRead | scripts/nas_file_logs_core.py:155-163 | the line is read back as that object |
| Rendering.TruncationEnds | scripts/nas_file_logs_core.py:160-162 | the loop ends if and only if the object fits or would fit with at most one character; the message that is left is a prefix |
| Rendering.ShrinkIsFirstFit | scripts/nas_file_logs_core.py:160-162 | what is returned is the first object of the halving sequence that fits |
| Rendering.RenderedFits | scripts/nas_file_logs_core.py:160-163 | a returned line is at most 16384 bytes |
| Rendering.LongFractionNeverEnds | scripts/nas_file_logs_core.py:155-162 | a message that is a time stamp with 16384 or more fraction digits keeps the loop running |
| Json.EscapeSizes | scripts/nas_file_logs_core.py:211-211 | ASCII escaping grows a text at most sixfold and never shrinks it below its UTF-8 size |
| Json.CharSizeLeast | scripts/nas_file_logs_core.py:160-160 | a character takes as few bytes of UTF-8 as hold its code point |
| Json.NarrowerStyle | scripts/nas_file_logs_collector.py:95-96 | the compact form that is sent is never larger than the form that is measured |
| JsonReader.TextRead | scripts/nas_file_logs_collector.py:35-36 | JSON text in any of the styles is read as the document it was written for, whatever follows it |
| Saved.StateTextOnce | scripts/nas_file_logs_collector.py:33-36 | a state file determines its state: two states are never written as the same text |
| Saved.BatchTextOnce | scripts/nas_file_logs_collector.py:94-95 | what is pushed determines the batch |
| Saved.LabelsValid | scripts/nas_file_logs_core.py:98-102 | the labels of a stream are those that validation asks for, and name its kind and level |
| Saved.StateSays | scripts/nas_file_logs_core.py:64-78 | the document of a state has the fields that validation asks for, each with its value |
| Saved.CursorSays | scripts/nas_file_logs_core.py:79-85 | so has that of a cursor |
| Batches.StreamBound | scripts/nas_file_logs_core.py:207-212 | a stream with a line within the limit fits into an empty batch |
| Batches.LoadCovers | scripts/nas_file_logs_core.py:211-216 | the running size is never below the real length |
| Batches.PackedFits | scripts/nas_file_logs_core.py:95-97 | a packed batch passes the check of validation and of push |
| Batches.OutboxSendable | scripts/nas_file_logs_core.py:207-222 | no batch of a prepared outbox is empty or over a limit, and each but the last was closed only because the next stream would not have fitted in |
| Prepare.PrepareOutbox | scripts/nas_file_logs_core.py:166-231 | the nested loops compute `Prepared`: the state with an outbox and otherwise unchanged, an exception, or no return |
| Contents.OutboxFiltered | scripts/nas_file_logs_core.py:191-217 | a prepared outbox has a stream for just the records for which normal_pattern gives no name for their text and severity, in order, each telling of its record at consecutive nanoseconds; and each counter grows by the number of records that have its kind and name |
| Contents.UnfilteredSendsAll | scripts/nas_file_logs_core.py:198-198 | with filtering off every record cut has its stream, and no counter changes |
| Contents.FirstPoll | scripts/nas_file_logs_core.py:176-194 | the first poll of a kind cuts the live file from its start, sends the last fifty records as bootstrap, and counts no gap |
| Contents.LaterPoll | scripts/nas_file_logs_core.py:178-194 | every later poll sends all records cut from the cursor on |
| Contents.ChronologicalIs | scripts/nas_file_logs_core.py:176-176 | the files of a kind are taken oldest first |
| Contents.KindsInOrder | scripts/nas_file_logs_core.py:172-172 | the records are taken up kind after kind |
| Contents.OutboxNext | scripts/nas_file_logs_core.py:185-187 | gaps grow by the number of kinds whose cursor's prefix no retained file has; the time is that of the poll |
| Emission.OutboxAccount | scripts/nas_file_logs_core.py:191-220 | the outbox carries exactly the records that are not normal, in order, the k-th at max(now, last + 1) + k; each counter grows by the records it stands for |
| Emission.OutboxConserves | scripts/nas_file_logs_core.py:197-217 | `sent` and the counters grow together by the number of records cut, `sent` by the number of streams |
| Emission.CursorInvariant | scripts/nas_file_logs_core.py:218-220 | every kind has a cursor inside its live file with the file's identity and size and the digest of that prefix |
| Emission.ValidationExact | scripts/nas_file_logs_core.py:70-106 | if and only if: prepare's own validation fails only over a clock before 1970 or the names or number of normal counters |
| Emission.PrepareSucceeds | scripts/nas_file_logs_core.py:166-231 | if and only if: prepare returns exactly if every record that is not normal can be rendered at its time, the batches and the state are within their limits, the clock is not before 1970, and the counters are few and well named; and it then returns the state with the outbox added |
| Emission.PreparedSaves | scripts/nas_file_logs_core.py:224-230 | a prepared state passes validation and, in the compact style, the size limit of saving and loading, and so does the successor in it |
| Emission.QuietKind | scripts/nas_file_logs_core.py:131-132 | preparing again on the same files takes at most the one header held back, for grouped kinds, and counts no gap |
| Emission.Quiescence | scripts/nas_file_logs_core.py:166-231 | a third prepare on the same files sends nothing and changes nothing but the time of the last success |
| Collector.StateFile.Write | scripts/nas_file_logs_collector.py:33-56 | an invalid state or a failure before the rename leaves the old file, anything later the new one; it raises unless all went well |
| Collector.LogCollector.SendBatches | scripts/nas_file_logs_collector.py:124-132 | the batches are sent in order up to the first failure, which is counted once |
| Collector.LogCollector.PollOnce | scripts/nas_file_logs_collector.py:113-142 | one poll changes fields, file and Loki exactly as `AfterPoll` says, for every way its steps can end |
| Collector.PollCommits | scripts/nas_file_logs_collector.py:125-136 | if and only if: a poll with an outbox to send ends with the successor in file and memory, every batch accepted, success and no failure counted, exactly if every batch is accepted and the successor can be saved and is |
| Collector.PollStops | scripts/nas_file_logs_collector.py:125-132 | at the first batch that is not accepted sending stops: exactly one push failure is counted, and neither file nor memory acknowledges |
| Collector.PollSentAll | scripts/nas_file_logs_collector.py:133-136 | with all batches accepted only saving the successor can fail; then it is not used |
| Collector.PollCannotLoad | scripts/nas_file_logs_collector.py:114-116 | without a state to work on only the failure is counted |
| Collector.PollCannotPrepare | scripts/nas_file_logs_collector.py:117-119 | without a snapshot, or if preparing raises, the state is kept and the failure counted |
| Collector.PollCannotSave | scripts/nas_file_logs_collector.py:119-122 | what was prepared is not used unless it was saved well |
| Collector.PollHangs | scripts/nas_file_logs_core.py:160-162 | if preparing never comes back, nothing but the load has happened |
| Delivery.RunKeeps | scripts/nas_file_logs_collector.py:113-142 | polls and restarts preserve the invariant of file, memory, Loki and the line of outboxes |
| Delivery.LineAscends | scripts/nas_file_logs_core.py:206-206 | timestamps strictly increase along the whole line of outboxes for any clock, and `sent` counts its entries |
| Delivery.Replay | scripts/nas_file_logs_collector.py:125-132 | sending a stretch again adds nothing but what is new |
| Guarantees.History | scripts/nas_file_logs_collector.py:104-142 | the history of every run from a missing or readable state file satisfies the invariant, and each outbox in it was prepared from what one poll of the run has fetched, in the order of the polls |
| Guarantees.AtLeastOnce | scripts/nas_file_logs_collector.py:113-136 | Loki has every entry acknowledged on disk or in memory, nothing but entries of the line, and their first deliveries are a prefix of the line in ascending time order |
| Guarantees.SentCountsOnce | scripts/nas_file_logs_core.py:217-217 | `sent` on disk is its value in the state the run began with plus the number of distinct entries acknowledged since, all of them accepted |
| Guarantees.CommitSaves | scripts/nas_file_logs_collector.py:33-37 | in every history, the state in memory with an outbox and the outbox's successor pass validation and the size limit, so that neither can keep a sent outbox from being acknowledged |
| Guarantees.SavedBeforeSent | scripts/nas_file_logs_collector.py:118-129 | whatever a poll sends is of an outbox that the file holds, or whose successor it holds |
| Guarantees.OneOutboxPerState | scripts/nas_file_logs_collector.py:117-136 | of two polls of a run that both send something, the later one sends the same outbox over the same state, or one over a state that acknowledges the earlier one |
| Guarantees.UnreadableKept | scripts/nas_file_logs_collector.py:114-116 | a run that starts over a state file that cannot be read, or holds no valid state, never overwrites it and sends nothing |
| Guarantees.RecordsHandled | scripts/nas_file_logs_collector.py:113-136 | for every run: each acknowledged outbox was prepared from what a poll of the run has fetched; the records cut from that for which there is no normal name have one stream each that tells of them, in order and at consecutive nanoseconds, and Loki has accepted all of these streams |
| Guarantees.CursorsChain | scripts/nas_file_logs_core.py:175-220 | the cursors of the acknowledged states are those of one run of polls |
| Guarantees.EveryCursor | scripts/nas_file_logs_core.py:218-220 | from the first acknowledged outbox on every kind has a cursor for FromFileToLoki to begin with |
| Guarantees.FromFileToLoki | scripts/nas_file_logs_collector.py:113-136 | end to end, for every run: the bytes between any acknowledged cursor, or the one the run began with, and the cursor in the state file are, without loss or repetition, records cut from what the run's polls have fetched; the streams of this kind acknowledged between the two tell of those that have no normal name, one for one, in order and at ascending times; and Loki has accepted each, whatever failed and however the log was rotated |
| SmartSnapshot.ParseSnapshot | scripts/nas_smart.py:21-53 | from the bytes on, decoding, splitting, both line patterns and the popping loops compute `ParsedData`; each exception is None |
| SmartSnapshot.ClassifyWritten | scripts/nas_smart.py:18-35 | a written header or attribute line is read as what it says |
| SmartSnapshot.ClassifyRowIff | scripts/nas_smart.py:18-33 | if and only if: a line is an attribute row exactly if its words are three digits, a name, four numbers and a status |
| SmartSnapshot.ClassifyBayIff | scripts/nas_smart.py:26-29 | if and only if: a line is a bay header exactly if its words are BAY, one of four digits, and the identity |
| SmartSnapshot.ClassifyFixedIff | scripts/nas_smart.py:25-46 | which lines are the fixed ones |
| SmartSnapshot.SectionIff | scripts/nas_smart.py:26-47 | what a complete section is, in literal terms: bay, identity, ranges, the attributes that are required |
| SmartSnapshot.DescribesIff | scripts/nas_smart.py:43-51 | what a section says of its disk: healthy if every status is OK and every value above its threshold, or without one |
| SmartSnapshot.AcceptedData | scripts/nas_smart.py:21-53 | bytes are accepted if and only if they are at most 64 KiB of ASCII whose lines are those of four complete sections about different bays and disks |
| SmartSnapshot.ReadsData | scripts/nas_smart.py:21-53 | the text of four such sections is accepted and means what they say |
| SmartSnapshot.AcceptedText | scripts/nas_smart.py:25-53 | a list of lines is accepted if and only if it is that of four complete sections about different bays and disks |
| SmartSnapshot.ReadsText | scripts/nas_smart.py:30-51 | the parsed snapshot says of each bay what its section says: disk, every fault attribute, temperature, and health as the conjunction over its rows |
| SmartCounters.SmartCollector.PollOnce | scripts/nas_smart.py:159-182 | one poll changes fields and file exactly as `AfterPoll` says, and what others see after the load and after the rename |
| SmartCounters.PollSaves | scripts/nas_smart.py:174-182 | a poll that comes to a state succeeds exactly if it is saved well, and then file and memory hold it |
| SmartCounters.PollCannotAdvance | scripts/nas_smart.py:168-173 | without samples or a state that follows, the state read is shown no more |
| SmartCounters.PollCannotRead | scripts/nas_smart.py:160-165 | a file that cannot be read changes only the two flags |
| SmartCounters.AdvanceIff | scripts/nas_smart.py:119-128 | if and only if: the state a poll comes to holds each sample as it was read and each counter carried on, and is valid |
| SmartCounters.AdvanceSucceeds | scripts/nas_smart.py:119-128 | from samples that parse_snapshot accepts a poll comes to a state exactly if no counter leaves 53 bits |
| SmartCounters.ParsedSamples | scripts/nas_smart.py:39-53 | what parse_snapshot accepts is sound in this sense |
| SmartCounters.DurableSampled | scripts/nas_smart.py:159-182 | every state that reached the file holds the disks, health, temperatures and values of one poll of the run, in the order of the polls |
| SmartCounters.DurableLinked | scripts/nas_smart.py:121-128 | each state that reached the file counts on from the one before it, for every run |
| SmartCounters.IncrementsCountOnce | scripts/nas_smart.py:121-182 | the counter on file is the sum of the rises along the samples that reached the file since the disk came into its bay |
| SmartCounters.ExportedIsDurable | scripts/nas_smart.py:176-206 | metrics, between polls or in the middle of one, show only the newest state the file held when the poll began; the file holds it still, or its successor that the poll has just put there |
| SmartCounters.ExportsCompare | scripts/nas_smart.py:159-206 | a later exported value is the earlier one plus all rises between if the disk stayed, and otherwise what was counted since the disk arrived; it is not smaller if and only if the disk stayed or the rises since then make up for it |
| SmartCounters.PutBackRestarts | scripts/nas_smart.py:125-127 | a run in which the exported counter of one bay, disk and attribute goes from 5 to 0 |
| SmartCounters.MissedSamples | scripts/nas_smart.py:126-127 | the rises along a selection of samples are at most those along all of them |
| SmartCounters.MissedSteadySamples | scripts/nas_smart.py:126-127 | for values that only grow, a selection with the first and the last has the same rises: last less first |
| SmartCounters.NeverOvercounts | scripts/nas_smart.py:159-182 | no run counts more than what it found and the rises along the value found and all samples it has read |
| SmartCounters.NothingMissed | scripts/nas_smart.py:121-128 | if the values only grow and the disk stays, the counter is what was found plus the last durable value less the first |
| SmartCounters.UnreadableKept | scripts/nas_smart.py:160-167 | an unreadable or invalid state file is never overwritten |
| Rewriter.FindTaskBlock | scripts/ansible/convert_openwrt_package_task.py:52-71 | the loops find the first line with the name and the next task at its depth |
| Rewriter.TaskIff | scripts/ansible/convert_openwrt_package_task.py:53-63 | which lines start the task: white space, the name, and up to two newlines |
| Rewriter.NextIff | scripts/ansible/convert_openwrt_package_task.py:66-70 | which lines end the task: the indentation and another name |
| Rewriter.KeyIff | scripts/ansible/convert_openwrt_package_task.py:74-76 | if and only if: a line is a key exactly if it is the indentation, two blanks, key characters, a colon, and white space or nothing |
| Rewriter.TopLevelChunks | scripts/ansible/convert_openwrt_package_task.py:79-95 | the index loops compute `Chunks` |
| Rewriter.ChunksRead | scripts/ansible/convert_openwrt_package_task.py:79-95 | chunks written one after another are read back |
| Rewriter.ConvertBlock | scripts/ansible/convert_openwrt_package_task.py:166-196 | the loops compute `Converted`, with the same refusals |
| Rewriter.RefusalIff | scripts/ansible/convert_openwrt_package_task.py:155-163 | why a task is refused, in terms of its keys |
| Rewriter.ExpressionIs | scripts/ansible/convert_openwrt_package_task.py:169-176 | where the package expression is taken from, in this order |
| Rewriter.LoopIs | scripts/ansible/convert_openwrt_package_task.py:98-103 | the expression of a loop is what follows the first colon of the first loop key, trimmed |
| Rewriter.NameIs | scripts/ansible/convert_openwrt_package_task.py:106-124 | what is made of the first package name under opkg |
| Rewriter.NormalizeIff | scripts/ansible/convert_openwrt_package_task.py:134-146 | what an expression is normalised to, for each of its forms |
| Rewriter.PreservedAt | scripts/ansible/convert_openwrt_package_task.py:178-182 | the chunks kept are those with none of the seven keys, in their order |
| Rewriter.GeneratedLines | scripts/ansible/convert_openwrt_package_task.py:185-193 | the generated lines, piece by piece |
| Texts.SplitJoin | scripts/ansible/convert_openwrt_package_task.py:206-206 | proper lines are read back from their concatenation |
| Reparse.ResplitIff | scripts/ansible/convert_openwrt_package_task.py:199-209 | the converted text has the generated lines, with the normalised package expression, in it if and only if the expression given has no line break inside and the cache value given none but a carriage return at its end; derived expressions never have one |
| Reparse.BrokenExpression | scripts/ansible/convert_openwrt_package_task.py:134-146 | for the expression `a`, line break, `b` a conversion goes through and is not read back |
| Reparse.LinesSurvive | scripts/ansible/convert_openwrt_package_task.py:79-95 | if and only if the first key follows right after the name, the lines of the result and of the consumed chunks are those of the text and the generated ones, each as often; otherwise just the lines between name and first key are missing |
| Reparse.CommentDropped | scripts/ansible/convert_openwrt_package_task.py:85-87 | a task whose comment is a line of the text but not of its conversion |
| Reparse.Reparsed | scripts/ansible/convert_openwrt_package_task.py:199-209 | whenever the lines are read back: the same name finds the same start; the block is the include, its variables with the normalised package expression, state and cache value, and the chunks not consumed, in order; all other lines are unchanged |
| Reparse.RefusedTwice | scripts/ansible/convert_openwrt_package_task.py:155-163 | whenever the lines are read back, a second conversion is refused |
| Helm.Parse | scripts/k3s_helm_metadata_status.py:137-182 | accepted if and only if `Acceptable`; the result is the summary of the records |
| Helm.ReadIff | scripts/k3s_helm_metadata_status.py:150-167 | if and only if: what an item is read as, field by field, with revisions below a million and without leading zeros |
| Helm.AcceptableIff | scripts/k3s_helm_metadata_status.py:138-175 | if and only if: the list is well formed, within its limits and free of repeated revisions of one release |
| Helm.SummaryIs | scripts/k3s_helm_metadata_status.py:168-182 | a summary lists newest revisions, sorted by namespace and then by name, with the counts of failed revisions and pending releases |
| Helm.OrderIndependent | scripts/k3s_helm_metadata_status.py:144-182 | any permutation of the items is accepted alike and has the same summary |
| Helm.ListsEveryRelease | scripts/k3s_helm_metadata_status.py:174-182 | every release is listed, once |
| Mounts.UnescapeEscape | scripts/k3s_sqlite_backup.py:34-37 | reading an octal-escaped field restores it, whichever characters are escaped beside the backslash |
| Mounts.PathIs | scripts/k3s_sqlite_backup.py:50-50 | a path is its root and the segments between the slashes, but for empty ones and dots |
| Mounts.PartitionFirst | scripts/k3s_sqlite_backup.py:43-43 | the separator is found where it first stands |
| Mounts.RecordRead | scripts/k3s_sqlite_backup.py:42-53 | reading a printed record restores mount point, type and source if and only if no white space is left unescaped in type and source, and none in the point, or else the second word of a root that white space splits reads as the same path |
| Mounts.SpaceInPoint | scripts/k3s_sqlite_backup.py:46-53 | a mount point with a no-break space in it is not restored |
| Mounts.SpaceInRoot | scripts/k3s_sqlite_backup.py:46-53 | a clean mount point is not restored if the root has a no-break space in it |
| Mounts.TabbedTable | scripts/k3s_sqlite_backup.py:42-42 | a table with a vertical tab in one mount point is not restored |
| Mounts.TableRead | scripts/k3s_sqlite_backup.py:40-56 | reading the text of a whole table restores every mount, in order, if and only if each record is restored and none has a line break left in it |
| Mounts.ReadMountinfo | scripts/k3s_sqlite_backup.py:40-56 | from the text of the file on, the loop over its lines reads every record or refuses the table |
| Mounts.TableRefused | scripts/k3s_sqlite_backup.py:40-56 | if and only if: a table is refused exactly if it has no line or a line that is no record |
| Mounts.ContainsIff | scripts/k3s_sqlite_backup.py:61-64 | what is above a path: itself, and its parents |
| Mounts.SameDepth | scripts/k3s_sqlite_backup.py:61-67 | two mounts above one path at one depth are on one mount point |
| Mounts.EffectiveFound | scripts/k3s_sqlite_backup.py:59-67 | the record returned is above the path, none is deeper, and it is the last one on its point; there is none exactly if no record is above the path |
| Mounts.EffectiveGoverns | scripts/k3s_sqlite_backup.py:59-67 | a record with these properties is the one returned |
| Backup.ValidatedIff | scripts/k3s_sqlite_backup.py:70-110 | a validation passes if and only if both directories are on their expected mounts and the other checks hold |
| Backup.Destination.Run | scripts/k3s_sqlite_backup.py:151-254 | one backup leaves exactly the files `AfterRun` says, for every way its steps can end, and returns what `Finished` says |
| Backup.AllOrNothing | scripts/k3s_sqlite_backup.py:186-254 | the final name is there afterwards, where it was not before, if and only if every step up to the rename went well: it holds the database and the token read before it, the snapshot was sound, the token unchanged, the encryption successful, and both mounts in place at three times; if it is not there, nothing has changed but for a partial file that could not be unlinked; it is returned exactly if it is there and the staging directory could be cleaned up |
| Backup.PublishedUnreported | scripts/k3s_sqlite_backup.py:186-254 | a backup over a table of two mounts that publishes the archive and reports an error |

## Left out

- Transport and environment: SSH, HTTP, servers, signals, threads, timers and the clock are outcomes of steps given to the model.
- Liveness of delivery: every retry starts at the first batch under a time budget, and an outbox over the size limit is refused again; only safety is stated.
- Regular expressions of headers, severities and normal patterns, and UTF-8 decoding: functions given to the model; the time stamp pattern is modelled, with the set of its digits given.
- Hash collisions and reuse of inodes: a digest is its preimage; reuse is covered only as far as the prefix test goes.
- Non-atomic remote snapshots: each file's content is taken as it stands.
- JSON decoding of states: that load_state inverts what was written is taken from Saved.StateTextOnce, which shows that a file determines its state; the checks of JSON types in validation are Dafny types; log streams with several values do not occur.
- JSON text of floats and digests, and the order of the keys in a dictionary: functions given to the model. A save or load that fails over the size limit is a step that fails; CommitSaves shows that it never happens to an outbox or its successor.
- Rounding of times: the time of an entry is an integer of nanoseconds, and formatting it succeeds exactly up to the year 9999.
- Loss of a rename in a power failure: a file that was replaced stays replaced, also if the directory could not be synced.
- Guarantees.History: a run that starts from an unreadable state file is covered by UnreadableKept, and one that starts from a saved outbox assumes that it was prepared on the saved state.
- The truth about a log: that its files are generations of one stream which only grows is a hypothesis about the world; the recognition of the cursor's file is a condition on identities and prefixes.
- Rewriter.ConvertBlock: the pattern that finds an opkg remove command is a function given to the model; its package names have no line breaks.
- Mounts.RecordRead: backslashes and blanks are escaped, as Linux does; the numbers and flags of a line are words other than a dash.
- Backup.Destination.Run: SQLite, tar and age are single steps that succeed or fail; a killed process is not modelled.
- Manifest renderers, dashboards, receipt and status readers, CI and boot helpers: constant output or flat lists of checks, which would only add easy members.
