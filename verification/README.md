# The recplay recording log, modelled and verified

recplay records timestamped messages on named channels into a session: numbered segment files of
CRC-framed records, each closed by a seek index and a footer, listed in a JSON manifest. This project
models that system over byte sequences, from the calls on the recorder to what a reader, a seek, a
split, a merge, a validation or a crash recovery makes of the files, and proves what those parts
promise to each other. Classes whose methods update fields (the recorder session, the index
builder and the loaded index, the chunk accumulator, the reader, the scan at open) are classes here
too, with the same fields and the same loops. The loops of the original that update variables are
methods with loops; only its two library sorts are insertion sorts written as functions.

How the files fit together:

- `Bytes`, `Crc`, `Routines`, `Format`, `Stream`: little-endian fields, the checksum, the compressors
  as parameters, the record layout and its walk, and the messages a byte string stands for.
- `Lookup`, `Index`, `Integrity`, `Accumulator`, `Recording`, `Conservation`, `Limits`, `Writer`: the recorder.
  `Recording` describes a session abstractly, as entries per segment and messages still buffered; the
  class `Writer.RecorderSession` carries out exactly those operations on files, counters, flags
  and buffers; `Conservation` shows what every operation keeps.
- `Runs`, `RoundTrip`, `Chronicle`, `Reopening`, `Rotation`, `Filling`, `SelfContained`, `Spacing`, `Recorded`,
  `Gaps`, `RecordedByChannel`, `Overtaken`: theorems over all sequences of public calls. `Layout` says
  which number stands at which offset of the files.
- `Opening`, `Summary`, `Seeking`, `Playback`, `IndexedRead`, `ChannelClocks`: the reader.
- `Validation`, `Guarantees`, `Recovery`, `Repaired`, `Damage`: validation, recovery, cut and damaged files.
- `Inputs`, `ChannelMaps`, `Interleaving`, `Deliveries`, `Merging`, `Paths`, `Splitting`, `Reassembly`,
  `Outputs`: split and merge.
- `Json`, `Manifest`, `KeySearch`, `ObjectReading`, `Bracketing`, `ManifestReading`, `Unbalanced`,
  `Unclosed`: the manifest text and the string search that reads it.
- `Sessions`, `EndToEnd`: methods that drive recorder, manifest and reader one after the other.

Main results, for every run and every input within the limits named below:

- Recording, closing, reopening and draining gives on each channel exactly the messages whose Write
  returned Ok, in order, and the exact call order when nothing is compressed
  (`RoundTrip.ReplayedByChannel`, `RoundTrip.ReplayedInOrder`, `EndToEnd.RecordAndReplay`).
- A refused chunk costs one rotation and no call ever returns ErrorFull
  (`Writer.RecorderSession.FlushAccumulatorWithRotation`, `Writer.RetrySucceeds`).
- A segment is closed only when it is full: without a call that asks for it, and with channels all
  compressed or all not, every segment but the last was full for the first data entry of the next, so that there is one segment when no limit is set and
  none is left empty but for an entry that passes the limit alone (`Filling.ClosedWhenFull`,
  `Filling.OneSegmentWithoutLimits`, `Filling.EmptyOnlyForLarge`); the bounds on size and duration hold as
  well (`Spacing.SegmentsKeepToSizeInTime`, `Rotation.SegmentsKeepToDuration`).
- Every segment stands alone: it is numbered by its place, opens with all definitions made so far, and
  defines the channel of every message in it (`SelfContained.SegmentsStandAlone`,
  `SelfContained.RecordedSegmentsKnow`).
- Seek points of a channel are at least an interval apart, and dense enough that every data record has one
  less than an interval older (`Spacing.PointsAreSpaced`, `Spacing.PointsAltogether`, `Seeking.PointsCover`).
- In a session recorded without compression and in time order, a read by index visits the linear filter
  of what stands from the segment sought on, and so the filter of the whole session exactly when no
  wanted message lies before that segment (`IndexedRead.ReadAgainstFilter`, `IndexedRead.ReadIsComplete`,
  `Recorded.RecordedReadIsComplete`, `EndToEnd.RecordAndRead`). The runs of `Gaps.RotateThenClose` and
  `Gaps.TieIsMissed` are read incompletely.
- In any session, compressed or not, what a read visits and exactly what it leaves out
  (`ChannelClocks.ReadOfAny`, `ChannelClocks.ReadOfAnyIsComplete`); when each channel by itself is in time
  order, a seek jumps over later messages exactly on the channels without a seek point at or before the
  target (`ChannelClocks.SeekLoses`, `RecordedByChannel.RecordedReadByChannel`), as it does in the runs of
  `Overtaken.OvertakenIsLost`.
- Validation answers Ok exactly for sessions whose every file is there and flawless, and otherwise says which
  file stopped it or how many records failed; a segment cut short passes only when its last 32 bytes happen
  to be a footer (`Validation.Validate`, `Guarantees.CutVerdict`).
- Every closed segment validates, recovery of arbitrary bytes preserves what a reader delivers, and a
  cut or locally damaged file loses only what it must (`Guarantees.ClosedSessionsValidate`,
  `Recovery.RecoveryPreservesMessages`, `Recovery.CutThenRecovered`, `Damage.BurstIsContained`).
- A merge succeeds under an exact condition on its inputs (`Merging.MergeSucceeds`), and then writes an
  interleaving of them: every message once, every source in its order, under the name of its channel,
  in time order when the sources are (`Merging.MergeInterleaves`). Opened again, its channels are the first
  definitions of every name over all sources, whole but for their numbers, and its annotations those of
  all sources (`Outputs.MergedReadsBack`).
- A split output holds the channel its request named, all messages of that channel in order, and the
  annotations (`Outputs.SplitOutputReadsBack`, `Outputs.SplitByRequest`).
- Splitting by channel and merging again is the stable sort of the source
  (`Reassembly.SplitThenMerge`).
- A printed manifest is parsed back as it was exactly when it is `Legible`, a condition on which strings
  end like a key of the format (`ObjectReading.ChannelReadsBack`, `ManifestReading.ManifestReadsBack`).

What is assumed of the outside: a compressor may give up, but whatever it returns fits a record and
decompresses to what went in (`Routines.Inverts`), for chunks below 4 GiB less 9 bytes, those that fit
the length of a record even raw; at lengths it refuses, such as those cast to a negative one in
`src/detail/chunk_accumulator.cpp:101`, it gives up. The checksum used by the file theorems is a parameter;
`Routines.Standard` says it is the one of `Crc`, which is proved to be the 32-bit frame check sequence of
section 8.1.1.6.2 of ITU-T V.42. Limits stated as preconditions are those of the fields: payloads below
2^32 bytes, a buffer that still fits a record with the next message in it, file sizes that fit 64 bits,
and, for reading by index alone, an index that fits its record in each segment.

Where the code and its documentation disagree, the model follows the code:

- Messages and annotations come in file order, not in timestamp order (`include/recplay/reader.hpp:164`,
  `include/recplay/reader.hpp:174`, `include/recplay/reader.hpp:196`).
- A read without a start time continues at the current position, not at the beginning
  (`include/recplay/reader.hpp:61` against `src/reader.cpp:616`).
- Seek lands at or before the first wanted message, but an equal timestamp in an earlier segment is
  passed over, and a segment without data starts at time 0, so that it is the one sought when no later
  segment starts at or before the target; everything in front of it is then passed over. A rotation just
  before Close makes it the last one, and every seek ends there (`include/recplay/reader.hpp:156`
  against `src/reader.cpp:280-281` and `src/reader.cpp:580-584`; `Gaps.RotateThenClose`). A channel without a
  seek point at or before the target does not take part in the choice of the offset, so that a chunk of it
  in front of that place is jumped over (`src/reader.cpp:587-600`, `Overtaken.OvertakenIsLost`).
- A segment's StartNs and EndNs are the least and greatest timestamp, not those of the first and last
  record (`include/recplay/session.hpp:30-34` against `src/writer.cpp:273-274`).
- The session end record stores the footer's record count minus one (`include/recplay/format.hpp:152` against `src/writer.cpp:358-372`).
- The serialised index is never empty, so the branch without an index is dead (`src/writer.cpp:342-346`).
- Defining a channel under an existing name returns Ok and the existing id, not an error
  (`include/recplay/writer.hpp:95` against `src/writer.cpp:526-531`).
- Labels may have 65535 bytes, not 255 (`src/writer.cpp:691`).
- A chunk stored raw because its compressor gave up still carries the codec's label, so it is lost
  (`src/detail/chunk_accumulator.cpp:114-134`, `RoundTrip.FallbackIsLost`).
- The merge never selects a message with the greatest 64-bit timestamp (`src/splitter.cpp:337-344`,
  `Interleaving.OrderKeepsSources`).
- The manifest is searched by first occurrence, so a name that ends like a key, with nothing or an
  escaped quote in front of it, hides a field (`src/detail/manifest_io.cpp:75-83`,
  `ObjectReading.ChannelReadsBack`), and brackets count inside strings, so a closing brace in a name cuts
  its channel short and a closing bracket makes every segment a channel as well
  (`src/detail/manifest_io.cpp:131-167`, `Unbalanced.BraceCutsChannel`, `Unclosed.UnclosedReads`).
- Whether the metadata of a definition or annotation lies in the payload is tested by a 32-bit sum that
  wraps for lengths near 2^32; the test then passes, and bytes behind the payload are copied
  (`src/reader.cpp:158`, `src/reader.cpp:264`, `Opening.TestIsExact`, `Opening.SixByteStray`). No
  annotation the recorder writes makes it wrap, nor does a definition whose name and schema fit 16 bits.
- Split promises every channel its own session (`include/recplay/splitter.hpp:39`), but channels whose names
  differ only in replaced characters share its directory (`src/splitter.cpp:35-40`,
  `Paths.OutputsCollide`).

## Model

| member | source | states |
|---|---|---|
| `Crc.BuildTable` | src/detail/crc32.cpp:23-36 | entry i of the table is the bit-by-bit register after eight clocks from i |
| `Crc.Crc32` | src/detail/crc32.cpp:44-50 | for every input and start value the table loop gives what feeding every bit to the reflected 0xEDB88320 register gives |
| `Crc.ByteStep` | src/detail/crc32.cpp:47-48 | one table step is eight bit steps of the register |
| `Crc.Chaining` | src/detail/crc32.cpp:44-50 | a checksum continued from that of a over b is the checksum of a followed by b |
| `Crc.BurstDetected` | src/detail/crc32.cpp:44-50 | equally long strings that differ only within four adjacent bytes leave the register in different states |
| `Crc.BurstChangesChecksum` | src/detail/crc32.cpp:44-50 | the same for the stored checksum |
| `Bytes.ReadBack` | src/writer.cpp:100-105 | 16-, 32- and 64-bit values survive being stored little-endian and loaded |
| `Bytes.StoreBack` | src/reader.cpp:185-192 | loading fields and storing them gives back the same bytes |
| `Routines.PackedInverts` | src/detail/chunk_accumulator.cpp:97-143 | what a flush hands on fits a record, and decompresses to the buffer whenever the compressor succeeded |
| `Format.DecodeOfEncode` | include/recplay/format.hpp:52-118 | a framed record in front of anything is read back whole, with its extent |
| `Format.EncodeOfDecode` | src/reader.cpp:184-193 | re-encoding a record found in a byte string gives exactly the bytes it occupies |
| `Format.Walk` | src/reader.cpp:184-189 | every byte string is its records followed by a remainder in which the walk is stuck |
| `Format.WalkOf` | src/reader.cpp:184-189 | records written in front of anything are all found, and the walk goes on behind them |
| `Format.WalkIsUnique` | src/splitter.cpp:471-476 | there is only one way to read a byte string as framed records and a stuck remainder |
| `Format.CutRecords` | src/reader.cpp:343-348 | cutting a byte string anywhere leaves a prefix of its records |
| `Format.MagicStopsTheWalk` | include/recplay/format.hpp:26 | no walk enters a footer: its magic bytes read as a payload length longer than the footer |
| `Stream.UnpackOfInner` | src/detail/chunk_accumulator.cpp:57-69 | the inner records of a chunk unpack to the messages that were pushed |
| `Stream.MsgsConcat` | src/reader.cpp:318-426 | messages and corrupt counts of consecutive records are those of the parts, in order |
| `Stream.CorruptIsCount` | src/reader.cpp:355-391 | the corrupt count is the number of records whose flagged checksum fails or whose chunk does not decompress, and none of them delivers a message |
| `Index.IndexBuilder.constructor` | src/detail/index_builder.cpp:19-21 | no points yet, the interval as given |
| `Index.IndexBuilder.MaybeAdd` | src/detail/index_builder.cpp:23-35 | a point is added exactly when every last point of the channel is at least the interval back in wrapping 64-bit arithmetic, which one without points meets, although the class keeps only an array of last timestamps |
| `Index.DueWhenRested` | src/detail/index_builder.cpp:23-35 | the test by last timestamps and the wrapping subtraction asks exactly that |
| `Index.IndexBuilder.Add` | src/detail/index_builder.cpp:37-43 | the point is appended and becomes the last of its channel |
| `Index.IndexBuilder.Serialise` | src/detail/index_builder.cpp:45-68 | the payload is the count and all points in order |
| `Index.IndexBuilder.Reset` | src/detail/index_builder.cpp:72-75 | nothing remembered of earlier points |
| `Index.LoadStored` | src/detail/index_builder.cpp:45-111 | loading a serialised index gives its points |
| `Index.InsertedIsSorted` | src/detail/index_builder.cpp:113-118 | inserting into a sorted index keeps it sorted and adds exactly that point |
| `Index.SeekIndex.ReadEntries` | src/detail/index_builder.cpp:102-111 | the entries of a payload in stored order |
| `Index.SeekIndex.Load` | src/detail/index_builder.cpp:81-120 | accepts exactly the payloads long enough for their count; then a sorted permutation of the stored points, otherwise unchanged |
| `Index.SeekIndex.LowerBound` | src/detail/index_builder.cpp:124-130 | the position that separates points before the key from the rest |
| `Index.SeekIndex.Find` | src/detail/index_builder.cpp:122-142 | the offset of a point with the greatest timestamp at or before the target on the channel, or the sentinel exactly when the channel has no such point |
| `Index.LastIsLatest` | src/detail/index_builder.cpp:122-142 | in a sorted index the last point up to the target is a latest one, and is absent only if there is none |
| `Integrity.CheckIntact` | src/reader.cpp:355-364 | the checksum in two pieces decides whether the record is unflagged or carries the checksum of envelope and payload |
| `Integrity.ChecksumOfTwo` | src/splitter.cpp:623-627 | the two-piece checksum is that of the concatenation |
| `Integrity.BuildFooter` | src/splitter.cpp:644-656 | magic, index offset, record count, their checksum, zeros |
| `Accumulator.ChunkAccumulator.constructor` | src/detail/chunk_accumulator.cpp:42-47 | an empty buffer with the channel's codec and thresholds |
| `Accumulator.ChunkAccumulator.Push` | src/detail/chunk_accumulator.cpp:51-86 | the buffer encodes one message more; a flush is due by size or by an elapsed interval |
| `Accumulator.ChunkAccumulator.Compressed` | src/detail/chunk_accumulator.cpp:95-143 | the compressed buffer, or the raw one when the compressor gives up |
| `Accumulator.ChunkAccumulator.Clear` | src/detail/chunk_accumulator.cpp:151-154 | the buffer holds no message |
| `Conservation.RecordReadsBack` | src/writer.cpp:94-188 | the record of any sound entry delivers exactly the messages that went into it and counts no corruption |
| `Conservation.RecsReadBack` | src/writer.cpp:94-188 | the same for any sequence of entries, in order |
| `Conservation.FlushOneKeeps` | src/writer.cpp:277-292 | a flush, with or without a rotation, moves one channel's buffered messages to the end of the disk and leaves all else |
| `Conservation.FlushOneHolds` | src/writer.cpp:562-590 | after a flush every channel holds the same messages in the same order as before |
| `Conservation.FlushAllKeeps` | src/writer.cpp:294-301 | afterwards nothing is buffered, and no message is lost, duplicated or reordered within its channel |
| `Conservation.FlushAllInOrder` | src/writer.cpp:294-301 | flushing everything puts the buffers, joined in channel order, behind what is on disk |
| `Conservation.RotateKeeps` | src/writer.cpp:286-290 | a rotation leaves the messages on disk alone and the new segment without data |
| `Conservation.WriteGains` | src/writer.cpp:624-683 | from every state between calls, Write adds exactly its message, behind all its channel held, whatever rotations it sets off |
| `Conservation.AnnotateKeeps` | src/writer.cpp:685-727 | an annotation changes no channel's messages |
| `Conservation.DefineKeeps` | src/writer.cpp:521-601 | a new channel changes no channel's messages and starts with an empty buffer |
| `Writer.RecorderSession.constructor` | src/writer.cpp:86-88 | a session without segment, channels or accepted messages |
| `Writer.RecorderSession.Open` | src/writer.cpp:440-507 | a valid session in its first segment; a single-file session has its rotation limits dropped |
| `Writer.RecorderSession.WriteRecord` | src/writer.cpp:94-132 | the file grows by exactly the encoded record, checksummed over envelope and payload when enabled |
| `Writer.RecorderSession.WriteChunkRecord` | src/writer.cpp:135-188 | the same for a chunk in three pieces, and its start is offered to the index |
| `Writer.RecorderSession.WriteFileHeader` | src/writer.cpp:194-219 | the file grows by the 64-byte header of this segment |
| `Writer.RecorderSession.WriteSessionStartRecord` | src/writer.cpp:221-230 | the file grows by the start record of this segment |
| `Writer.RecorderSession.WriteChannelDefRecord` | src/writer.cpp:232-264 | the file grows by the record of the definition |
| `Writer.RecorderSession.NoteDataRange` | src/writer.cpp:266-275 | the segment's range becomes least first and greatest last timestamp |
| `Writer.RecorderSession.FlushAccumulator` | src/detail/chunk_accumulator.cpp:88-155 | ErrorFull exactly when a nonempty chunk is refused, and then nothing has changed; otherwise the chunk is on file and the buffer empty |
| `Writer.RecorderSession.OnFlush` | src/writer.cpp:562-590 | the callback answers ErrorFull exactly when the session has several files, the segment holds data, and the chunk's record and 88 bytes pass the size limit or its first timestamp is a whole duration behind the start of the segment's data; it never takes the silent Ok that would drop a buffer |
| `Writer.RecorderSession.FlushAccumulatorWithRotation` | src/writer.cpp:277-292 | the loop ends after at most one rotation, with Ok and the chunk on file |
| `Writer.RetrySucceeds` | src/writer.cpp:277-292 | after the rotation the same chunk is not refused again, and the outcome is that of one flush |
| `Writer.RecorderSession.FlushAllAccumulators` | src/writer.cpp:294-301 | Ok, and every buffer flushed in channel order |
| `Writer.RecorderSession.OpenSegment` | src/writer.cpp:303-330 | a new segment with header, start record and all channel definitions, and nothing left of the last one |
| `Writer.RecorderSession.SealSegment` | src/writer.cpp:332-397 | the segment is appended to the files as sealed, with its manifest entry |
| `Writer.RecorderSession.WriteSegmentEnd` | src/writer.cpp:340-382 | index, end record and footer complete the file to the sealed form of the segment |
| `Writer.RecorderSession.DefineChannel` | src/writer.cpp:521-601 | an error without a name or a free id, the existing id of a known name, otherwise the next id, its record and an empty slot |
| `Writer.RecorderSession.GetChannelDef` | src/writer.cpp:609-614 | the definition with the id, if there is one |
| `Lookup.FindName` | src/writer.cpp:526-531 | the first channel with a name, or their number when there is none |
| `Lookup.FindId` | src/writer.cpp:609-614 | the first channel with an id, or their number when there is none |
| `Writer.RecorderSession.WriteData` | src/writer.cpp:634-653 | Ok; the segment is closed if and only if the record and 88 bytes pass the size limit or the message is a whole duration behind the start of the segment's data; otherwise the record is all that is added |
| `Limits.NeedsRotationIsFull` | src/writer.cpp:403-411 | the rotation test asks exactly whether an entry's record and 88 bytes pass the limit, or the entry is a whole duration later than the least first timestamp of the segment's data, when that is not 0 |
| `Limits.DirectCloses` | src/writer.cpp:634-653 | a write on an uncompressed channel closes a segment if and only if the current one is full for it, and otherwise only adds its record |
| `Limits.RefusedWhenFull` | src/writer.cpp:572-584 | a chunk is refused if and only if the session has several files and the segment holds data and is full for it |
| `Limits.FlushCloses` | src/writer.cpp:277-292 | a flush closes the current segment exactly then, and puts the chunk behind the definitions of the next; otherwise the chunk is all that is added |
| `Limits.RangeOfEntries` | src/writer.cpp:266-275 | with chunks too, the segment's range is the least first and the greatest last timestamp of its data entries, each that of one of them |
| `Writer.RecorderSession.WriteCompressed` | src/writer.cpp:654-680 | Ok, and the recording after a buffered write, flushed when due |
| `Filling.BufferedFlushes` | src/detail/chunk_accumulator.cpp:71-86 | the buffer becomes a chunk exactly when it has reached the channel's size or an interval is set and has elapsed; no other buffer changes |
| `Filling.ChunksFillUp` | src/detail/chunk_accumulator.cpp:51-86 | in every run in which only size sets off flushes, each chunk on file has reached its channel's size and had not before its last message, and no buffer has reached it |
| `Writer.RecorderSession.Write` | src/writer.cpp:624-683 | Ok exactly for known channels, then one accepted message more; an error changes nothing; afterwards flags, buffers, timestamps, counters, files and index agree with the recording |
| `Writer.RecorderSession.Annotate` | src/writer.cpp:685-727 | an error exactly for labels over 65535 bytes; otherwise everything buffered is on file before the record |
| `Writer.RecorderSession.Flush` | src/writer.cpp:729-732 | Ok, and nothing buffered |
| `Writer.RecorderSession.RotateSegment` | src/writer.cpp:734-744 | an error exactly in single-file mode; otherwise flushed, sealed and reopened |
| `Writer.RecorderSession.Close` | src/writer.cpp:509-517 | Ok; files and manifest entries are those of the sealed segments of the flushed recording |
| `Runs.CallKeeps` | src/writer.cpp:521-744 | every public call keeps the invariant and adds exactly the message it accepts |
| `Runs.RunKeeps` | src/writer.cpp:521-744 | so does every sequence of public calls: nothing lost, duplicated or reordered within a channel |
| `Runs.RunJoins` | src/writer.cpp:521-744 | a run of two parts is the second part run from where the first ended |
| `Runs.SmallRunIsAllowed` | src/writer.cpp:624-683 | every run may be made whose chunk sizes and payloads together fit a record, whatever is buffered when |
| `RoundTrip.SealedReadsBack` | src/writer.cpp:332-397 | the walk over a sealed segment finds exactly the records written, all intact, and stops at the footer |
| `RoundTrip.FilesReadBack` | src/writer.cpp:440-744 | the files of a closed session deliver what the recording had on disk, nothing corrupt and nothing left buffered |
| `RoundTrip.ReplayedByChannel` | src/reader.cpp:288-429 | for every run, each channel of the stream read back is exactly its accepted messages in write order |
| `RoundTrip.ReplayedInOrder` | src/reader.cpp:288-429 | without compression the whole stream is the accepted messages in call order |
| `RoundTrip.RunKeepsOrder` | src/writer.cpp:634-653 | without compression the disk grows by the accepted messages in call order, through all rotations |
| `RoundTrip.CapableRunsCompress` | src/detail/chunk_accumulator.cpp:97-143 | compressors that never give up meet the condition of the round trip in every run |
| `RoundTrip.FallbackIsLost` | src/detail/chunk_accumulator.cpp:114-142 | if raw bytes are rejected by the decompressor, a chunk comes back if and only if it was compressed, and is otherwise lost whole and counted |
| `Opening.ParseChannelDefPayload` | src/reader.cpp:125-161 | on every payload, also a short one, the fields that the position-by-position parse defines, and whether the metadata test wraps and lets bytes behind the payload through |
| `Opening.TestIsExact` | src/reader.cpp:158 | the 32-bit test lets through exactly what lies in the payload and what makes the sum wrap, so a copy lies in the payload or is refused if and only if the sum does not wrap |
| `Opening.SixByteStray` | src/reader.cpp:264 | the annotation payload 00 00 FA FF FF FF makes it wrap |
| `Opening.StoredDefStays` | src/writer.cpp:232-264 | no stored definition whose name and schema have at most 65535 bytes makes it wrap |
| `Opening.StoredNoteStays` | src/writer.cpp:696-722 | nor does an annotation it stores |
| `Opening.DefReadsBack` | src/writer.cpp:232-264 | a stored definition is parsed back if and only if name and schema have at most 65535 bytes |
| `Opening.NoteReadsBack` | src/reader.cpp:249-272 | a stored annotation is collected with its timestamp, label and metadata |
| `Opening.OpenScan.constructor` | src/reader.cpp:169-173 | nothing collected yet |
| `Opening.OpenScan.ScanSegmentAtOpen` | src/reader.cpp:169-282 | on every byte string the scan adds what the file's records say of channels, annotations and counts, describes the segment's range and index, and notes whether any record made a copy stray behind its payload |
| `Opening.OpenScan.AdmitChannel` | src/reader.cpp:213-221 | a definition counts when it is named and the first with its id; a straying copy is noted |
| `Opening.KnownLearns` | src/reader.cpp:213-221 | on every sequence of records the channels are those known before and then, in order, every named definition that is the first with its number |
| `Opening.OpenScan.AddToCount` | src/reader.cpp:222-241 | only the count of the given channel grows |
| `Opening.OpenScan.CollectAnnotation` | src/reader.cpp:249-272 | a complete label gives an annotation, cut metadata is dropped, a cut label gives nothing, a straying copy is noted |
| `Opening.OpenScan.Visit` | src/reader.cpp:195-275 | what one record adds to channels, annotations, counts and index, and whether it strays |
| `Summary.DeliversAtMost` | src/reader.cpp:232-245 | a record delivers at most the messages it announces, all on its channel |
| `Summary.DeliveredAgainstDeclared` | src/reader.cpp:184-278 | for every byte string the drained messages of a channel are at most its count, and equal to it if and only if every record of the channel delivers all it announces |
| `Summary.RangeOfRecords` | src/reader.cpp:222-246 | the scanned range is the least and greatest timestamp of the data records, or the sentinel and 0 when there are none |
| `Validation.CountFaults` | src/splitter.cpp:467-493 | the records that fail their checksum, plus one when the footer counts differently |
| `Validation.CheckFooter` | src/splitter.cpp:441-465 | exactly the files long enough, with both magics and an intact footer |
| `Validation.Validate` | src/splitter.cpp:423-498 | the verdict over all files in order: Ok if and only if every file is there, well ended and without a failing record, and its footer counts its records; the first file that is absent or not well ended decides the error, ErrorIO or ErrorCorrupted, with count 0; otherwise the count is the number of failing records and of miscounted footers |
| `Validation.VerdictIsOk` | src/splitter.cpp:423-498 | when the verdict is Ok |
| `Validation.VerdictStops` | src/splitter.cpp:441-465 | which error the first bad file gives |
| `Validation.VerdictCounts` | src/splitter.cpp:467-497 | what is counted when all files are well ended |
| `Validation.ClosedIsWellEnded` | src/splitter.cpp:441-465 | the test before the walk, byte by byte: 96 bytes at least, the magic at both ends, and the checksum of the footer's first 24 bytes |
| `Validation.FooteredFile` | src/splitter.cpp:441-493 | header, records and a footer that counts them validate with exactly the failing records |
| `Guarantees.SealedIsFaultless` | src/writer.cpp:332-397 | every sealed segment has an intact footer, the right count and no failing record |
| `Guarantees.ClosedSessionsValidate` | src/splitter.cpp:423-498 | every session the recorder closes validates with Ok and zero corrupt records |
| `Guarantees.CutVerdict` | src/splitter.cpp:441-497 | a recorded segment cut anywhere is accepted if and only if the last 32 bytes left are an intact footer that counts the complete records left |
| `Guarantees.CutSessionVerdict` | src/splitter.cpp:423-498 | a session with such a segment is never answered with Ok unless its last 32 bytes are an intact footer |
| `Recovery.ScanRecords` | src/splitter.cpp:553-585 | offset, count, range and rebuilt index are those of the complete records of an arbitrary file |
| `Recovery.RecoverFile` | src/splitter.cpp:535-656 | a file with a valid start is rewritten as header, complete records, index and footer; others are left alone |
| `Recovery.RecoveredRecords` | src/splitter.cpp:593-656 | the recovered file has the original's records and its index, and the walk ends exactly at the new footer with a matching count |
| `Recovery.RecoveryPreservesMessages` | src/splitter.cpp:531-670 | a reader delivers the same messages and skips the same corrupt records before and after |
| `Recovery.RecoveredVerdict` | src/splitter.cpp:431-494 | validation of a recovered file counts exactly the original's failing complete records |
| `Recovery.CutDeliversPrefix` | src/reader.cpp:330-348 | a file cut anywhere behind its header delivers a prefix of its messages |
| `Recovery.CutThenRecovered` | src/splitter.cpp:561-656 | an intact file, cut and recovered, validates and still delivers that prefix |
| `Repaired.RecoveredIndex` | src/splitter.cpp:553-576 | the index Recover rebuilds loads as the points of the recovered records |
| `Repaired.RecoveredIsOrderly` | src/splitter.cpp:553-656 | recovered segments with plain records in time order form an orderly session with the same messages |
| `Repaired.RecoveredRead` | src/reader.cpp:572-637 | and a read by index of it is the filter of those messages from the segment sought on |
| `Damage.BurstBreaksRecord` | src/reader.cpp:355-364 | changing up to four adjacent covered bytes of a checksummed record breaks its checksum and not its framing |
| `Damage.BurstIsContained` | src/reader.cpp:355-366 | the reader then drops exactly that record, counts it, and delivers all others unchanged |
| `Seeking.PointsAreSound` | src/detail/index_builder.cpp:23-43 | every seek point names the start of a data record with its channel and timestamp; when that record came, its channel's last point was at least an interval back or there was none |
| `Seeking.PointsCover` | src/detail/index_builder.cpp:23-35 | every data record has a latest point on its channel at or before it: its own timestamp, or less than an interval older |
| `Spacing.PointsAreSpaced` | src/detail/index_builder.cpp:23-35 | consecutive points of a channel are at least an interval apart in wrapping 64-bit arithmetic, for every sequence of records |
| `Spacing.PointsTakeTime` | src/detail/index_builder.cpp:23-35 | on a channel in time order n points span at least n - 1 intervals |
| `Spacing.PointsPerChannel` | src/detail/index_builder.cpp:23-35 | so a channel has at most one point for each interval of its span, and one more |
| `Spacing.PointsAltogether` | src/detail/index_builder.cpp:23-35 | and n channels at most n times as many |
| `Seeking.PointIsFirst` | src/detail/index_builder.cpp:23-35 | where each channel is in time order, among equal timestamps of a channel only the first record can have a point |
| `Seeking.SeekOffsetBounds` | src/reader.cpp:587-602 | the offset sought is that of a latest point of some channel at or before the target, and no later than a latest point of any channel; the start if and only if no channel has one |
| `Seeking.SeekWithinSegment` | src/reader.cpp:572-604 | the place sought is the start of a record, and all data jumped over lies before the target |
| `Seeking.RecordsFrom` | src/reader.cpp:330-341 | reading from the offset of record i gives the records from i on |
| `Seeking.ScanIsFilter` | src/reader.cpp:621-635 | on rising timestamps the early stop at the end time visits exactly the filtered messages |
| `Seeking.FilterSelects` | include/recplay/reader.hpp:54-65 | the filter keeps, in order, exactly the messages not before the start time if one is set, not after the end time if one is set, and on one of the channels if any is named |
| `Seeking.VisitedIsPrefix` | src/reader.cpp:621-635 | what a callback sees is a prefix that ends with the first message it answers with false |
| `Playback.Reader.constructor` | src/reader.cpp:531-536 | draining would deliver the messages of the whole session |
| `Playback.Reader.OpenSegment` | src/reader.cpp:509-524 | the segment as scanned, with missing ends of its range from the manifest |
| `Playback.Reader.OpenDirectory` | src/reader.cpp:503-536 | one unreadable header spoils the session, absent files are passed over; otherwise channels, annotations and counts are what the records say |
| `Playback.Reader.OpenFile` | src/reader.cpp:473-501 | a single file opens by itself, everything known from its records |
| `Playback.Reader.FirstOffset` | src/reader.cpp:587-600 | the least over the channels of what the index finds |
| `Playback.Reader.Seek` | src/reader.cpp:572-604 | the cursor stands in the last segment that starts at or before the target, at that offset |
| `Playback.Reader.Read` | src/reader.cpp:611-637 | the callback sees what the scan of the messages ahead gives: from the place sought with a start time, from the current position without |
| `Playback.Reader.PassesFilter` | src/reader.cpp:628-633 | an empty filter lets every channel pass, another one the channels it names |
| `Playback.Reader.NextMessage` | src/reader.cpp:288-429 | terminates on all bytes; delivers the first of the remaining messages and keeps the rest, or there is none; corrupt records seen and ahead are conserved |
| `Playback.Reader.NextFromRecords` | src/reader.cpp:317-428 | the same for the walk over the segments |
| `Playback.Reader.TakeInner` | src/reader.cpp:290-311 | the next message of the chunk, or the chunk had no more to give |
| `Playback.Reader.StartChunk` | src/reader.cpp:376-397 | a chunk that does not decompress is counted, otherwise its messages are what comes next |
| `Playback.Reader.TakeRecord` | src/reader.cpp:350-425 | one complete record is consumed and its messages are the delivered one and what the chunk still holds |
| `Playback.Reader.SkipSegment` | src/reader.cpp:326-347 | moving on from a stuck place changes nothing that is still to come |
| `Playback.Reader.MessageCount` | src/reader.cpp:670-673 | the announced count of the channel, 0 for one never seen |
| `Playback.Reader.TotalMessageCount` | src/reader.cpp:663-668 | the sum over all channels |
| `EndToEnd.TotalOfRun` | src/reader.cpp:663-668 | of a reopened run it is the number of accepted messages |
| `IndexedRead.ReadAgainstFilter` | src/reader.cpp:572-637 | the filter of an orderly session, with or without empty segments, is what the segments before the one sought hold of it followed by what an indexed read visits: neither the index nor the early stop loses anything |
| `IndexedRead.ReadIsComplete` | src/reader.cpp:572-637 | the read is the filter of the whole session if and only if no wanted message lies before the last segment that starts at or before the start time |
| `IndexedRead.ReadIsFilter` | src/reader.cpp:572-637 | with data in the segment sought and no timestamp in two segments an indexed read visits exactly the linear filter of the session |
| `IndexedRead.ReadMissesTies` | src/reader.cpp:580-584 | with data in the segment sought it is complete if and only if no wanted message before that segment ties with the start time |
| `IndexedRead.MissedAreTies` | src/reader.cpp:580-584 | everything then missed carries the start time across a segment boundary |
| `IndexedRead.EmptySegmentCaptures` | src/reader.cpp:580-584 | when the segment sought holds no data a read visits exactly what the segments behind it hold, and nothing of what comes before |
| `IndexedRead.LastEmptySegmentCaptures` | src/reader.cpp:280-281 | a last segment without data makes every read with a start time visit nothing |
| `ChannelClocks.ScanStops` | src/reader.cpp:621-635 | on every stream, rising or not, a read visits the filter of what stands in front of the first message behind the end time |
| `ChannelClocks.ReadOfAny` | src/reader.cpp:572-637 | in every session with its indexes, in whatever order, the messages are those of earlier segments, those jumped over, and those read up to that stop |
| `ChannelClocks.ReadOfAnyIsComplete` | src/reader.cpp:572-637 | a read is the filter of the whole session if and only if nothing wanted is in earlier segments, jumped over, or behind the stop |
| `ChannelClocks.JumpedMessage` | src/reader.cpp:587-600 | with channels in time order each by itself, a message jumped over is behind the target if and only if its channel has no point at or before it, and ties with it only at the end of a chunk begun earlier |
| `ChannelClocks.SeekLoses` | src/reader.cpp:587-600 | the same for all that a seek on an opened session jumps over |
| `ChannelClocks.SeekLosesNothing` | src/reader.cpp:587-600 | nothing at or after the target is jumped over if and only if every channel jumped over has a point at or before it and none of its chunks reaches up to it |
| `Chronicle.WriteExtends` | src/writer.cpp:624-683 | Write only appends to what is on file, and nothing an opening would learn from |
| `Chronicle.FlushAllExtends` | src/writer.cpp:294-301 | so do flush and rotation, which repeat known definitions only |
| `Chronicle.RunTells` | src/writer.cpp:521-744 | after every run the records on file tell all channels in definition order and all annotations in call order |
| `Reopening.SealedReads` | src/writer.cpp:332-397 | the records of consecutive closed files are those of the sealed entries, and hold the segments' messages |
| `Reopening.DeclaredIsHeld` | src/reader.cpp:222-245 | the announced count of a channel is the number of messages its entries hold |
| `Reopening.ReopenedSays` | src/reader.cpp:169-282 | reopening gives back, with or without the manifest's list, all channels, all annotations and the number of accepted messages per channel |
| `Reopening.AnnotationBarrier` | src/writer.cpp:693-727 | in front of an annotation's record stand, on every channel, exactly the messages accepted before the call, also when flushing for it rotates |
| `Recorded.SealedIndex` | src/writer.cpp:340-353 | the index of a sealed segment, when it fits its record, loads as the points of the records found in the file, and the manifest's start is their least timestamp |
| `Recorded.RecordedIsIndexed` | src/reader.cpp:509-524 | every recorded segment whose index fits its record, empty or not, is opened with the index of its records |
| `Recorded.RecordedIsDated` | src/reader.cpp:516-521 | with its manifest entry it is opened with the recorded start, 0 when it holds no data |
| `Recorded.RecordedIsOrderly` | src/writer.cpp:634-653 | every uncompressed run in time order, with or without empty segments, gives an orderly session that holds the accepted messages |
| `Recorded.SoughtByManifest` | src/reader.cpp:580-584 | a seek on the reopened session goes to the last segment whose recorded range starts at or before the target |
| `Recorded.RecordedRead` | src/reader.cpp:572-637 | recorded so, a read with a start time visits exactly the accepted messages asked for from the segment sought on |
| `Recorded.RecordedReadIsComplete` | src/reader.cpp:572-637 | that is all that was asked for if and only if no such message was recorded in an earlier segment |
| `Recorded.RecordedReadIsFilter` | src/reader.cpp:572-637 | in particular with data in the segment sought and no timestamp in two segments |
| `Gaps.LastSegmentCaptures` | src/reader.cpp:280-281 | a closed session whose last segment got no data gives a read with a start time nothing |
| `Gaps.RotateThenClose` | src/writer.cpp:734-744 | every run in directory mode that ends in RotateSegment before Close is such a session |
| `Gaps.TieIsMissed` | src/writer.cpp:734-744 | after every run that writes one timestamp on both sides of a RotateSegment, a read from that time on is not what was asked for |
| `RecordedByChannel.RecordedReadByChannel` | src/reader.cpp:572-637 | after every run whose channels rise each by itself, compressed or not, what a read visits, and that it jumps over later messages exactly on the channels without a point |
| `Overtaken.OvertakenIsLost` | src/reader.cpp:587-600 | after every run that flushes a chunk of one channel and then an earlier one of another into a new segment, a read from between the two is not what was asked for |
| `Overtaken.TieInChunkIsLost` | src/reader.cpp:587-600 | nor is it after a chunk that ends with the time at which the next one of its channel begins, read from that time |
| `Rotation.SealedSize` | src/writer.cpp:332-382 | closing adds the estimate and 4 bytes and 18 for each seek point, as far as a 32-bit length can say |
| `Rotation.SegmentsKeepToSize` | src/writer.cpp:634-645 | in runs that only write, a segment with two or more messages is at most the limit plus 4 plus 18 for each seek point |
| `Spacing.SegmentPoints` | src/detail/index_builder.cpp:23-35 | a recorded segment whose channels are each in time order, compressed or not, has at most one point for each channel and interval of its span, and one more for each channel |
| `Spacing.SegmentsKeepToSizeInTime` | src/writer.cpp:634-645 | with every channel in time order, a segment with two or more messages is at most the limit, 4 bytes, and 18 for each channel and interval of its span |
| `Filling.ClosedWhenFull` | src/writer.cpp:403-411 | in every run that never asks for a rotation and whose channels are all compressed or all uncompressed, each segment but the last is full for the first data entry of the next |
| `Filling.OneSegmentWithoutLimits` | src/writer.cpp:403-411 | so with no limit set there is one segment |
| `Filling.EmptyOnlyForLarge` | src/writer.cpp:634-645 | and a segment is left without data only where one entry passes the limit on its own |
| `Filling.WritesFillSegments` | src/writer.cpp:634-645 | in runs of uncompressed writes the first message of each further segment did not fit the file before with 108 bytes more, or came a whole duration after its earliest message, which is later than 0 |
| `Rotation.SegmentsKeepToDuration` | src/writer.cpp:403-411 | with positive rising timestamps every segment spans less than the limit |
| `Rotation.RangeIsExact` | src/writer.cpp:266-275 | the range of a segment without chunks is the least and greatest timestamp of its messages, both reached |
| `Rotation.InfosListSegments` | src/writer.cpp:387-394 | manifest entry i is numbered i and has the range and final size of segment i |
| `SelfContained.SegmentsStandAlone` | src/writer.cpp:303-330 | in every run segment i carries number i, opens with all definitions made before it, and defines the channel of every message in it |
| `SelfContained.RecordedSegmentsKnow` | src/reader.cpp:213-221 | read without the others, each segment of a run gives the definition of every message's channel, when its chunks were compressed |
| `Layout.HeaderFields` | include/recplay/format.hpp:52-62 | the 64 bytes of a header: magic, version, session, segment number, creation time, flags, zeros |
| `Layout.EnvelopeFields` | include/recplay/format.hpp:68-76 | the 20 bytes in front of every payload written: op, channel, flags, length, timestamp, checksum |
| `Layout.FooterFields` | include/recplay/format.hpp:112-118 | the 32 bytes of a footer: magic, index offset, record count, checksum, zeros |
| `Layout.ChunkFields` | include/recplay/format.hpp:82-88 | a chunk's payload: codec, length before compression, message count, the compressed buffer |
| `Layout.InnerFields` | docs/data-format-architecture.md:87-94 | a message in the buffer: timestamp, length, data |
| `Layout.IndexFields` | include/recplay/format.hpp:94-105 | an INDEX payload: the count, then 18 bytes for every point |
| `Layout.DefFields` | include/recplay/format.hpp:129-140 | a CHANNEL_DEF payload field by field |
| `Layout.NoteFields` | include/recplay/format.hpp:145-149 | an ANNOTATION payload field by field |
| `Layout.StartFields` | src/writer.cpp:221-230 | the start record names the recorder version and, in a decimal number that reads back, its segment |
| `Layout.EndFields` | src/writer.cpp:353-366 | the end record counts the records before it and says how long the segment's data lasts, 0 without data |
| `Layout.SealedPointsToIndex` | src/writer.cpp:340-382 | the footer of a closed segment points at its INDEX record, which carries the time of the latest data |
| `Layout.RecoveredPointsToIndex` | src/splitter.cpp:593-656 | and so does that of a recovered one |
| `Inputs.OpenInput` | src/reader.cpp:444-537 | an opened session delivers its stream and knows its channels and annotations |
| `Inputs.OpenAll` | src/splitter.cpp:242-247 | distinct readers at the start of every input, or the status of the first that fails |
| `Inputs.FirstToFail` | src/splitter.cpp:242-247 | the status is Ok when all inputs open, and otherwise that of the first that does not |
| `ChannelMaps.MapChannels` | src/splitter.cpp:249-280 | the channel map of all sources; when it is built, the merged channels are the first definitions of every name in source order, copied whole but for their number, which is their position |
| `ChannelMaps.MapCopiesFirsts` | src/splitter.cpp:259-280 | every merged channel is a definition that no earlier one of the sources shares its name with, renumbered and otherwise unchanged; they come in source order, and every name is there |
| `ChannelMaps.FindTarget` | src/splitter.cpp:348-357 | the destination of the first link for the source and channel |
| `ChannelMaps.MapIsSound` | src/splitter.cpp:259-280 | merged names are distinct, every link leads to the name of its definition, and every source channel has one |
| `ChannelMaps.TargetHasName` | src/splitter.cpp:348-357 | every source channel lands on the merged channel of its own name |
| `Deliveries.MapIsBuilt` | src/splitter.cpp:249-280 | the map is refused if and only if duplicates may not be merged and a name occurs twice among all sources |
| `Deliveries.AllDefsAt` | src/splitter.cpp:259-260 | definition j of source i stands behind all definitions of the sources before it |
| `Deliveries.AllLandWhenListed` | src/splitter.cpp:346-357 | every message picked has a destination if and only if its source lists its channel |
| `Deliveries.LandsUnderItsName` | src/splitter.cpp:346-368 | a message is written unchanged on the merged channel that has the name of its own |
| `Deliveries.OrderTakesAll` | src/splitter.cpp:334-376 | below the sentinel timestamp as many messages are picked as the sources hold |
| `Deliveries.KnownIdsDiffer` | src/reader.cpp:213-221 | an opened session numbers its channels apart |
| `Deliveries.WritesInterleave` | src/splitter.cpp:334-376 | the writes are as many as the messages of the sources, keep every source in its order, stand under the right names, and rise when the sources do |
| `Interleaving.BestIsLeast` | src/splitter.cpp:335-344 | the head taken has the least timestamp, and the lowest source among equals |
| `Interleaving.OrderKeepsSources` | src/splitter.cpp:334-376 | every source's messages occur once, in order, complete up to the first that carries the sentinel |
| `Interleaving.OrderIsOrdered` | src/splitter.cpp:334-376 | sources in time order merge into time order, ties by source |
| `Interleaving.SortIsUnique` | src/splitter.cpp:334-376 | there is only one stable sort by timestamp and channel |
| `Interleaving.SplitThenMergeSorts` | src/splitter.cpp:316-376 | merging the channels of an ascending stream gives its stable sort by timestamp and channel |
| `Interleaving.SplitThenMergeRestores` | src/splitter.cpp:316-376 | and the stream itself when its timestamps strictly increase |
| `Interleaving.AllTakeable` | src/splitter.cpp:337-344 | below the sentinel nothing is held back |
| `Merging.SelectHead` | src/splitter.cpp:335-344 | the held head that goes next |
| `Merging.FetchHead` | src/splitter.cpp:316-325 | only the chosen reader advances; every other head stays what it was |
| `Merging.SeedHeads` | src/splitter.cpp:327-329 | every reader's first message is held |
| `Merging.WriteHead` | src/splitter.cpp:346-368 | the message is written unchanged to its destination, or has none and nothing is written |
| `Merging.MergeStreams` | src/splitter.cpp:334-376 | terminates; the destination gets exactly the merged order up to cancellation or the first message without destination |
| `Merging.DefineAll` | src/splitter.cpp:293-310 | all channels numbered by position, or the error of an unnamed one or one too many |
| `Merging.NotesAreSorted` | src/splitter.cpp:380-386 | the annotations of all sources, in time order |
| `Merging.AllNotesOf` | src/splitter.cpp:380-383 | the annotations of every input stand in one piece behind those of the inputs before |
| `Merging.AnnotateAll` | src/splitter.cpp:387-395 | every annotation is written once, in that order |
| `Merging.MergeSucceeds` | src/splitter.cpp:235-411 | a merge returns Ok if and only if there are inputs, all open, names are distinct or duplicates allowed, the merged channels can be defined, and every message picked is on a channel its source lists |
| `Merging.MergeFails` | src/splitter.cpp:235-310 | no inputs, repeated names that may not be merged and unnamed channels are argument errors, the first input that does not open gives its own status, and a corrupted answer means a message on a channel its source does not list |
| `Merging.MergeInterleaves` | src/splitter.cpp:235-411 | an uncancelled merge below the sentinel timestamp writes an interleaving of its inputs in that sense |
| `Merging.Merge` | src/splitter.cpp:235-411 | the exact status for all inputs whose messages and definitions the recorder takes, and on success the files of a session with exactly these channels, messages and annotations; the channels are the first definitions of every name, whole but for their numbers; uncancelled and below the sentinel, the messages are an interleaving of the inputs |
| `Merging.SmallInputsMerge` | src/splitter.cpp:235-411 | the recorder takes all of them when the largest chunk and payload of the inputs together fit a record |
| `Outputs.MergedReadsBack` | src/splitter.cpp:293-395 | opened again, the merged session lists exactly those definitions (with names and schemas that fit 16 bits), in source order and numbered by position, and holds the annotations of all sources in time order, or none |
| `Deliveries.UntilIsPrefix` | src/splitter.cpp:370-376 | cancelling leaves a prefix of the merged order, up to the first message after which the callback, told the bytes so far, refuses |
| `Splitting.Extract` | src/splitter.cpp:99-109 | all channels when none is requested; otherwise one definition for every request that names a channel, in request order and repeated when repeated, whole and the first with its number |
| `Splitting.ExtractedAreGranted` | src/splitter.cpp:99-109 | the same of the specification: request by request, and no channel has the number of a request that is passed over |
| `Splitting.PassedIsPrefix` | src/splitter.cpp:166-183 | cancelling leaves a prefix of the source, up to the first message after which the callback, told the bytes so far, refuses |
| `Splitting.SplitSucceeds` | src/splitter.cpp:82-164 | a split that opens its source fails with ErrorNotFound if and only if no request names a channel, or there are none, and succeeds if and only if all extracted channels are named |
| `Splitting.OpenOuts` | src/splitter.cpp:120-164 | one recorder per channel, none sharing state with another |
| `Splitting.RouteOne` | src/splitter.cpp:170-179 | the message goes to the first output of its channel and no other output changes |
| `Splitting.RouteAll` | src/splitter.cpp:166-183 | every output has its share of the stream up to cancellation, in order |
| `Splitting.AnnotateOuts` | src/splitter.cpp:185-198 | every output gets every annotation, and no message changes |
| `Splitting.FinishOuts` | src/splitter.cpp:200-220 | every output closes into the session of its calls, with its message count |
| `Splitting.Split` | src/splitter.cpp:82-223 | the exact status for all inputs whose messages and definitions the recorders take, and on success output i is the session of its channel's share and the annotations; the channels are all of the source's or those requested, in request order |
| `Splitting.SmallInputSplits` | src/splitter.cpp:82-223 | they take all of them when the largest chunk and payload of the input together fit a record |
| `Paths.SanitiseName` | src/splitter.cpp:35-40 | slashes, colons and blanks are replaced, in place, and nothing else |
| `Paths.OutputsCollide` | src/splitter.cpp:43-48 | by default two channels share an output directory if and only if their names differ in replaced characters only |
| `Reassembly.ShareIsAlone` | src/splitter.cpp:99-179 | of any list of requested channels, the first with an id gets all messages of that channel in order, a repeated one gets none |
| `Reassembly.OutputReadsBack` | src/splitter.cpp:166-220 | an output read back delivers its share and its one channel |
| `Reassembly.PartReadsBack` | src/splitter.cpp:166-220 | part i delivers the source's messages of channel i |
| `Outputs.SplitOutputReadsBack` | src/splitter.cpp:99-220 | every output, for all channels or requested ones, cancelled or not, read back: its definition, the messages of its channel that were let pass, in order, when it is the first output for it and none otherwise, and the annotations when asked for |
| `Outputs.SplitByRequest` | src/splitter.cpp:99-220 | by request: output i has the channel some request names, and its messages unless an earlier request named it too |
| `Reassembly.SplitThenMerge` | src/splitter.cpp:82-411 | merging the outputs in channel order writes the stable sort of the source, and the source itself when timestamps strictly increase |
| `Json.JsonEscape` | src/detail/manifest_io.cpp:23-37 | the escaped form of every byte string |
| `Json.EscapedReadsBack` | src/detail/manifest_io.cpp:75-103 | any string at all, escaped and closed by a quote, is read back as it was |
| `Json.ToHex` | src/detail/manifest_io.cpp:39-48 | two lower-case digits per byte |
| `Json.HexDigits` | src/detail/manifest_io.cpp:39-48 | the upper half of byte k is digit 2k and the lower half digit 2k + 1, from 0123456789abcdef |
| `Json.FromHex` | src/detail/manifest_io.cpp:54-67 | the bytes of the digit pairs of any string, a last odd digit dropped |
| `Json.HexReadsBack` | src/detail/manifest_io.cpp:39-67 | hexadecimal text is read back as the bytes printed |
| `Json.ExtractJsonString` | src/detail/manifest_io.cpp:75-103 | the unescaped value behind the first occurrence of the key, on any text |
| `Json.ExtractJsonUint64` | src/detail/manifest_io.cpp:106-118 | the number behind the first occurrence of the key with the library's white space, sign and overflow rules, 0 when there is none |
| `Json.DecimalReadsBack` | src/detail/manifest_io.cpp:106-118 | every 64-bit number printed in decimal is read back |
| `Json.ExtractJsonObjects` | src/detail/manifest_io.cpp:131-167 | the outermost objects of the array behind the key, to the end of the text when it does not close |
| `Manifest.PrintChannel` | src/detail/manifest_io.cpp:186-196 | the channel's object as quoted tokens and the text between them |
| `Manifest.PrintSegment` | src/detail/manifest_io.cpp:203-210 | the segment's object in that form |
| `Manifest.PrintManifest` | src/detail/manifest_io.cpp:173-214 | the whole manifest text in that form |
| `Manifest.ParseChannel` | src/detail/manifest_io.cpp:288-299 | every field as searched for in the object, cut to its width |
| `Manifest.ParseSegment` | src/detail/manifest_io.cpp:303-311 | every field as searched for in the object |
| `Manifest.ParseManifest` | src/detail/manifest_io.cpp:275-311 | every field, channel and segment as searched for in the text |
| `KeySearch.TokenSearch` | src/detail/manifest_io.cpp:75-83 | a search for a key stops inside any escaped string exactly when what follows its last quote is the key |
| `KeySearch.FindItem` | src/detail/manifest_io.cpp:75-83 | so in printed text it stops at the first string that ends like the key, whatever the strings are |
| `ObjectReading.ChannelReads` | src/detail/manifest_io.cpp:288-299 | what any printed channel is read as, field by field |
| `ObjectReading.ChannelReadsBack` | src/detail/manifest_io.cpp:288-299 | a printed channel is read back as it was if and only if its name ends like none of five keys, or what that hides equals what is found instead |
| `ObjectReading.SegmentReads` | src/detail/manifest_io.cpp:303-311 | what any printed segment entry is read as |
| `ObjectReading.SegmentReadsBack` | src/detail/manifest_io.cpp:303-311 | the same if and only if for segment entries and file names |
| `Bracketing.ListReads` | src/detail/manifest_io.cpp:131-167 | a printed list whose objects close their brackets is cut into exactly its objects |
| `ManifestReading.ChannelAsSegment` | src/detail/manifest_io.cpp:303-311 | what a channel is read as where the search takes the list of channels for that of segments |
| `ManifestReading.ManifestReads` | src/detail/manifest_io.cpp:275-311 | what the text of any manifest whose lists can be found is read as |
| `ManifestReading.ManifestReadsBack` | src/detail/manifest_io.cpp:275-311 | parsing the printed manifest gives the manifest if and only if nothing in it hides a field with another value |
| `Unbalanced.BraceCutsChannel` | src/detail/manifest_io.cpp:131-167 | when the first channel has a name that starts with a closing brace, it comes back with layer 0 whatever its layer is |
| `Unclosed.SegmentAsChannel` | src/detail/manifest_io.cpp:288-299 | what a segment entry is read as where it is taken for a channel |
| `Unclosed.UnclosedReads` | src/detail/manifest_io.cpp:131-167 | what a manifest is read as when one string of a channel closes one bracket too many: its segments once more, as channels |
| `Unclosed.UnclosedReadsBack` | src/detail/manifest_io.cpp:131-167 | it is read back as it was if and only if it lists no segments and nothing in it hides a field with another value |
| `Sessions.Perform` | src/writer.cpp:521-744 | each public call does to the session what the run model says, and returns the message it accepted |
| `Sessions.Step` | src/writer.cpp:521-744 | the session stays the one these calls lead to |
| `Sessions.Finish` | src/writer.cpp:509-517 | files and manifest entries of exactly the calls made |
| `Sessions.Record` | src/writer.cpp:440-744 | a whole session from Open to Close gives the files, entries, channels and accepted messages of the run |
| `Sessions.Drain` | src/reader.cpp:606-609 | reading to the end delivers all remaining messages and counts all corrupt records ahead |
| `EndToEnd.SingleFileStays` | src/writer.cpp:277-292 | a single-file session never leaves its first segment |
| `EndToEnd.OpenSingle` | src/reader.cpp:473-501 | the one file of a single-file run, opened directly, tells channels, annotations, counts and messages of the run |
| `EndToEnd.OpenByManifest` | src/reader.cpp:503-536 | a directory session, its manifest printed, parsed and opened by, tells the same |
| `EndToEnd.RecordAndOpen` | src/reader.cpp:444-537 | recorded and reopened, a single file directly and a directory by its manifest, the reader knows channels, annotations and counts of the run |
| `EndToEnd.RecordAndReplay` | src/reader.cpp:606-609 | and delivers the accepted messages per channel, in call order when nothing is compressed, with no corrupt record |
| `EndToEnd.RecordAndRead` | src/reader.cpp:611-637 | for every uncompressed run in time order, empty segments and ties included, a read with a start time visits exactly the accepted messages asked for from the segment sought on, and all of them when none was recorded before it |

## Left out

- Failing input and output: mapping growth, disk full, unreadable directories, renames and the counter of dropped messages; writing a file always succeeds, and a missing segment file is an input.
- The clock: whether the flush interval has elapsed is a boolean given with each Write (`timeUp`, and the function `clock` in split and merge).
- Session ids, creation times, version strings, directory and file names: inputs of a configuration. A segment number is taken modulo 2^32, the file name made from it is not part of this model.
- The manifest file itself: only its text is modelled; writing it during the session is best effort and changes nothing else.
- Calls on sessions that are not open, null pointers and missing callbacks: each is a single test and return.
- Message views are values, so that a view is overwritten by the next read of the same reader is not modelled; that a merge advances only the chosen reader is (`Merging.FetchHead`).
- Sums of 64-bit offsets and counts are unbounded integers.
- The recorder version, session id and creation time that a single-file open takes from header and start record: they influence nothing else.
- Splitter::Recover around the single file: directory listing, the choice of file names, the rewritten manifest.
- Directory patterns of Split, the byte totals in its results, and the closing of outputs after an error.
- The library's sort of seek points and of merged annotations is modelled by an insertion sort. What is proved about loaded indexes and reading holds for any order of equal points; merged annotations of equal time keep their order here.
- `EntriesFor`, `ReadChannel`, annotations within a time range, and the accessors of `src/session.cpp`: one-loop filters.
- Big-endian hosts, the viewer, the examples, file mapping.
- Recovery.RecoverFile: one segment file at a time.
- Recovery.RecoveryPreservesMessages: when the rebuilt index fits the 32-bit length of its record, as do the other theorems about recovered files; with more seek points the stored length wraps (`src/splitter.cpp:618-619`), and the walk over the rewritten file goes on inside the index.
- ManifestReading.ManifestReadsBack: for manifests whose channels and segments close the brackets they open within each string, and, unless the version ends like the key of the segments, of whose channels none has a string that ends like it or none has an opening bracket; the condition is exact on these. Of unbalanced brackets, one closing bracket too many in a string of a channel is `Unclosed.UnclosedReadsBack`, exact as well, and a closing brace at the start of the first name is `Unbalanced.BraceCutsChannel`; other unbalanced strings are not described.
- Opening.ParseChannelDefPayload: what the original copies once the test has wrapped is not determined by the file; the field is left empty and the fact is reported, as it is by Opening.OpenScan.ScanSegmentAtOpen.
- RoundTrip.ReplayedByChannel: asks that no chunk was stored raw; `RoundTrip.FallbackIsLost` says what happens to one that was.
- Writer.RecorderSession.Write: the message must fit its record and, on a compressed channel, what is buffered together with it a raw chunk's record (4 GiB less 9 bytes), beyond which the stored length wraps; the flush callback is a method of the session instead of a stored function.
- Merging.Merge: what the destination is told must be what a recorder takes (`Runs.Permitted`); the same holds for each output of Splitting.Split. `Merging.SmallInputsMerge` and `Splitting.SmallInputSplits` give a condition on the inputs alone.
- Splitting.Split: the outputs are separate sessions; which channels would share a directory, and so overwrite each other, is `Paths.OutputsCollide`, but what two recorders in one directory leave behind is not modelled.
- Splitting.OpenOuts: one session per channel, separate by construction, with the same remark.
- Recorded.RecordedRead: for runs without compressed channels whose accepted timestamps never decrease, and segments whose index fits its record; `RecordedByChannel.RecordedReadByChannel` is for channels that rise each by itself, compressed or not, and asks that no chunk had to be stored raw.
- Filling.ClosedWhenFull: for channels all compressed or all uncompressed. With both, a direct write that finds its segment full first flushes all buffers, and a chunk refused on the way closes one more segment before the write's own rotation, full or not; what each call closes is `Limits.DirectCloses` and `Limits.FlushCloses`, for any channels.
- Rotation.SegmentsKeepToSize: the number of seek points is left as it is, since messages out of time order can have one each; `Spacing.SegmentsKeepToSizeInTime` bounds it for channels in time order.
- Index.SeekIndex.Find: with several points of one timestamp on a channel any of them may be found, as the order of equal points is open.
