# Clipboard channel and remote file copy

A model of the clipboard virtual channel of the client (MS-RDPECLIP packets carried in
MS-RDPBCGR chunks) and of the remote-file engine built on it, with proofs. It has four layers.

* **Wire codec** (`Wire`, `Stream`, `Pdu`, `FormatList`, `ListForms`, `Capabilities`). A stream class with a
  byte array and a cursor; writers and readers with the loops of the source, proved against pure
  encoders and decoders; round trips and exact acceptance conditions for the decoders.
* **Reassembly** (`Reassembly`). The chunk buffer, the message queue and the handler thread;
  conservation of bytes for any chunk sequence; when exactly a well-formed message survives.
* **Session** (`FormatFilter`, `Serving`, `Session`, `Stack`, `NameForms`,
  `Receiving`, `Plugin`). Negotiation,
  direction and class gating, the empty-list rule, the file callback and dispatch, as a step
  function with a trace of what was sent and handed on; a class whose methods are proved to be
  those steps, byte for byte; what each kind of packet does and looks like, stated on its bytes; one
  endpoint as a whole, channel, handler and session in any
  interleaving, where the handler's verdict is the status of the session's step; and when the two
  ends agree on the form of names.
* **Remote files** (`Paths`, `FileWalk`, `Download`, `Engine`, `EngineSafety`, `EngineRequests`,
  `EngineSequential`, `EngineContent`, `Entry`, `Forest`, `ForestCopy`, `Link`, `LinkCopy`). Names
  and descriptors, the recursive walk, the 64 KiB chunk loop, and the engine as interleaved atomic
  steps (worker, response callback, enqueue, stop), one step per critical section, refining that
  loop; `Entry.ClipboardEntry` is the object whose methods are those steps. The layers meet in
  `ForestCopy.ForestCopied` and, with the engine and both sessions run together over packet
  queues, in `LinkCopy.LinkedForest`.

How to read it: a specification function gives the meaning of an operation, a method with the
source's loop is proved equal to it, and lemmas state what it is for. An action of the engine that
is not enabled does nothing, so every statement about `Run(acts)` is about every interleaving.

Assumptions. Library contracts are short: a write puts bytes at the cursor, a growing buffer may
get any larger capacity, the UTF-16 writer fills its field with zeros, and character conversion is
the identity on names whose every byte is one code unit. `cleanPath` is the identity on clean
relative paths, and the descriptor array serialiser is the identity. The channel accepts every
write and memory never runs out. Capability, format and file-contents constants are those of
MS-RDPECLIP; a feature mask is the set of its bits. The list and view objects the publish step
tests for are present. A name is a sequence of UTF-16 code units. A copied root is given without a
trailing slash, so that its file name is its last component, and a tree holds what `entryList`
lists: hidden files are not in it. A packet handed out fits the size its writer asserts.

What the code does that its promises do not say:

* A well-formed message is delivered intact if and only if there is no buffer before it, or an empty
  one whose capacity the announcement brings to the message's length (`Reassembly.MessageIntact`).
  A failed last chunk leaves its bytes, and an empty first chunk its capacity, in the way of the
  next message (`Reassembly.FailedLastLeaves`, `Reassembly.EmptyFirstSwallows`).
* A handler thread ends at the first message whose handler fails; what was sent after it is never
  handled. Of the packets of a peer running this code, format names being plain bytes, exactly these
  fail: an error reply to a file request (its body is empty, and the reader refuses it), a file
  request the reader refuses, one the file callback has no answer to, and a format list in the name
  form the receiver does not expect, unless the lengths of its names and the halves of its ids bring
  the other reader to the end of a record (`Stack.ReceiveFails`, `ListForms.ReadableIsAccepted`). An
  unanswerable request gets no reply, so the peer's download waits until it is stopped. A list of
  packets takes full effect if and only if no packet before the last one fails
  (`Stack.WholeStack`, `Stack.NoneFails`).
* After late capabilities a sender writes its lists in a form it never announced. A receiver that
  handled all packets since a handshake reads the next list as meant if and only if no flag word
  has come to the sender since its last monitor ready, or that word names the agreed form
  (`NameForms.NextList`). Three packets are enough to end a thread this way
  (`NameForms.PartedIsSent`, `NameForms.PartedEndsThread`).
* A server capability packet after the client's reply overwrites the agreement
  (`Session.LateCapsOverwrite`). Exactly: the agreement stands if and only if the last flag word
  since the last monitor ready is missing or names the same features, and huge-file support is on
  if and only if that word has bit 5 (`Session.LateCapsExact`). So the size limit holds only until
  the next such packet.
* A comment says that without server capabilities all flags count as zero; the code turns "no
  file paths" on. In every run in which no server flag word has been seen that feature is on from
  the first monitor ready, and no other ever is (`Session.WithoutServerCaps`). The model follows
  the code.

## Model

| member | source | states |
|---|---|---|
| Wire.SplitJoin64 | clipboard-entry.h:401-402 | splitting a 64-bit offset into low and high words and joining them again is lossless in both directions |
| Pdu.PacketNew | ref-tmp/cliprdr_common.c:119-135 | a fresh packet is the 8-byte header with a blank length, and has room for the body |
| Pdu.PacketSend | ref-tmp/cliprdr_main.c:61-90 | what is given to the channel is what was written, with bytes 4 to 7 replaced by the body length |
| Pdu.PatchedIsEncoded | ref-tmp/cliprdr_main.c:72-78 | patching a packet with a blank length gives the image of its type, flags and body |
| Pdu.ParseHeaderOfEncode | ref-tmp/cliprdr_main.c:448-456 | the receiver's header reader recovers type, flags, length and body of every sent packet |
| Pdu.WriteFileRequest | ref-tmp/cliprdr_common.c:137-149 | the writer appends six little-endian words, and the data id only when there is one, inside 28 bytes |
| Pdu.ReadFileRequest | ref-tmp/cliprdr_common.c:346-369 | the reader agrees with the decoder on every byte string: too short, optional trailing word, refused or accepted |
| Pdu.FileRequestRoundTrip | ref-tmp/cliprdr_common.c:89-117 | a written request reads back as itself if it is a valid size or range request, and is refused otherwise |
| Pdu.FileRequestReadsOnlyWritten | ref-tmp/cliprdr_common.c:346-369 | whatever the reader accepts is the image of a valid request, 24 or 28 bytes of it |
| Pdu.FileResponsePacketNew | ref-tmp/cliprdr_common.c:224-239 | header, stream id and data, inside the capacity asked for |
| Pdu.ReadFileResponse | ref-tmp/cliprdr_common.c:371-386 | the reader agrees with the decoder, including both length errors |
| Pdu.FileResponseRoundTrip | ref-tmp/cliprdr_common.c:168-173 | a written response reads back with its id, flags and data |
| FormatList.WriteRecord | ref-tmp/cliprdr_common.c:267-303 | a record is appended as encoded; no write passes the capacity ensured before its first byte, in any mode |
| FormatList.FormatListPacketNew | ref-tmp/cliprdr_common.c:241-310 | the packet body is the records in order, whatever the first capacity was, in all four modes |
| FormatList.ReadShortList | ref-tmp/cliprdr_common.c:414-486 | the loop with its index guard computes the short-list decoder |
| FormatList.ShortAccepts | ref-tmp/cliprdr_common.c:414-455 | a short list is accepted exactly when empty, or at least 36 bytes with fewer than 4 stray ones, and gives one format per 36 bytes |
| FormatList.CountPass | ref-tmp/cliprdr_common.c:492-505 | the first pass counts the records, or fails, as specified on every byte string |
| FormatList.FillPass | ref-tmp/cliprdr_common.c:518-546 | the second pass fills an array of any size as specified, index guard included |
| FormatList.TwoPassAgreement | ref-tmp/cliprdr_common.c:492-546 | after a successful count the second pass succeeds if and only if the array has that many places, and fills exactly that many |
| FormatList.LongAccepts | ref-tmp/cliprdr_common.c:487-547 | a long list is accepted exactly when the counting pass consumes it to the last byte |
| FormatList.ReadFormatList | ref-tmp/cliprdr_common.c:388-554 | the whole reader: length check, empty list, both forms, cursor left behind the payload |
| FormatList.LongRoundTrip | ref-tmp/cliprdr_common.c:254-303 | every list of plain long names reads back with the same ids and names, empty becoming null |
| FormatList.ShortRoundTrip | ref-tmp/cliprdr_common.c:281-302 | short names read back cut to 15 units, 31 in ASCII, and a second trip changes nothing more |
| FormatList.FieldListRead | ref-tmp/cliprdr_common.c:434-486 | any list of 32-byte fields, filled or NUL-padded, stray bytes included: a name of 16 units without NUL is read whole, an ASCII one is cut to 31 |
| FormatList.LongAsciiImage | ref-tmp/cliprdr_common.c:254-303 | in the mode the writer warns about a long name is its bytes and one NUL |
| ListForms.LongAcceptsScan | ref-tmp/cliprdr_common.c:492-505 | on every byte string the long reader accepts exactly an even number of bytes whose units, scanned one at a time, end where a record ends |
| ListForms.ReadableIsAccepted | ref-tmp/cliprdr_common.c:414-547 | a list written in one form is accepted by a reader expecting the same or the other exactly under a condition on its ids and name lengths |
| FormatFilter.FilterFormatList | ref-tmp/cliprdr_format.c:39-113 | the three loops, writing in place, compute the filter |
| FormatFilter.SelectShrinks | ref-tmp/cliprdr_format.c:74-109 | a filtered prefix is never longer than the prefix, so the write position never passes the read position |
| FormatFilter.ClassesAndWishes | mini-qf-client.cc:222-264 | class and preference of a format, in the letters of its name and the number of its id |
| FormatFilter.FilterIsKeep | ref-tmp/cliprdr_format.c:39-113 | the three branches are one rule: a format stays, in its place, exactly when the bit of its class is set |
| FormatFilter.KeepIsExact | ref-tmp/cliprdr_format.c:39-113 | what is kept is exactly the formats with their bit, and filtering again changes nothing |
| FormatFilter.SelectSplits | ref-tmp/cliprdr_format.c:74-109 | the file-only and the data-only results share out the input |
| FormatFilter.ChooseFormat | mini-qf-client.cc:196-265 | the table and the scan choose text, then the first PNG or file list, then the two bitmaps |
| FormatFilter.ChoiceIsAdvertised | mini-qf-client.cc:222-261 | only an advertised id is chosen, the file list only with file copying on, PNG only with data copying on |
| FormatFilter.ChoiceIsBest | mini-qf-client.cc:222-264 | nothing is chosen exactly when nothing wanted is there; otherwise the most preferred, and of several sought names the first |
| Capabilities.NegotiateIsConjunction | ref-tmp/cliprdr_main.c:588-609 | every negotiated feature is allowed and offered; no other bit of the offer changes |
| Capabilities.CapsRoundTrip | ref-tmp/cliprdr_main.c:582-611 | the reply parses back, through the receiver's loop, as its one flag word |
| Capabilities.ReadSet | ref-tmp/cliprdr_main.c:218-245 | one capability set: the length, type and size errors, and 12 bytes consumed on success |
| Session.RunSafety | ref-tmp/cliprdr_main.c:829-953 | in every run under a fixed mask nothing is sent, advertised or handed on without the bit of its direction and class |
| Session.EmptyListRule | ref-tmp/cliprdr_main.c:690-696 | the flag tells whether a list went out since the last capability reply or the start, and an empty list goes out only as the first |
| Session.ReplyAgrees | ref-tmp/cliprdr_main.c:588-611 | the features kept are those sent: allowed and offered |
| Session.HandshakeIsFixpoint | ref-tmp/cliprdr_main.c:256-291 | a second monitor ready repeats the same packets and changes nothing |
| Session.FeaturesAreFold | ref-tmp/cliprdr_main.c:169-174 | in every run the five features in force are a fold over the capability packets and monitor readies received |
| Session.LateCapsExact | ref-tmp/cliprdr_main.c:169-174 | after a handshake the agreement still stands if and only if the last flag word since is missing or names the same features; huge-file support is on if and only if that word has bit 5 |
| Session.WithoutServerCaps | ref-tmp/cliprdr_main.c:262-279 | in every run from the start without a server flag word only "no file paths" can be on, and it is on from the first monitor ready |
| Session.AgreedUntilNextCaps | ref-tmp/cliprdr_main.c:605-609 | after a handshake, whatever else happens, the features stay the conjunction until a server capability packet |
| Session.HugeStaysOff | mini-qf-client.cc:511 | huge-file support is off from a handshake to the next server capability packet |
| Session.LateCapsOverwrite | ref-tmp/cliprdr_main.c:169-174 | a capability packet after the reply turns on a feature that was never offered |
| Serving.AnswerFails | clipboard-entry.h:109-131 | a request gets no answer if and only if its index is beyond the list, it asks for neither kind, or for a range of a directory or from past the end |
| Serving.AnswerIsSize | clipboard-entry.h:209-216 | a size request is answered with the 64-bit size, 0 for a directory, whatever else it asks |
| Serving.AnswerIsRange | clipboard-entry.h:218-266 | a range inside a file is answered with its bytes from the offset on, as many as asked for or as there are |
| Serving.PiecesAreFile | clipboard-entry.h:218-266 | answers to consecutive pieces of any size, the last one short, join to the file |
| Stack.ReceiveIsHear | ref-tmp/cliprdr_main.c:437-550 | each packet written, patched and dispatched by a peer has exactly the effect specified for it: what its sender meant, with normalised names, answers, refusals, and lists in the name form not expected |
| Stack.ReceiveFails | ref-tmp/cliprdr_main.c:298-331 | receiving the bytes of a peer's packet fails if and only if it is an error reply to a file request, a refused or unanswerable file request, or a list the receiver's reader cannot read |
| Stack.NoneFails | qf_channel_client_handler.c:58-62 | no packet of a list fails if and only if none is one of those in the state the ones before it led to |
| Stack.EndpointHistory | qf_channel_client_handler.c:36-64 | in every interleaving the session has gone through a run whose messages are those handled, and a handler thread handles none after the first failure |
| Stack.WholeStack | qf_channel_client_handler.c:36-64 | packets cut into any chunks, in any interleaving: the session is that of the packets up to and including the first failing one, and of all of them if and only if none before the last fails |
| Stack.HandledInOrder | qf_channel_client_handler.c:149-217 | at any moment, with any part of the chunks in, handled messages followed by queued ones are a beginning of the packets sent, and all of them once every chunk is in |
| NameForms.AnnouncedIsAgreed | ref-tmp/cliprdr_main.c:605-611 | whatever happens after a handshake, the features in the last capability packet sent are those agreed on last |
| NameForms.NextList | ref-tmp/cliprdr_main.c:698-720 | the next list is in the form in force and the receiver expects the one announced: they agree if and only if no late flag word names another |
| NameForms.PartedIsSent | ref-tmp/cliprdr_main.c:169-174 | a concrete run with late capabilities sends a list in a form it never announced |
| NameForms.PartedEndsThread | ref-tmp/cliprdr_common.c:422-431 | a fresh receiver refuses that list after accepting the two packets before it |
| Receiving.HeaderAccepted | ref-tmp/cliprdr_main.c:448-456 | a message is looked at exactly when it has eight bytes and as many more as they announce; type, flags and length in its first bytes |
| Receiving.BrokenHeader | ref-tmp/cliprdr_main.c:448-456 | any other message is an error and changes nothing |
| Receiving.ListReceived | mini-qf-client.cc:196-265 | a list in the form in force, wide or ASCII, is handed on without what the mask forbids, and the id of a most preferred kept format is asked for and remembered |
| Receiving.ListRefused | ref-tmp/cliprdr_format.c:120-183 | a list the reader refuses is an error, which one by form and length, and changes nothing |
| Receiving.ListReplyReceived | ref-tmp/cliprdr_format.c:190-209 | the reply to a list changes nothing |
| Receiving.DataRequestReceived | ref-tmp/cliprdr_format.c:216-248 | too short, masked off and answered with one error packet, or remembered and handed on with its id |
| Receiving.DataResponseReceived | ref-tmp/cliprdr_format.c:255-288 | handed on with its flags and data, or dropped |
| Receiving.FileRequestReceived | ref-tmp/cliprdr_main.c:298-331 | on every body: too short, a bad size request by its bytes, masked off, answered under its id, or unanswerable |
| Receiving.FileResponseReceived | ref-tmp/cliprdr_main.c:338-364 | on every body: no stream id, or handed on with flags, id and data |
| Receiving.OthersReceived | ref-tmp/cliprdr_main.c:528-545 | locks and unlocks change nothing but must name their data; any other type is unknown |
| Receiving.CapsReceived | ref-tmp/cliprdr_main.c:197-249 | any number of general sets put the last flag word in force; a set of another type or length behind them is an error that undoes none |
| Receiving.ReadyReceived | mini-qf-client.cc:499-519 | exactly two packets: version 2 capabilities with the allowed ones of three features and no other bit, and an empty list in the form agreed on |
| Receiving.ListStarted | ref-tmp/cliprdr_main.c:664-722 | the client's list goes out without what the mask forbids, in the form in force, an empty one only as the first |
| Receiving.DataRequestStarted | ref-tmp/cliprdr_main.c:820-849 | the client's data request goes out under its id, or not at all |
| Receiving.FileRequestStarted | ref-tmp/cliprdr_main.c:889-930 | the client's file request goes out as built, not at all, or is refused by the limit, in numbers |
| Receiving.FileResponseStarted | ref-tmp/cliprdr_main.c:937-966 | the client's file response goes out as built, or an error packet in its place |
| Receiving.OutImages | ref-tmp/cliprdr_common.c:119-239 | the bytes of every packet that goes out, in literals but for the fields |
| Receiving.SizeImage | clipboard-entry.h:209-216 | the eight bytes of a size, low half first, as they are answered and as they are read |
| Receiving.RecordImage | ref-tmp/cliprdr_common.c:254-303 | the bytes of a list record: a long name whole with one NUL, a short one cut to 15 units and filled to 16 |
| Plugin.Cliprdr.ClientCapabilities | ref-tmp/cliprdr_main.c:561-617 | state, written bytes and callbacks are those of the reply step |
| Plugin.Cliprdr.ClientFormatList | ref-tmp/cliprdr_main.c:664-722 | the same for the format list: filter, empty-list rule, flag and packet |
| Plugin.Cliprdr.ClientFormatDataRequest | ref-tmp/cliprdr_main.c:820-849 | the same for a data request, nothing sent without a remote-to-local bit |
| Plugin.Cliprdr.ClientFormatDataResponse | ref-tmp/cliprdr_main.c:856-882 | the same for a data response, under the assertion of the source |
| Plugin.Cliprdr.ClientFileContentsRequest | ref-tmp/cliprdr_main.c:889-930 | the same for a file request: silent when masked off, refused past the 32-bit limit |
| Plugin.Cliprdr.ClientFileContentsResponse | ref-tmp/cliprdr_main.c:937-966 | the same for a file response, an error packet when masked off |
| Plugin.Cliprdr.ProcessClipCaps | ref-tmp/cliprdr_main.c:197-249 | the loop over sets applies the parsed flag words in order, also when it ends in an error |
| Plugin.Cliprdr.ProcessMonitorReady | ref-tmp/cliprdr_main.c:256-291 | defaults, then the client's reply and its empty list |
| Plugin.Cliprdr.MonitorReadyCallback | mini-qf-client.cc:499-519 | the callback sends its three offered flags and an empty list |
| Plugin.Cliprdr.ProcessFormatList | ref-tmp/cliprdr_format.c:120-183 | read, filter, hand on and ask for the chosen format |
| Plugin.Cliprdr.ProcessFormatDataRequest | ref-tmp/cliprdr_format.c:216-248 | remembered and handed on, or answered with an error |
| Plugin.Cliprdr.ProcessFormatDataResponse | ref-tmp/cliprdr_format.c:255-288 | handed on with its data, or dropped |
| Plugin.Cliprdr.ServerFileContentsRequest | clipboard-entry.h:109-131 | the file callback answers every request with the data specified, sent as a response, or returns the failure and sends nothing |
| Plugin.Cliprdr.SendFileRange | clipboard-entry.h:181-235 | a range of a file, cut at its end, or a failure for a directory or an offset past the end |
| Plugin.Cliprdr.ProcessFileContentsRequest | ref-tmp/cliprdr_main.c:298-331 | read, answered with an error when masked off, else handed to the callback, whose status is the message's |
| Plugin.Cliprdr.ProcessFileContentsResponse | ref-tmp/cliprdr_main.c:338-364 | read and handed on, or the reader's error |
| Plugin.Cliprdr.OrderRecv | ref-tmp/cliprdr_main.c:437-550 | the message handler is the receive step of the session on every byte string, status included |
| Reassembly.Handler.PostMessage | qf_channel_client_handler.c:149-217 | the callback is the chunk step: buffer, capacity, queue and status, and the handler called in place when there is no thread |
| Reassembly.Handler.ThreadTurn | qf_channel_client_handler.c:36-64 | one turn of the thread takes the head of the queue, and ends on quit or a failing handler |
| Reassembly.Handler.PostQuit | qf_channel_client_handler.c:219-243 | quit queues behind everything posted |
| Reassembly.Conservation | qf_channel_client_handler.c:158-214 | for any chunks, held bytes and data taken in are the delivered messages followed by what is still held |
| Reassembly.DeliveredIsWhole | qf_channel_client_handler.c:185-197 | a delivered message is the data taken in since the buffer was last empty |
| Reassembly.MessageIntact | qf_channel_client_handler.c:161-193 | a well-formed message is delivered as itself if and only if there is no buffer before it or an empty one whose capacity comes to its length; otherwise prefixed or swallowed |
| Reassembly.FailedLastLeaves | qf_channel_client_handler.c:185-190 | after a failed last chunk no message is delivered as itself |
| Reassembly.EmptyFirstSwallows | qf_channel_client_handler.c:161-193 | after an empty first chunk announcing ten bytes a shorter message is swallowed |
| Reassembly.RunDelivers | qf_channel_client_handler.c:149-217 | a run of well-formed messages with control chunks anywhere delivers exactly those, in order, and ends empty |
| Reassembly.QueueIsFifo | qf_channel_client_handler.c:36-64 | under every interleaving, handled followed by queued is what reassembly delivered |
| Reassembly.QuitIsLast | qf_channel_client_handler.c:36-64 | once a quit is queued behind k messages the thread handles exactly those, in order, then ends, and handles nothing that comes later |
| Reassembly.ChunkRefused | qf_channel_client_handler.c:149-217 | a chunk is refused exactly when it begins nothing while nothing is under construction, or ends a message that does not fill its buffer |
| Paths.SafeOfPlain | clipboard-entry.h:461-481 | a display name of plain components comes back as the same components |
| Paths.SafePathIsClean | clipboard-entry.h:461-481 | an accepted path has only clean components, no separator or drive, and is a fixed point |
| Paths.AcceptedExactly | clipboard-entry.h:461-481 | a name is accepted if and only if it begins with no separator, has no colon in second place, holds something else than separators, and no run of it is one or two dots |
| FileWalk.ViewItem.AppendClipboardInfoFile | rdp-view-item.h:328-352 | the recursive walk pushes the preorder listing into the shared list, skipping listed paths |
| FileWalk.ViewItem.CaptureUrls | rdp-view-item.h:398-416 | clearing and refilling the list pushes the listings of the accepted URLs in order, the file system root included |
| FileWalk.WalkKeepsFirsts | rdp-view-item.h:337-345 | the list is the first occurrence of each path, in order: distinct and missing none |
| FileWalk.PreorderCovers | rdp-view-item.h:347-351 | a listing holds exactly the nodes of its tree, each at its path |
| FileWalk.RootNamesRefused | rdp-view-item.h:316-326 | names listed from the file system root are accepted by no receiver |
| FileWalk.FillDescriptors | mini-qf-client.cc:455-465 | every entry gets the descriptor specified for it |
| FileWalk.CopyFileDescriptorName | mini-qf-client.cc:181-193 | the name array is the clipped name and then NULs |
| FileWalk.ReadDescriptors | mini-qf-client.cc:295-313 | every descriptor is read as specified |
| FileWalk.DescriptorRoundTrip | mini-qf-client.cc:295-313 | size and kind always survive; the name does if and only if it has at most 259 units and no NUL |
| FileWalk.NameComesBack | mini-qf-client.cc:181-193 | what any name becomes: its first 259 units, or what comes before a NUL among them |
| Download.IdsRepeat | clipboard-entry.h:455-459 | two requests share an id if and only if a multiple of 2^32 - 1 lies between them |
| Download.Downloader.NextRemoteStreamId | clipboard-entry.h:455-459 | the wrapping counter that skips zero numbers the requests as specified |
| Download.RangesPartition | clipboard-entry.h:344-368 | the ranges are consecutive, 64 KiB or the rest, one per started chunk |
| Download.FetchAsksPartition | clipboard-entry.h:346-368 | a download asks for a beginning of the partition, for all of it when it succeeds, and then has the full size |
| Download.Downloader.FetchRanges | clipboard-entry.h:344-368 | the loop saves the replies joined, or removes the file at the first bad reply or failed write |
| Download.Downloader.DownloadRemoteFile | clipboard-entry.h:325-373 | requests made, result and disk of a whole download, for any peer; no file after any failure of the range loop |
| Download.SizeThreshold | ref-tmp/cliprdr_main.c:910-917 | from a cooperative peer a file arrives, unchanged, if and only if huge-file support is on or it is smaller than 2^32 |
| Download.TooLargeAsks | ref-tmp/cliprdr_main.c:910-917 | a larger file fails at offset 0xFFFF0000 after 65535 good chunks |
| Download.ThresholdAfterHandshake | mini-qf-client.cc:511 | from a handshake to the next server capability packet the threshold is 2^32 |
| Download.EngineRequestsAreValid | clipboard-entry.h:375-403 | the reader never refuses what the engine builds, and every answer to it fits a packet |
| Download.Exchange | clipboard-entry.h:200-207 | a request reaches the peer's callback as built; its answer goes out at once and comes back under its id with its bytes, or nothing goes out and the handler fails |
| EngineSafety.JobsExact | clipboard-entry.h:53-101 | one job for each acceptable file entry, with its list index and path, and no other |
| EngineSafety.JobsIncrease | clipboard-entry.h:53-101 | the jobs follow the order of the entries |
| EngineSafety.FoldersExact | clipboard-entry.h:72-86 | the folders made are those of the acceptable directory entries |
| EngineSafety.TopsGrow | clipboard-entry.h:63-70 | top names are taken in the order of the entries |
| EngineSafety.EnqueueExactly | clipboard-entry.h:33-107 | queue, batches and publications after a list; without a root directory no job and no publication |
| EngineSafety.StopWakes | clipboard-entry.h:284-292 | a stop raises the flag and wakes the wait, and nothing else |
| EngineSafety.RestartResumes | clipboard-entry.h:275-297 | a worker that has left can be reaped and started again, and takes the next job |
| EngineSafety.BatchAccounting | clipboard-entry.h:299-323 | in every interleaving a batch's counter is its queued and in-flight jobs; it is published exactly when that is zero and it has a top path, never twice; batches with jobs in enqueue order |
| EngineSafety.WaitDelivers | clipboard-entry.h:437-453 | in every interleaving, with replies from anyone, the wait returns the data of the last reply under the id of the outstanding request since that was installed, and ends exactly when there is one or at a stop; any other reply changes nothing |
| EngineSafety.OnlyTheNewestIsAnswered | clipboard-entry.h:138-146 | a reply to a request the peer got, within 2^32 - 1 newer ones, is taken if and only if it answers the one being waited for |
| EngineSafety.JobsInTurn | clipboard-entry.h:299-323 | every job is downloaded once, in queue order |
| EngineSafety.StopIsBounded | clipboard-entry.h:284-297 | after the stop flag at most one more request, one more return, no new job, five worker steps |
| EngineSafety.StoppedNeverStuck | clipboard-entry.h:437-448 | a stopped worker always has an enabled step until it has exited |
| EngineSafety.DownloadTerminates | clipboard-entry.h:344-368 | every worker step of a download lowers a measure no other thread touches |
| EngineSafety.OnlyTheWaitBlocks | clipboard-entry.h:437-442 | a worker with a job is held up only by a missing reply |
| EngineRequests.RequestsArePartition | clipboard-entry.h:344-368 | in every interleaving the requests are those of one download after another, each the size and then a beginning of the partition of its file; all of it when saved, one per started 64 KiB |
| EngineRequests.RequestsAreShaped | clipboard-entry.h:375-403 | in every interleaving each request names the file of its job and no lock id, has one flag and 24 bytes: 8 bytes from position 0 for a size, at most 65536 for a range |
| EngineSequential.EngineIsSequential | clipboard-entry.h:325-411 | in every interleaving each download that returned is one run of the sequential loop on what its waits brought: same requests and ids, verdict and bytes |
| EngineContent.SavedIsRemote | clipboard-entry.h:325-373 | with a peer honest about a batch, in every interleaving, whatever is saved for the batch is the peer's file |
| EngineContent.SavedExactly | ref-tmp/cliprdr_main.c:910-917 | while a batch is undisturbed by stops, disk errors and failed replies, a download of it saves its file if and only if huge-file support is on or the file is smaller than 2^32 |
| EngineContent.SavedFitsLimit | ref-tmp/cliprdr_main.c:910-917 | with the limit check in force no interleaving saves a file of 2^32 bytes or more for the batch |
| EngineContent.DiskIsLog | clipboard-entry.h:336-368 | while a batch's targets are distinct its part of the disk holds the saved files and no trace of failed downloads |
| Entry.ClipboardEntry.EnqueueRemoteFileList | clipboard-entry.h:33-107 | starting the worker if there is none, then the enqueue step |
| Entry.ClipboardEntry.MakeBatch | clipboard-entry.h:45-107 | the jobs queued, the batch with its counter and top names, published at once without a job |
| Entry.ClipboardEntry.FillQueue | clipboard-entry.h:53-101 | the loop over the list queues the jobs and collects the top names specified |
| Entry.ClipboardEntry.ServerFileContentsResponse | clipboard-entry.h:133-162 | the response callback is the reply step, under any stream id |
| Entry.ClipboardEntry.PopJob | clipboard-entry.h:305-314 | taking a job is the pop step |
| Entry.ClipboardEntry.InstallRequest | clipboard-entry.h:375-423 | building a request and filling the slot is the arm step |
| Entry.ClipboardEntry.HandOverRequest | clipboard-entry.h:425-434 | the channel's verdict is the hand-over step |
| Entry.ClipboardEntry.ClearRefused | clipboard-entry.h:426-433 | clearing the slot after a refusal is the clear step |
| Entry.ClipboardEntry.WaitRemoteResponse | clipboard-entry.h:437-453 | once stopped, or ready under this id, the wait returns the data of a good reply or nothing, and clears the slot |
| Entry.ClipboardEntry.ResumeDownload | clipboard-entry.h:346-411 | what the worker does with a reply is the take step |
| Entry.ClipboardEntry.FinishJob | clipboard-entry.h:319-321 | counting down and publishing is the finish step |
| Entry.ClipboardEntry.PublishRemoteBatch | clipboard-entry.h:492-503 | a batch is published if it has a top path |
| Entry.ClipboardEntry.StartRemoteFileWorker | clipboard-entry.h:275-282 | the start step, or nothing when there is a worker |
| Entry.ClipboardEntry.RaiseStop | clipboard-entry.h:284-292 | raising the flag is the stop step |
| Forest.NameSurvives | rdp-view-item.h:316-326 | the display name of a listed node is read back as its components |
| Forest.ForestItemsApart | rdp-view-item.h:328-352 | in a good forest all listed nodes have distinct paths and distinct destinations |
| ForestCopy.SentMirrors | rdp-view-item.h:328-352 | nothing of a good forest is dropped as a duplicate |
| ForestCopy.TopsCover | clipboard-entry.h:63-70 | the top names are, without repetition, exactly the first components of the accepted entries, and every job lies under one of them |
| ForestCopy.SizesAgree | mini-qf-client.cc:455-465 | the size announced for a listed node is the one answered to a size request for its index: the file's length, 0 for a directory |
| ForestCopy.ForestCopied | clipboard-entry.h:325-373 | a good forest copied as some batch is reproduced, in every interleaving and whatever other batches are made of: each file at its relative path with the sender's bytes, each directory made, nothing else |
| ForestCopy.CopiedIffSmall | ref-tmp/cliprdr_main.c:910-917 | a finished batch that was not disturbed has all its files saved if and only if huge-file support is on or every file is smaller than 2^32 |
| LinkCopy.LinkIsHonest | clipboard-entry.h:109-162 | engine and two sessions run together over packet queues: the peer is honest about every batch whose requests it answers from the list copied |
| LinkCopy.LinkIsUndisturbed | ref-tmp/cliprdr_main.c:904-930 | there a request is refused by the limit alone, the one the last flag word leaves in force, and every reply is good |
| LinkCopy.LinkedForest | clipboard-entry.h:325-373 | after a handshake, whatever else the sessions do, a finished batch has brought the forest whole if and only if every file is smaller than 2^32 or the last flag word since the last monitor ready had bit 5 |
| LinkCopy.LinkedForestWithoutCaps | mini-qf-client.cc:511 | without a later capability packet, if and only if every file is smaller than 2^32 |

## Left out

- FormatList.LongRoundTrip: stated for names whose every byte is one code unit; other conversions are library matter.
- EngineContent.SavedIsRemote: an honest peer's good replies are assumed to come before 2^32 - 1 newer requests are built, since ids then repeat (`Download.IdsRepeat`).
- ForestCopy.ForestCopied: the requests of the batch are answered from the list that was copied (other lists may be copied and served before and after), all folders can be made, and the file system is a map from paths to bytes.
- LinkCopy.LinkedForest: the queues carry whole packets, which is what `Stack.WholeStack` gives for chunks; that a received file list is what gets enqueued is an assumption of the run.
- Plugin.Cliprdr.ServerFileContentsRequest: a listed file is unchanged since it was listed; open, seek and read errors of the file system are not modelled.
- Plugin.Cliprdr.OrderRecv: an answer longer than a packet may be stops the program at the writer's assertion; that end is not modelled.
- Batches are entries of a table rather than shared objects; each job names its batch by number, so sharing of one object is not captured.
- The capacity policy of the stream library is an arbitrary function of the present capacity and the need; a read-only stream over a part of another one copies it, so aliasing of the two is not captured.
- Liveness: that replies come, and that the scheduler runs the worker, is not claimed.
- Temp directory packets and the client's lock and unlock packets: one fixed-size write each.
- Bitmap, PNG and text payloads, Qt painting, input mapping, connection set-up, logging.
