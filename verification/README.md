# Verification of phomemo

This project models the way of a page from raster rows to bytes at the print head of a Phomemo
M08F, and the two protocols around it, and proves what the program relies on. The parts:

- **The byte stream** (`PrintHead`, `Commands`, `Asides`, `RasterStream`). `PrintHead` is the printer's command
  parser as an automaton over bytes, written from the protocol reference and independent of the
  sender. A stream parsed by it is the page and nothing else; a query, a feed or a timer setting is one command.
- **Stopping in the middle** (`Interruption`, `Transfer`, `Printing`, `PrinterClient`, `Progress`). What `_pad_band`
  owes at every stream offset, the transfer loop under every schedule of its abort, lid and paper flags, the lid
  query behind a page, and the imperative client over a transport that may fail at any write.
- **The bridge socket** (`Framing`, `FramingLaws`, `BridgeLink`). The Python framing as functions of the byte stream,
  and the C reader, a growing and shifting buffer fed by reads of any size, proved to refine it.
- **The session protocol** (`SessionSteps`, `SessionObject`, `BridgeRuns`, `ClientRuns`). One session's steps as
  functions, the session object that performs them from its admission to its end, all interleavings of any number of
  clients, and a client with one outstanding request that may abort at any moment.
- **The page pipeline** (`PageSession`, `RasterJob`, `PageHistory`, `PageHead`, `Reprint`, `PagePaper`, `BlindEject`,
  `PageEnd`, `WholePage`). Rows from the raster driver to the session, and the reprint loop. `PageHistory` puts what the
  user, the printer and the link do, what the program is told and what it does into one history, says which are
  possible, and reads every write of it, pages, queries, feeds and greetings, with one print head. The loop runs
  `print_bitmap` itself, over the transport the queries and feeds go to. `WholePage` goes from the driver's
  request to the dots on paper.
- **Pixels** (`PageGeometry`, `Dither`, `PageBitmap`). The map from raster to printable area, the tone of the ordered
  dither, and bytes to pixels and back.
- **Events, devices** (`Events`, `QueryAnswers`, `Dispatch`, `DeviceUri`, `OneConnection`). `QueryAnswers` goes from
  a question through the printer's answer, written from the protocol reference, to the event the program acts on.

Objects of the source are classes with its fields and loops, each proved against a function of the
old state; the properties are lemmas about those functions. `Bytes` holds what all parts share.

What the environment decides is a parameter or an arbitrary choice: flags as a schedule from
iteration to flag values, sensors, links and users as nondeterministic steps, JSON text as any
encoder and decoder that undo each other on the messages the programs write and write no newline
(`FramingLaws` has a pair). Three assumptions are made about the printer: a sensor that answers tells the truth, a
sheet put in is a new one, and a new connection finds the command parser at ground with what it has printed kept. The
protocol reference says that a reconnect clears the printer's error state; that it also drops a command received in
part is assumed (`PageHistory.Listening`).

## What holds only under a condition

Where the code does not meet a property on all inputs, the exact condition is proved.

- **A chunk shorter than the prefix.** `_pad_band` completes bands only, so an abort can stop inside
  `ESC N 04 n`. The printer stays in sync under every schedule if and only if a chunk holds the
  whole prefix, 6 bytes with a density and 2 without (`Transfer.PaddingSufficesIff`).
- **A sheet that ran out.** Nothing is padded then; the parser is at ground if and only if the stop falls at the end of
  a command (`Transfer.HeadAfterTransfer`). The stop is never inside the trailing feed (`Transfer.TrailerCompleted`).
- **A lost link.** The parser is at ground if and only if what was sent ends at the end of a command of the page; if
  the link was lost while a band was being padded, it never is (`Transfer.HeadWhereCut`, `Interruption.CutPadding`,
  `PrinterClient.Printer.PrintBitmap`). The next attempt goes over a new connection.
- **The parser from attempt to attempt.** It is at ground as every attempt begins if a page has a row and a chunk holds
  the prefix (`PagePaper.AttemptsBeginInSync`); with a shorter chunk, and only then, an open lid can leave it inside a
  command, and the lid query that follows is not read as one (`PagePaper.SyncKeptIff`, `PageHead.QuerySwallowed`).
- **Payload lengths.** The C end takes a fractional `bytes` value and refuses a boolean, the Python end the
  other way round, and the C lookup takes `Bytes` for `bytes`. The readers part exactly where such a length is
  taken (`Framing.ReadersAgreeIff`, `Framing.ReadersDiffer`).
- **A command that is an array or object.** Read with nothing pending, its lookup raises, and the session
  ends without a reply to it (`SessionSteps.LostIff`, `BridgeRuns.OneHandlerOneReply`).
- **Very wide rows.** A page whose 64 rows exceed 16 MiB is written by the C end and refused by the
  session (`RasterJob.DeliverPage`, `RasterJob.WideRowsIff`).
- **A page without rows.** No band is padded, so an abort inside the trailing feed leaves the parser out of
  sync (`Transfer.HeadAfterTransfer`).
- **A page printed and reported as failed.** If the eject after a completed page raises, `page_end`
  reports an error (`Reprint.ImpressionIff`, `Reprint.PrintedButReportedFailed`).
- **A reconnect that fails.** It leaves the transport without a client. The next write then raises a
  `RuntimeError`, which neither `_eject_remainder` nor the wait for the lid catches, so the page ends with
  an error instead of waiting (`Reprint.ShortSheetSurvivedIff`, `PageEnd.World.WaitForLid`).
- **Fresh sheets.** Only having seen the paper gone rules out a used sheet (`PageHistory.FreshSheetIff`). If the
  paper query after an interruption goes unanswered, or the one `eject_paper` makes of its own, nothing was seen:
  `eject_paper` then feeds blind and reports success, and the next attempt may print on the same sheet
  (`BlindEject.BlindEjectReprints`).
- **Firmware and ASCII serial answers** are recognised only at the start of a notification and take all of
  it (`Events.ParseDistributesIff`).
- **URIs.** An address with a dash or a delimiter, or a model with `&` or `#`, does not come back
  (`DeviceUri.AddressRoundTripIff`, `DeviceUri.ModelRoundTripIff`); nor does a model whose URI was cut to its
  buffer (`DeviceUri.CutModelReadsBackIff`).

The docstring of `_wait_for_fresh_sheet` says that a printer that stops answering is reconnected; the
model follows the code, where a reconnect that fails ends the page.

## Model

| member | source | states |
|---|---|---|
| PrintHead.RunAppend | docs/m08f-protocol-reference.md:221-248 | the command parser reads a byte string in any pieces as it reads it whole |
| PrintHead.RunPixels | docs/m08f-protocol-reference.md:221-271 | inside a band every byte is a pixel, whatever its value (0x0a, 0x1b and 0x1d included), until the announced size is reached, and not one byte longer |
| Asides.AsideReads | src/phomemo/src/phomemo/protocol.py:185-229 | every query, feed, reset and timer setting is read from ground as exactly one command and leaves the parser at ground |
| Asides.RunAsides | src/phomemo/src/phomemo/printer.py:508-530 | any number of them in any order are read as exactly those commands |
| RasterStream.HeaderWords | src/phomemo/src/phomemo/protocol.py:112-140 | a parser reading a raster header recovers width and row count from the little-endian words, and is mid-header at every shorter cut |
| RasterStream.StreamRoundTrip | src/phomemo/src/phomemo/printer.py:752-797 | for every bitmap, geometry, density and feed: the stream, parsed from ground, is init, the optional density, the bands and the feed clamped to 255, and ends at ground |
| RasterStream.BandsCarryBitmap | src/phomemo/src/phomemo/printer.py:779-792 | the band commands concatenate to the bitmap, their row counts sum to the height, and each has 1 to `band_height` rows of whole bytes |
| RasterStream.TableTiles | src/phomemo/src/phomemo/printer.py:779-796 | the band table tiles the raster part with no gap or overlap and its rows sum to the height |
| RasterStream.TableDelimits | src/phomemo/src/phomemo/printer.py:779-796 | every table entry delimits, in the stream, a header announcing its rows and exactly their data |
| RasterStream.TableReadsBitmap | src/phomemo/src/phomemo/printer.py:779-796 | reading the stream through the table gives the bitmap back |
| RasterStream.RowCounted | src/phomemo/src/phomemo/printer.py:799-810 | row r is counted at an offset if and only if its last byte lies before that offset |
| RasterStream.RowInStream | src/phomemo/src/phomemo/printer.py:779-810 | the last byte of row r, where `RowCounted` has it, is where the row's own bytes of the bitmap end in the stream |
| RasterStream.RowsBeforeMonotone | src/phomemo/src/phomemo/printer.py:799-810 | the count never falls, and reaches the height exactly from the end of the last row on |
| RasterStream.LastRowEnd | src/phomemo/src/phomemo/printer.py:799-810 | the last row ends where the last band ends |
| Interruption.InterruptedInSync | src/phomemo/src/phomemo/printer.py:812-829 | stopped anywhere between the prefix and the end of the last band and padded, the parser is back at ground having read exactly the bitmap bytes sent, white to the end of the band in progress, and no later band |
| Interruption.PaddedBody | src/phomemo/src/phomemo/printer.py:812-829 | the sent prefix plus the filler equals the raster part of a shorter page: the rows started, with the data sent and zeros after it |
| Interruption.BareStopInSync | src/phomemo/src/phomemo/printer.py:864-866 | a stop that sends nothing more leaves the parser at ground if and only if it falls at the end of a command |
| Interruption.CutPadding | src/phomemo/src/phomemo/printer.py:812-829 | a filler cut short at any byte leaves the parser inside the band in progress |
| Transfer.SendShape | src/phomemo/src/phomemo/printer.py:831-877 | every run writes an exact stream prefix in pieces that fit, then the filler owed there if and only if a flag interrupted it |
| Transfer.StopReason | src/phomemo/src/phomemo/printer.py:848-866 | a stopped run stopped at a chunk boundary, for the reason it reports, abort before lid before paper |
| Transfer.NoFlagOverlooked | src/phomemo/src/phomemo/printer.py:848-866 | no piece went out while a flag asked to stop, for every schedule of the flags |
| Transfer.TransferOutcomes | src/phomemo/src/phomemo/printer.py:831-877 | on a working transport: complete in ceil(len/chunk) writes, or a prefix and its filler, or a bare prefix behind the paper-absent flag |
| Transfer.RanOutOnlyIfShort | src/phomemo/src/phomemo/printer.py:863-866 | a run ends for want of paper only where the flag is up and, of the rows whose last byte has been sent, more than the given share of the height is missing |
| Transfer.SentOnlyIfLong | src/phomemo/src/phomemo/printer.py:863-866 | a run that sends a piece with the flag up has at most that share of the rows unsent there |
| Transfer.SentOnlyUnasked | src/phomemo/src/phomemo/printer.py:848-861 | a piece before the trailing feed goes out only with neither the abort nor the lid flag up |
| Transfer.HeadAfterTransfer | src/phomemo/src/phomemo/printer.py:831-877 | for every schedule: where each outcome leaves the parser and what is on paper, and past the last band the trailing feed is always completed; a page without rows, which no band pads, is in sync after an abort if and only if the stop falls at the end of a command |
| Transfer.TrailerCompleted | src/phomemo/src/phomemo/printer.py:848-866 | a run that ends early, for whatever reason, ends before the last band does, for every page with rows and every fraction that is not negative; so the trailing feed is never cut |
| Transfer.HeadWhereCut | src/phomemo/src/phomemo/printer.py:812-877 | a run whose writes break off after any number of them leaves the parser at ground if and only if what was sent is a stream prefix that ends at the end of a command, never inside a filler |
| Transfer.LongChunkSafe | src/phomemo/src/phomemo/printer.py:812-877 | with a chunk as long as the prefix no abort or open lid can leave the parser inside a command |
| Transfer.CutInPrefix | src/phomemo/src/phomemo/printer.py:848-861 | with a shorter chunk an abort and an open lid can each come where a prefix command is cut |
| Transfer.ShortChunkUnsafe | src/phomemo/src/phomemo/printer.py:812-829 | with a shorter chunk there is an abort that stops inside a prefix command |
| Transfer.PaddingSufficesIff | src/phomemo/src/phomemo/printer.py:812-877 | padding keeps the parser in sync under every schedule if and only if the chunk holds the whole prefix |
| Printing.PlannedHead | src/phomemo/src/phomemo/printer.py:879-987 | what a working transport is given is read as the page and the lid query behind it, or leaves the parser at ground after an interruption |
| Printing.LostHead | src/phomemo/src/phomemo/printer.py:848-877 | wherever a write of `print_bitmap` fails, the parser is at ground if and only if what was sent ends at the end of a command of the page |
| PrinterClient.Printer.BuildRasterStream | src/phomemo/src/phomemo/printer.py:752-797 | the loop builds exactly the specified stream and band table |
| PrinterClient.Printer.RowsBeforeOffset | src/phomemo/src/phomemo/printer.py:799-810 | the accumulating loop computes the specified row count |
| PrinterClient.Printer.PadBand | src/phomemo/src/phomemo/printer.py:812-829 | writes exactly the filler, in chunks; a failing write leaves a proper prefix of those writes and a dropped link |
| PrinterClient.Printer.SendPage | src/phomemo/src/phomemo/printer.py:831-877 | the transfer loop performs the specified run; a failing write cuts it to a proper prefix; progress never falls |
| PrinterClient.Printer.PrintBitmap | src/phomemo/src/phomemo/printer.py:879-987 | gives a working transport exactly the transfer and, once the motor has stopped, the lid query; of a complete transfer, a lid answered closed, and nothing else, means printed, an open one that the lid was opened, no answer that the sheet ran out, and no motor stop that; a failing write cuts it short, with the exact condition for the parser being at ground; a page reported printed is on paper whole, the query behind it, with progress ended at 100 |
| PrinterClient.Transport.Write | src/phomemo/src/phomemo/transport.py:185-214 | appends the bytes, or fails and counts as disconnected with nothing appended |
| Progress.PercentMonotone | src/phomemo/src/phomemo/bridge/session.py:666-673 | the percentage never falls with the rows, is a multiple of 5, and is 100 at the full height |
| Progress.PercentExact | src/phomemo/src/phomemo/bridge/session.py:666-673 | the percentage is the largest multiple of 5 not above the share of the rows |
| Progress.Reporter.OnProgress | src/phomemo/src/phomemo/bridge/session.py:666-673 | pushes at most one event, and only a larger multiple of 5 than the last |
| Progress.Reporter.Finish | src/phomemo/src/phomemo/bridge/session.py:682-683 | a completed attempt's last event is 100, pushed once |
| FramingLaws.LawsCanBeMet | src/phomemo/src/phomemo/bridge/protocol.py:37-49 | an encoder and decoder that meet the laws the framing results ask for exist: one pair, for which they hold |
| Framing.FrameRoundTrip | src/phomemo/src/phomemo/bridge/protocol.py:37-82 | a written frame is read back whole with the rest of the stream intact if its line with newline fits 65536 bytes and its payload 16 MiB, and otherwise is not accepted |
| Framing.SizesAgreeIff | src/printer-app/bridge.c:281-293 | the C and the Python end take the same payload length for a JSON value if and only if it is neither a boolean nor an in-range number written with a fraction |
| Framing.ReadersAgreeIff | src/printer-app/bridge.c:266-296 | on every byte stream the C and the Python reader accept the same message with the same payload and leave the same rest, except exactly where an object line gives them different lengths and one of these lengths is taken |
| Framing.ReadersDiffer | src/printer-app/bridge.c:281-293 | inputs on which they differ: a fraction, a boolean, and a member name in another case |
| Framing.StreamsRoundTrip | src/phomemo/src/phomemo/bridge/protocol.py:37-82 | any sequence of written frames is read by the C end as the same messages in order |
| Framing.ReplyIsFirstAnswer | src/printer-app/bridge.c:325-373 | a reply is the first message of the stream that is neither an event nor the acknowledgement of an abort; the events before it are handed over, all and in order, and the messages behind it stay |
| BridgeLink.Link.FindNewline | src/printer-app/bridge.c:175-187 | the first newline of the buffered bytes |
| BridgeLink.Link.Grow | src/printer-app/bridge.c:189-201 | the buffer starts at 4096 bytes, doubles within 65536 and keeps its contents |
| BridgeLink.Link.FillLine | src/printer-app/bridge.c:174-220 | for every way reads fragment the stream: the line found is the first of the whole stream, refused exactly beyond 65536 bytes with its newline; buffered plus unread bytes stay the unparsed suffix; every read asks for at least one byte |
| BridgeLink.Link.Consume | src/printer-app/bridge.c:222-228 | the shift drops exactly the first bytes of the buffer |
| BridgeLink.Link.DiscardPayload | src/printer-app/bridge.c:230-263 | drops exactly the payload from buffer and socket, or the link |
| BridgeLink.Link.ReadMessage | src/printer-app/bridge.c:265-296 | refines the reader defined on whole streams and leaves exactly its rest, for every fragmentation |
| BridgeLink.Link.ReadAll | src/printer-app/bridge.c:265-296 | repeated reads return the message sequence of the whole stream, for every fragmentation |
| BridgeLink.Link.Reply | src/printer-app/bridge.c:315-374 | returns the specified answer with every earlier event handed over in order |
| BridgeLink.Link.WriteAll | src/printer-app/bridge.c:105-125 | everything is sent over any number of partial sends, or a prefix and the link is dropped |
| BridgeLink.Link.SendRequest | src/printer-app/bridge.c:127-170 | sends exactly the frame the Python encoder defines; `pending` changes for every request but an abort |
| SessionSteps.RequestKeeps | src/phomemo/src/phomemo/bridge/session.py:136-164 | one turn of the command loop, for any `cmd` member, keeps: one reply a request but for one lost, events before replies, handlers alternate, aborts scoped |
| SessionSteps.LostIff | src/phomemo/src/phomemo/bridge/session.py:146-160 | a request gets its reply, now or when its handler ends, if and only if it is not an array or object read with nothing pending; that one ends the loop |
| SessionSteps.PushKeeps | src/phomemo/src/phomemo/bridge/session.py:204-210 | an event of the running command keeps them: it cannot follow its own reply |
| SessionSteps.DoneKeeps | src/phomemo/src/phomemo/bridge/session.py:170-189 | the end of a handler keeps them |
| BridgeRuns.NextKeeps | src/phomemo/src/phomemo/bridge/session.py:117-189 | every step of every session, with any number of clients, keeps the bridge-wide invariant |
| BridgeRuns.EveryRun | src/phomemo/src/phomemo/bridge/session.py:117-189 | so does every interleaving |
| BridgeRuns.OneHandlerOneReply | src/phomemo/src/phomemo/bridge/session.py:117-189 | in every interleaving at most one handler runs across all sessions, none is admitted before the last has finished, each request read has exactly one reply bar the pending one and a lost one, which is the last its session reads, and no event follows its reply |
| BridgeRuns.AbortReachesOnlyThePending | src/phomemo/src/phomemo/bridge/session.py:144-164 | a handler ends aborted if and only if an abort was set between its own start and end, with no other handler between |
| BridgeRuns.OutboxIsDue | src/phomemo/src/phomemo/bridge/session.py:136-189 | over every interleaving, all a session has written, in order, is what its own requests, events and handler ends called for: busy exactly for a request read with a command pending, unknown exactly for an unknown one read with none, and ok exactly at the end of a handler that returned |
| BridgeRuns.AbortsAreDue | src/phomemo/src/phomemo/bridge/session.py:144-164 | over every interleaving, whether each handler was told to abort is computed from the steps taken between its start and its end |
| SessionObject.Session.Admit | src/phomemo/src/phomemo/bridge/session.py:117-125 | the session object performs the admission step on its fields and the bridge's flag |
| SessionObject.Session.HandleRequest | src/phomemo/src/phomemo/bridge/session.py:136-164 | what each request does in each state: an abort is acknowledged and sets the pending command's event; with a command pending any other is answered busy; with none, an unknown one is answered so, a known one becomes pending with a fresh abort event, and one whose lookup raises is lost |
| SessionObject.Session.FinishCommand | src/phomemo/src/phomemo/bridge/session.py:166-189 | the pending command is answered ok exactly if its handler returned, with an error if it raised, and is no longer pending |
| SessionObject.Session.EndLoop | src/phomemo/src/phomemo/bridge/session.py:126-130 | a loop that ends aborts what is pending |
| SessionObject.Session.Leave | src/phomemo/src/phomemo/bridge/session.py:126-134 | gives the bridge free and is gone; `Run` comes here only with nothing pending |
| SessionObject.Session.Loop | src/phomemo/src/phomemo/bridge/session.py:136-164 | reads the messages in order, with handlers pushing events and ending between them, up to the last one or to the one whose lookup raises, and keeps the session invariant |
| SessionObject.Session.Run | src/phomemo/src/phomemo/bridge/session.py:117-134 | over any messages: refused exactly while another session is active; else it leaves with nothing pending and the flag released, every request read answered once except one whose lookup raised, and every event before its reply |
| ClientRuns.NextKeeps | src/phomemo/src/phomemo/bridge/client.py:79-108 | every step keeps: the outstanding request, and no other, is in flight, handled, or answered but unread |
| ClientRuns.RepliesMatch | src/phomemo/src/phomemo/bridge/client.py:79-108 | over every interleaving of calls, aborts at any time and server steps, each call returns the reply to its own request, never an acknowledgement and never "busy" |
| ClientRuns.RepliesTell | src/phomemo/src/phomemo/bridge/client.py:79-111 | over every interleaving: what a call returns reads as ok exactly if the handler of its request returned, and as unknown exactly if no handler ran for it |
| ClientRuns.EveryCallIsKnown | src/phomemo/src/phomemo/bridge/client.py:113-260 | no call the client offers is answered as unknown |
| ClientRuns.CallsTellOutcome | src/phomemo/src/phomemo/bridge/client.py:79-260 | each of the client's calls succeeds exactly if its handler returned, and fails exactly if it raised |
| ClientRuns.TakeKeeps | src/printer-app/bridge.c:344-373 | the message `reply` returns is the reply to the outstanding request, wherever abort acknowledgements fall |
| PageSession.BeginSpec | src/phomemo/src/phomemo/bridge/session.py:535-578 | accepted if and only if every check passes, the media length included; and then width, rows, bits, rotation and media length are the request's own, rows are whole bytes, and each accepted name gives its tone and density |
| PageSession.Pages.PageBegin | src/phomemo/src/phomemo/bridge/session.py:535-578 | an accepted request starts an empty page, a refused one changes nothing |
| PageSession.Pages.Lines | src/phomemo/src/phomemo/bridge/session.py:580-597 | takes the rows whole exactly if size and count fit, else changes nothing; data length stays rows times row bytes and rows within the declared number |
| RasterJob.Job.FlushRows | src/printer-app/job.c:145-169 | the buffered rows arrive at the session as they were, or the job is marked failed |
| RasterJob.Job.WriteLine | src/printer-app/job.c:279-294 | rows at the session and rows in the 64-row buffer are together, in order, the rows written; a full buffer fails exactly for the limits of the wire or excess rows |
| RasterJob.Job.EndPage | src/printer-app/job.c:296-325 | what reaches the completeness check is exactly the rows written |
| RasterJob.DeliverPage | src/printer-app/job.c:279-325 | with any encoder and decoder meeting the laws, a page is accepted if and only if it has the announced rows and each of its messages keeps to the limits of the wire, and then the session holds exactly its rows in order |
| RasterJob.AnnouncedRowBytes | src/printer-app/job.c:249-252 | the announced width gives the session the job's own row size |
| RasterJob.RequestPage | src/phomemo/src/phomemo/bridge/session.py:535-608 | from the request on: a page that was begun is accepted if and only if as many rows follow as the request declared and its messages keep to the limits of the wire |
| RasterJob.WideRowsIff | src/printer-app/job.c:279-294 | with messages whose text is short, a page of 64 rows or more keeps to the limits of the wire if and only if its rows have at most 262144 bytes |
| RasterJob.SendImage | src/phomemo/src/phomemo/bridge/client.py:297-302 | the client's row split accumulates to the raw image |
| PageHistory.EveryHistory | src/phomemo/src/phomemo/bridge/session.py:623-657 | every possible history of world and program keeps what is known about sheets: evidence since the last attempt means a clean sheet |
| PageHistory.NoSheetTwice | src/phomemo/src/phomemo/bridge/session.py:628-652 | in every possible history an attempt before which, since the last, the sensor said the paper was gone or an eject saw it leave has no sheet under the head that an earlier attempt of the page had |
| PageHistory.FreshSheetIff | src/phomemo/src/phomemo/bridge/session.py:685-732 | with a used sheet in the printer, what the program has seen rules out a used sheet in every history that looks the same if and only if it has seen the paper gone |
| PageHistory.ActAt | src/phomemo/src/phomemo/bridge/session.py:623-657 | every act recorded was one possible step of the history, with exactly the earlier acts before it |
| PageHistory.SeenAt | src/phomemo/src/phomemo/bridge/session.py:685-732 | everything a wait or an eject has seen was seen in the scene of that moment |
| PageHead.RunPrepends | docs/m08f-protocol-reference.md:221-248 | what the parser reads does not depend on what it has read before |
| PageHead.QuerySwallowed | docs/m08f-protocol-reference.md:221-248 | a query sent while the parser is inside a command is not read as a query |
| PageHead.HeadOverHistory | src/phomemo/src/phomemo/bridge/session.py:623-657 | over every possible history one parser reads all writes; while the attempts keep it in sync and a short sheet is followed by a reconnect, it is at ground whenever the link is up between attempts, having read exactly what was sent since the last |
| Reprint.AnsweredLookIsEvidence | src/phomemo/src/phomemo/bridge/session.py:723-731 | an answered first look and an eject that succeeded with its own question answered are such evidence |
| Reprint.AttemptsOnFreshSheets | src/phomemo/src/phomemo/bridge/session.py:623-657 | over every run in every possible history, an attempt before which the look was answered, and a sheet found was ejected with the eject's own question answered, shares no sheet with an earlier attempt |
| Reprint.EveryWaitLooks | src/phomemo/src/phomemo/bridge/session.py:685-732 | before every later attempt there is such a look, directly after the lid closed, and the last thing seen is a check that found the printer ready |
| Reprint.AttemptsBeginOnASheet | src/phomemo/src/phomemo/bridge/session.py:685-732 | in every possible history, since the attempt before and before each later one the lid was closed when it was last asked for, over a link, and a sheet lay under the sensor when the paper was |
| Reprint.AttemptReads | src/phomemo/src/phomemo/bridge/session.py:661-683 | what a parser at ground reads of an attempt: of a printed one the page and the lid query; an interrupted one leaves it at ground if a chunk holds the prefix and the page has a row |
| Reprint.PrintedUnderClosedLid | src/phomemo/src/phomemo/printer.py:975-987 | in every possible history, an attempt counts as printed, and a page as one impression, only behind a lid query answered closed, asked while the lid was closed |
| Reprint.AttemptsRepeatThePage | src/phomemo/src/phomemo/bridge/session.py:625-657 | over every run of the attempt loop: every attempt's writes are those of a run of `print_bitmap` on the one page, under some schedule of its flags and cut short only by a lost link, and each later attempt directly follows a completed wait |
| Reprint.EarlierWereInterrupted | src/phomemo/src/phomemo/bridge/session.py:625-657 | every attempt but the last was interrupted |
| Reprint.InterruptedWaits | src/phomemo/src/phomemo/bridge/session.py:640-654 | an attempt ended by an open lid or a lost link is followed directly by a wait, and that by another attempt exactly if it found a sheet |
| Reprint.ShortByAQuarter | src/phomemo/src/phomemo/bridge/session.py:628-633 | an attempt of the loop ends in the transfer for want of paper only with more than a quarter of the rows unsent |
| Reprint.SparedAQuarter | src/phomemo/src/phomemo/bridge/session.py:661-683 | and a page sent to its end went on past a paper-absent flag only with at most a quarter unsent |
| Reprint.CancelEjectsOnce | src/phomemo/src/phomemo/bridge/session.py:634-639 | a cancelled attempt is followed by the drain and exactly one eject and nothing else |
| Reprint.ImpressionIff | src/phomemo/src/phomemo/bridge/session.py:625-657 | one impression is reported if and only if the last attempt printed and the eject after it did not raise |
| Reprint.ReplyIff | src/phomemo/src/phomemo/bridge/session.py:625-657 | which end of a run each reply stands for: cancelled exactly after a cancelled wait or a cancelled attempt, connection lost exactly after an attempt that timed out, and no other error but the internal one |
| Reprint.PrintedButReportedFailed | src/phomemo/src/phomemo/bridge/session.py:655-657 | the run that shows a printed page reported as failed |
| Reprint.ShortSheetSurvivedIff | src/phomemo/src/phomemo/bridge/session.py:628-633 | a short sheet is followed by a wait if and only if the reconnect after it succeeded; otherwise the page ends there with an error |
| PagePaper.LogIsSteady | src/phomemo/src/phomemo/bridge/session.py:628-633 | in every run the attempts keep the parser in sync and a short sheet is followed by a reconnect before anything else is sent |
| PagePaper.AttemptsBeginInSync | src/phomemo/src/phomemo/bridge/session.py:623-657 | over every run in every possible history, with a chunk that holds the prefix and at least one row: the parser is at ground as each attempt over a link begins, and since the last attempt it has read exactly the queries, feeds and timer settings sent, whole |
| PagePaper.AnswersWereAsked | src/phomemo/src/phomemo/printer.py:508-560 | an answer about lid or paper comes only behind that very question, read whole from ground |
| PagePaper.SyncKeptIff | src/phomemo/src/phomemo/printer.py:812-829 | for a page with rows, every attempt ended by an open lid leaves the parser at ground if and only if a chunk holds the prefix |
| PagePaper.ImpressionIsOnPaper | src/phomemo/src/phomemo/bridge/session.py:625-657 | one impression is reported, at the first try or with a chunk that holds the prefix and at least one row, only if the parser, at ground as the last attempt began, has since read the commands of the page, whole, the lid query, and what the last eject sent, and nothing else |
| BlindEject.BlindEjectReprints | src/phomemo/src/phomemo/printer.py:422-427 | for every page, a run in a possible history, reported as one impression, whose look was answered and whose eject reported success, and which printed twice on one sheet because the eject's own question went unanswered |
| PageEnd.World.EjectPaper | src/phomemo/src/phomemo/printer.py:383-454 | watches for the paper-absent event from before its own question; without a sheet or an answer it feeds three times blind and reports success; with a sheet it feeds step by step, at most 64 times, and succeeds exactly when the event has come, after one more feed |
| PageEnd.World.FeedUntilGone | src/phomemo/src/phomemo/printer.py:430-452 | the number and size of the feeds for each way it ends |
| Reprint.FeedsInNumbers | src/phomemo/src/phomemo/printer.py:383-454 | the feeds in dots: blind three of 160; of a sheet steps of 120, 64 of them if it stays, and 160 once it has gone |
| PageEnd.World.ConnectOnce | src/phomemo/src/phomemo/bridge/server.py:219-258 | one attempt to connect; over a new connection, and no other, the serial query, if anything, then the timer query, and only behind that a reset and the timer, each one whole write, with what follows a lost link left out |
| PageEnd.World.CheckReady | src/phomemo/src/phomemo/printer.py:651-680 | ready exactly behind a lid answered closed and a paper answered present, without paper exactly behind closed and absent, open exactly behind a lid answered open, mute exactly behind a question unanswered; and then lid and sheet are as reported |
| PageEnd.World.WaitForReady | src/phomemo/src/phomemo/printer.py:696-746 | seated only with a lid answered closed, a paper answered present and that check as the last three things seen; reconnects at most once, and without settling exactly at the third mute check in a row |
| PageEnd.World.WaitReady | src/phomemo/src/phomemo/bridge/session.py:453-508 | ends only ready (after such a check) or cancelled, through any sequence of dropped links and mute printers; a cancel already requested ends it with nothing asked; reconnects at every third mute check in a row |
| PageEnd.World.WaitForLid | src/phomemo/src/phomemo/bridge/session.py:704-721 | asks for nothing but the lid; reconnects at the third silence in a row; that has failed if and only if the wait ends without a client, or was cancelled or cut while there was none |
| PageEnd.World.FindFreshSheet | src/phomemo/src/phomemo/bridge/session.py:685-732 | ends with a sheet only after a first look directly behind the closed lid, an eject directly behind a sheet found there, and a last check that found the printer ready |
| PageEnd.World.PrintAttempt | src/phomemo/src/phomemo/bridge/session.py:661-683 | runs `print_bitmap` over the one transport: the attempt it adds begins with the head as it was, carries exactly what was written, and is a run on the page |
| PageEnd.AllAccountedFor | src/phomemo/src/phomemo/bridge/session.py:623-657 | between acts the transport has been given the writes of all acts in order, those of attempts and those of queries, feeds and greetings, and nothing else |
| PageEnd.OneRound | src/phomemo/src/phomemo/bridge/session.py:625-657 | one turn of the loop adds one attempt and what belongs behind its outcome, and decides between a reply and another attempt |
| PageEnd.Prepare | src/phomemo/src/phomemo/bridge/session.py:614-622 | the job made of a received page: its settings, its height, its dots and, of an untouched page, exactly the received bytes; none exactly if nothing of the page is printable |
| PageEnd.Attempts | src/phomemo/src/phomemo/bridge/session.py:623-657 | the attempt loop performs a run of the specified acts in a possible history, whose writes, with those of its queries, feeds and greetings, are exactly what the transport was given |
| PageEnd.EndPage | src/phomemo/src/phomemo/bridge/session.py:599-659 | each refused page_end keeps the page and does nothing; every other exit clears it; what is done is a run over the one job made of the page, and all its writes are accounted for |
| PageEnd.SheetsApart | src/phomemo/src/phomemo/bridge/session.py:599-659 | the fresh-sheet result holds of every state `EndPage` can leave |
| WholePage.PaperCarriesBitmap | src/phomemo/src/phomemo/printer.py:752-797 | the dots of a page on paper are its bitmap, whatever the settings and the query behind it |
| WholePage.ImpressionCarriesBitmap | src/phomemo/src/phomemo/bridge/session.py:625-657 | of a page reported as one impression, at the first try or with a chunk that holds the prefix and at least one row, the last attempt has put exactly the bitmap on paper |
| WholePage.PrintPage | src/phomemo/src/phomemo/bridge/session.py:535-659 | from the request and the driver's first row to the reply: accepted exactly with the rows declared and messages that fit; reported as one impression only behind a lid query answered closed and with its dots on paper, each black exactly where the rows written, turned, centred, cut to the sheet and toned, are black (all pages but gray ones under diffusion) |
| WholePage.FinishPage | src/phomemo/src/phomemo/bridge/session.py:599-659 | the same from the last row on, for a page whose rows have all been received |
| PageGeometry.RoundIsNearest | src/phomemo/src/phomemo/registry.py:177-180 | lead rows are the nearest integer, a tie to the even one |
| PageGeometry.InchOfDots | src/phomemo/src/phomemo/registry.py:150-180 | 25.4 mm are as many dots as the resolution says |
| PageGeometry.RowsFitBetweenMargins | src/phomemo/src/phomemo/registry.py:150-180 | the rows fit between the margins, one more would not, and lead plus rows end at most half a row beyond the bottom margin |
| PageGeometry.Rotate90 | src/phomemo/src/phomemo/imaging.py:257-258 | a quarter turn counter-clockwise, pixel by pixel |
| PageGeometry.TopEdgeGoesLeft | src/phomemo/src/phomemo/imaging.py:257-258 | the top edge becomes the left one, its right end on top |
| PageGeometry.FitAcross | src/phomemo/src/phomemo/imaging.py:257-266 | each pixel of the fitted page is the turned source pixel under the centring or cropping map, or white beside it |
| PageGeometry.Centred | src/phomemo/src/phomemo/imaging.py:259-266 | a page narrower than the head stands in its middle, at most one dot off, and a wider one is cut on the right |
| PageGeometry.ApplyTone | src/phomemo/src/phomemo/imaging.py:212-227 | threshold and ordered output pixel by pixel, from the threshold image and a clipped subtraction |
| PageGeometry.ThresholdHalves | src/phomemo/src/phomemo/imaging.py:212-227 | the threshold is monotone and turns with the inverse of the gray |
| PageGeometry.PreparePage | src/phomemo/src/phomemo/imaging.py:230-278 | for all sizes, turned or not: which error is raised when, the output size, and each threshold, ordered or 1-bit pixel as the toned source pixel under the whole map |
| PageGeometry.PageTone | src/phomemo/src/phomemo/imaging.py:201-227 | on the prepared page any 8x8 window over a uniform gray v holds floor((v+1)/4) white pixels |
| Dither.OneOfEachRank | src/phomemo/src/phomemo/imaging.py:39-49 | the matrix holds every rank once |
| Dither.BayerPairs | src/phomemo/src/phomemo/imaging.py:39-49 | of every 2x2 cell the ranks follow each other in the diagonal order of the recursion |
| Dither.BayerQuads | src/phomemo/src/phomemo/imaging.py:39-49 | and so do the cells within each quarter and the quarters |
| Dither.BlockAnywhere | src/phomemo/src/phomemo/imaging.py:201-209 | a pattern of period eight shows every 8x8 window the same number of white pixels, aligned or not |
| Dither.AlignedTone | src/phomemo/src/phomemo/imaging.py:39-49 | the aligned window of a gray v has floor((v+1)/4) white pixels |
| Dither.WindowTone | src/phomemo/src/phomemo/imaging.py:201-223 | so has any window over a uniform gray v, for every picture |
| Dither.BayerTile | src/phomemo/src/phomemo/imaging.py:201-209 | pasting tiles row by row gives the periodic threshold at every pixel, edges included |
| PageBitmap.PackUnpacked | src/phomemo/src/phomemo/bridge/session.py:73-78 | a byte is recovered from its eight bits |
| PageBitmap.UnpackPacked | src/phomemo/src/phomemo/imaging.py:188-198 | eight pixels are recovered from their byte, leftmost in the highest bit |
| PageBitmap.LeftmostIsHighest | src/phomemo/src/phomemo/bridge/session.py:73-78 | the leftmost pixel of a byte is its highest bit, the rightmost its lowest |
| PageBitmap.BitmapBits | src/phomemo/src/phomemo/imaging.py:188-198 | every pixel of an image is one bit of its bitmap, set exactly for black |
| PageBitmap.ImageToBitmap | src/phomemo/src/phomemo/imaging.py:167-198 | packs the rows, or refuses a width that is not a multiple of eight |
| PageBitmap.PageImage | src/phomemo/src/phomemo/bridge/session.py:73-78 | received bytes as pixels in both depths |
| PageBitmap.PassThrough | src/phomemo/src/phomemo/imaging.py:230-278 | an unrotated 1-bit page of head width comes out as an exact slice of the received bytes |
| PageBitmap.BitmapShows | src/phomemo/src/phomemo/imaging.py:167-278 | for every size, depth, turn, tone but diffusion, margin and sheet: each dot of the bitmap is set exactly where an independent definition of the printed page, written on the received bytes, has it black |
| PageBitmap.PageToBitmap | src/phomemo/src/phomemo/bridge/session.py:614-622 | when preparing a page fails, the bitmap's exact height, each of its dots as that definition has it, and the exact slice in the untouched case |
| Events.ParseNotification | src/phomemo/src/phomemo/events.py:232-288 | the loop computes the specified events |
| Events.LongestPrefix | src/phomemo/src/phomemo/events.py:268-281 | the events are those of the longest well-formed prefix, one a triple, in order |
| Events.RawsConcatenate | src/phomemo/src/phomemo/events.py:268-281 | their raw bytes concatenate back to that prefix |
| Events.BatchDistributes | src/phomemo/src/phomemo/events.py:268-281 | batches parse independently at event boundaries |
| Events.ParseDistributesIff | src/phomemo/src/phomemo/events.py:248-288 | parsing distributes over two notifications joined at an event boundary if and only if one is empty or neither the joined one nor the second is a firmware or ASCII serial answer |
| QueryAnswers.QuestionAnswered | src/phomemo/src/phomemo/printer.py:508-600 | each question of the program is read by the printer as one query, and the answer the protocol reference gives it is one event, of the class the program waits for, that says what is so of lid, paper, battery, firmware, serial or timer |
| QueryAnswers.ReportsAreRead | docs/m08f-protocol-reference.md:382-408 | what the printer reports by itself is read as the reference says |
| Dispatch.ServedInOrder | src/phomemo/src/phomemo/printer.py:241-260 | over any sequence of registrations, departures and events: no event completes two waiters, and waiters of one class complete in registration order by events of that class in arrival order |
| Dispatch.EventServesIff | src/phomemo/src/phomemo/printer.py:257-260 | an event completes a waiter if and only if one waits for its class |
| Dispatch.FirstIsOldest | src/phomemo/src/phomemo/printer.py:257-260 | the waiter served is the oldest still waiting for its class |
| Dispatch.EveryRun | src/phomemo/src/phomemo/printer.py:241-260 | every run keeps the order of waiters and completions |
| Dispatch.EveryCallbackHears | src/phomemo/src/phomemo/printer.py:239-256 | over any run, with callbacks joining and leaving, a callback has heard an event if and only if it was registered when the event came |
| Dispatch.ListenersStep | src/phomemo/src/phomemo/printer.py:239-256 | a callback is registered exactly if it has joined and not left since |
| Dispatch.Router.Dispatch | src/phomemo/src/phomemo/printer.py:241-260 | every callback hears the event, and the specified waiter is completed |
| Dispatch.Router.Register | src/phomemo/src/phomemo/printer.py:497-500 | a waiter joins at the end of the list |
| Dispatch.Router.Unlisten | src/phomemo/src/phomemo/printer.py:454-454 | the first entry of the callback leaves the list |
| DeviceUri.AddressRoundTripIff | src/printer-app/device.c:57-71 | the address in a formatted URI is the one put in if and only if it is not empty, fits, and holds no delimiter and no dash |
| DeviceUri.ModelRoundTripIff | src/printer-app/models.c:295-311 | with an address free of `?`, the model in a formatted URI is the one put in if and only if it is not empty, fits, and holds no `&` or `#` |
| DeviceUri.CutAddressReadsBackIff | src/printer-app/device.c:91-102 | from a buffer too short for the URI the address comes back if and only if, besides, the cut spares it |
| DeviceUri.CutModelReadsBackIff | src/printer-app/device.c:91-102 | the model comes back if and only if, besides, nothing was cut |
| DeviceUri.LastModelCountsIff | src/printer-app/models.c:295-311 | of several models named the last one counts: one appended to any query is the one read if and only if it is not empty, fits, and holds no `&` or `#` |
| DeviceUri.FormatUri | src/printer-app/device.c:91-102 | the buffer holds the URI, cut to its size |
| DeviceUri.UriExample | src/printer-app/device.c:91-102 | the URI of one address and model, letter by letter |
| DeviceUri.ParseAddress | src/printer-app/device.c:57-71 | true exactly for a URI with a fitting address, which the buffer then holds; else the buffer is untouched |
| DeviceUri.UriModel | src/printer-app/models.c:295-311 | true exactly if a fitting model is named, the last one named counting; else the buffer is untouched |
| OneConnection.Bridge.NewPrinter | src/phomemo/src/phomemo/bridge/server.py:260-282 | a named model needs no scan; else the first device at the address, or the only one in range, with its own model; else which of the three errors |
| OneConnection.UpperIgnoresCase | src/phomemo/src/phomemo/bridge/server.py:260-282 | addresses are compared without regard to case and by nothing else |
| OneConnection.Bridge.RefineModel | src/phomemo/src/phomemo/bridge/server.py:284-323 | a model named by the client stays; a replaced printer object is disconnected first |
| OneConnection.Bridge.Connect | src/phomemo/src/phomemo/bridge/server.py:219-258 | keeps at most one held printer connected, and on success it is the one asked for |
| OneConnection.Serve | src/phomemo/src/phomemo/bridge/server.py:219-352 | over every history of calls, each answered in turn, no two printers the bridge has held are connected, and a connected one is the one it knows |

## Left out

- Bluetooth, sockets, `poll` and its one-second ticks, `EINTR`, PAPPL, CUPS and the file system: only the
  contracts their callers rely on appear.
- cJSON and Python's json: an abstract encoder and decoder; apart from the case of a member's name, differences
  in their treatment of duplicate keys, number syntax or invalid UTF-8 are not modelled.
- The reply to a malformed message, which names no request, and the cancellation of a session's
  coroutine; a malformed message ends the loop as the end of the stream does.
- The refusal written to a second client while a session is active, beyond its never being admitted.
- The reply of a handler and the clearing of the pending command are one step; the event loop runs the
  second right after the first.
- Wall-clock time: timeouts and deadlines are choices, and the idle timer is only armed or not.
- Error diffusion (Pillow): only the size of its result and that it is black and white.
- Floating point: margins, percentages and fractions are exact reals and integers here.
- Image resizing, the test page, the command line, discovery patterns, model manifests, IPP options.
- `discover` and its brief probe connections; `remember` and the values last seen.
- The printer object an attempt loop holds is the bridge's; a model refined to other connection settings
  in the middle of a page, which replaces that object, is not modelled.
- A short sheet's rest beyond the sensor counts as gone, as the sensor reports it.
- Events `waiting` and their reasons; at most one is pushed per change of state.
- `abort_if_cancelled` sends one abort a page; the abort itself is a step of `ClientRuns`.
- Any claim that a query's answer is never missed: the waiter registers after the write returns.
- PageGeometry.ApplyTone: says nothing of the pixels of error diffusion, which Pillow computes; nor then do
  `PageBitmap.BitmapShows` and `WholePage.PrintPage` of a gray page under diffusion.
- OneConnection.Bridge.Connect: a named model is promised only for a printer object created for it or
  marked as named by the client, as in the source.
- ClientRuns.RepliesMatch: covers a client that awaits each reply; `BridgeClient.abort` awaited on its own
  never returns and is not a step.
- Transfer.PaddingSufficesIff: takes a page of at least one row, since `_pad_band` pads nothing without a band;
  for a page without rows `Transfer.HeadAfterTransfer` has the condition on the stop.
- PrinterClient.Printer.PrintBitmap: takes writes that hold the three bytes of a query; `write` refuses longer data
  with a ValueError.
- PageEnd.World.PrintAttempt: takes a connection whose writes hold four bytes, for the same reason; the smallest
  Bluetooth LE connections hold twenty.
- PagePaper.ImpressionIsOnPaper: takes a chunk that holds the prefix and a page with a row, or a page printed at the
  first try; without them an earlier attempt can leave the parser inside a command.
- WholePage.PrintPage: promises the dots on paper under the same condition.
- QueryAnswers.QuestionAnswered: takes a serial of at least two bytes; a shorter answer is not taken for a serial.
